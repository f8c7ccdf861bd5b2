/** Disconnectors and circuit breakers (`LNs/XSWI.c`, `LNs/XCBR.c`): blocking inputs and the
    commands handed to whatever drives the switch. A breaker uses the same structure. */
module Switchgear {
  import opened Mms

  /** `armed` says that a drive callback has been registered. */
  datatype State = State(blkOpn: bool, blkCls: bool, loc: bool, armed: bool)

  const INITIAL := State(false, false, false, false)

  /** Whether a command to close (or to open) is handed to the drive. */
  predicate Passes(s: State, close: bool) {
    s.armed && !(if close then s.blkCls else s.blkOpn)
  }

  class XSWI {
    var BlkOpn: bool
    var BlkCls: bool
    var Loc: bool
    var hasCallback: bool

    ghost function Value(): State
      reads this
    {
      State(BlkOpn, BlkCls, Loc, hasCallback)
    }

    constructor ()
      ensures Value() == INITIAL
    {
      BlkOpn, BlkCls, Loc, hasCallback := false, false, false, false;
    }

    /** setXSWI_Callback: refused if there is one already. */
    method SetCallback() returns (error: bool)
      modifies this
      ensures Value() == old(Value()).(armed := true)
      ensures error == old(hasCallback)
    {
      if hasCallback {
        return true;
      }
      hasCallback := true;
      return false;
    }

    /** `published` is what BlkOpn.stVal is set to. */
    method EnaOpnCallback(value: bool) returns (published: bool)
      modifies this
      ensures Value() == old(Value()).(blkOpn := !value) && published == !value
    {
      BlkOpn := !value;
      published := BlkOpn;
    }

    /** `published` is what BlkCls.stVal is set to. */
    method EnaClsCallback(value: bool) returns (published: bool)
      modifies this
      ensures Value() == old(Value()).(blkCls := !value) && published == !value
    {
      BlkCls := !value;
      published := BlkCls;
    }

    /** `published` is what Loc.stVal is set to. */
    method LocCallback(value: bool) returns (published: bool)
      modifies this
      ensures Value() == old(Value()).(loc := value) && published == value
    {
      Loc := value;
      published := value;
    }

    /** XSWI_Opn; `drive` is the argument given to the drive callback, if it is called. */
    method Opn() returns (drive: Option<bool>)
      ensures drive == if Passes(Value(), false) then Some(false) else None
      ensures drive == if hasCallback && !BlkOpn then Some(false) else None
    {
      if !hasCallback {
        return None;
      }
      if BlkOpn {
        return None;
      }
      return Some(false);
    }

    method Cls() returns (drive: Option<bool>)
      ensures drive == if Passes(Value(), true) then Some(true) else None
      ensures drive == if hasCallback && !BlkCls then Some(true) else None
    {
      if !hasCallback {
        return None;
      }
      if BlkCls {
        return None;
      }
      return Some(true);
    }

    /** XSWI_callback_Opn, XSWI_callback_Cls, XCBR_callback_OpOpn and XCBR_callback_OpCls: only a
        raised signal is a command. */
    method OperateCallback(close: bool, state: bool) returns (drive: Option<bool>)
      ensures drive == if state && Passes(Value(), close) then Some(close) else None
      ensures drive == if state && hasCallback && !(if close then BlkCls else BlkOpn) then Some(close) else None
    {
      drive := None;
      if state {
        if close {
          drive := Cls();
        } else {
          drive := Opn();
        }
      }
    }

    /** XCBR_callback_Tr: a trip is not subject to blocking. */
    method TripCallback(state: bool) returns (drive: Option<bool>)
      ensures drive == if state && hasCallback then Some(false) else None
    {
      if !hasCallback {
        return None;
      }
      if state {
        return Some(false);
      }
      return None;
    }
  }

  /** The node of the local/remote key (`LNs/LLN0.c`). */
  class LLN0 {
    var Loc: bool

    constructor ()
      ensures !Loc
    {
      Loc := false;
    }

    method GetLoc() returns (local: bool)
      ensures local == Loc
    {
      return Loc;
    }

    /** LLN0_SetLoc: the new state is published, changed or not, before it is kept. */
    method SetLoc(local: bool) returns (published: bool)
      modifies this
      ensures Loc == local && published == local
    {
      published := local;
      Loc := local;
    }
  }
}
