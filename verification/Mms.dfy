/** The few MMS values the logical nodes exchange. */
module Mms {

  /** Double-point position of a switch (`DBPOS_INTERMEDIATE_STATE` is 0, the initial value). */
  datatype Dbpos = Intermediate | Off | On | Bad

  datatype MmsValue = Boolean(value: bool) | BitString(pos: Dbpos) | OtherType

  datatype Option<+T> = None | Some(value: T)

  /** The position a command drives the switch to: true is closed (conducting). */
  function Target(close: bool): Dbpos {
    if close then On else Off
  }
}
