/** The time-overcurrent protection (`LNs/PTOC.c`): an integrator per phase whose rate follows the
    IEC standard inverse curve, clamped between the minimum and maximum operate times.

    Currents and times are reals; `powf` is any function with the two properties below. */
module TimeOvercurrent {
  import opened Mms

  /** What is used of M -> powf(M, 0.02): above 1 and increasing from 1.01 on. */
  ghost predicate PowerLaw(powf: real -> real) {
    && powf(1.01) > 1.0
    && (forall x, y :: 1.01 <= x <= y ==> powf(x) <= powf(y))
  }

  /** The settings PTOC_init accepts are positive; StrVal is kept apart since it can be written. */
  datatype Settings = Settings(TmMult: real, MinOpTmms: real, MaxOpTmms: real, OpDlTmms: real, RsDlTmms: real,
                               powf: real -> real) {
    ghost predicate Valid() {
      && TmMult > 0.0 && MinOpTmms > 0.0 && MaxOpTmms > 0.0 && OpDlTmms > 0.0 && RsDlTmms > 0.0
      && PowerLaw(powf)
    }
  }

  datatype Result = NoChange | Trip | TripReset

  datatype Channel = Channel(progress: real, resetTimer: real)

  const IDLE := Channel(0.0, 0.0)

  /** One call of the algorithm on a channel; StrVal may have been rewritten before it. */
  datatype Sample = Sample(I: real, dt: real, StrVal: real) {
    predicate Valid() { dt >= 0.0 && StrVal >= 0.0 }
    predicate OverPickup() { I > StrVal }
  }

  /** A zero threshold makes the quotient of floats infinite, and the curve time zero. */
  function CurveSeconds(s: Settings, x: Sample): real
    requires s.Valid() && x.Valid() && x.OverPickup()
  {
    if x.StrVal == 0.0 then 0.0
    else
      var q := x.I / x.StrVal;
      var M := if q < 1.01 then 1.01 else q;
      assert s.powf(1.01) <= s.powf(M);
      s.TmMult * (0.14 / (s.powf(M) - 1.0))
  }

  function OperateMs(s: Settings, x: Sample): real
    requires s.Valid() && x.Valid() && x.OverPickup()
  {
    var t := CurveSeconds(s, x) * 1000.0 + s.OpDlTmms;
    var u := if t < s.MinOpTmms then s.MinOpTmms else t;
    if u > s.MaxOpTmms then s.MaxOpTmms else u
  }

  function Shortest(s: Settings): real {
    if s.MinOpTmms < s.MaxOpTmms then s.MinOpTmms else s.MaxOpTmms
  }

  /** The integrator, for whatever operate time the curve gave. */
  function Integrate(rs: real, c: Channel, x: Sample, operateMs: real): (r: (Channel, Result))
    requires x.Valid() && operateMs > 0.0
  {
    if x.OverPickup() then
      var c' := Channel(c.progress + x.dt / operateMs, 0.0);
      (c', if c'.progress >= 1.0 then Trip else NoChange)
    else if c.resetTimer + x.dt >= rs then (IDLE, TripReset)
    else (c.(resetTimer := c.resetTimer + x.dt), NoChange)
  }

  /** PTOC_Update_algorithm on one channel. */
  function Update(s: Settings, c: Channel, x: Sample): (r: (Channel, Result))
    requires s.Valid() && x.Valid()
  {
    Integrate(s.RsDlTmms, c, x, Time(s, x))
  }

  /** The operate time of a sample; of no consequence below pickup. */
  function Time(s: Settings, x: Sample): (t: real)
    requires s.Valid() && x.Valid()
    ensures 0.0 < Shortest(s) <= t <= s.MaxOpTmms
  {
    if x.OverPickup() then OperateMs(s, x) else s.MaxOpTmms
  }

  // ---- The operate time and the curve ----

  /** Where a time lies against the delayed curve: above 0 behind it, below 0 before it. The curve time
      in milliseconds, times the power of M less 1, is 140 times the multiplier; it is 0 for a zero
      threshold. */
  ghost function Against(s: Settings, x: Sample, t: real): real {
    if x.StrVal > 0.0 then
      var M := if x.I < 1.01 * x.StrVal then 1.01 else x.I / x.StrVal;
      (t - s.OpDlTmms) * (s.powf(M) - 1.0) - 140.0 * s.TmMult
    else t - s.OpDlTmms
  }

  /** The time on the curve if that is between the limits, the minimum if the curve is not behind it,
      and the maximum if the curve is not before it or the limits are crossed. */
  ghost predicate OnCurve(s: Settings, x: Sample, t: real) {
    && Shortest(s) <= t <= s.MaxOpTmms
    && (s.MinOpTmms < t < s.MaxOpTmms ==> Against(s, x, t) == 0.0)
    && (t == s.MaxOpTmms <==> s.MaxOpTmms <= s.MinOpTmms || Against(s, x, s.MaxOpTmms) <= 0.0)
    && (s.MinOpTmms < s.MaxOpTmms ==> (t == s.MinOpTmms <==> Against(s, x, s.MinOpTmms) >= 0.0))
  }

  lemma CurveProduct(k: real, g: real)
    requires g > 0.0
    ensures k * (0.14 / g) * 1000.0 * g == 140.0 * k
  {
    assert (0.14 / g) * g == 0.14;
  }

  lemma ProductOrder(a: real, g: real)
    requires g > 0.0
    ensures a * g <= 0.0 <==> a <= 0.0
    ensures a * g >= 0.0 <==> a >= 0.0
  {
  }

  /** Against the curve as the code computes it. */
  lemma AgainstCurve(s: Settings, x: Sample, t: real)
    requires s.Valid() && x.Valid() && x.OverPickup()
    ensures var unlimited := CurveSeconds(s, x) * 1000.0 + s.OpDlTmms;
            && (Against(s, x, t) <= 0.0 <==> t <= unlimited)
            && (Against(s, x, t) >= 0.0 <==> t >= unlimited)
  {
    if x.StrVal > 0.0 {
      var q := x.I / x.StrVal;
      assert q < 1.01 <==> x.I < 1.01 * x.StrVal by {
        QuotientBelow(x.I, x.StrVal);
      }
      var M := if q < 1.01 then 1.01 else q;
      assert s.powf(1.01) <= s.powf(M);
      var g, c := s.powf(M) - 1.0, CurveSeconds(s, x) * 1000.0;
      CurveProduct(s.TmMult, g);
      assert (t - s.OpDlTmms) * g - c * g == (t - s.OpDlTmms - c) * g;
      ProductOrder(t - s.OpDlTmms - c, g);
    }
  }

  lemma QuotientBelow(a: real, b: real)
    requires b > 0.0
    ensures a / b < 1.01 <==> a < 1.01 * b
  {
  }

  /** The operate time is the delayed curve within the limits. */
  lemma OperateTimeOnCurve(s: Settings, x: Sample)
    requires s.Valid() && x.Valid() && x.OverPickup()
    ensures OnCurve(s, x, OperateMs(s, x))
  {
    AgainstCurve(s, x, OperateMs(s, x));
    AgainstCurve(s, x, s.MinOpTmms);
    AgainstCurve(s, x, s.MaxOpTmms);
  }

  // ---- Whole traces ----

  ghost predicate ValidTrace(trace: seq<Sample>) {
    forall i :: 0 <= i < |trace| ==> trace[i].Valid()
  }

  function After(s: Settings, trace: seq<Sample>): Channel
    requires s.Valid() && ValidTrace(trace)
  {
    if trace == [] then IDLE else Update(s, After(s, trace[..|trace| - 1]), trace[|trace| - 1]).0
  }

  /** What the call for the last sample of a trace returns. */
  function Verdict(s: Settings, trace: seq<Sample>): Result
    requires s.Valid() && ValidTrace(trace) && trace != []
  {
    Update(s, After(s, trace[..|trace| - 1]), trace[|trace| - 1]).1
  }

  // ---- What one sample does to a trace ----

  /** Over pickup the progress grows by the share of a time t on the curve that has passed, and any
      reset under way is cancelled; the phase trips exactly once the whole time has passed. */
  lemma OverPickupStep(s: Settings, trace: seq<Sample>) returns (t: real)
    requires s.Valid() && ValidTrace(trace) && trace != [] && trace[|trace| - 1].I > trace[|trace| - 1].StrVal
    ensures t > 0.0 && OnCurve(s, trace[|trace| - 1], t)
    ensures var before := After(s, trace[..|trace| - 1]);
            After(s, trace) == Channel(before.progress + trace[|trace| - 1].dt / t, 0.0)
    ensures Verdict(s, trace) == if After(s, trace).progress >= 1.0 then Trip else NoChange
  {
    t := OverPickupUpdate(s, After(s, trace[..|trace| - 1]), trace[|trace| - 1]);
  }

  lemma OverPickupUpdate(s: Settings, c: Channel, x: Sample) returns (t: real)
    requires s.Valid() && x.Valid() && x.OverPickup()
    ensures t > 0.0 && OnCurve(s, x, t)
    ensures var (c', verdict) := Update(s, c, x);
            && c' == Channel(c.progress + x.dt / t, 0.0)
            && verdict == if c'.progress >= 1.0 then Trip else NoChange
  {
    t := Time(s, x);
    OperateTimeOnCurve(s, x);
  }

  function Duration(trace: seq<Sample>): real {
    if trace == [] then 0.0 else Duration(trace[..|trace| - 1]) + trace[|trace| - 1].dt
  }

  /** A stretch of samples that are not over pickup. */
  ghost predicate Quiet(stretch: seq<Sample>) {
    forall i :: 0 <= i < |stretch| ==> stretch[i].I <= stretch[i].StrVal
  }

  /** From a sample over pickup, a reset or the start on, while no sample is over pickup: the progress
      stands until RsDlTmms have passed, and then the phase is reset. */
  lemma {:induction false} QuietStretch(s: Settings, trace: seq<Sample>, stretch: seq<Sample>)
    requires s.Valid() && ValidTrace(trace) && ValidTrace(stretch) && Quiet(stretch)
    requires After(s, trace).resetTimer == 0.0
    requires stretch != [] && Duration(stretch[..|stretch| - 1]) < s.RsDlTmms
    ensures Duration(stretch) < s.RsDlTmms ==>
              && After(s, trace + stretch) == Channel(After(s, trace).progress, Duration(stretch))
              && Verdict(s, trace + stretch) == NoChange
    ensures Duration(stretch) >= s.RsDlTmms ==>
              After(s, trace + stretch) == IDLE && Verdict(s, trace + stretch) == TripReset
    decreases |stretch|
  {
    var n := |stretch| - 1;
    var init := stretch[..n];
    assert (trace + stretch)[..|trace + stretch| - 1] == trace + init;
    if n == 0 {
      assert trace + init == trace;
    } else {
      assert init[..n - 1] == stretch[..n - 1] && init[n - 1].dt >= 0.0;
      QuietStretch(s, trace, init);
    }
  }

  // ---- Dominance ----

  /** Same clock and thresholds, and b's current is at no time below a's. */
  ghost predicate Below(a: seq<Sample>, b: seq<Sample>) {
    && |a| == |b|
    && forall i :: 0 <= i < |a| ==> a[i].dt == b[i].dt && a[i].StrVal == b[i].StrVal && a[i].I <= b[i].I
  }

  lemma CurveIsAntitone(s: Settings, x: Sample, y: Sample)
    requires s.Valid() && x.Valid() && y.Valid() && x.OverPickup()
    requires x.StrVal == y.StrVal && x.I <= y.I
    ensures CurveSeconds(s, y) <= CurveSeconds(s, x)
  {
    if x.StrVal > 0.0 {
      DivideMonotone(x.I, y.I, x.StrVal);
      var qx, qy := x.I / x.StrVal, y.I / y.StrVal;
      var mx, my := if qx < 1.01 then 1.01 else qx, if qy < 1.01 then 1.01 else qy;
      assert s.powf(1.01) <= s.powf(mx) <= s.powf(my);
      QuotientAntitone(0.14, s.powf(mx) - 1.0, s.powf(my) - 1.0);
      ScaleMonotone(s.TmMult, 0.14 / (s.powf(my) - 1.0), 0.14 / (s.powf(mx) - 1.0));
    }
  }

  lemma LargerCurrentIsFaster(s: Settings, x: Sample, y: Sample)
    requires s.Valid() && x.Valid() && y.Valid() && x.OverPickup()
    requires x.dt == y.dt && x.StrVal == y.StrVal && x.I <= y.I
    ensures y.dt / OperateMs(s, y) >= x.dt / OperateMs(s, x) >= 0.0
  {
    assert Time(s, x) == OperateMs(s, x) && Time(s, y) == OperateMs(s, y);
    CurveIsAntitone(s, x, y);
    QuotientAntitone(x.dt, OperateMs(s, y), OperateMs(s, x));
  }

  lemma DivideMonotone(a: real, b: real, d: real)
    requires a <= b && d > 0.0
    ensures a / d <= b / d
  {
  }

  lemma ScaleMonotone(k: real, a: real, b: real)
    requires a <= b && k > 0.0
    ensures k * a <= k * b
  {
  }

  lemma QuotientAntitone(n: real, d: real, e: real)
    requires n >= 0.0 && 0.0 < d <= e
    ensures n / d >= n / e >= 0.0
  {
    var q := n / d;
    assert q >= 0.0 && q * d == n;
    ScaleAntitone(q, d, e);
    DivideMonotone(n, q * e, e);
    assert (q * e) / e == q;
  }

  lemma ScaleAntitone(k: real, a: real, b: real)
    requires a <= b && k >= 0.0
    ensures k * a <= k * b
  {
  }

  /** The simulation between the two channels. */
  ghost predicate Dominates(b: Channel, a: Channel) {
    && b.progress >= a.progress >= 0.0
    && a.resetTimer >= 0.0 && b.resetTimer >= 0.0
    && (a.progress == 0.0 || b.resetTimer <= a.resetTimer)
  }

  lemma DominanceStep(s: Settings, a: Channel, b: Channel, x: Sample, y: Sample)
    requires s.Valid() && x.Valid() && y.Valid() && Dominates(b, a)
    requires x.dt == y.dt && x.StrVal == y.StrVal && x.I <= y.I
    ensures Dominates(Update(s, b, y).0, Update(s, a, x).0)
    ensures Update(s, a, x).1 == Trip ==> Update(s, b, y).1 == Trip
  {
    if x.OverPickup() {
      LargerCurrentIsFaster(s, x, y);
    } else if y.OverPickup() {
      assert Time(s, y) == OperateMs(s, y);
      QuotientAntitone(y.dt, OperateMs(s, y), OperateMs(s, y));
    }
  }

  /** A larger current never has less progress, so it trips whenever the smaller one does. */
  lemma {:induction false} Dominance(s: Settings, a: seq<Sample>, b: seq<Sample>)
    requires s.Valid() && ValidTrace(a) && ValidTrace(b) && Below(a, b)
    ensures Dominates(After(s, b), After(s, a))
    ensures a != [] && Verdict(s, a) == Trip ==> Verdict(s, b) == Trip
  {
    if a == [] {
    } else {
      var n := |a| - 1;
      Dominance(s, a[..n], b[..n]);
      DominanceStep(s, After(s, a[..n]), After(s, b[..n]), a[n], b[n]);
    }
  }

  // ---- Operate-time bounds ----

  ghost predicate ValidTimes(trace: seq<Sample>, times: seq<real>) {
    ValidTrace(trace) && |times| == |trace| && forall i :: 0 <= i < |times| ==> times[i] > 0.0
  }

  /** The channel after a trace, for any operate times. */
  ghost function AfterTimed(rs: real, trace: seq<Sample>, times: seq<real>): Channel
    requires ValidTimes(trace, times)
  {
    if trace == [] then IDLE
    else
      var n := |trace| - 1;
      Integrate(rs, AfterTimed(rs, trace[..n], times[..n]), trace[n], times[n]).0
  }

  /** Time above the threshold since the channel was last reset, counted in a given unit. */
  ghost function OverPickup(rs: real, trace: seq<Sample>, times: seq<real>, unit: real): real
    requires ValidTimes(trace, times) && unit > 0.0
  {
    if trace == [] then 0.0
    else
      var n := |trace| - 1;
      var verdict := Integrate(rs, AfterTimed(rs, trace[..n], times[..n]), trace[n], times[n]).1;
      Tick(OverPickup(rs, trace[..n], times[..n], unit), verdict, trace[n], unit)
  }

  ghost function Tick(before: real, verdict: Result, x: Sample, unit: real): real
    requires unit > 0.0
  {
    if verdict == TripReset then 0.0
    else if x.OverPickup() then before + x.dt / unit
    else before
  }

  ghost function OverPickupMs(s: Settings, trace: seq<Sample>): real
    requires s.Valid() && ValidTrace(trace)
  {
    OverPickup(s.RsDlTmms, trace, Times(s, trace), 1.0)
  }

  /** The integrator runs between the clocks of the longest and the shortest operate time. */
  lemma {:induction false} ProgressBounds(rs: real, trace: seq<Sample>, times: seq<real>, lo: real, hi: real)
    requires ValidTimes(trace, times) && 0.0 < lo <= hi
    requires forall i :: 0 <= i < |times| ==> lo <= times[i] <= hi
    ensures OverPickup(rs, trace, times, hi) <= AfterTimed(rs, trace, times).progress <=
        OverPickup(rs, trace, times, lo)
  {
    if trace == [] {
    } else {
      var n := |trace| - 1;
      ProgressBounds(rs, trace[..n], times[..n], lo, hi);
      QuotientAntitone(trace[n].dt, lo, times[n]);
      QuotientAntitone(trace[n].dt, times[n], hi);
    }
  }

  lemma {:induction false} ChangeUnit(rs: real, trace: seq<Sample>, times: seq<real>, unit: real)
    requires ValidTimes(trace, times) && unit > 0.0
    ensures OverPickup(rs, trace, times, unit) == OverPickup(rs, trace, times, 1.0) / unit
  {
    if trace == [] {
    } else {
      var n := |trace| - 1;
      ChangeUnit(rs, trace[..n], times[..n], unit);
      var verdict := Integrate(rs, AfterTimed(rs, trace[..n], times[..n]), trace[n], times[n]).1;
      TickScales(OverPickup(rs, trace[..n], times[..n], unit), OverPickup(rs, trace[..n], times[..n], 1.0), verdict,
                 trace[n], unit);
    }
  }

  lemma TickScales(a: real, b: real, verdict: Result, x: Sample, unit: real)
    requires unit > 0.0 && a == b / unit
    ensures Tick(a, verdict, x, unit) == Tick(b, verdict, x, 1.0) / unit
  {
    assert (b + x.dt) / unit == b / unit + x.dt / unit;
  }

  ghost function Times(s: Settings, trace: seq<Sample>): (t: seq<real>)
    requires s.Valid() && ValidTrace(trace)
    ensures |t| == |trace|
    ensures forall i :: 0 <= i < |t| ==> t[i] == Time(s, trace[i])
  {
    seq(|trace|, i requires 0 <= i < |trace| => Time(s, trace[i]))
  }

  lemma {:induction false} AfterIsTimed(s: Settings, trace: seq<Sample>)
    requires s.Valid() && ValidTrace(trace)
    ensures After(s, trace) == AfterTimed(s.RsDlTmms, trace, Times(s, trace))
  {
    if trace == [] {
    } else {
      var n := |trace| - 1;
      AfterIsTimed(s, trace[..n]);
      assert Times(s, trace)[..n] == Times(s, trace[..n]);
    }
  }

  /** However the threshold is rewritten and whatever the curve says: no trip before the shorter
      of the two limits has been spent above pickup, always one at the longer. */
  lemma OperateTimeBounds(s: Settings, trace: seq<Sample>)
    requires s.Valid() && ValidTrace(trace) && trace != []
    ensures Verdict(s, trace) == Trip ==> OverPickupMs(s, trace) >= Shortest(s)
    ensures trace[|trace| - 1].OverPickup() && OverPickupMs(s, trace) >= s.MaxOpTmms ==> Verdict(s, trace) == Trip
  {
    AfterIsTimed(s, trace);
    var rs, times, lo, hi := s.RsDlTmms, Times(s, trace), Shortest(s), s.MaxOpTmms;
    ProgressBounds(rs, trace, times, lo, hi);
    WholeUnit(rs, trace, times, lo);
    WholeUnit(rs, trace, times, hi);
  }

  lemma WholeUnit(rs: real, trace: seq<Sample>, times: seq<real>, unit: real)
    requires ValidTimes(trace, times) && unit > 0.0
    ensures OverPickup(rs, trace, times, unit) >= 1.0 <==> OverPickup(rs, trace, times, 1.0) >= unit
  {
    ChangeUnit(rs, trace, times, unit);
    AtLeastOne(unit, OverPickup(rs, trace, times, unit), OverPickup(rs, trace, times, 1.0));
  }

  lemma AtLeastOne(unit: real, a: real, b: real)
    requires unit > 0.0 && a == b / unit
    ensures a >= 1.0 <==> b >= unit
  {
  }

  // ---- The C code ----

  class PTOC {
    const settings: Settings
    var StrVal: real
    var trip: bool
    var prevTime: int
    const progress: array<real>
    const resetTimer: array<real>

    ghost predicate Valid()
      reads this, progress, resetTimer
    {
      && settings.Valid() && StrVal >= 0.0
      && progress.Length == resetTimer.Length == 4 && progress != resetTimer
    }

    ghost function Phase(channel: nat): Channel
      requires Valid() && channel < 4
      reads this, progress, resetTimer
    {
      Channel(progress[channel], resetTimer[channel])
    }

    constructor (settings: Settings, StrVal: real)
      requires settings.Valid() && StrVal > 0.0
      ensures Valid() && this.settings == settings && this.StrVal == StrVal && !trip
      ensures forall i :: 0 <= i < 4 ==> Phase(i) == IDLE
      ensures fresh(progress) && fresh(resetTimer)
    {
      this.settings, this.StrVal, trip, prevTime := settings, StrVal, false, 0;
      progress, resetTimer := new real[4](_ => 0.0), new real[4](_ => 0.0);
    }

    /** The part of PTOC_Update_algorithm that computes the operate time, for a current above the threshold. */
    method OperateTime(I: real, ghost delta_t_ms: real) returns (t_operate_ms: real)
      requires Valid() && delta_t_ms >= 0.0 && I > StrVal
      ensures t_operate_ms == OperateMs(settings, Sample(I, delta_t_ms, StrVal))
      ensures OnCurve(settings, Sample(I, delta_t_ms, StrVal), t_operate_ms)
    {
      OperateTimeOnCurve(settings, Sample(I, delta_t_ms, StrVal));
      var t_curve_sec := 0.0; // StrVal == 0: M is infinite
      if StrVal > 0.0 {
        var M := I / StrVal;
        if M < 1.01 { M := 1.01; }
        assert settings.powf(1.01) <= settings.powf(M);
        t_curve_sec := settings.TmMult * (0.14 / (settings.powf(M) - 1.0));
      }
      t_operate_ms := t_curve_sec * 1000.0;
      t_operate_ms := t_operate_ms + settings.OpDlTmms;
      if t_operate_ms < settings.MinOpTmms { t_operate_ms := settings.MinOpTmms; }
      if t_operate_ms > settings.MaxOpTmms { t_operate_ms := settings.MaxOpTmms; }
    }

    /** PTOC_Update_algorithm. */
    method UpdateAlgorithm(channel: nat, I: real, delta_t_ms: real) returns (result: Result)
      requires Valid() && channel < 4 && delta_t_ms >= 0.0
      modifies progress, resetTimer
      ensures Valid()
      ensures var u := Update(settings, old(Phase(channel)), Sample(I, delta_t_ms, StrVal));
              Phase(channel) == u.0 && result == u.1
      ensures forall i :: 0 <= i < 4 && i != channel ==> Phase(i) == old(Phase(i))
    {
      if I > StrVal {
        resetTimer[channel] := 0.0;
        var t_operate_ms := OperateTime(I, delta_t_ms);
        progress[channel] := progress[channel] + delta_t_ms / t_operate_ms;
        if progress[channel] >= 1.0 {
          return Trip;
        }
      } else {
        resetTimer[channel] := resetTimer[channel] + delta_t_ms;
        if resetTimer[channel] >= settings.RsDlTmms {
          progress[channel] := 0.0;
          resetTimer[channel] := 0.0;
          return TripReset;
        }
      }
      return NoChange;
    }

    /** What the algorithm returns for a phase at the start of a call. */
    ghost function PhaseResult(channel: nat, I: real, dt: real): Result
      requires Valid() && channel < 4 && dt >= 0.0
      reads this, progress, resetTimer
    {
      Update(settings, Phase(channel), Sample(I, dt, StrVal)).1
    }

    /** PTOC_callback_SMV; the clock is a 64-bit counter of milliseconds. `op` is what is
        published as Op.general, if anything. */
    method CallbackSMV(time: int, phs: seq<real>) returns (op: Option<bool>)
      requires Valid() && |phs| == 4
      modifies this, progress, resetTimer
      ensures Valid() && prevTime == time && StrVal == old(StrVal)
      ensures var dt := ((time - old(prevTime)) % 0x1_0000_0000_0000_0000) as real;
              && (forall i :: 0 <= i < 4 ==>
                    Phase(i) == Update(settings, old(Phase(i)), Sample(phs[i], dt, StrVal)).0)
              && trip == (if exists i :: 0 <= i < 4 && old(PhaseResult(i, phs[i], dt)) == Trip then true
                          else if exists i :: 0 <= i < 4 && old(PhaseResult(i, phs[i], dt)) == TripReset then false
                          else old(trip))
      ensures op == if trip == old(trip) then None else Some(trip)
    {
      var delta_t := (time - prevTime) % 0x1_0000_0000_0000_0000;
      prevTime := time;
      var local_trip, local_trip_reset := false, false;
      ghost var dt := delta_t as real;
      for i := 0 to 4
        invariant Valid() && StrVal == old(StrVal) && trip == old(trip) && prevTime == time
        invariant forall j :: i <= j < 4 ==> Phase(j) == old(Phase(j))
        invariant forall j :: 0 <= j < i ==> Phase(j) == Update(settings, old(Phase(j)), Sample(phs[j], dt, StrVal)).0
        invariant local_trip <==> exists j :: 0 <= j < i && old(PhaseResult(j, phs[j], dt)) == Trip
        invariant local_trip_reset <==> exists j :: 0 <= j < i && old(PhaseResult(j, phs[j], dt)) == TripReset
      {
        var result := UpdateAlgorithm(i, phs[i], delta_t as real);
        assert result == old(PhaseResult(i, phs[i], dt));
        if result == Trip {
          local_trip := true;
        }
        if result == TripReset {
          local_trip_reset := true;
        }
      }
      op := None;
      if local_trip {
        if !trip {
          op := Some(true);
        }
        trip := true;
      } else {
        if local_trip_reset {
          if trip {
            op := Some(false);
          }
          trip := false;
        }
      }
    }
  }

  /** PTOC_writeAccessHandler: accepts a new threshold up to 100 kA, for every instance. */
  method WriteStrVal(instances: seq<PTOC>, newValue: real) returns (accepted: bool)
    modifies (set p | p in instances)`StrVal
    ensures accepted == (0.0 <= newValue <= 100000.0)
    ensures forall p :: p in instances ==> p.StrVal == if accepted then newValue else old(p.StrVal)
    ensures forall p :: p in instances && old(p.Valid()) ==> p.Valid()
  {
    if newValue >= 0.0 && newValue <= 100000.0 {
      var i := 0;
      while i < |instances|
        invariant i <= |instances| && forall p :: p in instances[..i] ==> p.StrVal == newValue
      {
        instances[i].StrVal := newValue;
        i := i + 1;
      }
      assert instances[..i] == instances;
      return true;
    } else {
      return false;
    }
  }
}
