/** The counter checks on received GOOSE and sampled-value messages (`input/inputs.c`). */
module Counters {

  /** What the checks read of a GOOSE message: section 18 of IEC 61850-7-2 has the state number
      grow with each new state and the sequence number count the repetitions of it. */
  datatype Goose = Goose(stNum: nat, sqNum: int, time: int)

  datatype Alarm = Replay | Inject

  /** The fields of the first InputValue of a chain; RefCount is -1 until the first message. */
  class Counter {
    var RefCount: int
    var stNumCache: nat
    var lastRcvTimeMs: int

    constructor ()
      ensures RefCount == -1 && lastRcvTimeMs == 0
    {
      RefCount, stNumCache, lastRcvTimeMs := -1, 0, 0;
    }

    ghost predicate Follows(last: Goose)
      reads this
    {
      RefCount == last.sqNum && stNumCache == last.stNum && lastRcvTimeMs == last.time
    }

    /** The head of subscriber_callback_inputs_GOOSE. `sqNum` is the number of the message, of which a
        signed copy is kept; behind the largest of these the expected number would overflow. */
    method CheckGoose(stNum: nat, sqNum: nat, time: nat) returns (alarms: seq<Alarm>)
      requires sqNum < 0x1_0000_0000 && time < 0x1_0000_0000_0000_0000
      requires 0 <= lastRcvTimeMs < 0x1_0000_0000_0000_0000 && RefCount != 0x7fff_ffff
      modifies this
      ensures var m := Goose(stNum, AsSigned(sqNum), time);
              && Follows(m)
              && alarms == if old(RefCount) == -1 then []
                           else GooseAlarms(old(Goose(stNumCache, RefCount, lastRcvTimeMs)), m)
    {
      alarms := [];
      var current_sqNum := AsSigned(sqNum);
      if RefCount == -1 {
        RefCount := current_sqNum;
        stNumCache := stNum;
        lastRcvTimeMs := time;
      } else {
        var expected_sqNum := RefCount + 1;
        var delta_time := (time - lastRcvTimeMs) % 0x1_0000_0000_0000_0000;
        if current_sqNum < expected_sqNum && current_sqNum != 0 && stNum == stNumCache {
          alarms := alarms + [Replay];
        }
        if delta_time < 10 && stNum == stNumCache && current_sqNum > 0 {
          alarms := alarms + [Inject];
        }
        RefCount := current_sqNum;
        stNumCache := stNum;
        lastRcvTimeMs := time;
      }
    }

    /** The head of subscriber_callback_inputs_SMV. */
    method CheckSample(cnt: int) returns (alarms: seq<Alarm>)
      requires 0 <= cnt < 0x1_0000
      modifies this
      ensures RefCount == cnt
      ensures old(RefCount) == -1 ==> alarms == []
      ensures old(RefCount) != -1 ==> alarms == SampleAlarms(old(RefCount), cnt)
    {
      alarms := [];
      if RefCount == -1 {
        RefCount := cnt;
      } else {
        var expected_cnt := RefCount + 1;
        if cnt < RefCount && cnt != 0 {
          alarms := alarms + [Replay];
        }
        if cnt > expected_cnt + 50 {
          alarms := alarms + [Inject];
        }
        RefCount := cnt;
      }
    }
  }

  /** The conversion of 32 bits to a signed number. */
  function AsSigned(n: nat): (i: int)
    requires n < 0x1_0000_0000
    ensures -0x8000_0000 <= i < 0x8000_0000 && i % 0x1_0000_0000 == n
  {
    if n < 0x8000_0000 then n else n - 0x1_0000_0000
  }

  /** The difference of two unsigned clock readings; a clock set back gives a huge one. */
  function Elapsed(last: int, time: int): int {
    (time - last) % 0x1_0000_0000_0000_0000
  }

  function GooseAlarms(last: Goose, m: Goose): seq<Alarm> {
    (if m.sqNum <= last.sqNum && m.sqNum != 0 && m.stNum == last.stNum then [Replay] else [])
    + (if Elapsed(last.time, m.time) < 10 && m.stNum == last.stNum && m.sqNum > 0 then [Inject] else [])
  }

  function SampleAlarms(last: int, cnt: int): seq<Alarm> {
    (if cnt < last && cnt != 0 then [Replay] else []) + (if cnt > last + 51 then [Inject] else [])
  }

  // ---- Streams ----

  /** A message and the one the publisher sends after it. */
  ghost predicate Successor(m: Goose, n: Goose) {
    && m.time <= n.time
    && if n.stNum == m.stNum then n.sqNum == m.sqNum + 1 && n.time >= m.time + 10
       else n.stNum > m.stNum && n.sqNum == 0
  }

  ghost predicate Conforming(stream: seq<Goose>) {
    && (forall i :: 0 <= i < |stream| ==> 0 <= stream[i].sqNum < 0x7fff_ffff)
    && (forall i :: 0 <= i < |stream| ==> 0 <= stream[i].time < 0x1_0000_0000_0000_0000)
    && (forall i :: 0 <= i < |stream| - 1 ==> Successor(stream[i], stream[i + 1]))
  }

  /** A later message of the same state has a larger sequence number and comes 10 ms later. */
  lemma {:induction false} SameStateOrder(stream: seq<Goose>, i: nat, j: nat)
    requires Conforming(stream) && i < j < |stream|
    ensures stream[i].time <= stream[j].time && stream[i].stNum <= stream[j].stNum
    ensures stream[i].stNum == stream[j].stNum ==>
              stream[i].sqNum < stream[j].sqNum && stream[i].time + 10 <= stream[j].time
    decreases j
  {
    assert Successor(stream[j - 1], stream[j]);
    if i == j - 1 {
    } else {
      SameStateOrder(stream, i, j - 1);
    }
  }

  /** Indices of the messages that were not lost on the way. */
  ghost predicate Increasing(kept: seq<nat>, n: nat) {
    && (forall k :: 0 <= k < |kept| ==> kept[k] < n)
    && (forall k :: 0 <= k < |kept| - 1 ==> kept[k] < kept[k + 1])
  }

  /** Whatever messages of a conforming stream are lost, the received rest raises no alarm. */
  method ReceiveSubsequence(stream: seq<Goose>, kept: seq<nat>) returns (alarms: seq<Alarm>)
    requires Conforming(stream) && Increasing(kept, |stream|)
    ensures alarms == []
  {
    alarms := [];
    var counter := new Counter();
    var k := 0;
    while k < |kept|
      invariant 0 <= k <= |kept| && alarms == []
      invariant k == 0 ==> counter.RefCount == -1 && counter.lastRcvTimeMs == 0
      invariant k > 0 ==> counter.Follows(stream[kept[k - 1]])
    {
      if k > 0 {
        SameStateOrder(stream, kept[k - 1], kept[k]);
      }
      var m := stream[kept[k]];
      var a := counter.CheckGoose(m.stNum, m.sqNum, m.time);
      alarms := alarms + a;
      k := k + 1;
    }
  }

  /** A repetition of an earlier message of the current state is reported, unless it carries 0. */
  lemma ReplayIsReported(stream: seq<Goose>, i: nat, j: nat, time: int)
    requires Conforming(stream) && i <= j < |stream|
    requires stream[i].stNum == stream[j].stNum
    ensures Replay in GooseAlarms(stream[j], stream[i].(time := time)) <==> stream[i].sqNum != 0
  {
    if i < j {
      SameStateOrder(stream, i, j);
    }
  }

  /** The first message received of another state raises no alarm. */
  lemma OtherStateIsSilent(last: Goose, m: Goose)
    requires m.stNum != last.stNum
    ensures GooseAlarms(last, m) == []
  {
  }

  /** A message that comes less than 10 ms after the last one of its state is reported, unless it
      carries 0; one that comes after the clock was set back is not. */
  lemma InjectionIsReported(last: Goose, m: Goose)
    requires 0 <= last.time < 0x1_0000_0000_0000_0000 && 0 <= m.time < 0x1_0000_0000_0000_0000
    requires m.stNum == last.stNum && m.sqNum > 0
    ensures last.time <= m.time ==> (Inject in GooseAlarms(last, m) <==> m.time < last.time + 10)
    ensures m.time < last.time ==>
            (Inject in GooseAlarms(last, m) <==> m.time + 0x1_0000_0000_0000_0000 < last.time + 10)
  {
  }

  /** Exactly which next sample counts are reported as replayed, as injected, and accepted silently. */
  lemma SilentCounts(last: int, cnt: int)
    requires 0 <= last && 0 <= cnt
    ensures Replay in SampleAlarms(last, cnt) <==> 0 < cnt < last
    ensures Inject in SampleAlarms(last, cnt) <==> cnt > last + 51
    ensures SampleAlarms(last, cnt) == [] <==> cnt == 0 || last <= cnt <= last + 51
  {
  }
}
