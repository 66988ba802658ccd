/**
 * The start-time rule of a timeline block header
 * (frontend/src/components/BlockItem/BlockHeader.tsx): the planned start
 * (day start plus the minutes of the blocks before it, counting completed
 * blocks by their actual time and the others by their estimate), the
 * projected start (now plus what is left of the unfinished blocks before it)
 * and whether the block is running behind; and the label chosen from them.
 *
 * `new Date(iso)` is taken as already parsed to milliseconds. `setMinutes`
 * works on the local minute-of-hour `localMinute` of the day start and
 * truncates its fractional argument; daylight-saving shifts are not modelled.
 */
module BlockHeader {
  import opened Wrappers
  import Seqs
  import Shared

  /** A block as the components see it: the engine's block plus the `completed` flag they read. */
  datatype TimelineBlock = TimelineBlock(block: Shared.Block, completed: bool)

  datatype StartTimes = StartTimes(planned: Option<int>, projected: Option<int>, isRunningBehind: bool)

  /** What the header shows: "Starts: <projected>" or "Planned: <planned>". */
  datatype TimeLabel = Starts(at: int) | Planned(at: int)

  function Incomplete(b: TimelineBlock): bool { !b.completed }

  /** The `reduce` of lines 31-36: actual minutes for completed blocks, estimates for the rest. */
  function PreviousMinutes(prev: seq<TimelineBlock>, now: int): real
  {
    if prev == [] then 0.0
    else
      var b := prev[|prev| - 1];
      PreviousMinutes(prev[..|prev| - 1], now)
        + (if b.completed then Shared.BlockActualMinutes(b.block, now) else b.block.estimateMinutes)
  }

  function Max0(x: real): real { if x > 0.0 then x else 0.0 }

  /** The `reduce` of lines 44-47 over whatever list it is given. */
  function RemainingOf(bs: seq<TimelineBlock>, now: int): (r: real)
    ensures r >= 0.0
  {
    if bs == [] then 0.0
    else
      var b := bs[|bs| - 1];
      RemainingOf(bs[..|bs| - 1], now) + Max0(b.block.estimateMinutes - Shared.BlockActualMinutes(b.block, now))
  }

  /** Remaining minutes: the unfinished previous blocks' estimates not yet used up; never negative. */
  function RemainingMinutes(prev: seq<TimelineBlock>, now: int): (r: real)
    ensures r >= 0.0
  {
    RemainingOf(Seqs.Filter(prev, Incomplete), now)
  }

  /** Reference definition without the filter: every completed block contributes 0. */
  function RemainingReference(prev: seq<TimelineBlock>, now: int): real
  {
    if prev == [] then 0.0
    else
      var b := prev[0];
      (if b.completed then 0.0 else Max0(b.block.estimateMinutes - Shared.BlockActualMinutes(b.block, now)))
        + RemainingReference(prev[1..], now)
  }

  lemma {:induction false} RemainingOfCons(b: TimelineBlock, bs: seq<TimelineBlock>, now: int)
    ensures RemainingOf([b] + bs, now) == Max0(b.block.estimateMinutes - Shared.BlockActualMinutes(b.block, now)) + RemainingOf(bs, now)
  {
    if bs != [] {
      var all := [b] + bs;
      assert all[..|all| - 1] == [b] + bs[..|bs| - 1];
      RemainingOfCons(b, bs[..|bs| - 1], now);
    } else {
      assert ([b] + bs)[..0] == [];
    }
  }

  /** Filtering out completed blocks and summing equals counting completed blocks as 0. */
  lemma {:induction false} RemainingMatchesReference(prev: seq<TimelineBlock>, now: int)
    ensures RemainingMinutes(prev, now) == RemainingReference(prev, now)
  {
    if prev != [] {
      RemainingMatchesReference(prev[1..], now);
      assert prev == [prev[0]] + prev[1..];
      Seqs.FilterCons(prev[0], prev[1..], Incomplete);
      var rest := Seqs.Filter(prev[1..], Incomplete);
      if !prev[0].completed {
        assert Seqs.Filter(prev, Incomplete) == [prev[0]] + rest;
        RemainingOfCons(prev[0], rest, now);
      } else {
        assert Seqs.Filter(prev, Incomplete) == rest;
      }
    }
  }

  /**
   * The planned start: `setMinutes(getMinutes() + previousMinutes)` on the day
   * start. Shared with BlockItem/index.tsx, which repeats the rule.
   */
  function PlannedStart(dayStart: int, localMinute: int, previous: real): int
  {
    dayStart + (Shared.Trunc(localMinute as real + previous) - localMinute) * 60000
  }

  /** The planned start is within a minute of `dayStart + previous` minutes and equals it for whole minutes. */
  lemma PlannedStartBounds(dayStart: int, localMinute: int, previous: real)
    requires 0 <= localMinute < 60
    ensures var p := (PlannedStart(dayStart, localMinute, previous) - dayStart) as real;
      (previous - 1.0) * 60000.0 < p < (previous + 1.0) * 60000.0
    ensures previous.Floor as real == previous ==>
      PlannedStart(dayStart, localMinute, previous) as real == dayStart as real + previous * 60000.0
    ensures previous >= 0.0 ==> (PlannedStart(dayStart, localMinute, previous) - dayStart) as real <= previous * 60000.0
  {
    var x := localMinute as real + previous;
    var k := Shared.Trunc(x);
    assert x - 1.0 < k as real < x + 1.0;
    var d := k - localMinute;
    assert previous - 1.0 < d as real < previous + 1.0;
    assert PlannedStart(dayStart, localMinute, previous) - dayStart == d * 60000;
    assert (d * 60000) as real == d as real * 60000.0;
    if previous.Floor as real == previous {
      var n := previous.Floor;
      assert x == (localMinute + n) as real;
      assert x.Floor == localMinute + n;
      Shared.TruncWhole(x);
      assert d as real == previous;
    }
    if previous >= 0.0 {
      assert k as real <= x;
    }
  }

  /** The `useMemo` of lines 25-58. */
  function ComputeStartTimes(dayStartAt: Option<int>, localMinute: int, prev: seq<TimelineBlock>, now: int): (r: StartTimes)
    requires 0 <= localMinute < 60
    ensures dayStartAt.None? ==> r == StartTimes(None, None, false)
    ensures dayStartAt.Some? ==> r.planned == Some(PlannedStart(dayStartAt.value, localMinute, PreviousMinutes(prev, now)))
    ensures dayStartAt.Some? ==> r.projected.Some? && r.projected.value >= now
    ensures dayStartAt.Some? && now >= 0 ==>
      r.projected.value as real <= now as real + RemainingMinutes(prev, now) * 60000.0 < r.projected.value as real + 1.0
    ensures r.isRunningBehind <==> r.planned.Some? && now > r.planned.value
  {
    match dayStartAt
    case None => StartTimes(None, None, false)
    case Some(start) =>
      var planned := PlannedStart(start, localMinute, PreviousMinutes(prev, now));
      var x := now as real + RemainingMinutes(prev, now) * 60000.0;
      var projected := Shared.Trunc(x);
      assert projected >= now by {
        if x >= 0.0 {
          assert now as real < projected as real + 1.0;
        }
      }
      StartTimes(Some(planned), Some(projected), now > planned)
  }

  /** The label of lines 97-107: shown whenever a time exists, projected when behind, planned otherwise. */
  function Label(t: StartTimes): Option<TimeLabel>
  {
    if t.planned.None? && t.projected.None? then None
    else if t.isRunningBehind then (if t.projected.Some? then Some(Starts(t.projected.value)) else None)
    else (if t.planned.Some? then Some(Planned(t.planned.value)) else None)
  }

  /** With a day start the header always shows a label, projected exactly when now is past the planned start. */
  lemma LabelOfStartTimes(dayStartAt: Option<int>, localMinute: int, prev: seq<TimelineBlock>, now: int)
    requires 0 <= localMinute < 60
    ensures var t := ComputeStartTimes(dayStartAt, localMinute, prev, now);
      && (Label(t).Some? <==> dayStartAt.Some?)
      && (Label(t).Some? ==> (Label(t).value.Starts? <==> now > t.planned.value))
      && (Label(t).Some? && Label(t).value.Starts? ==> Label(t).value.at == t.projected.value && Label(t).value.at >= now)
      && (Label(t).Some? && Label(t).value.Planned? ==> Label(t).value.at == t.planned.value && Label(t).value.at >= now)
  {
  }

  /** The estimate-only variant in BlockItem.tsx: previous blocks count by estimate whatever their state. */
  function EstimateMinutes(prev: seq<TimelineBlock>): real
  {
    if prev == [] then 0.0 else EstimateMinutes(prev[..|prev| - 1]) + prev[|prev| - 1].block.estimateMinutes
  }

  function PlannedFromEstimates(dayStartAt: Option<int>, localMinute: int, prev: seq<TimelineBlock>): Option<int>
  {
    match dayStartAt
    case None => None
    case Some(start) => Some(PlannedStart(start, localMinute, EstimateMinutes(prev)))
  }

  /** The two planned-start rules agree until some previous block is completed. */
  lemma {:induction false} VariantsAgree(dayStartAt: Option<int>, localMinute: int, prev: seq<TimelineBlock>, now: int)
    requires 0 <= localMinute < 60
    requires forall i :: 0 <= i < |prev| ==> !prev[i].completed
    ensures PlannedFromEstimates(dayStartAt, localMinute, prev) == ComputeStartTimes(dayStartAt, localMinute, prev, now).planned
  {
    EstimatesWhenNoneCompleted(prev, now);
  }

  lemma {:induction false} EstimatesWhenNoneCompleted(prev: seq<TimelineBlock>, now: int)
    requires forall i :: 0 <= i < |prev| ==> !prev[i].completed
    ensures PreviousMinutes(prev, now) == EstimateMinutes(prev)
  {
    if prev != [] {
      EstimatesWhenNoneCompleted(prev[..|prev| - 1], now);
    }
  }
}
