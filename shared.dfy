/**
 * The day-metrics engine of the shared package (shared/src/index.ts): the
 * default block table, the default day, per-block actual minutes and the
 * day's totals, category buckets, current block and bedtimes.
 *
 * Timestamps are integer milliseconds since the epoch; minutes are exact
 * reals. The clock is the explicit parameter `now`.
 */
module Shared {
  import opened Wrappers
  import Seqs

  datatype BlockCategory = Work | Movement | Routine | Leisure

  datatype DefaultBlock = DefaultBlock(blockType: string, blockLabel: string, defaultMinutes: int, category: BlockCategory)

  /** `DEFAULT_BLOCKS`, in the key order that `Object.keys` returns. */
  const DefaultBlocks: seq<DefaultBlock> := [
    DefaultBlock("wake-warmup", "Wake + Warm-up", 90, Routine),
    DefaultBlock("deep-work", "Deep Work", 150, Work),
    DefaultBlock("break-movement", "Break + Movement", 30, Movement),
    DefaultBlock("food-admin", "Food + Admin", 90, Routine),
    DefaultBlock("dota", "Dota", 90, Leisure),
    DefaultBlock("light-work", "Light Work", 90, Work),
    DefaultBlock("wind-down", "Wind-down", 120, Routine),
    DefaultBlock("bed-comics", "Bed (Comics)", 120, Routine)
  ]

  /** One tracked interval; `endedAt == None` while it is still running. */
  datatype TimeSession = TimeSession(id: string, startedAt: int, endedAt: Option<int>)

  datatype Block = Block(
    id: string,
    blockType: string,
    blockLabel: string,
    estimateMinutes: real,
    sessions: seq<TimeSession>,
    notes: string,
    order: int)

  datatype DayState = DayState(
    version: int,
    date: string,
    userId: string,
    dayStartAt: Option<int>,
    blocks: seq<Block>,
    createdAt: string,
    updatedAt: string)

  datatype DayMetrics = DayMetrics(
    totalPlannedMinutes: real,
    totalActualMinutes: real,
    totalDeltaMinutes: real,
    workMinutes: real,
    movementMinutes: real,
    leisureMinutes: real,
    routineMinutes: real,
    plannedBedtime: Option<int>,
    forecastBedtime: Option<int>,
    currentBlockId: Option<string>)

  const MsPerMinute: real := 60000.0

  /**
   * What `new Date(x)` and `Date.prototype.setMinutes` do to a fractional
   * finite argument: truncation toward zero.
   */
  function Trunc(x: real): (r: int)
    ensures x >= 0.0 ==> r >= 0 && r as real <= x < r as real + 1.0
    ensures x < 0.0 ==> r <= 0 && r as real - 1.0 < x <= r as real
  {
    if x >= 0.0 then x.Floor else -((-x).Floor)
  }

  /** The category of the first entry of `table` with type `blockType`, or routine when none has it. */
  function CategoryIn(table: seq<DefaultBlock>, blockType: string): BlockCategory
  {
    if table == [] then Routine
    else if table[0].blockType == blockType then table[0].category
    else CategoryIn(table[1..], blockType)
  }

  /** `DEFAULT_BLOCKS[type]?.category || 'routine'`. */
  function CategoryOf(blockType: string): BlockCategory
  {
    CategoryIn(DefaultBlocks, blockType)
  }

  /**
   * The lookup is the category of the entry that `table.find(d => d.blockType
   * == blockType)` returns, or routine when `find` returns nothing.
   */
  lemma {:induction false} CategoryInFind(table: seq<DefaultBlock>, blockType: string, p: DefaultBlock -> bool)
    requires forall i :: 0 <= i < |table| ==> (p(table[i]) <==> table[i].blockType == blockType)
    ensures CategoryIn(table, blockType)
         == match Seqs.Find(table, p)
            case Some(d) => d.category
            case None => Routine
  {
    if table != [] && table[0].blockType != blockType {
      CategoryInFind(table[1..], blockType, p);
      var k := Seqs.FindIndex(table[1..], p);
      assert Seqs.FindIndex(table, p) == if k == -1 then -1 else k + 1;
      if k != -1 {
        assert Seqs.Find(table, p) == Some(table[k + 1]);
        assert Seqs.Find(table[1..], p) == Some(table[1..][k]);
      }
    } else if table != [] {
      assert Seqs.FindIndex(table, p) == 0;
    }
  }

  /** The table's types are distinct, so each known type gets its own table category. */
  lemma CategoryOfTable(i: nat)
    requires i < |DefaultBlocks|
    ensures CategoryOf(DefaultBlocks[i].blockType) == DefaultBlocks[i].category
  {
  }

  /**
   * `createDefaultDayState`: one block per default entry, in table order. The
   * fresh ids (`generateId`) and the ISO time string are parameters.
   */
  function CreateDefaultDayState(userId: string, date: string, nowIso: string, ids: seq<string>): (r: DayState)
    requires |ids| == |DefaultBlocks|
    ensures r.version == 1 && r.date == date && r.userId == userId
    ensures r.dayStartAt == None
    ensures r.createdAt == nowIso && r.updatedAt == r.createdAt
    ensures |r.blocks| == |DefaultBlocks|
    ensures forall i :: 0 <= i < |r.blocks| ==>
      var b, d := r.blocks[i], DefaultBlocks[i];
      && b.id == ids[i] && b.blockType == d.blockType && b.blockLabel == d.blockLabel
      && b.estimateMinutes == d.defaultMinutes as real
      && b.sessions == [] && b.notes == "" && b.order == i
  {
    var blocks := seq(|DefaultBlocks|, i requires 0 <= i < |DefaultBlocks| =>
      var d := DefaultBlocks[i];
      Block(ids[i], d.blockType, d.blockLabel, d.defaultMinutes as real, [], "", i));
    DayState(1, date, userId, None, blocks, nowIso, nowIso)
  }

  /** A closed session counts `end - start`, an open one `now - start`, in minutes. */
  function SessionMinutes(s: TimeSession, now: int): real
  {
    var end := match s.endedAt case Some(e) => e case None => now;
    (end - s.startedAt) as real / MsPerMinute
  }

  /** The `sessions.reduce(..., 0)` fold of `calculateBlockActualMinutes`. */
  function SessionsMinutes(ss: seq<TimeSession>, now: int): real
  {
    if ss == [] then 0.0 else SessionsMinutes(ss[..|ss| - 1], now) + SessionMinutes(ss[|ss| - 1], now)
  }

  /** `calculateBlockActualMinutes`; a block without sessions has 0 minutes. */
  function BlockActualMinutes(b: Block, now: int): (r: real)
    ensures b.sessions == [] ==> r == 0.0
  {
    SessionsMinutes(b.sessions, now)
  }

  function OpenCount(ss: seq<TimeSession>): nat
  {
    if ss == [] then 0 else OpenCount(ss[..|ss| - 1]) + (if ss[|ss| - 1].endedAt.None? then 1 else 0)
  }

  predicate HasActiveSession(b: Block)
  {
    exists k :: 0 <= k < |b.sessions| && b.sessions[k].endedAt.None?
  }

  lemma {:induction false} OpenCountPositive(ss: seq<TimeSession>)
    ensures OpenCount(ss) > 0 <==> exists k :: 0 <= k < |ss| && ss[k].endedAt.None?
  {
    if ss != [] {
      var init := ss[..|ss| - 1];
      OpenCountPositive(init);
      assert forall k :: 0 <= k < |init| ==> init[k] == ss[k];
      if OpenCount(init) > 0 {
        var k :| 0 <= k < |init| && init[k].endedAt.None?;
        assert ss[k].endedAt.None?;
      }
    }
  }

  /**
   * Moving the clock from `now1` to `now2` adds `now2 - now1` milliseconds for
   * every open session and nothing for closed ones.
   */
  lemma {:induction false} SessionsMinutesShift(ss: seq<TimeSession>, now1: int, now2: int)
    ensures SessionsMinutes(ss, now2) - SessionsMinutes(ss, now1)
         == (OpenCount(ss) * (now2 - now1)) as real / MsPerMinute
  {
    if ss != [] {
      var init, last := ss[..|ss| - 1], ss[|ss| - 1];
      SessionsMinutesShift(init, now1, now2);
      var d := now2 - now1;
      var open := if last.endedAt.None? then 1 else 0;
      assert SessionMinutes(last, now2) - SessionMinutes(last, now1) == (open * d) as real / MsPerMinute;
      assert OpenCount(ss) * d == OpenCount(init) * d + open * d;
    }
  }

  /** Actual minutes never decrease as time passes. */
  lemma BlockActualMinutesMonotone(b: Block, now1: int, now2: int)
    requires now1 <= now2
    ensures BlockActualMinutes(b, now1) <= BlockActualMinutes(b, now2)
  {
    SessionsMinutesShift(b.sessions, now1, now2);
  }

  /** With every session closed, actual minutes do not depend on the clock. */
  lemma BlockActualMinutesClosed(b: Block, now1: int, now2: int)
    requires forall k :: 0 <= k < |b.sessions| ==> b.sessions[k].endedAt.Some?
    ensures BlockActualMinutes(b, now1) == BlockActualMinutes(b, now2)
  {
    OpenCountPositive(b.sessions);
    SessionsMinutesShift(b.sessions, now1, now2);
  }

  /** Left fold of `totalPlannedMinutes += block.estimateMinutes`. */
  function TotalPlanned(bs: seq<Block>): real
  {
    if bs == [] then 0.0 else TotalPlanned(bs[..|bs| - 1]) + bs[|bs| - 1].estimateMinutes
  }

  function TotalActual(bs: seq<Block>, now: int): real
  {
    if bs == [] then 0.0 else TotalActual(bs[..|bs| - 1], now) + BlockActualMinutes(bs[|bs| - 1], now)
  }

  /** The bucket `c` of the `switch`: actual minutes of the blocks whose type maps to `c`. */
  function CategoryActual(bs: seq<Block>, c: BlockCategory, now: int): real
  {
    if bs == [] then 0.0
    else
      var b := bs[|bs| - 1];
      CategoryActual(bs[..|bs| - 1], c, now) + (if CategoryOf(b.blockType) == c then BlockActualMinutes(b, now) else 0.0)
  }

  /** `currentBlockId` after the loop: the last block in list order that has an open session. */
  function LastActiveBlockId(bs: seq<Block>): (r: Option<string>)
    ensures r.None? <==> forall i :: 0 <= i < |bs| ==> !HasActiveSession(bs[i])
  {
    if bs == [] then None
    else if HasActiveSession(bs[|bs| - 1]) then Some(bs[|bs| - 1].id)
    else
      var init := bs[..|bs| - 1];
      assert forall i :: 0 <= i < |init| ==> init[i] == bs[i];
      LastActiveBlockId(init)
  }

  /** A current block id belongs to a block with an open session, and no later block has one. */
  lemma {:induction false} LastActiveBlockIdWitness(bs: seq<Block>)
    requires LastActiveBlockId(bs).Some?
    ensures exists i :: (0 <= i < |bs| && bs[i].id == LastActiveBlockId(bs).value && HasActiveSession(bs[i]) &&
      forall j :: i < j < |bs| ==> !HasActiveSession(bs[j]))
  {
    var n := |bs| - 1;
    if HasActiveSession(bs[n]) {
      assert bs[n].id == LastActiveBlockId(bs).value;
    } else {
      var init := bs[..n];
      assert forall i :: 0 <= i < |init| ==> init[i] == bs[i];
      LastActiveBlockIdWitness(init);
      var i :| 0 <= i < |init| && init[i].id == LastActiveBlockId(init).value && HasActiveSession(init[i]) &&
        forall j :: i < j < |init| ==> !HasActiveSession(init[j]);
      assert bs[i].id == LastActiveBlockId(bs).value && HasActiveSession(bs[i]);
    }
  }

  /** Every block's minutes land in exactly one of the four buckets. */
  lemma {:induction false} BucketsPartitionActual(bs: seq<Block>, now: int)
    ensures CategoryActual(bs, Work, now) + CategoryActual(bs, Movement, now)
          + CategoryActual(bs, Leisure, now) + CategoryActual(bs, Routine, now)
         == TotalActual(bs, now)
  {
    if bs != [] {
      BucketsPartitionActual(bs[..|bs| - 1], now);
    }
  }

  /** Truncation changes nothing on a whole number. */
  lemma TruncWhole(x: real)
    requires x.Floor as real == x
    ensures Trunc(x) as real == x
  {
    if x < 0.0 {
      assert (-x).Floor == -x.Floor;
    }
  }

  /**
   * `plannedBedtime`: day start plus the planned total, or none before the
   * day starts; exact when the total is a whole number of milliseconds.
   */
  function PlannedBedtime(dayStartAt: Option<int>, planned: real): (r: Option<int>)
    ensures r.None? <==> dayStartAt.None?
    ensures r.Some? ==> var exact := dayStartAt.value as real + planned * MsPerMinute;
      (exact >= 0.0 ==> r.value as real <= exact < r.value as real + 1.0) &&
      (exact < 0.0 ==> r.value as real - 1.0 < exact <= r.value as real) &&
      (exact.Floor as real == exact ==> r.value as real == exact)
  {
    match dayStartAt
    case None => None
    case Some(start) =>
      var exact := start as real + planned * MsPerMinute;
      if exact.Floor as real == exact then TruncWhole(exact); Some(Trunc(exact)) else Some(Trunc(exact))
  }

  /**
   * `forecastBedtime`: `now` plus the planned minutes not yet used, without
   * clamping, truncated to a millisecond and exact for a whole number of
   * milliseconds. It is not before `now` while the day is within plan, and it
   * is before `now` once actual time exceeds the plan by a millisecond or more.
   */
  function ForecastBedtime(dayStartAt: Option<int>, planned: real, actual: real, now: int): (r: Option<int>)
    ensures r.None? <==> dayStartAt.None?
    ensures r.Some? ==> var exact := now as real + (planned - actual) * MsPerMinute;
      (exact >= 0.0 ==> r.value as real <= exact < r.value as real + 1.0) &&
      (exact < 0.0 ==> r.value as real - 1.0 < exact <= r.value as real) &&
      (exact.Floor as real == exact ==> r.value as real == exact)
    ensures r.Some? && actual <= planned ==> r.value >= now
    ensures r.Some? && (actual - planned) * MsPerMinute >= 1.0 ==> r.value < now
  {
    match dayStartAt
    case None => None
    case Some(_) =>
      var exact := now as real + (planned - actual) * MsPerMinute;
      if exact.Floor as real == exact then TruncWhole(exact); Some(Trunc(exact)) else Some(Trunc(exact))
  }

  /** One more block: every fold over `bs[..i + 1]` is its value over `bs[..i]` plus block `i`. */
  lemma FoldStep(bs: seq<Block>, i: nat, now: int)
    requires i < |bs|
    ensures TotalPlanned(bs[..i + 1]) == TotalPlanned(bs[..i]) + bs[i].estimateMinutes
    ensures TotalActual(bs[..i + 1], now) == TotalActual(bs[..i], now) + BlockActualMinutes(bs[i], now)
    ensures forall c :: (CategoryActual(bs[..i + 1], c, now) == CategoryActual(bs[..i], c, now) +
      (if CategoryOf(bs[i].blockType) == c then BlockActualMinutes(bs[i], now) else 0.0))
    ensures LastActiveBlockId(bs[..i + 1])
         == if HasActiveSession(bs[i]) then Some(bs[i].id) else LastActiveBlockId(bs[..i])
  {
    assert bs[..i + 1][..i] == bs[..i] && bs[..i + 1][i] == bs[i];
  }

  /** `calculateDayMetrics`: one pass over the blocks, accumulating as the source's `for...of` loop does. */
  method CalculateDayMetrics(state: DayState, now: int) returns (m: DayMetrics)
    ensures m.totalPlannedMinutes == TotalPlanned(state.blocks)
    ensures m.totalActualMinutes == TotalActual(state.blocks, now)
    ensures m.totalDeltaMinutes == m.totalActualMinutes - m.totalPlannedMinutes
    ensures m.workMinutes == CategoryActual(state.blocks, Work, now)
    ensures m.movementMinutes == CategoryActual(state.blocks, Movement, now)
    ensures m.leisureMinutes == CategoryActual(state.blocks, Leisure, now)
    ensures m.routineMinutes == CategoryActual(state.blocks, Routine, now)
    ensures m.currentBlockId == LastActiveBlockId(state.blocks)
    ensures m.plannedBedtime == PlannedBedtime(state.dayStartAt, m.totalPlannedMinutes)
    ensures m.forecastBedtime == ForecastBedtime(state.dayStartAt, m.totalPlannedMinutes, m.totalActualMinutes, now)
  {
    var bs := state.blocks;
    var planned, actual := 0.0, 0.0;
    var work, movement, leisure, routine := 0.0, 0.0, 0.0, 0.0;
    var current: Option<string> := None;
    var i := 0;
    while i < |bs|
      invariant 0 <= i <= |bs|
      invariant planned == TotalPlanned(bs[..i])
      invariant actual == TotalActual(bs[..i], now)
      invariant work == CategoryActual(bs[..i], Work, now)
      invariant movement == CategoryActual(bs[..i], Movement, now)
      invariant leisure == CategoryActual(bs[..i], Leisure, now)
      invariant routine == CategoryActual(bs[..i], Routine, now)
      invariant current == LastActiveBlockId(bs[..i])
    {
      var block := bs[i];
      FoldStep(bs, i, now);
      planned := planned + block.estimateMinutes;
      var minutes := BlockActualMinutes(block, now);
      actual := actual + minutes;
      var category := CategoryOf(block.blockType);
      work := work + (if category == Work then minutes else 0.0);
      movement := movement + (if category == Movement then minutes else 0.0);
      leisure := leisure + (if category == Leisure then minutes else 0.0);
      routine := routine + (if category == Routine then minutes else 0.0);
      if HasActiveSession(block) {
        current := Some(block.id);
      }
      i := i + 1;
    }
    assert bs[..i] == bs;
    m := DayMetrics(planned, actual, actual - planned, work, movement, leisure, routine,
                    PlannedBedtime(state.dayStartAt, planned),
                    ForecastBedtime(state.dayStartAt, planned, actual, now),
                    current);
  }

  /** The default day plans 780 minutes, has tracked nothing, has no current block and no bedtimes. */
  lemma DefaultDayTotals(userId: string, date: string, nowIso: string, ids: seq<string>, now: int)
    requires |ids| == |DefaultBlocks|
    ensures var s := CreateDefaultDayState(userId, date, nowIso, ids);
      && TotalPlanned(s.blocks) == 780.0
      && TotalActual(s.blocks, now) == 0.0
      && LastActiveBlockId(s.blocks) == None
      && PlannedBedtime(s.dayStartAt, TotalPlanned(s.blocks)) == None
  {
    var s := CreateDefaultDayState(userId, date, nowIso, ids);
    var bs := s.blocks;
    NoSessionsNoActual(bs, now);
    FoldStep(bs, 0, now);
    FoldStep(bs, 1, now);
    FoldStep(bs, 2, now);
    FoldStep(bs, 3, now);
    FoldStep(bs, 4, now);
    FoldStep(bs, 5, now);
    FoldStep(bs, 6, now);
    FoldStep(bs, 7, now);
    assert bs[..0] == [] && bs[..8] == bs;
  }

  lemma {:induction false} NoSessionsNoActual(bs: seq<Block>, now: int)
    requires forall i :: 0 <= i < |bs| ==> bs[i].sessions == []
    ensures TotalActual(bs, now) == 0.0
    ensures forall i :: 0 <= i < |bs| ==> !HasActiveSession(bs[i])
  {
    if bs != [] {
      NoSessionsNoActual(bs[..|bs| - 1], now);
    }
  }
}
