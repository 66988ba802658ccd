/**
 * The undo countdown after a block is completed
 * (frontend/src/hooks/useCompletionCountdown.ts): a map from block id to the
 * time its completion was triggered, with start, cancel, the per-second
 * expiry pass, the pending test, the seconds left and the list of pending ids.
 *
 * The JavaScript `Map` is a sequence of entries keyed by `blockId`, in
 * insertion order, with distinct keys. The clock is the parameter `now`
 * (milliseconds). The calls into the day store (`completeBlock`,
 * `uncompleteBlock`), the interval timer and the forced re-render are not
 * part of this model.
 */
module CompletionCountdown {
  import opened Wrappers
  import Seqs

  /** `COUNTDOWN_SECONDS`. */
  const CountdownSeconds: int := 5

  datatype PendingCompletion = PendingCompletion(blockId: string, startedAt: int)

  /** A map has at most one entry per key. */
  predicate DistinctKeys(es: seq<PendingCompletion>)
  {
    forall i, j :: 0 <= i < j < |es| ==> es[i].blockId != es[j].blockId
  }

  function KeyIs(k: string): PendingCompletion -> bool { (e: PendingCompletion) => e.blockId == k }
  function KeyIsNot(k: string): PendingCompletion -> bool { (e: PendingCompletion) => e.blockId != k }

  /** `map.get(k)`. */
  function Get(es: seq<PendingCompletion>, k: string): (r: Option<PendingCompletion>)
    ensures r.None? <==> forall i :: 0 <= i < |es| ==> es[i].blockId != k
    ensures r.Some? ==> r.value in es && r.value.blockId == k
  {
    Seqs.Find(es, KeyIs(k))
  }

  /** `map.has(k)`: isPending. */
  predicate Has(es: seq<PendingCompletion>, k: string)
  {
    exists i :: 0 <= i < |es| && es[i].blockId == k
  }

  /** `Array.from(map.keys())`: pendingBlockIds, in insertion order. */
  function Keys(es: seq<PendingCompletion>): (r: seq<string>)
    ensures |r| == |es|
    ensures forall k :: k in r <==> Has(es, k)
  {
    var r := seq(|es|, i requires 0 <= i < |es| => es[i].blockId);
    assert forall i :: 0 <= i < |es| ==> r[i] == es[i].blockId;
    r
  }

  /**
   * `map.set(e.blockId, e)`: an existing key keeps its position and gets the
   * new entry; a new key is appended. Every other key keeps its entry.
   */
  function Set(es: seq<PendingCompletion>, e: PendingCompletion): (r: seq<PendingCompletion>)
    requires DistinctKeys(es)
    ensures DistinctKeys(r)
    ensures Get(r, e.blockId) == Some(e)
    ensures forall k :: k != e.blockId ==> Get(r, k) == Get(es, k)
    ensures Has(es, e.blockId) ==> Keys(r) == Keys(es)
    ensures !Has(es, e.blockId) ==> Keys(r) == Keys(es) + [e.blockId]
  {
    var i := Seqs.FindIndex(es, KeyIs(e.blockId));
    if i == -1 then
      var r := es + [e];
      assert r[|es|] == e;
      assert Seqs.FindIndex(r, KeyIs(e.blockId)) == |es|;
      assert forall k :: k != e.blockId ==> Get(r, k) == Get(es, k) by {
        forall k | k != e.blockId
          ensures Get(r, k) == Get(es, k)
        {
          FindAppend(es, e, KeyIs(k));
        }
      }
      assert Keys(r) == Keys(es) + [e.blockId];
      r
    else
      var r := es[i := e];
      assert forall k :: k != e.blockId ==> Get(r, k) == Get(es, k) by {
        forall k | k != e.blockId
          ensures Get(r, k) == Get(es, k)
        {
          FindReplace(es, i, e, KeyIs(k));
        }
      }
      FindReplace(es, i, e, KeyIs(e.blockId));
      assert Keys(r) == Keys(es);
      r
  }

  lemma FindAppend(es: seq<PendingCompletion>, e: PendingCompletion, p: PendingCompletion -> bool)
    requires !p(e)
    ensures Seqs.Find(es + [e], p) == Seqs.Find(es, p)
  {
    var s := es + [e];
    var k := Seqs.FindIndex(es, p);
    var k2 := Seqs.FindIndex(s, p);
    if k2 != -1 {
      assert k2 < |es|;
      assert s[k2] == es[k2];
    }
    if k != -1 {
      assert s[k] == es[k];
    }
  }

  /** Replacing entry `i` by one with the same key leaves every other key's `find` result unchanged. */
  lemma FindReplace(es: seq<PendingCompletion>, i: nat, e: PendingCompletion, p: PendingCompletion -> bool)
    requires i < |es|
    requires p(e) <==> p(es[i])
    ensures Seqs.Find(es[i := e], p) == if p(e) && Seqs.FindIndex(es, p) == i then Some(e) else Seqs.Find(es, p)
  {
    var s := es[i := e];
    var k := Seqs.FindIndex(es, p);
    var k2 := Seqs.FindIndex(s, p);
    assert forall j :: 0 <= j < |es| ==> (p(s[j]) <==> p(es[j]));
    assert forall j :: 0 <= j < |es| && j != i ==> s[j] == es[j];
    if k != -1 {
      assert k2 == k;
    } else {
      assert k2 == -1;
    }
  }

  /** `map.delete(k)`: the entry of `k` goes, the others stay in order. */
  function Delete(es: seq<PendingCompletion>, k: string): (r: seq<PendingCompletion>)
    ensures Get(r, k) == None
    ensures forall k2 :: k2 != k ==> Get(r, k2) == Get(es, k2)
    ensures Keys(r) == Seqs.Filter(Keys(es), StringIsNot(k))
  {
    var r := Seqs.Filter(es, KeyIsNot(k));
    KeysFilter(es, k);
    forall i | 0 <= i < |r|
      ensures r[i].blockId != k
    {
      Seqs.FilterMember(es, KeyIsNot(k), r[i]);
    }
    forall k2 | k2 != k
      ensures Get(r, k2) == Get(es, k2)
    {
      Seqs.FindFilter(es, KeyIs(k2), KeyIsNot(k));
    }
    r
  }

  function StringIsNot(k: string): string -> bool { (x: string) => x != k }

  /** The keys of the entries kept by a filter on the key are the keys kept by the same filter, in the same order. */
  lemma {:induction false} KeysFilter(es: seq<PendingCompletion>, k: string)
    ensures Keys(Seqs.Filter(es, KeyIsNot(k))) == Seqs.Filter(Keys(es), StringIsNot(k))
  {
    if es != [] {
      KeysFilter(es[1..], k);
      var f1 := Seqs.Filter(es[1..], KeyIsNot(k));
      assert Keys(es)[0] == es[0].blockId;
      assert Keys(es)[1..] == Keys(es[1..]);
      if es[0].blockId != k {
        assert Keys([es[0]] + f1) == [es[0].blockId] + Keys(f1);
      }
    }
  }

  /** `Math.floor((now - startedAt) / 1000)`; Dafny's `/` floors for a positive divisor. */
  function ElapsedSeconds(now: int, e: PendingCompletion): int
  {
    (now - e.startedAt) / 1000
  }

  function Expired(now: int, e: PendingCompletion): bool
  {
    ElapsedSeconds(now, e) >= CountdownSeconds
  }

  function Live(now: int): PendingCompletion -> bool { (e: PendingCompletion) => !Expired(now, e) }

  /**
   * `getSecondsRemaining`: 0 for an id that is not pending, else the whole
   * seconds left, never negative and at most 5 once the countdown has begun.
   */
  function SecondsRemaining(es: seq<PendingCompletion>, k: string, now: int): (r: int)
    ensures r >= 0
    ensures !Has(es, k) ==> r == 0
    ensures Has(es, k) && now >= Get(es, k).value.startedAt ==> r <= CountdownSeconds
    ensures Has(es, k) ==> (r == 0 <==> Expired(now, Get(es, k).value))
  {
    match Get(es, k)
    case None => 0
    case Some(e) =>
      var elapsed := ElapsedSeconds(now, e);
      if CountdownSeconds - elapsed > 0 then CountdownSeconds - elapsed else 0
  }

  /** No entry kept from before position `i` has the key of entry `i`. */
  lemma DoneLacksKey(prev: seq<PendingCompletion>, i: nat, now: int)
    requires DistinctKeys(prev) && i < |prev|
    ensures Seqs.Filter(Seqs.Filter(prev[..i], Live(now)), KeyIsNot(prev[i].blockId)) == Seqs.Filter(prev[..i], Live(now))
  {
    var k := prev[i].blockId;
    var done := Seqs.Filter(prev[..i], Live(now));
    forall j | 0 <= j < |done|
      ensures done[j].blockId != k
    {
      Seqs.FilterMember(prev[..i], Live(now), done[j]);
    }
    Seqs.FilterKeepsAll(done, KeyIsNot(k));
  }

  /** From position `i` on, only entry `i` itself has its key. */
  lemma RestDropsKey(prev: seq<PendingCompletion>, i: nat)
    requires DistinctKeys(prev) && i < |prev|
    ensures Seqs.Filter(prev[i..], KeyIsNot(prev[i].blockId)) == prev[i + 1..]
  {
    var k := prev[i].blockId;
    assert prev[i..] == [prev[i]] + prev[i + 1..];
    Seqs.FilterCons(prev[i], prev[i + 1..], KeyIsNot(k));
    Seqs.FilterKeepsAll(prev[i + 1..], KeyIsNot(k));
  }

  /** Removing entry `prev[i]`'s key from the partial result drops exactly that entry. */
  lemma DeleteStep(prev: seq<PendingCompletion>, i: nat, now: int)
    requires DistinctKeys(prev) && i < |prev|
    ensures Seqs.Filter(Seqs.Filter(prev[..i], Live(now)) + prev[i..], KeyIsNot(prev[i].blockId))
         == Seqs.Filter(prev[..i], Live(now)) + prev[i + 1..]
  {
    var done := Seqs.Filter(prev[..i], Live(now));
    Seqs.FilterConcat(done, prev[i..], KeyIsNot(prev[i].blockId));
    DoneLacksKey(prev, i, now);
    RestDropsKey(prev, i);
  }

  lemma KeepStep(prev: seq<PendingCompletion>, i: nat, now: int)
    requires i < |prev|
    ensures Seqs.Filter(prev[..i + 1], Live(now)) ==
      Seqs.Filter(prev[..i], Live(now)) + (if Expired(now, prev[i]) then [] else [prev[i]])
  {
    assert prev[..i + 1] == prev[..i] + [prev[i]];
    Seqs.FilterConcat(prev[..i], [prev[i]], Live(now));
    Seqs.FilterCons(prev[i], [], Live(now));
  }

  /** The pass after `i` entries: the live entries among the first `i`, then the rest untouched. */
  function PassState(prev: seq<PendingCompletion>, i: nat, now: int): seq<PendingCompletion>
    requires i <= |prev|
  {
    Seqs.Filter(prev[..i], Live(now)) + prev[i..]
  }

  /** One step of the expiry pass: entry `i` is dropped if it has expired and kept otherwise. */
  lemma PassStep(prev: seq<PendingCompletion>, i: nat, now: int)
    requires DistinctKeys(prev) && i < |prev|
    ensures Expired(now, prev[i]) ==>
      Seqs.Filter(PassState(prev, i, now), KeyIsNot(prev[i].blockId)) == PassState(prev, i + 1, now)
    ensures !Expired(now, prev[i]) ==> PassState(prev, i, now) == PassState(prev, i + 1, now)
  {
    var done := Seqs.Filter(prev[..i], Live(now));
    KeepStep(prev, i, now);
    if Expired(now, prev[i]) {
      DeleteStep(prev, i, now);
      assert done + [] == done;
    } else {
      assert prev[i..] == [prev[i]] + prev[i + 1..];
      assert done + prev[i..] == (done + [prev[i]]) + prev[i + 1..];
    }
  }

  /** At the end of the pass, the state is the filtered map, and it is `prev` itself when nothing expired. */
  lemma PassEnd(prev: seq<PendingCompletion>, now: int)
    ensures PassState(prev, |prev|, now) == Seqs.Filter(prev, Live(now))
    ensures (forall j :: 0 <= j < |prev| ==> !Expired(now, prev[j])) ==> Seqs.Filter(prev, Live(now)) == prev
  {
    assert prev[..|prev|] == prev;
    assert prev[|prev|..] == [];
    if forall j :: 0 <= j < |prev| ==> !Expired(now, prev[j]) {
      Seqs.FilterKeepsAll(prev, Live(now));
    }
  }

  /**
   * The interval tick's update: walk the entries, delete every expired one
   * from a copy, and return the copy only if something was deleted. It keeps
   * exactly the entries that have not expired, and a tick that deletes nothing
   * returns `prev` itself.
   */
  method ExpirePass(prev: seq<PendingCompletion>, now: int) returns (result: seq<PendingCompletion>, hasChanges: bool)
    requires DistinctKeys(prev)
    ensures result == Seqs.Filter(prev, Live(now))
    ensures hasChanges <==> exists i :: 0 <= i < |prev| && Expired(now, prev[i])
    ensures !hasChanges ==> result == prev
  {
    var next := prev;
    hasChanges := false;
    var i := 0;
    assert prev[..0] == [];
    while i < |prev|
      invariant 0 <= i <= |prev|
      invariant next == PassState(prev, i, now)
      invariant hasChanges <==> exists j :: 0 <= j < i && Expired(now, prev[j])
    {
      var pending := prev[i];
      PassStep(prev, i, now);
      if ElapsedSeconds(now, pending) >= CountdownSeconds {
        next := Seqs.Filter(next, KeyIsNot(pending.blockId));  // next.delete(blockId)
        hasChanges := true;
      }
      i := i + 1;
    }
    PassEnd(prev, now);
    if hasChanges {
      result := next;
    } else {
      result := prev;
    }
  }

  /** A tick removes exactly the entries whose countdown shows 0 seconds. */
  lemma TickRemovesZeroes(prev: seq<PendingCompletion>, now: int, e: PendingCompletion)
    requires DistinctKeys(prev) && e in prev
    ensures e in Seqs.Filter(prev, Live(now)) <==> SecondsRemaining(prev, e.blockId, now) > 0
  {
    Seqs.FilterMember(prev, Live(now), e);
    var i :| 0 <= i < |prev| && prev[i] == e;
    var g := Get(prev, e.blockId);
    var j :| 0 <= j < |prev| && prev[j] == g.value;
    assert i == j;
  }

  /** The hook's state: the pending map. */
  class Countdown {
    var pending: seq<PendingCompletion>

    predicate Valid()
      reads this
    {
      DistinctKeys(pending)
    }

    constructor()
      ensures Valid() && pending == []
    {
      pending := [];
    }

    /** `startCountdown`: (re)starts the entry of `blockId` at `now`. */
    method StartCountdown(blockId: string, now: int)
      requires Valid()
      modifies this
      ensures Valid()
      ensures pending == Set(old(pending), PendingCompletion(blockId, now))
    {
      pending := Set(pending, PendingCompletion(blockId, now));
    }

    /** `cancelCountdown`: removes the entry of `blockId`. */
    method CancelCountdown(blockId: string)
      requires Valid()
      modifies this
      ensures Valid()
      ensures pending == Delete(old(pending), blockId)
    {
      pending := Delete(pending, blockId);
      assert DistinctKeys(pending) by {
        forall i, j | 0 <= i < j < |pending|
          ensures pending[i].blockId != pending[j].blockId
        {
          FilterDistinct(old(pending), KeyIsNot(blockId));
        }
      }
    }

    /** One interval tick at time `now`. */
    method Tick(now: int)
      requires Valid()
      modifies this
      ensures Valid()
      ensures pending == Seqs.Filter(old(pending), Live(now))
    {
      var next, _ := ExpirePass(pending, now);
      FilterDistinct(pending, Live(now));
      pending := next;
    }

    predicate IsPending(blockId: string)
      reads this
    {
      Has(pending, blockId)
    }

    function GetSecondsRemaining(blockId: string, now: int): (r: int)
      reads this
      ensures r == SecondsRemaining(pending, blockId, now)
    {
      SecondsRemaining(pending, blockId, now)
    }

    function PendingBlockIds(): (r: seq<string>)
      reads this
      ensures r == Keys(pending)
    {
      Keys(pending)
    }
  }

  /** The key of an entry. */
  function KeyOf(e: PendingCompletion): string { e.blockId }

  /** Deleting entries keeps the keys distinct. */
  lemma FilterDistinct(es: seq<PendingCompletion>, p: PendingCompletion -> bool)
    requires DistinctKeys(es)
    ensures DistinctKeys(Seqs.Filter(es, p))
  {
    Seqs.FilterDistinctBy(es, p, KeyOf);
  }
}
