/** Cancelling orders in batches of eight client ids: what the exchange is asked to
    cancel is every live order, once, in order. */
module CancelBatch {
  import opened Checked

  /** The next bid, then the next ask, while there are any. */
  function Interleave(bids: seq<u64>, asks: seq<u64>): (ids: seq<u64>)
    ensures |ids| == |bids| + |asks|
    decreases |bids|
  {
    if bids == [] then asks
    else if asks == [] then bids
    else [bids[0], asks[0]] + Interleave(bids[1..], asks[1..])
  }

  /** Every order of either side is there exactly as often as it is live. */
  lemma {:induction false} InterleaveIsComplete(bids: seq<u64>, asks: seq<u64>)
    ensures multiset(Interleave(bids, asks)) == multiset(bids) + multiset(asks)
    decreases |bids|
  {
    if bids != [] && asks != [] {
      InterleaveIsComplete(bids[1..], asks[1..]);
      FirstCounted(bids);
      FirstCounted(asks);
      var rest := Interleave(bids[1..], asks[1..]);
      assert Interleave(bids, asks) == [bids[0], asks[0]] + rest;
      CountBoth(bids[0], asks[0], rest);
    }
  }

  lemma FirstCounted(s: seq<u64>)
    requires s != []
    ensures multiset(s) == multiset{s[0]} + multiset(s[1..])
  {
    assert s == [s[0]] + s[1..];
  }

  lemma CountBoth(b: u64, a: u64, rest: seq<u64>)
    ensures multiset([b, a] + rest) == multiset{b} + multiset{a} + multiset(rest)
  {
  }

  function Min(a: nat, b: nat): nat {
    if a < b then a else b
  }

  /** Where each order comes: orders of one side keep their order. */
  lemma {:induction false} BidPosition(bids: seq<u64>, asks: seq<u64>, i: nat)
    requires i < |bids|
    ensures Interleave(bids, asks)[i + Min(i, |asks|)] == bids[i]
    decreases i
  {
    if asks == [] {
      OneSided(bids, asks);
      hide Interleave;
    } else if i > 0 {
      BidPosition(bids[1..], asks[1..], i - 1);
      var rest, j := Interleave(bids[1..], asks[1..]), i - 1 + Min(i - 1, |asks| - 1);
      assert Interleave(bids, asks) == [bids[0], asks[0]] + rest;
      hide Interleave;
      assert i + Min(i, |asks|) == j + 2;
    }
  }

  lemma {:induction false} AskPosition(bids: seq<u64>, asks: seq<u64>, i: nat)
    requires i < |asks|
    ensures Interleave(bids, asks)[Min(i + 1, |bids|) + i] == asks[i]
    decreases i
  {
    if bids == [] {
      OneSided(bids, asks);
      hide Interleave;
    } else if i > 0 {
      AskPosition(bids[1..], asks[1..], i - 1);
      var rest, j := Interleave(bids[1..], asks[1..]), Min(i, |bids| - 1) + i - 1;
      assert Interleave(bids, asks) == [bids[0], asks[0]] + rest;
      hide Interleave;
      assert Min(i + 1, |bids|) + i == j + 2;
    }
  }

  function Take(s: seq<u64>, n: nat): seq<u64> {
    if n <= |s| then s[..n] else s
  }

  function At(s: seq<u64>, i: nat): seq<u64> {
    if i < |s| then [s[i]] else []
  }

  /** One more round of the interleaving appends at most one order of each side. */
  lemma {:induction false} InterleaveMore(bids: seq<u64>, asks: seq<u64>, i: nat)
    ensures Interleave(Take(bids, i + 1), Take(asks, i + 1))
      == Interleave(Take(bids, i), Take(asks, i)) + At(bids, i) + At(asks, i)
    decreases i
  {
    hide Interleave, Take, At;
    if i == 0 {
      TakeNone(bids, asks);
      InterleaveFirst(bids, asks);
      assert [] + At(bids, 0) + At(asks, 0) == At(bids, 0) + At(asks, 0);
    } else if bids != [] && asks != [] {
      InterleaveMore(bids[1..], asks[1..], i - 1);
      InterleaveTails(bids, asks, i);
      InterleaveTails(bids, asks, i + 1);
      AtTail(bids, i);
      AtTail(asks, i);
      var rest := Interleave(Take(bids[1..], i - 1), Take(asks[1..], i - 1));
      Associate([bids[0], asks[0]], rest, At(bids, i), At(asks, i));
    } else {
      OneSidedMore(bids, asks, i);
    }
  }

  lemma AtTail(s: seq<u64>, i: nat)
    requires s != [] && i > 0
    ensures At(s[1..], i - 1) == At(s, i)
  {
  }

  lemma Associate(p: seq<u64>, x: seq<u64>, a: seq<u64>, b: seq<u64>)
    ensures p + (x + a + b) == (p + x) + a + b
  {
  }

  lemma OneSidedMore(bids: seq<u64>, asks: seq<u64>, i: nat)
    requires bids == [] || asks == []
    ensures Interleave(Take(bids, i + 1), Take(asks, i + 1))
      == Interleave(Take(bids, i), Take(asks, i)) + At(bids, i) + At(asks, i)
  {
    TakeMore(bids, i);
    TakeMore(asks, i);
    OneSided(Take(bids, i), Take(asks, i));
    OneSided(Take(bids, i + 1), Take(asks, i + 1));
    hide Interleave;
  }

  lemma OneSided(bids: seq<u64>, asks: seq<u64>)
    requires bids == [] || asks == []
    ensures Interleave(bids, asks) == bids + asks
  {
    if bids == [] {
      assert bids + asks == asks;
    } else {
      assert bids + asks == bids;
    }
  }

  lemma InterleaveFirst(bids: seq<u64>, asks: seq<u64>)
    ensures Interleave(Take(bids, 1), Take(asks, 1)) == At(bids, 0) + At(asks, 0)
  {
    TakeMore(bids, 0);
    TakeMore(asks, 0);
    if bids != [] && asks != [] {
      assert Interleave([bids[0]], [asks[0]]) == [bids[0], asks[0]] + Interleave([bids[0]][1..], [asks[0]][1..]);
    } else {
      OneSided(Take(bids, 1), Take(asks, 1));
    }
  }

  lemma InterleaveTails(bids: seq<u64>, asks: seq<u64>, n: nat)
    requires bids != [] && asks != [] && n > 0
    ensures Interleave(Take(bids, n), Take(asks, n))
      == [bids[0], asks[0]] + Interleave(Take(bids[1..], n - 1), Take(asks[1..], n - 1))
  {
    TakeTail(bids, n);
    TakeTail(asks, n);
    hide Take;
  }

  lemma TakeTail(s: seq<u64>, n: nat)
    requires s != [] && n > 0
    ensures Take(s, n) != [] && Take(s, n)[0] == s[0] && Take(s, n)[1..] == Take(s[1..], n - 1)
  {
  }

  lemma TakeNone(bids: seq<u64>, asks: seq<u64>)
    ensures Interleave(Take(bids, 0), Take(asks, 0)) == []
  {
  }

  lemma TakeAll(s: seq<u64>, n: nat)
    requires |s| <= n
    ensures Take(s, n) == s
  {
  }

  lemma TakeMore(s: seq<u64>, i: nat)
    ensures Take(s, i + 1) == Take(s, i) + At(s, i)
  {
  }

  // ---- Batches ----

  function Flatten(batches: seq<seq<u64>>): seq<u64> {
    if batches == [] then [] else Flatten(batches[..|batches| - 1]) + batches[|batches| - 1]
  }

  /** Batches of eight whose concatenation is `ids`, padded with zeros only at the end of
      the last batch. */
  ghost predicate Cover(batches: seq<seq<u64>>, ids: seq<u64>) {
    && (forall i :: 0 <= i < |batches| ==> |batches[i]| == 8)
    && exists pad: nat :: pad < 8 && Flatten(batches) == ids + Zeros(pad)
  }

  function Zeros(n: nat): (z: seq<u64>)
    ensures |z| == n && forall i :: 0 <= i < n ==> z[i] == 0
  {
    seq(n, _ => 0)
  }

  lemma FlattenMore(batches: seq<seq<u64>>, batch: seq<u64>)
    ensures Flatten(batches + [batch]) == Flatten(batches) + batch
  {
    assert (batches + [batch])[..|batches|] == batches;
  }

  /** The batch being filled: what it holds so far, then zeros. */
  ghost predicate Filling(batch: seq<u64>, count: nat, batches: seq<seq<u64>>, ids: seq<u64>) {
    && |batch| == 8 && count <= 8
    && (forall i :: 0 <= i < |batches| ==> |batches[i]| == 8)
    && Flatten(batches) + batch[..count] == ids
    && batch[count..] == Zeros(8 - count)
  }

  lemma StartFilling()
    ensures Filling(Zeros(8), 0, [], [])
  {
    assert Flatten([]) + Zeros(8)[..0] == [];
    assert Zeros(8)[0..] == Zeros(8);
  }

  lemma FillOne(batch: seq<u64>, count: nat, batches: seq<seq<u64>>, ids: seq<u64>, id: u64)
    requires Filling(batch, count, batches, ids) && count < 8
    ensures Filling(batch[count := id], count + 1, batches, ids + [id])
  {
    assert batch[count := id][..count + 1] == batch[..count] + [id];
    assert batch[count := id][count + 1..] == batch[count..][1..];
  }

  lemma SealFull(batch: seq<u64>, batches: seq<seq<u64>>, ids: seq<u64>)
    requires Filling(batch, 8, batches, ids)
    ensures Filling(Zeros(8), 0, batches + [batch], ids)
  {
    FlattenMore(batches, batch);
    assert batch[..8] == batch;
  }

  lemma Finish(batch: seq<u64>, count: nat, batches: seq<seq<u64>>, ids: seq<u64>)
    requires Filling(batch, count, batches, ids) && count < 8
    ensures Cover(if count != 0 then batches + [batch] else batches, ids)
  {
    if count != 0 {
      FlattenMore(batches, batch);
      assert batch == batch[..count] + batch[count..];
      assert Flatten(batches + [batch]) == ids + Zeros(8 - count);
    } else {
      assert Flatten(batches) == ids + Zeros(0);
    }
  }

  /** Cancelling both sides alternately.  The cursor into the eight slots never passes
      the last: it is even as long as both sides have orders, and moves by one after. */
  method CancelAllBatches(bids: seq<u64>, asks: seq<u64>) returns (batches: seq<seq<u64>>)
    ensures Cover(batches, Interleave(bids, asks))
  {
    hide Filling, Cover, Interleave, Take, Flatten;
    batches := [];
    var orderIds := new u64[8](_ => 0);
    var count := 0;
    var most := if |bids| < |asks| then |asks| else |bids|;
    assert orderIds[..] == Zeros(8);
    StartFilling();
    TakeNone(bids, asks);
    for i := 0 to most
      invariant count < 8 && orderIds.Length == 8 && fresh(orderIds)
      invariant i < |bids| && i < |asks| ==> count % 2 == 0
      invariant Filling(orderIds[..], count, batches, Interleave(Take(bids, i), Take(asks, i)))
    {
      ghost var ids := Interleave(Take(bids, i), Take(asks, i));
      InterleaveMore(bids, asks, i);
      if i < |bids| {
        FillOne(orderIds[..], count, batches, ids, bids[i]);
        ids := ids + [bids[i]];
        orderIds[count] := bids[i];
        count := count + 1;
      } else {
        assert ids + At(bids, i) == ids;
      }
      if i < |asks| {
        FillOne(orderIds[..], count, batches, ids, asks[i]);
        ids := ids + [asks[i]];
        orderIds[count] := asks[i];
        count := count + 1;
      } else {
        assert ids + At(asks, i) == ids;
      }
      if count == 8 {
        SealFull(orderIds[..], batches, ids);
        batches := batches + [orderIds[..]];
        orderIds := new u64[8](_ => 0);
        assert orderIds[..] == Zeros(8);
        count := 0;
      }
    }
    TakeAll(bids, most);
    TakeAll(asks, most);
    Finish(orderIds[..], count, batches, Interleave(bids, asks));
    if count != 0 {
      batches := batches + [orderIds[..]];
    }
  }

  function Leftover(live: seq<u64>, valid: nat): seq<u64> {
    if valid <= |live| then live[valid..] else []
  }

  /** The client ids of the orders past the first `valid`. */
  method Collect(live: seq<u64>, valid: nat) returns (stale: seq<u64>)
    ensures stale == Leftover(live, valid)
  {
    stale := [];
    var i := valid;
    while i < |live|
      invariant valid <= |live| ==> i <= |live|
      invariant stale == if valid <= |live| then live[valid..i] else []
    {
      stale := stale + [live[i]];
      i := i + 1;
    }
  }

  /** Cancelling what a completed round left over: bids past the placed bids, then asks
      past the placed asks. */
  method PurgeBatches(bids: seq<u64>, asks: seq<u64>, validBuy: nat, validSell: nat)
    returns (batches: seq<seq<u64>>)
    ensures Cover(batches, Leftover(bids, validBuy) + Leftover(asks, validSell))
  {
    hide Filling, Cover, Flatten;
    var staleBids := Collect(bids, validBuy);
    var staleAsks := Collect(asks, validSell);
    var stale := staleBids + staleAsks;
    batches := [];
    var orderIds := new u64[8](_ => 0);
    var count := 0;
    assert orderIds[..] == Zeros(8);
    StartFilling();
    for k := 0 to |stale|
      invariant count < 8 && orderIds.Length == 8 && fresh(orderIds)
      invariant Filling(orderIds[..], count, batches, stale[..k])
    {
      FillOne(orderIds[..], count, batches, stale[..k], stale[k]);
      assert stale[..k + 1] == stale[..k] + [stale[k]];
      orderIds[count] := stale[k];
      count := count + 1;
      if count == 8 {
        SealFull(orderIds[..], batches, stale[..k + 1]);
        batches := batches + [orderIds[..]];
        orderIds := new u64[8](_ => 0);
        assert orderIds[..] == Zeros(8);
        count := 0;
      }
    }
    assert stale[..|stale|] == stale;
    Finish(orderIds[..], count, batches, stale);
    if count != 0 {
      batches := batches + [orderIds[..]];
    }
  }

  /** Nothing is lost and nothing is cancelled twice: the batches hold every nonzero
      client id as often as it is live. */
  lemma CancelsEachOnce(batches: seq<seq<u64>>, bids: seq<u64>, asks: seq<u64>, id: u64)
    requires Cover(batches, Interleave(bids, asks)) && id != 0
    ensures multiset(Flatten(batches))[id] == multiset(bids)[id] + multiset(asks)[id]
  {
    var ids := Interleave(bids, asks);
    var pad: nat :| pad < 8 && Flatten(batches) == ids + Zeros(pad);
    InterleaveIsComplete(bids, asks);
    assert multiset(ids + Zeros(pad)) == multiset(ids) + multiset(Zeros(pad));
    assert id !in Zeros(pad);
  }
}
