/**
 The bounded set of seen event ids (matrix_bot.rs): a queue and a set, cut to the newest 100
 when the queue holds 200; and the check before every insertion.
 */
module SeenEvents {

  const CAP: nat := 200
  const KEEP: nat := 100

  function Elems(s: seq<string>): set<string> { set x | x in s }

  predicate Distinct(s: seq<string>) { forall i, j :: 0 <= i < j < |s| ==> s[i] != s[j] }

  /** The queue after `insert`. */
  function Pushed(order: seq<string>, id: string): seq<string> {
    (if |order| >= CAP then order[|order| - KEEP..] else order) + [id]
  }

  class SeenEvents {
    var ids: set<string>
    var order: seq<string>

    ghost predicate Valid()
      reads this
    {
      ids == Elems(order) && Distinct(order) && |order| <= CAP
    }

    constructor ()
      ensures Valid() && order == []
    {
      ids, order := {}, [];
    }

    method Contains(id: string) returns (seen: bool)
      requires Valid()
      ensures seen <==> id in order
    {
      seen := id in ids;
    }

    /** `insert`: evicts one id after the other from the front, then appends. */
    method Insert(id: string)
      requires Valid()
      modifies this
      ensures order == Pushed(old(order), id) && ids == Elems(order)
      ensures id !in old(order) ==> Valid()
    {
      ghost var evicted := 0;
      if |order| >= CAP {
        while |order| > KEEP
          invariant 0 <= evicted <= |old(order)| && order == old(order)[evicted..] && |order| >= KEEP
          invariant ids == Elems(order) && Distinct(order)
        {
          var oldest := order[0];
          assert order == [oldest] + order[1..] && oldest !in order[1..];
          order := order[1..];
          ids := ids - {oldest};
          evicted := evicted + 1;
        }
      }
      ids := ids + {id};
      order := order + [id];
    }

    /** The check and the insertion `on_message` makes in one go: whether the event is to be processed. */
    method OnMessage(id: string) returns (process: bool)
      requires Valid()
      modifies this
      ensures Valid()
      ensures process <==> id !in old(order)
      ensures forall history :: Log(order, history + if process then [id] else []) == Deliver(Log(old(order), history), id)
    {
      var seen := Contains(id);
      if seen { return false; }
      Insert(id);
      process := true;
    }
  }

  // ---- any stream of deliveries ----

  /** `history` holds the ids of all processed events, `order` the queue. */
  datatype Log = Log(order: seq<string>, history: seq<string>)

  function Deliver(log: Log, id: string): Log {
    if id in log.order then log else Log(Pushed(log.order, id), log.history + [id])
  }

  function After(stream: seq<string>): Log {
    if stream == [] then Log([], []) else Deliver(After(stream[..|stream| - 1]), stream[|stream| - 1])
  }

  /** The queue's length when `n` events have been processed: all of them at first, then up and down between 101 and 200. */
  function Kept(n: nat): (k: nat)
    ensures k <= n && k <= CAP && (k == n || k > KEEP)
  {
    if n <= CAP then n else KEEP + 1 + (n - CAP - 1) % KEEP
  }

  lemma KeptNext(n: nat)
    ensures Kept(n + 1) == if Kept(n) == CAP then KEEP + 1 else Kept(n) + 1
  {
    if n > CAP {
      var m := n - CAP - 1;
      assert m + 1 == KEEP * (m / KEEP) + (m % KEEP + 1);
    }
  }

  predicate Newest(log: Log) {
    var n := |log.history|;
    log.order == log.history[n - Kept(n)..] && Distinct(log.order)
  }

  lemma DeliverKeeps(log: Log, id: string)
    requires Newest(log)
    ensures Newest(Deliver(log, id))
  {
    hide Kept, Distinct;
    var h := log.history;
    var n := |h|;
    var k := Kept(n);
    KeptNext(n);
    if id !in log.order {
      SuffixNext(h, k, Kept(n + 1), id);
      DistinctAppend(log.order, k + 1 - Kept(n + 1), id);
    }
  }

  /** Suffixes of a history and of the next one. */
  lemma SuffixNext(h: seq<string>, k: nat, next: nat, id: string)
    requires 1 <= next <= k + 1 && k <= |h|
    ensures (h + [id])[|h| + 1 - next..] == h[|h| - k..][k + 1 - next..] + [id]
  {
    assert h[|h| - k..][k + 1 - next..] == h[|h| + 1 - next..];
  }

  lemma DistinctAppend(s: seq<string>, from: nat, id: string)
    requires Distinct(s) && from <= |s| && id !in s
    ensures Distinct(s[from..] + [id])
  {
  }

  /** The queue is exactly the newest `Kept(n)` of the `n` processed ids, and they are distinct. */
  lemma {:induction false} QueueIsNewest(stream: seq<string>)
    ensures Newest(After(stream))
  {
    if stream != [] {
      QueueIsNewest(stream[..|stream| - 1]);
      hide Newest, Deliver;
      DeliverKeeps(After(stream[..|stream| - 1]), stream[|stream| - 1]);
    }
  }

  /** The history grows by processed events only: what was processed first stays first. */
  lemma {:induction false} HistoryGrows(stream: seq<string>, k: nat)
    requires k <= |stream|
    ensures After(stream[..k]).history <= After(stream).history
  {
    if k < |stream| {
      var front := stream[..|stream| - 1];
      assert stream[..k] == front[..k];
      HistoryGrows(front, k);
    } else {
      assert stream[..k] == stream;
    }
  }

  /**
   A delivery is skipped exactly if its id is among the newest `Kept(n)` processed ones: always
   if it is among the newest 101, never if it is new. For ids processed recently this is what
   an unbounded history would answer.
   */
  lemma SkippedIff(stream: seq<string>, id: string)
    ensures var h, next := After(stream).history, After(stream + [id]).history;
            && (next == h || next == h + [id])
            && (next == h <==> id in h[|h| - Kept(|h|)..])
            && (id in h[if |h| <= KEEP then 0 else |h| - KEEP - 1..] ==> next == h)
            && (id !in h ==> next == h + [id])
            && (|h| <= CAP ==> (next == h <==> id in h))
  {
    hide Kept, Newest, Deliver;
    QueueIsNewest(stream);
    DeliverIff(After(stream), id);
    assert (stream + [id])[..|stream|] == stream && (stream + [id])[|stream|] == id;
  }

  lemma DeliverIff(log: Log, id: string)
    requires Newest(log)
    ensures var h, next := log.history, Deliver(log, id).history;
            && (next == h || next == h + [id])
            && (next == h <==> id in h[|h| - Kept(|h|)..])
            && (id in h[if |h| <= KEEP then 0 else |h| - KEEP - 1..] ==> next == h)
            && (id !in h ==> next == h + [id])
            && (|h| <= CAP ==> (next == h <==> id in h))
  {
    var h := log.history;
    NewestOf(h, Kept(|h|), if |h| <= KEEP then 0 else |h| - KEEP - 1, id);
    assert |h| <= CAP ==> h[|h| - Kept(|h|)..] == h;
    assert h + [id] != h;
    hide Kept, Pushed, Distinct;
  }

  /** A longer suffix holds what a shorter one holds. */
  lemma NewestOf(h: seq<string>, k: nat, from: nat, id: string)
    requires k <= |h| && |h| - k <= from <= |h|
    ensures id in h[from..] ==> id in h[|h| - k..]
    ensures id in h[|h| - k..] ==> id in h
  {
    assert h[from..] == h[|h| - k..][from - (|h| - k)..];
  }

  /** Between two processings of one id lie at least 101 others. */
  lemma {:induction false} ProcessedAgainOnlyLater(stream: seq<string>, i: nat, j: nat)
    requires i < j < |After(stream).history| && After(stream).history[i] == After(stream).history[j]
    ensures j - i > KEEP + 1 && j > CAP
  {
    var front := stream[..|stream| - 1];
    var id := stream[|stream| - 1];
    var h := After(front).history;
    if j < |h| {
      ProcessedAgainOnlyLater(front, i, j);
    } else {
      QueueIsNewest(front);
      var from := |h| - Kept(|h|);
      assert id !in h[from..] && h[i] == id;
      assert forall k :: from <= k < |h| ==> h[k] in h[from..];
    }
  }

  /** Nothing is dropped unprocessed and nothing is made up. */
  lemma {:induction false} AllProcessed(stream: seq<string>)
    ensures Elems(After(stream).history) == Elems(stream)
  {
    if stream != [] {
      var front := stream[..|stream| - 1];
      var id := stream[|stream| - 1];
      AllProcessed(front);
      QueueIsNewest(front);
      assert stream == front + [id];
      assert forall x :: x in After(front).order ==> x in After(front).history;
      ElemsConcat(front, id);
      ElemsConcat(After(front).history, id);
      if id in After(front).order { assert id in Elems(front); }
    }
  }

  lemma ElemsConcat(s: seq<string>, id: string)
    ensures Elems(s + [id]) == Elems(s) + {id}
  {
  }

  lemma {:induction false} DistinctCardinality(s: seq<string>)
    requires Distinct(s)
    ensures |Elems(s)| == |s|
  {
    if s != [] {
      var n := |s| - 1;
      DistinctCardinality(s[..n]);
      assert s == s[..n] + [s[n]];
      ElemsConcat(s[..n], s[n]);
      assert s[n] !in s[..n];
    }
  }

  lemma SubsetCardinality(a: set<string>, b: set<string>)
    requires a <= b
    ensures |a| <= |b|
  {
    assert b == a + (b - a);
  }

  /** With up to 200 different ids in all, every one is processed exactly once, however often it is delivered. */
  lemma {:induction false} FewIdsOnce(stream: seq<string>)
    requires |Elems(stream)| <= CAP
    ensures Distinct(After(stream).history) && Elems(After(stream).history) == Elems(stream)
  {
    AllProcessed(stream);
    if stream != [] {
      var front := stream[..|stream| - 1];
      assert stream == front + [stream[|stream| - 1]];
      ElemsConcat(front, stream[|stream| - 1]);
      SubsetCardinality(Elems(front), Elems(stream));
      FewIdsOnce(front);
      DistinctCardinality(After(front).history);
      QueueIsNewest(front);
    }
  }
}
