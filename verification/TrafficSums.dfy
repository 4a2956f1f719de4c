/** Summing increments connection by connection: the accounting is rebuilt while one snapshot is read, one
    connection at a time, so that a run's total can be told from first and last counters alone. */
module TrafficSums {
  import opened Common
  import opened State
  import opened Traffic

  function CounterIn(conns: seq<Conn>, id: string): (c: Option<Conn>)
    ensures c.Some? ==> c.value in conns && c.value.Counted() && c.value.id == id
    ensures c.None? ==> forall i :: 0 <= i < |conns| && conns[i].Counted() ==> conns[i].id != id
  {
    if conns == [] then None
    else if conns[|conns| - 1].Counted() && conns[|conns| - 1].id == id then Some(conns[|conns| - 1])
    else CounterIn(conns[..|conns| - 1], id)
  }

  /** The connection as the last snapshot that lists it shows it. */
  function LastSeen(snaps: seq<seq<Conn>>, id: string): Option<Conn> {
    if snaps == [] then None
    else
      var now := CounterIn(snaps[|snaps| - 1], id);
      if now.Some? then now else LastSeen(snaps[..|snaps| - 1], id)
  }

  /** The counter in the first snapshot; 0 when the connection appeared later. */
  function Baseline(snaps: seq<seq<Conn>>, id: string, d: Direction): nat
    requires snaps != []
  {
    var first := CounterIn(snaps[0], id);
    if first.Some? then first.value.counter.Get(d) else 0
  }

  /** What the counters of a connection had reached each time they started over: because one fell, or because the
      connection was missing in between. */
  function BeforeRestarts(snaps: seq<seq<Conn>>, id: string, d: Direction): nat {
    if snaps == [] then 0
    else
      var front := snaps[..|snaps| - 1];
      BeforeRestarts(front, id, d) + AtRestart(front, CounterIn(snaps[|snaps| - 1], id), id, d)
  }

  /** What the counter had reached when `now` shows that it started over; 0 when it did not. */
  function AtRestart(front: seq<seq<Conn>>, now: Option<Conn>, id: string, d: Direction): nat {
    var before := LastSeen(front, id);
    if now.Some? && before.Some?
       && (CounterIn(front[|front| - 1], id).None? || now.value.counter.Get(d) < before.value.counter.Get(d))
    then before.value.counter.Get(d) else 0
  }

  /** What one connection contributed to channel `r`: the last counter and what was reached before each restart, less
      the baseline. */
  function Contribution(snaps: seq<seq<Conn>>, id: string, r: Ref, d: Direction): int
    requires snaps != []
  {
    var last := LastSeen(snaps, id);
    if last.Some? && last.value.ref == Some(r)
    then last.value.counter.Get(d) + BeforeRestarts(snaps, id, d) - Baseline(snaps, id, d) else 0
  }

  function SumOver(snaps: seq<seq<Conn>>, ids: seq<string>, r: Ref, d: Direction): int
    requires snaps != []
  {
    if ids == [] then 0
    else SumOver(snaps, ids[..|ids| - 1], r, d) + Contribution(snaps, ids[|ids| - 1], r, d)
  }

  /** All connections ever seen, each once, in order of appearance. */
  function IdsIn(conns: seq<Conn>, before: seq<string>): seq<string> {
    if conns == [] then before
    else
      var ids := IdsIn(conns[..|conns| - 1], before);
      var c := conns[|conns| - 1];
      if c.Counted() && c.id !in ids then ids + [c.id] else ids
  }

  function AllIds(snaps: seq<seq<Conn>>): seq<string> {
    if snaps == [] then [] else IdsIn(snaps[|snaps| - 1], AllIds(snaps[..|snaps| - 1]))
  }

  /** Ids name one connection per snapshot. */
  ghost predicate DistinctConns(conns: seq<Conn>) {
    forall i, j :: 0 <= i < j < |conns| && conns[i].Counted() && conns[j].Counted() ==> conns[i].id != conns[j].id
  }

  /** A connection keeps its channel. */
  ghost predicate Follows(snaps: seq<seq<Conn>>, next: seq<Conn>) {
    forall i :: 0 <= i < |next| && next[i].Counted() && LastSeen(snaps, next[i].id).Some? ==>
      next[i].ref == LastSeen(snaps, next[i].id).value.ref
  }

  /** Ids name one connection per snapshot, and always the same channel's. Counters may fall, and connections may come
      back. */
  ghost predicate WellBehaved(snaps: seq<seq<Conn>>) {
    forall k :: 0 <= k < |snaps| ==> DistinctConns(snaps[k]) && Follows(snaps[..k], snaps[k])
  }

  lemma {:induction false} IdsAreSeen(snaps: seq<seq<Conn>>, id: string)
    ensures id in AllIds(snaps) <==> LastSeen(snaps, id).Some?
  {
    if snaps != [] {
      IdsAreSeen(snaps[..|snaps| - 1], id);
      IdsInMembers(snaps[|snaps| - 1], AllIds(snaps[..|snaps| - 1]), id);
    }
  }

  lemma {:induction false} IdsInMembers(conns: seq<Conn>, before: seq<string>, id: string)
    ensures id in IdsIn(conns, before) <==> id in before || CounterIn(conns, id).Some?
  {
    if conns != [] {
      IdsInMembers(conns[..|conns| - 1], before, id);
    }
  }

  ghost predicate NoRepeats(ids: seq<string>) {
    forall i, j :: 0 <= i < j < |ids| ==> ids[i] != ids[j]
  }

  lemma {:induction false} IdsInDistinct(conns: seq<Conn>, before: seq<string>)
    requires NoRepeats(before)
    ensures NoRepeats(IdsIn(conns, before))
  {
    if conns != [] {
      IdsInDistinct(conns[..|conns| - 1], before);
    }
  }

  lemma {:induction false} AllIdsDistinct(snaps: seq<seq<Conn>>)
    ensures NoRepeats(AllIds(snaps))
  {
    if snaps != [] {
      AllIdsDistinct(snaps[..|snaps| - 1]);
      IdsInDistinct(snaps[|snaps| - 1], AllIds(snaps[..|snaps| - 1]));
    }
  }

  /** Sums agree where contributions do. */
  lemma {:induction false} SumSame(a: seq<seq<Conn>>, b: seq<seq<Conn>>, ids: seq<string>, r: Ref, d: Direction)
    requires a != [] && b != []
    requires forall i :: 0 <= i < |ids| ==> Contribution(a, ids[i], r, d) == Contribution(b, ids[i], r, d)
    ensures SumOver(a, ids, r, d) == SumOver(b, ids, r, d)
  {
    if ids != [] {
      SumSame(a, b, ids[..|ids| - 1], r, d);
    }
  }

  /** One connection's contribution grows, the others stay. */
  lemma {:induction false} SumGrows(a: seq<seq<Conn>>, b: seq<seq<Conn>>, ids: seq<string>, k: nat, r: Ref,
                                    d: Direction)
    requires a != [] && b != [] && NoRepeats(ids) && k < |ids|
    requires forall i :: 0 <= i < |ids| && i != k ==> Contribution(a, ids[i], r, d) == Contribution(b, ids[i], r, d)
    ensures SumOver(b, ids, r, d)
            == SumOver(a, ids, r, d) + Contribution(b, ids[k], r, d) - Contribution(a, ids[k], r, d)
  {
    if k == |ids| - 1 {
      SumSame(a, b, ids[..|ids| - 1], r, d);
    } else {
      SumGrows(a, b, ids[..|ids| - 1], k, r, d);
    }
  }

  /** The snapshots so far, followed by the first `k` connections of the next one. */
  function Partly(snaps: seq<seq<Conn>>, next: seq<Conn>, k: nat): seq<seq<Conn>>
    requires k <= |next|
  {
    snaps + [next[..k]]
  }

  lemma {:induction false} LastSeenPartly(snaps: seq<seq<Conn>>, conns: seq<Conn>, id: string)
    ensures LastSeen(snaps + [conns], id) == if CounterIn(conns, id).Some? then CounterIn(conns, id)
                                               else LastSeen(snaps, id)
    ensures AllIds(snaps + [conns]) == IdsIn(conns, AllIds(snaps))
  {
    assert (snaps + [conns])[..|snaps|] == snaps;
  }

  lemma {:induction false} CounterInNext(conns: seq<Conn>, k: nat, id: string)
    requires k < |conns|
    ensures CounterIn(conns[..k + 1], id)
            == if conns[k].Counted() && conns[k].id == id then Some(conns[k]) else CounterIn(conns[..k], id)
  {
    assert conns[..k + 1][..k] == conns[..k];
  }

  lemma {:induction false} WatermarkIsCounter(conns: seq<Conn>, n: nat, id: string)
    requires n <= |conns|
    ensures id in Watermarks(conns, n) <==> CounterIn(conns[..n], id).Some?
    ensures id in Watermarks(conns, n) ==> Watermarks(conns, n)[id] == CounterIn(conns[..n], id).value.counter
  {
    if n != 0 {
      WatermarkIsCounter(conns, n - 1, id);
      CounterInNext(conns, n - 1, id);
    }
  }

  lemma {:induction false} NeverSeenNotFirst(snaps: seq<seq<Conn>>, id: string)
    requires snaps != [] && LastSeen(snaps, id).None?
    ensures CounterIn(snaps[0], id).None? && CounterIn(snaps[|snaps| - 1], id).None?
  {
    if |snaps| > 1 {
      NeverSeenNotFirst(snaps[..|snaps| - 1], id);
    }
  }

  lemma {:induction false} PartlyLast(snaps: seq<seq<Conn>>, next: seq<Conn>, k: nat, id: string)
    requires k <= |next|
    ensures LastSeen(Partly(snaps, next, k), id)
            == if CounterIn(next[..k], id).Some? then CounterIn(next[..k], id) else LastSeen(snaps, id)
  {
    LastSeenPartly(snaps, next[..k], id);
  }

  lemma {:induction false} PartlyRestarts(snaps: seq<seq<Conn>>, next: seq<Conn>, k: nat, id: string, d: Direction)
    requires k <= |next|
    ensures BeforeRestarts(Partly(snaps, next, k), id, d)
            == BeforeRestarts(snaps, id, d) + AtRestart(snaps, CounterIn(next[..k], id), id, d)
  {
    assert Partly(snaps, next, k)[..|snaps|] == snaps;
  }

  /** Reading one more connection of a snapshot: only its own contribution changes. */
  lemma {:induction false} OthersStay(snaps: seq<seq<Conn>>, next: seq<Conn>, k: nat, id: string, r: Ref, d: Direction)
    requires snaps != [] && k < |next| && (next[k].Counted() ==> next[k].id != id)
    ensures Contribution(Partly(snaps, next, k + 1), id, r, d) == Contribution(Partly(snaps, next, k), id, r, d)
  {
    PartlyLast(snaps, next, k, id);
    PartlyLast(snaps, next, k + 1, id);
    PartlyRestarts(snaps, next, k, id, d);
    PartlyRestarts(snaps, next, k + 1, id, d);
    CounterInNext(next, k, id);
  }

  lemma {:induction false} NotReadYet(next: seq<Conn>, k: nat)
    requires DistinctConns(next) && k < |next| && next[k].Counted()
    ensures CounterIn(next[..k], next[k].id).None?
  {
    forall i | 0 <= i < |next[..k]| && next[..k][i].Counted() ensures next[..k][i].id != next[k].id {
      assert next[i].Counted();
    }
  }

  lemma {:induction false} LastIsNewest(snaps: seq<seq<Conn>>, id: string)
    requires snaps != []
    ensures CounterIn(snaps[|snaps| - 1], id).Some? ==> LastSeen(snaps, id) == CounterIn(snaps[|snaps| - 1], id)
    ensures LastSeen(snaps, id).None? ==> BeforeRestarts(snaps, id, Up) == BeforeRestarts(snaps, id, Down) == 0
  {
    if |snaps| > 1 {
      LastIsNewest(snaps[..|snaps| - 1], id);
    }
  }

  /** The connection read contributes exactly what the accumulator computes for it. */
  lemma {:induction false} OwnChange(snaps: seq<seq<Conn>>, next: seq<Conn>, k: nat, r: Ref, d: Direction)
    requires snaps != [] && k < |next| && next[k].Counted() && DistinctConns(next) && Follows(snaps, next)
    ensures var last := snaps[|snaps| - 1];
            var c := next[k];
            Contribution(Partly(snaps, next, k + 1), c.id, r, d) - Contribution(Partly(snaps, next, k), c.id, r, d)
            == if c.ref.value == r then Delta(Watermarks(last, |last|), c).Get(d) else 0
  {
    var c, last := next[k], snaps[|snaps| - 1];
    NotReadYet(next, k);
    PartlyLast(snaps, next, k, c.id);
    PartlyLast(snaps, next, k + 1, c.id);
    PartlyRestarts(snaps, next, k, c.id, d);
    PartlyRestarts(snaps, next, k + 1, c.id, d);
    CounterInNext(next, k, c.id);
    LastIsNewest(snaps, c.id);
    WatermarkIsCounter(last, |last|, c.id);
    assert last[..|last|] == last;
    if LastSeen(snaps, c.id).None? {
      NeverSeenNotFirst(snaps, c.id);
    }
  }

  lemma {:induction false} IdsNext(next: seq<Conn>, k: nat, before: seq<string>)
    requires k < |next|
    ensures IdsIn(next[..k + 1], before)
            == if next[k].Counted() && next[k].id !in IdsIn(next[..k], before)
                 then IdsIn(next[..k], before) + [next[k].id]
               else IdsIn(next[..k], before)
  {
    assert next[..k + 1][..k] == next[..k];
  }

  /** Reading one more connection adds its increment to the sum. */
  lemma {:induction false} ReadOne(snaps: seq<seq<Conn>>, next: seq<Conn>, k: nat, ids: seq<string>, r: Ref,
                                   d: Direction)
    requires snaps != [] && k < |next| && DistinctConns(next) && Follows(snaps, next)
    requires NoRepeats(ids) && (next[k].Counted() ==> next[k].id in ids)
    ensures var seen := Watermarks(snaps[|snaps| - 1], |snaps[|snaps| - 1]|);
            SumOver(Partly(snaps, next, k + 1), ids, r, d)
            == SumOver(Partly(snaps, next, k), ids, r, d)
               + (if next[k].Counted() && next[k].ref.value == r then Delta(seen, next[k]).Get(d) else 0)
  {
    var a, b := Partly(snaps, next, k), Partly(snaps, next, k + 1);
    forall i | 0 <= i < |ids| && (next[k].Counted() ==> ids[i] != next[k].id)
      ensures Contribution(a, ids[i], r, d) == Contribution(b, ids[i], r, d)
    {
      OthersStay(snaps, next, k, ids[i], r, d);
    }
    if next[k].Counted() {
      var p :| 0 <= p < |ids| && ids[p] == next[k].id;
      SumGrows(a, b, ids, p, r, d);
      OwnChange(snaps, next, k, r, d);
    } else {
      SumSame(a, b, ids, r, d);
    }
  }

  /** A connection not yet seen contributes nothing. */
  lemma {:induction false} UnseenAddsNothing(snaps: seq<seq<Conn>>, ids: seq<string>, id: string, r: Ref, d: Direction)
    requires snaps != [] && LastSeen(snaps, id).None?
    ensures SumOver(snaps, ids + [id], r, d) == SumOver(snaps, ids, r, d)
  {
    assert (ids + [id])[..|ids|] == ids;
  }

  lemma {:induction false} ReadUpTo(snaps: seq<seq<Conn>>, next: seq<Conn>, k: nat, r: Ref, d: Direction)
    requires snaps != [] && k <= |next| && DistinctConns(next) && Follows(snaps, next)
    ensures var seen := Watermarks(snaps[|snaps| - 1], |snaps[|snaps| - 1]|);
            SumOver(Partly(snaps, next, k), IdsIn(next[..k], AllIds(snaps)), r, d)
            == SumOver(snaps, AllIds(snaps), r, d) + DeltaFor(seen, next, r, d, k)
  {
    if k == 0 {
      ReadNone(snaps, next, r, d);
    } else {
      ReadUpTo(snaps, next, k - 1, r, d);
      NewIdAddsNothing(snaps, next, k - 1, r, d);
      ReadOne(snaps, next, k - 1, IdsIn(next[..k], AllIds(snaps)), r, d);
    }
  }

  lemma {:induction false} ReadNone(snaps: seq<seq<Conn>>, next: seq<Conn>, r: Ref, d: Direction)
    requires snaps != []
    ensures SumOver(Partly(snaps, next, 0), IdsIn(next[..0], AllIds(snaps)), r, d)
            == SumOver(snaps, AllIds(snaps), r, d)
  {
    var ids := AllIds(snaps);
    forall i | 0 <= i < |ids| ensures Contribution(Partly(snaps, next, 0), ids[i], r, d)
      == Contribution(snaps, ids[i], r, d) {
      PartlyLast(snaps, next, 0, ids[i]);
      PartlyRestarts(snaps, next, 0, ids[i], d);
    }
    SumSame(snaps, Partly(snaps, next, 0), ids, r, d);
  }

  /** Listing the next connection before reading it changes no sum. */
  lemma {:induction false} NewIdAddsNothing(snaps: seq<seq<Conn>>, next: seq<Conn>, k: nat, r: Ref, d: Direction)
    requires snaps != [] && k < |next|
    ensures var more := IdsIn(next[..k + 1], AllIds(snaps));
            && NoRepeats(more) && (next[k].Counted() ==> next[k].id in more)
            && SumOver(Partly(snaps, next, k), more, r, d)
               == SumOver(Partly(snaps, next, k), IdsIn(next[..k], AllIds(snaps)), r, d)
  {
    var ids, more := IdsIn(next[..k], AllIds(snaps)), IdsIn(next[..k + 1], AllIds(snaps));
    IdsNext(next, k, AllIds(snaps));
    AllIdsDistinct(snaps);
    IdsInDistinct(next[..k + 1], AllIds(snaps));
    if more != ids {
      var id := next[k].id;
      IdsInMembers(next[..k], AllIds(snaps), id);
      IdsAreSeen(snaps, id);
      PartlyLast(snaps, next, k, id);
      UnseenAddsNothing(Partly(snaps, next, k), ids, id, r, d);
    }
  }

  lemma {:induction false} FirstContributesNothing(first: seq<Conn>, ids: seq<string>, r: Ref, d: Direction)
    ensures SumOver([first], ids, r, d) == 0
  {
    if ids != [] {
      FirstContributesNothing(first, ids[..|ids| - 1], r, d);
      var id := ids[|ids| - 1];
      assert LastSeen([first], id) == CounterIn(first, id) && BeforeRestarts([first], id, d) == 0 by {
        assert [first][..0] == [];
      }
    }
  }

  lemma {:induction false} FrontBehaves(snaps: seq<seq<Conn>>)
    requires snaps != [] && WellBehaved(snaps)
    ensures var front, next := snaps[..|snaps| - 1], snaps[|snaps| - 1];
            WellBehaved(front) && DistinctConns(next) && Follows(front, next)
  {
    var front := snaps[..|snaps| - 1];
    forall k | 0 <= k < |front| ensures DistinctConns(front[k]) && Follows(front[..k], front[k]) {
      assert front[..k] == snaps[..k];
    }
  }

  lemma {:induction false} WholeRead(snaps: seq<seq<Conn>>, next: seq<Conn>)
    ensures Partly(snaps, next, |next|) == snaps + [next]
    ensures IdsIn(next[..|next|], AllIds(snaps)) == AllIds(snaps + [next])
  {
    assert next[..|next|] == next && (snaps + [next])[..|snaps|] == snaps;
  }
}
