/** What the traffic totals of a run come to, connection by connection. */
module TrafficTotals {
  import opened Common
  import opened State
  import opened Traffic
  import opened TrafficSums

  /** The increments are, connection by connection, the last counter minus the baseline, plus what the counter had
      reached each time it started over. */
  lemma {:induction false} IncrementsAddUp(snaps: seq<seq<Conn>>, r: Ref, d: Direction)
    requires snaps != [] && WellBehaved(snaps)
    ensures Increments(snaps, r, d) == SumOver(snaps, AllIds(snaps), r, d)
  {
    if |snaps| == 1 {
      assert snaps == [snaps[0]];
      FirstContributesNothing(snaps[0], AllIds(snaps), r, d);
    } else {
      var front, next := snaps[..|snaps| - 1], snaps[|snaps| - 1];
      FrontBehaves(snaps);
      IncrementsAddUp(front, r, d);
      ReadUpTo(front, next, |next|, r, d);
      WholeRead(front, next);
      IncrementsNext(front, next, r, d);
      assert front + [next] == snaps;
    }
  }

  /** The connection is in every snapshot from its first on, and its counter never falls. */
  ghost predicate Steady(snaps: seq<seq<Conn>>, id: string, d: Direction) {
    forall k :: 0 < k < |snaps| && CounterIn(snaps[k], id).Some? && LastSeen(snaps[..k], id).Some? ==>
      && CounterIn(snaps[k - 1], id).Some?
      && CounterIn(snaps[k], id).value.counter.Get(d) >= LastSeen(snaps[..k], id).value.counter.Get(d)
  }

  lemma {:induction false} FrontIsSteady(snaps: seq<seq<Conn>>, id: string, d: Direction)
    requires snaps != [] && Steady(snaps, id, d)
    ensures Steady(snaps[..|snaps| - 1], id, d)
  {
    var front := snaps[..|snaps| - 1];
    forall k | 0 < k < |front| && CounterIn(front[k], id).Some? && LastSeen(front[..k], id).Some?
      ensures CounterIn(front[k - 1], id).Some?
              && CounterIn(front[k], id).value.counter.Get(d) >= LastSeen(front[..k], id).value.counter.Get(d)
    {
      assert front[..k] == snaps[..k];
    }
  }

  /** Such a connection contributes its last counter minus its baseline. */
  lemma {:induction false} SteadyContribution(snaps: seq<seq<Conn>>, id: string, r: Ref, d: Direction)
    requires snaps != [] && Steady(snaps, id, d)
    ensures BeforeRestarts(snaps, id, d) == 0
    ensures LastSeen(snaps, id).Some? && LastSeen(snaps, id).value.ref == Some(r) ==>
              Contribution(snaps, id, r, d) == LastSeen(snaps, id).value.counter.Get(d) - Baseline(snaps, id, d)
  {
    var n := |snaps| - 1;
    var front := snaps[..n];
    if n > 0 {
      FrontIsSteady(snaps, id, d);
      SteadyContribution(front, id, r, d);
    }
  }

  /** What a run banks for a channel: over its connections, last counter minus baseline (0 when first seen later), plus
      what was reached before each restart, however many samples failed to read or to write in between. */
  lemma {:induction false} RunBanksExactly(w: Watch, t: Totals, samples: seq<Sample>, g: Option<string>, r: Ref,
                                           d: Direction)
    requires w.generation != Sampled(g) && NoGhostRows(t) && !Tombstoned(t.tombs, r)
    requires forall i :: 0 <= i < |samples| ==> samples[i].generation == g
    requires WellBehaved(Taken(w, samples)) && Taken(w, samples) != []
    ensures var snaps := Taken(w, samples);
            AmountIn(TotalsRun(w, t, samples).rows, r).Get(d)
            == AmountIn(t.rows, r).Get(d) + SumOver(snaps, AllIds(snaps), r, d)
  {
    RunBanksIncrements(w, t, samples, g, r, d);
    IncrementsAddUp(Taken(w, samples), r, d);
  }
}
