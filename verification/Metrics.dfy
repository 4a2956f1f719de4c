/** The traffic database and the accumulator that feeds it, as they change in place: rows and tombstones in one object,
    watermarks and the sampled generation in another. */
module Metrics {
  import opened Common
  import opened State
  import opened Traffic
  import Spec = Traffic

  function SetOfRefs(refs: seq<Ref>): set<Ref> {
    set r | r in refs
  }

  function SetOfNames(names: seq<string>): set<string> {
    set p | p in names
  }

  /** What one bundle operation's tombstone changes come to. */
  function Reconciled(t: Totals, gone: set<string>, removed: set<Ref>, back: set<string>, revived: set<Ref>): Totals {
    Totals(map r | r in t.rows && r.provider !in gone && r !in removed :: t.rows[r],
           (set x | x in t.tombs && (if x.One? then x.ref.provider !in gone && x.ref !in revived
                                     else x.provider !in gone && x.provider !in back))
           + (set p | p in gone && p !in back :: Whole(p))
           + (set r | r in removed && r.provider !in gone && r !in revived :: One(r)))
  }

  /** After removing providers, in any order and however often. */
  function Gone(t: Totals, gone: set<string>): Totals {
    Totals(map r | r in t.rows && r.provider !in gone :: t.rows[r],
           (set x | x in t.tombs && (if x.One? then x.ref.provider !in gone else x.provider !in gone))
           + (set p | p in gone :: Whole(p)))
  }

  lemma {:induction false} GoneOneMore(t: Totals, gone: set<string>, p: string)
    ensures Spec.RemoveProvider(Gone(t, gone), p) == Gone(t, gone + {p})
  {
    var a, b := Spec.RemoveProvider(Gone(t, gone), p), Gone(t, gone + {p});
    assert a.rows == b.rows;
    assert a.tombs == b.tombs;
  }

  predicate Live(t: Totals, deltas: map<Ref, Bytes>, r: Ref) {
    r in deltas && deltas[r] != NOTHING && !Tombstoned(t.tombs, r)
  }

  /** The increments of the channels in `done` are folded in, no others. */
  ghost predicate Folded(rows: map<Ref, Bytes>, t: Totals, deltas: map<Ref, Bytes>, done: set<Ref>) {
    && (forall r :: r in rows <==> r in t.rows || (r in done && Live(t, deltas, r)))
    && (forall r <- rows.Keys :: rows[r] == if r in done && Live(t, deltas, r) then AmountIn(t.rows, r).Plus(deltas[r])
                                              else t.rows[r])
  }

  lemma {:induction false} FoldedAll(rows: map<Ref, Bytes>, t: Totals, deltas: map<Ref, Bytes>)
    requires Folded(rows, t, deltas, deltas.Keys)
    ensures t.(rows := rows) == Spec.AddDeltas(t, deltas)
  {
    assert rows == Spec.AddDeltas(t, deltas).rows;
  }

  lemma {:induction false} FoldOne(rows: map<Ref, Bytes>, t: Totals, deltas: map<Ref, Bytes>, done: set<Ref>, r: Ref)
    requires Folded(rows, t, deltas, done) && r in deltas && r !in done
    ensures Folded(if Live(t, deltas, r) then rows[r := AmountIn(rows, r).Plus(deltas[r])] else rows, t, deltas,
                     done + {r})
  {
    assert AmountIn(rows, r) == AmountIn(t.rows, r);
  }

  /** Removals first, then revivals: what the four steps come to. */
  lemma {:induction false} FourSteps(t: Totals, gone: set<string>, removed: set<Ref>, back: set<string>,
                                     revived: set<Ref>)
    ensures ChannelsBack(ProvidersBack(ChannelsGone(Gone(t, gone), removed, gone), back), revived)
            == Reconciled(t, gone, removed, back, revived)
  {
    var a, b := ChannelsBack(ProvidersBack(ChannelsGone(Gone(t, gone), removed, gone), back), revived),
        Reconciled(t, gone, removed, back, revived);
    assert a.rows == b.rows;
    assert a.tombs == b.tombs;
  }

  function ChannelsGone(t: Totals, removed: set<Ref>, gone: set<string>): Totals {
    Totals(map r | r in t.rows && (r !in removed || r.provider in gone) :: t.rows[r],
           t.tombs + (set r | r in removed && r.provider !in gone :: One(r)))
  }

  function ProvidersBack(t: Totals, back: set<string>): Totals {
    t.(tombs := set x | x in t.tombs && (x.Whole? ==> x.provider !in back))
  }

  function ChannelsBack(t: Totals, revived: set<Ref>): Totals {
    t.(tombs := set x | x in t.tombs && (x.One? ==> x.ref !in revived))
  }

  // ---- what is committed, row by row ----

  /** The rows of what is removed are gone, all others stay as they are. */
  ghost predicate RowsAfter(before: Totals, after: Totals, gone: seq<string>, removed: seq<Ref>) {
    && (forall r :: r in after.rows <==> r in before.rows && r.provider !in gone && r !in removed)
    && (forall r <- after.rows.Keys :: after.rows[r] == before.rows[r])
  }

  /** A provider is marked removed when it was or now is, and is not back; so is a channel, unless its provider went as
      a whole, which covers it. */
  ghost predicate TombsAfter(before: Totals, after: Totals, gone: seq<string>, removed: seq<Ref>, back: seq<string>,
                             revived: seq<Ref>) {
    && (forall p :: Whole(p) in after.tombs <==> (Whole(p) in before.tombs || p in gone) && p !in back)
    && (forall r :: One(r) in after.tombs <==>
          (One(r) in before.tombs || r in removed) && r.provider !in gone && r !in revived)
  }

  lemma {:induction false} ReconciledMeans(t: Totals, gone: seq<string>, removed: seq<Ref>, back: seq<string>,
                                           revived: seq<Ref>)
    ensures var after := Reconciled(t, SetOfNames(gone), SetOfRefs(removed), SetOfNames(back), SetOfRefs(revived));
            RowsAfter(t, after, gone, removed) && TombsAfter(t, after, gone, removed, back, revived)
  {
  }

  /** A removed provider that comes back counts again for every channel; a removed channel that comes back counts again
      unless its provider is still gone. */
  lemma {:induction false} ComesBack(t: Totals, r: Ref, p: string)
    ensures forall c :: !Tombstoned(Spec.ReviveProvider(Spec.RemoveProvider(t, p), p).tombs, Ref(p, c))
    ensures Tombstoned(Spec.ReviveChannel(Spec.RemoveChannel(t, r), r).tombs, r) <==> Whole(r.provider) in t.tombs
  {
  }

  /** `m` holds, for each id, the counter of the last connection that carries it and leads to a channel. */
  ghost predicate Marks(m: map<string, Bytes>, conns: seq<Conn>) {
    forall id :: MarkOf(m, conns, id)
  }

  ghost predicate MarkOf(m: map<string, Bytes>, conns: seq<Conn>, id: string) {
    if id in m then exists i :: LastCarrier(conns, i, id) && m[id] == conns[i].counter
    else forall i :: 0 <= i < |conns| ==> !Carries(conns[i], id)
  }

  ghost predicate LastCarrier(conns: seq<Conn>, i: int, id: string) {
    0 <= i < |conns| && Carries(conns[i], id) && forall j :: i < j < |conns| ==> !Carries(conns[j], id)
  }

  predicate Carries(c: Conn, id: string) {
    c.id == id && id != "" && c.ref.Some?
  }

  lemma {:induction false} WatermarksMark(conns: seq<Conn>, n: nat)
    requires n <= |conns|
    ensures Marks(Watermarks(conns, n), conns[..n])
  {
    if n > 0 {
      WatermarksMark(conns, n - 1);
      OneMoreMark(Watermarks(conns, n - 1), conns[..n - 1], conns[n - 1]);
      assert conns[..n] == conns[..n - 1] + [conns[n - 1]];
    }
  }

  lemma {:induction false} OneMoreMark(m: map<string, Bytes>, conns: seq<Conn>, c: Conn)
    requires Marks(m, conns)
    ensures Marks(if c.Counted() then m[c.id := c.counter] else m, conns + [c])
  {
    var next := if c.Counted() then m[c.id := c.counter] else m;
    forall id ensures MarkOf(next, conns + [c], id) {
      assert MarkOf(m, conns, id);
      OneMoreMarkOf(m, conns, c, id);
    }
  }

  lemma {:induction false} OneMoreMarkOf(m: map<string, Bytes>, conns: seq<Conn>, c: Conn, id: string)
    requires MarkOf(m, conns, id)
    ensures MarkOf(if c.Counted() then m[c.id := c.counter] else m, conns + [c], id)
  {
    var all := conns + [c];
    if Carries(c, id) {
      assert LastCarrier(all, |conns|, id);
    } else if id in m {
      var i :| LastCarrier(conns, i, id) && m[id] == conns[i].counter;
      assert LastCarrier(all, i, id) && all[i] == conns[i];
    }
  }

  /** Every live channel's total grew by what its connections show since the last sample, nothing else changed. */
  ghost predicate Grew(before: Totals, after: Totals, seen: map<string, Bytes>, conns: seq<Conn>) {
    && after.tombs == before.tombs
    && forall r, d :: AmountIn(after.rows, r).Get(d)
                      == AmountIn(before.rows, r).Get(d)
                         + (if One(r) in before.tombs || Whole(r.provider) in before.tombs then 0
                            else DeltaFor(seen, conns, r, d, |conns|))
  }

  lemma {:induction false} BankingGrows(t: Totals, seen: map<string, Bytes>, conns: seq<Conn>)
    requires NoGhostRows(t)
    ensures Grew(t, Spec.AddDeltas(t, Banked(seen, conns)), seen, conns)
  {
    forall r, d
      ensures AmountIn(Spec.AddDeltas(t, Banked(seen, conns)).rows, r).Get(d)
              == AmountIn(t.rows, r).Get(d)
                 + (if One(r) in t.tombs || Whole(r.provider) in t.tombs then 0
                    else DeltaFor(seen, conns, r, d, |conns|))
    {
      AddDeltasIsSafe(t, Banked(seen, conns), r);
      BankedAmount(seen, conns, r, d);
    }
  }

  /** What is reported as banked: each channel's increments, channels without any left out. */
  ghost predicate Told(m: map<Ref, Bytes>, seen: map<string, Bytes>, conns: seq<Conn>) {
    && (forall r, d :: AmountIn(m, r).Get(d) == DeltaFor(seen, conns, r, d, |conns|))
    && (forall r <- m.Keys :: m[r].up != 0 || m[r].down != 0)
  }

  ghost predicate NothingGrew(seen: map<string, Bytes>, conns: seq<Conn>) {
    forall r, d :: DeltaFor(seen, conns, r, d, |conns|) == 0
  }

  lemma {:induction false} BankedIsTold(seen: map<string, Bytes>, conns: seq<Conn>)
    ensures Told(Banked(seen, conns), seen, conns)
    ensures Banked(seen, conns) == map[] <==> NothingGrew(seen, conns)
  {
    var m := Banked(seen, conns);
    forall r, d ensures AmountIn(m, r).Get(d) == DeltaFor(seen, conns, r, d, |conns|) {
      BankedAmount(seen, conns, r, d);
    }
    if NothingGrew(seen, conns) {
      forall r ensures r !in m {
        assert DeltaFor(seen, conns, r, Up, |conns|) == 0 && DeltaFor(seen, conns, r, Down, |conns|) == 0;
        assert AmountIn(m, r).Get(Up) == 0 && AmountIn(m, r).Get(Down) == 0;
      }
    }
  }

  /** What one observation does. Without a snapshot, or when the write it needs is refused, nothing; the first snapshot
      of a generation only sets the watermarks; any other also banks and reports what grew. */
  ghost predicate Observed(w: Watch, t: Totals, sample: Sample, after: Watch, totals: Totals,
                           r: Result<map<Ref, Bytes>, string>) {
    if sample.conns.None? then after == w && totals == t && r == Ok(map[])
    else if w.generation != Sampled(sample.generation) then
      && after.generation == Sampled(sample.generation) && Marks(after.seen, sample.conns.value)
      && totals == t && r == Ok(map[])
    else if sample.writable || NothingGrew(w.seen, sample.conns.value) then
      && after.generation == w.generation && Marks(after.seen, sample.conns.value)
      && Grew(t, totals, w.seen, sample.conns.value)
      && r.Ok? && Told(r.value, w.seen, sample.conns.value)
    else after == w && totals == t && r.Err?
  }

  lemma {:induction false} ObservedMeans(w: Watch, t: Totals, sample: Sample)
    requires NoGhostRows(t)
    ensures forall r: Result<map<Ref, Bytes>, string> ::
              (r.Ok? <==> sample.conns.None? || Commits(w, sample)) && (r.Ok? ==> r.value == BankedBy(w, sample)) ==>
                Observed(w, t, sample, WatchAfter(w, sample), Spec.AddDeltas(t, BankedBy(w, sample)), r)
  {
    assert Spec.AddDeltas(t, map[]).rows == t.rows;
    if sample.conns.Some? {
      var conns := sample.conns.value;
      WatermarksMark(conns, |conns|);
      assert conns[..|conns|] == conns;
      BankingGrows(t, w.seen, conns);
      BankedIsTold(w.seen, conns);
    }
  }

  class Database {
    var totals: Totals

    ghost predicate Valid()
      reads this
    {
      NoGhostRows(totals)
    }

    constructor ()
      ensures Valid() && totals == Totals(map[], {})
    {
      totals := Totals(map[], {});
    }

    /** Folds one sample in; rows of removed channels are left out. */
    method AddDeltas(deltas: map<Ref, Bytes>)
      requires Valid()
      modifies this
      ensures Valid() && totals == Spec.AddDeltas(old(totals), deltas)
    {
      var rows := totals.rows;
      var rest := deltas.Keys;
      while rest != {}
        invariant rest <= deltas.Keys && totals == old(totals)
        invariant Folded(rows, totals, deltas, deltas.Keys - rest)
        decreases |rest|
      {
        var r :| r in rest;
        FoldOne(rows, totals, deltas, deltas.Keys - rest, r);
        assert deltas.Keys - (rest - {r}) == (deltas.Keys - rest) + {r};
        if deltas[r] != NOTHING && !Tombstoned(totals.tombs, r) {
          rows := rows[r := AmountIn(rows, r).Plus(deltas[r])];
        }
        rest := rest - {r};
      }
      assert deltas.Keys - rest == deltas.Keys;
      FoldedAll(rows, totals, deltas);
      AddDeltasIsSafe(totals, deltas, Ref("", ""));
      totals := totals.(rows := rows);
    }

    method RemoveChannel(r: Ref)
      requires Valid()
      modifies this
      ensures Valid() && totals == Spec.RemoveChannel(old(totals), r) && Tombstoned(totals.tombs, r)
      ensures totals.rows == old(totals.rows) - {r} && totals.tombs == old(totals.tombs) + {One(r)}
    {
      totals := totals.(rows := totals.rows - {r});
      totals := totals.(tombs := totals.tombs + {One(r)});
    }

    method RemoveProvider(p: string)
      requires Valid()
      modifies this
      ensures Valid() && totals == Spec.RemoveProvider(old(totals), p)
      ensures forall c :: Tombstoned(totals.tombs, Ref(p, c))
      ensures forall r :: r in totals.rows <==> r in old(totals.rows) && r.provider != p
      ensures forall r <- totals.rows.Keys :: totals.rows[r] == old(totals.rows)[r]
      ensures forall q :: Whole(q) in totals.tombs <==> q == p || Whole(q) in old(totals.tombs)
      ensures forall r :: One(r) in totals.tombs <==> One(r) in old(totals.tombs) && r.provider != p
    {
      totals := totals.(rows := totals.rows - RowsOf(totals.rows, p));
      totals := totals.(tombs := totals.tombs - TombsOf(totals.tombs, p));
      totals := totals.(tombs := totals.tombs + {Whole(p)});
    }

    method ReviveChannel(r: Ref)
      requires Valid()
      modifies this
      ensures Valid() && totals == Spec.ReviveChannel(old(totals), r)
      ensures totals.rows == old(totals.rows) && totals.tombs == old(totals.tombs) - {One(r)}
    {
      totals := totals.(tombs := totals.tombs - {One(r)});
    }

    method ReviveProvider(p: string)
      requires Valid()
      modifies this
      ensures Valid() && totals == Spec.ReviveProvider(old(totals), p)
      ensures totals.rows == old(totals.rows) && totals.tombs == old(totals.tombs) - {Whole(p)}
    {
      totals := totals.(tombs := totals.tombs - {Whole(p)});
    }

    method RemoveProviders(gone: seq<string>)
      requires Valid()
      modifies this
      ensures Valid() && totals == Gone(old(totals), SetOfNames(gone))
    {
      assert Gone(totals, {}) == totals;
      for i := 0 to |gone|
        invariant Valid() && totals == Gone(old(totals), SetOfNames(gone[..i]))
      {
        GoneOneMore(old(totals), SetOfNames(gone[..i]), gone[i]);
        assert SetOfNames(gone[..i + 1]) == SetOfNames(gone[..i]) + {gone[i]};
        RemoveProvider(gone[i]);
      }
      assert gone[..|gone|] == gone;
    }

    /** Channels of a provider that went as a whole are skipped. */
    method RemoveChannels(removed: seq<Ref>, gone: set<string>)
      requires Valid()
      modifies this
      ensures Valid() && totals == ChannelsGone(old(totals), SetOfRefs(removed), gone)
    {
      for i := 0 to |removed|
        invariant Valid() && totals == ChannelsGone(old(totals), SetOfRefs(removed[..i]), gone)
      {
        assert SetOfRefs(removed[..i + 1]) == SetOfRefs(removed[..i]) + {removed[i]};
        if removed[i].provider !in gone {
          RemoveChannel(removed[i]);
        }
      }
      assert removed[..|removed|] == removed;
    }

    method ReviveProviders(back: seq<string>)
      requires Valid()
      modifies this
      ensures Valid() && totals == ProvidersBack(old(totals), SetOfNames(back))
    {
      for i := 0 to |back|
        invariant Valid() && totals == ProvidersBack(old(totals), SetOfNames(back[..i]))
      {
        assert SetOfNames(back[..i + 1]) == SetOfNames(back[..i]) + {back[i]};
        ReviveProvider(back[i]);
      }
      assert back[..|back|] == back;
    }

    method ReviveChannels(revived: seq<Ref>)
      requires Valid()
      modifies this
      ensures Valid() && totals == ChannelsBack(old(totals), SetOfRefs(revived))
    {
      for i := 0 to |revived|
        invariant Valid() && totals == ChannelsBack(old(totals), SetOfRefs(revived[..i]))
      {
        assert SetOfRefs(revived[..i + 1]) == SetOfRefs(revived[..i]) + {revived[i]};
        ReviveChannel(revived[i]);
      }
      assert revived[..|revived|] == revived;
    }

    /** One transaction: removals, then revivals. */
    method ReconcileTombstones(gone: seq<string>, removed: seq<Ref>, back: seq<string>, revived: seq<Ref>)
      requires Valid()
      modifies this
      ensures Valid()
      ensures totals == Reconciled(old(totals), SetOfNames(gone), SetOfRefs(removed), SetOfNames(back),
                                   SetOfRefs(revived))
      ensures RowsAfter(old(totals), totals, gone, removed)
      ensures TombsAfter(old(totals), totals, gone, removed, back, revived)
    {
      ReconciledMeans(totals, gone, removed, back, revived);
      FourSteps(totals, SetOfNames(gone), SetOfRefs(removed), SetOfNames(back), SetOfRefs(revived));
      RemoveProviders(gone);
      RemoveChannels(removed, SetOfNames(gone));
      ReviveProviders(back);
      ReviveChannels(revived);
    }
  }

  /** The first snapshot of a generation is only remembered. */
  method ReadBaseline(conns: seq<Conn>) returns (candidate: map<string, Bytes>)
    ensures candidate == Watermarks(conns, |conns|)
  {
    candidate := map[];
    for i := 0 to |conns|
      invariant candidate == Watermarks(conns, i)
    {
      if conns[i].Counted() {
        candidate := candidate[conns[i].id := conns[i].counter];
      }
    }
  }

  /** Any other is compared with what is remembered. */
  method ReadCounters(seen: map<string, Bytes>, conns: seq<Conn>)
    returns (candidate: map<string, Bytes>, deltas: map<Ref, Bytes>)
    ensures candidate == Watermarks(conns, |conns|) && deltas == Deltas(seen, conns, |conns|)
  {
    candidate, deltas := map[], map[];
    for i := 0 to |conns|
      invariant candidate == Watermarks(conns, i) && deltas == Deltas(seen, conns, i)
    {
      var c := conns[i];
      if !c.Counted() {
        continue;
      }
      var last := if c.id in seen then seen[c.id] else NOTHING;
      var up := if c.counter.up >= last.up then c.counter.up - last.up else c.counter.up;
      var down := if c.counter.down >= last.down then c.counter.down - last.down else c.counter.down;
      candidate := candidate[c.id := c.counter];
      deltas := deltas[c.ref.value := AmountIn(deltas, c.ref.value).Plus(Bytes(up, down))];
    }
  }

  class Accumulator {
    var seen: map<string, Bytes>
    var generation: Generation

    constructor ()
      ensures Now() == FRESH
    {
      seen := map[];
      generation := Unstarted;
    }

    function Now(): Watch
      reads this
    {
      Watch(seen, generation)
    }

    /** `observe`: `Err` stands for a database that refused the write; watermarks then stay where they were. */
    method Observe(db: Database, sample: Sample) returns (r: Result<map<Ref, Bytes>, string>)
      requires db.Valid()
      modifies this, db
      ensures db.Valid()
      ensures Now() == WatchAfter(old(Now()), sample)
      ensures db.totals == Spec.AddDeltas(old(db.totals), BankedBy(old(Now()), sample))
      ensures r.Ok? <==> sample.conns.None? || Commits(old(Now()), sample)
      ensures r.Ok? ==> r.value == BankedBy(old(Now()), sample)
      ensures Observed(old(Now()), old(db.totals), sample, Now(), db.totals, r)
    {
      ObservedMeans(Now(), db.totals, sample);
      assert Spec.AddDeltas(db.totals, map[]).rows == db.totals.rows;
      if sample.conns.None? {
        return Ok(map[]);
      }
      var conns := sample.conns.value;
      if Sampled(sample.generation) != generation {
        var baseline := ReadBaseline(conns);
        generation, seen := Sampled(sample.generation), baseline;
        return Ok(map[]);
      }
      var candidate, deltas := ReadCounters(seen, conns);
      var banked := NonZero(deltas);
      if banked != map[] {
        if !sample.writable {
          return Err("database is locked");
        }
        db.AddDeltas(banked);
      }
      seen := candidate;
      r := Ok(banked);
    }
  }
}
