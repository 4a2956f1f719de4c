/** Durable traffic totals from sampled per-connection counters: what one snapshot banks, and what a run adds up to. */
module Traffic {
  import opened Common
  import opened State

  datatype Direction = Up | Down
  datatype Bytes = Bytes(up: nat, down: nat)
  {
    function Get(d: Direction): nat {
      if d == Up then up else down
    }

    function Plus(b: Bytes): Bytes {
      Bytes(up + b.up, down + b.down)
    }
  }

  const NOTHING := Bytes(0, 0)

  /** One live connection of a snapshot; `ref` is the channel its chain ends in, if any. */
  datatype Conn = Conn(id: string, ref: Option<Ref>, counter: Bytes)
  {
    predicate Counted() {
      id != "" && ref.Some?
    }
  }

  /** The sing-box instance the watermarks belong to; before the first snapshot there is none. */
  datatype Generation = Unstarted | Sampled(name: Option<string>)

  datatype Watch = Watch(seen: map<string, Bytes>, generation: Generation)

  const FRESH := Watch(map[], Unstarted)

  // ---- one snapshot ----

  /** The counters of the first `n` connections, the later of two equal ids winning. */
  function Watermarks(conns: seq<Conn>, n: nat): map<string, Bytes>
    requires n <= |conns|
  {
    if n == 0 then map[]
    else
      var c := conns[n - 1];
      if c.Counted() then Watermarks(conns, n - 1)[c.id := c.counter] else Watermarks(conns, n - 1)
  }

  function Grown(last: nat, now: nat): nat {
    if now >= last then now - last else now
  }

  function Delta(seen: map<string, Bytes>, c: Conn): Bytes {
    var last := if c.id in seen then seen[c.id] else NOTHING;
    Bytes(Grown(last.up, c.counter.up), Grown(last.down, c.counter.down))
  }

  /** The increments of the first `n` connections, summed per channel. */
  function Deltas(seen: map<string, Bytes>, conns: seq<Conn>, n: nat): map<Ref, Bytes>
    requires n <= |conns|
  {
    if n == 0 then map[]
    else
      var before := Deltas(seen, conns, n - 1);
      var c := conns[n - 1];
      if !c.Counted() then before
      else before[c.ref.value := AmountIn(before, c.ref.value).Plus(Delta(seen, c))]
  }

  function AmountIn(m: map<Ref, Bytes>, r: Ref): Bytes {
    if r in m then m[r] else NOTHING
  }

  function NonZero(m: map<Ref, Bytes>): map<Ref, Bytes> {
    map r | r in m && m[r] != NOTHING :: m[r]
  }

  /** What one good snapshot banks. */
  function Banked(seen: map<string, Bytes>, conns: seq<Conn>): map<Ref, Bytes> {
    NonZero(Deltas(seen, conns, |conns|))
  }

  // ---- the database ----

  /** A tombstone covers one channel or a whole provider. */
  datatype Tomb = One(ref: Ref) | Whole(provider: string)

  datatype Totals = Totals(rows: map<Ref, Bytes>, tombs: set<Tomb>)

  predicate Tombstoned(tombs: set<Tomb>, r: Ref) {
    One(r) in tombs || Whole(r.provider) in tombs
  }

  /** Deleted rows stay deleted. */
  ghost predicate NoGhostRows(t: Totals) {
    forall r <- t.rows.Keys :: !Tombstoned(t.tombs, r)
  }

  /** `add_deltas` committed. */
  function AddDeltas(t: Totals, deltas: map<Ref, Bytes>): Totals {
    var live := map r | r in deltas && deltas[r] != NOTHING
        && !Tombstoned(t.tombs, r) :: AmountIn(t.rows, r).Plus(deltas[r]);
    t.(rows := t.rows + live)
  }

  function RemoveChannel(t: Totals, r: Ref): Totals {
    Totals(t.rows - {r}, t.tombs + {One(r)})
  }

  function RowsOf(rows: map<Ref, Bytes>, provider: string): set<Ref> {
    set r | r in rows && r.provider == provider
  }

  function TombsOf(tombs: set<Tomb>, provider: string): set<Tomb> {
    set t | t in tombs && (if t.One? then t.ref.provider == provider else t.provider == provider)
  }

  function RemoveProvider(t: Totals, p: string): Totals {
    Totals(t.rows - RowsOf(t.rows, p), t.tombs - TombsOf(t.tombs, p) + {Whole(p)})
  }

  function ReviveChannel(t: Totals, r: Ref): Totals {
    t.(tombs := t.tombs - {One(r)})
  }

  function ReviveProvider(t: Totals, p: string): Totals {
    t.(tombs := t.tombs - {Whole(p)})
  }

  lemma {:induction false} RemovalsKeepNoGhosts(t: Totals, r: Ref, p: string)
    requires NoGhostRows(t)
    ensures NoGhostRows(RemoveChannel(t, r)) && NoGhostRows(RemoveProvider(t, p))
    ensures NoGhostRows(ReviveChannel(t, r)) && NoGhostRows(ReviveProvider(t, p))
    ensures Tombstoned(RemoveChannel(t, r).tombs, r) && forall c :: Tombstoned(RemoveProvider(t, p).tombs, Ref(p, c))
  {
  }

  /** Banking never revives a removed channel and never lowers a total. */
  lemma {:induction false} AddDeltasIsSafe(t: Totals, deltas: map<Ref, Bytes>, r: Ref)
    requires NoGhostRows(t)
    ensures NoGhostRows(AddDeltas(t, deltas))
    ensures r in t.rows ==> r in AddDeltas(t, deltas).rows
    ensures forall d :: AmountIn(AddDeltas(t, deltas).rows, r).Get(d)
                        == AmountIn(t.rows, r).Get(d)
                           + (if Tombstoned(t.tombs, r) then 0 else AmountIn(deltas, r).Get(d))
  {
  }

  // ---- one observation ----

  /** A sample: the snapshot, or `None` when it could not be read, and whether the database would take a write. */
  datatype Sample = Sample(conns: Option<seq<Conn>>, generation: Option<string>, writable: bool)

  /** The observation took effect: a good snapshot that had nothing to write, or could write it. */
  predicate Commits(w: Watch, s: Sample) {
    s.conns.Some?
    && (Sampled(s.generation) != w.generation || s.writable || Banked(w.seen, s.conns.value) == map[])
  }

  function WatchAfter(w: Watch, s: Sample): Watch {
    if !Commits(w, s) then w else Watch(Watermarks(s.conns.value, |s.conns.value|), Sampled(s.generation))
  }

  function BankedBy(w: Watch, s: Sample): map<Ref, Bytes> {
    if !Commits(w, s) || Sampled(s.generation) != w.generation then map[] else Banked(w.seen, s.conns.value)
  }

  // ---- runs within one generation ----

  function WatchRun(w: Watch, samples: seq<Sample>): Watch {
    if samples == [] then w else WatchAfter(WatchRun(w, samples[..|samples| - 1]), samples[|samples| - 1])
  }

  function TotalsRun(w: Watch, t: Totals, samples: seq<Sample>): Totals {
    if samples == [] then t
    else
      var front := samples[..|samples| - 1];
      AddDeltas(TotalsRun(w, t, front), BankedBy(WatchRun(w, front), samples[|samples| - 1]))
  }

  /** The snapshots that took effect, in order. */
  function Taken(w: Watch, samples: seq<Sample>): seq<seq<Conn>> {
    if samples == [] then []
    else
      var front, last := samples[..|samples| - 1], samples[|samples| - 1];
      Taken(w, front) + (if Commits(WatchRun(w, front), last) then [last.conns.value] else [])
  }

  /** The increments of channel `r` in one snapshot against given watermarks. */
  function DeltaFor(seen: map<string, Bytes>, conns: seq<Conn>, r: Ref, d: Direction, n: nat): nat
    requires n <= |conns|
  {
    if n == 0 then 0
    else DeltaFor(seen, conns, r, d, n - 1)
         + (if conns[n - 1].Counted() && conns[n - 1].ref.value == r then Delta(seen, conns[n - 1]).Get(d) else 0)
  }

  /** The increments of channel `r` over consecutive snapshots, the first being the baseline. */
  function Increments(snaps: seq<seq<Conn>>, r: Ref, d: Direction): nat {
    if |snaps| <= 1 then 0
    else
      var prev, last := snaps[|snaps| - 2], snaps[|snaps| - 1];
      Increments(snaps[..|snaps| - 1], r, d) + DeltaFor(Watermarks(prev, |prev|), last, r, d, |last|)
  }

  lemma {:induction false} DeltasSum(seen: map<string, Bytes>, conns: seq<Conn>, r: Ref, d: Direction, n: nat)
    requires n <= |conns|
    ensures AmountIn(Deltas(seen, conns, n), r).Get(d) == DeltaFor(seen, conns, r, d, n)
  {
    if n != 0 {
      DeltasSum(seen, conns, r, d, n - 1);
    }
  }

  /** The watermarks are those of the last snapshot that took effect. */
  lemma {:induction false} RunWatches(w: Watch, samples: seq<Sample>, g: Option<string>)
    requires w.generation != Sampled(g) && forall i :: 0 <= i < |samples| ==> samples[i].generation == g
    ensures var snaps := Taken(w, samples);
            if snaps == [] then WatchRun(w, samples) == w
            else WatchRun(w, samples) == Watch(Watermarks(snaps[|snaps| - 1], |snaps[|snaps| - 1]|), Sampled(g))
  {
    if samples != [] {
      RunWatches(w, samples[..|samples| - 1], g);
    }
  }

  lemma {:induction false} BankedAmount(seen: map<string, Bytes>, conns: seq<Conn>, r: Ref, d: Direction)
    ensures AmountIn(Banked(seen, conns), r).Get(d) == DeltaFor(seen, conns, r, d, |conns|)
  {
    DeltasSum(seen, conns, r, d, |conns|);
    assert AmountIn(Banked(seen, conns), r) == AmountIn(Deltas(seen, conns, |conns|), r);
  }

  lemma {:induction false} IncrementsNext(snaps: seq<seq<Conn>>, next: seq<Conn>, r: Ref, d: Direction)
    ensures Increments(snaps + [next], r, d)
            == if snaps == [] then 0
               else
                 Increments(snaps, r, d)
                 + DeltaFor(Watermarks(snaps[|snaps| - 1], |snaps[|snaps| - 1]|), next, r, d, |next|)
  {
    assert (snaps + [next])[..|snaps|] == snaps;
  }

  /** In one generation, after a first baseline, the database gains exactly the increments of the snapshots that
      took effect; failed samples and failed writes change nothing. */
  lemma {:induction false} RunBanksIncrements(w: Watch, t: Totals, samples: seq<Sample>, g: Option<string>, r: Ref,
                                              d: Direction)
    requires w.generation != Sampled(g) && NoGhostRows(t) && !Tombstoned(t.tombs, r)
    requires forall i :: 0 <= i < |samples| ==> samples[i].generation == g
    ensures NoGhostRows(TotalsRun(w, t, samples)) && TotalsRun(w, t, samples).tombs == t.tombs
    ensures AmountIn(TotalsRun(w, t, samples).rows, r).Get(d)
            == AmountIn(t.rows, r).Get(d) + Increments(Taken(w, samples), r, d)
  {
    if samples != [] {
      var front, last := samples[..|samples| - 1], samples[|samples| - 1];
      RunBanksIncrements(w, t, front, g, r, d);
      RunWatches(w, front, g);
      var before, snaps := WatchRun(w, front), Taken(w, front);
      AddDeltasIsSafe(TotalsRun(w, t, front), BankedBy(before, last), r);
      if Commits(before, last) {
        IncrementsNext(snaps, last.conns.value, r, d);
        BankedAmount(before.seen, last.conns.value, r, d);
        assert Taken(w, samples) == snaps + [last.conns.value];
        assert snaps == [] ==> BankedBy(before, last) == map[];
        assert snaps != [] ==> BankedBy(before, last) == Banked(before.seen, last.conns.value);
      } else {
        assert Taken(w, samples) == snaps && BankedBy(before, last) == map[];
      }
    }
  }
}
