/** How long probing takes: one channel inside its own deadline, and a pool of workers over all of them. */
module ProbePool {
  import opened Common

  const CHANNEL_DEADLINE := 15.0
  const PROBE_POOL_SIZE: nat := 8
  const PROBE_PASS_DEADLINE := 60.0
  const IP_SOURCES: nat := 3
  const IPV6_SOURCES: nat := 2

  // ---- one channel ----

  /** What asking one source came to. An address has already been checked to be public. */
  datatype Outcome = Refused | TimedOut | OtherError | NoAddress | Address(ip: string)
  datatype Reply = Reply(elapsed: real, outcome: Outcome)

  /** The network: what source `i` answers when given a timeout. */
  type Net = (nat, real) -> Reply

  /** Every open honours the timeout it is given. */
  ghost predicate Honours(net: Net) {
    forall i: nat, t: real :: t > 0.0 ==> 0.0 <= net(i, t).elapsed <= t
  }

  function Least(a: real, b: real): real {
    if a <= b then a else b
  }

  predicate IsV6(ip: string) {
    exists i :: 0 <= i < |ip| && ip[i] == ':'
  }

  // ---- what was asked and answered ----

  /** The replies of the sources asked so far, in order. */
  datatype Log = Nothing | Then(before: Log, last: Reply)

  function Asks(l: Log): nat {
    if l.Nothing? then 0 else Asks(l.before) + 1
  }

  function Spent(l: Log): real {
    if l.Nothing? then 0.0 else Spent(l.before) + l.last.elapsed
  }

  /** The sources were asked in order, each once, each with the timeout cut to what was left of the budget. */
  ghost predicate Asked(net: Net, timeout: real, budget: real, l: Log) {
    l.Nothing?
    || (var left := budget - Spent(l.before);
        && Asked(net, timeout, budget, l.before) && left > 0.0
        && l.last == net(Asks(l.before), if timeout <= left then timeout else left))
  }

  predicate GivesAddress(l: Log) {
    l.Then? && (GivesAddress(l.before) || l.last.outcome.Address?)
  }

  predicate Refuses(l: Log) {
    l.Then? && (Refuses(l.before) || l.last.outcome == Refused)
  }

  predicate TimesOut(l: Log) {
    l.Then? && (TimesOut(l.before) || l.last.outcome == TimedOut)
  }

  /** Some source answered without a valid address before any had timed out. */
  predicate AnswersBadlyFirst(l: Log) {
    l.Then? && (AnswersBadlyFirst(l.before) || (l.last.outcome == NoAddress && !TimesOut(l.before)))
  }

  predicate GivesV6(l: Log) {
    l.Then? && (GivesV6(l.before) || (l.last.outcome.Address? && ':' in l.last.outcome.ip))
  }

  /** The answer is the first IPv6 address among the replies; there is none only if neither source gave one in time. */
  ghost predicate FirstV6(l: Log, budget: real, ip: Option<string>) {
    match ip
    case Some(x) => l.Then? && !GivesV6(l.before) && l.last.outcome == Address(x) && ':' in x
    case None => !GivesV6(l) && (Asks(l) == 2 || Spent(l) >= budget)
  }

  /** `probe_ipv6`: the address, if any, and the time it took. */
  method ProbeIpv6(net: Net, timeout: real, budget: real) returns (ip: Option<string>, elapsed: real, ghost log: Log)
    requires Honours(net) && timeout > 0.0
    ensures 0.0 <= elapsed && (elapsed <= budget || elapsed == 0.0)
    ensures Asked(net, timeout, budget, log) && elapsed == Spent(log)
    ensures FirstV6(log, budget, ip)
  {
    elapsed := 0.0;
    log := Nothing;
    for i := 0 to IPV6_SOURCES
      invariant 0.0 <= elapsed && (elapsed <= budget || elapsed == 0.0)
      invariant Asks(log) == i && Asked(net, timeout, budget, log) && elapsed == Spent(log) && !GivesV6(log)
    {
      var remaining := budget - elapsed;
      if remaining <= 0.0 {
        return None, elapsed, log;
      }
      var reply := net(i, Least(timeout, remaining));
      elapsed := elapsed + reply.elapsed;
      log := Then(log, reply);
      if reply.outcome.Address? && IsV6(reply.outcome.ip) {
        return Some(reply.outcome.ip), elapsed, log;
      }
    }
    ip := None;
  }

  datatype Error = ProxyClosed | Timeout | NoValidIp
  datatype Verdict = Healthy(ip: string, ipv6: Option<string>) | Unhealthy(error: Error)

  /** What a failed source suggests about the channel. */
  function Suggests(o: Outcome): Option<Error> {
    match o
    case Refused => Some(ProxyClosed)
    case TimedOut => Some(Timeout)
    case NoAddress => Some(NoValidIp)
    case _ => None
  }

  /** The dominant cause. A closed port settles it. Else, if a source answered without a valid address before any timed
      out, there is no valid address; everything else is a timeout. */
  function Blames(l: Log): Error {
    if Refuses(l) then ProxyClosed else if AnswersBadlyFirst(l) then NoValidIp else Timeout
  }

  /** What the loop remembers of the causes so far. */
  ghost predicate Remembers(l: Log, mode: Option<Error>) {
    match mode
    case Some(e) => e == Blames(l) && (Refuses(l) || AnswersBadlyFirst(l) || TimesOut(l))
    case None => !Refuses(l) && !AnswersBadlyFirst(l) && !TimesOut(l)
  }

  lemma {:induction false} RememberOne(l: Log, mode: Option<Error>, r: Reply)
    requires Remembers(l, mode) && !r.outcome.Address?
    ensures Remembers(Then(l, r), if r.outcome.Refused? then Some(ProxyClosed) else if mode.Some? then mode
                                                                                  else Suggests(r.outcome))
  {
  }

  ghost predicate NothingUseful(net: Net, timeout: real, deadline: real, l: Log, mode: Option<Error>, elapsed: real) {
    Asked(net, timeout, deadline, l) && elapsed == Spent(l) && !GivesAddress(l) && Remembers(l, mode)
  }

  lemma {:induction false} OneMoreUseless(net: Net, timeout: real, deadline: real, l: Log, mode: Option<Error>,
                                          elapsed: real, r: Reply)
    requires NothingUseful(net, timeout, deadline, l, mode, elapsed) && elapsed < deadline && !r.outcome.Address?
    requires r == net(Asks(l), Least(timeout, deadline - elapsed))
    ensures NothingUseful(net, timeout, deadline, Then(l, r),
                          if r.outcome.Refused? then Some(ProxyClosed) else if mode.Some? then mode
                          else Suggests(r.outcome),
                          elapsed + r.elapsed)
  {
    RememberOne(l, mode, r);
  }

  /** One probe of one channel: what its sources answered, and what its IPv6 sources did. */
  datatype Trace = Trace(log: Log, log6: Log)

  /** A channel's network: its address sources, its IPv6 sources, and whether it carries IPv6. */
  datatype Line = Line(net: Net, net6: Net, ipv6: bool)

  /** The supplementary lookup, only for a line that carries IPv6 and within what is left of the one budget. */
  ghost predicate LookedUp(line: Line, timeout6: real, left: real, v6: Option<string>, log6: Log) {
    if line.ipv6 then Asked(line.net6, timeout6, left, log6) && FirstV6(log6, left, v6)
    else log6 == Nothing && v6 == None
  }

  method LookUp(line: Line, timeout6: real, left: real) returns (v6: Option<string>, cost: real, ghost log6: Log)
    requires Honours(line.net6) && timeout6 > 0.0
    ensures 0.0 <= cost && (cost <= left || cost == 0.0) && cost == Spent(log6)
    ensures LookedUp(line, timeout6, left, v6, log6)
  {
    v6, cost, log6 := None, 0.0, Nothing;
    if line.ipv6 {
      v6, cost, log6 := ProbeIpv6(line.net6, timeout6, left);
    }
  }

  /** What a verdict says about what the network answered: the first address, or why there is none. */
  ghost predicate Reports(line: Line, timeout: real, timeout6: real, deadline: real, verdict: Verdict, t: Trace,
                          elapsed: real) {
    && Asked(line.net, timeout, deadline, t.log)
    && elapsed == Spent(t.log) + Spent(t.log6)
    && match verdict
       case Healthy(ip, v6) =>
         && t.log.Then? && !GivesAddress(t.log.before) && t.log.last.outcome == Address(ip)
         && LookedUp(line, timeout6, deadline - Spent(t.log), v6, t.log6)
       case Unhealthy(error) =>
         && !GivesAddress(t.log) && (Asks(t.log) == 3 || Spent(t.log) == deadline)
         && error == Blames(t.log) && t.log6 == Nothing
  }

  /** `probe_channel`: sources in order until one yields an address, everything inside the one deadline. */
  method ProbeChannel(line: Line, timeout: real, timeout6: real, deadline: real)
    returns (verdict: Verdict, elapsed: real, ghost trace: Trace)
    requires Honours(line.net) && Honours(line.net6) && timeout > 0.0 && timeout6 > 0.0 && deadline > 0.0
    ensures 0.0 <= elapsed <= deadline
    ensures Reports(line, timeout, timeout6, deadline, verdict, trace, elapsed)
  {
    elapsed := 0.0;
    ghost var log := Nothing;
    var mode: Option<Error> := None;
    var spent := false;
    var i := 0;
    while i < IP_SOURCES && !spent
      invariant 0 <= i <= IP_SOURCES && 0.0 <= elapsed <= deadline
      invariant Asks(log) == i && NothingUseful(line.net, timeout, deadline, log, mode, elapsed)
      invariant spent ==> elapsed == deadline
      decreases IP_SOURCES - i, !spent
    {
      var remaining := deadline - elapsed;
      if remaining <= 0.0 {
        spent := true;
        continue;
      }
      var reply := line.net(i, Least(timeout, remaining));
      if reply.outcome.Address? {
        var v6, cost, log6 := LookUp(line, timeout6, deadline - (elapsed + reply.elapsed));
        return Healthy(reply.outcome.ip, v6), elapsed + reply.elapsed + cost, Trace(Then(log, reply), log6);
      }
      OneMoreUseless(line.net, timeout, deadline, log, mode, elapsed, reply);
      elapsed := elapsed + reply.elapsed;
      log := Then(log, reply);
      if reply.outcome.Refused? {
        mode := Some(ProxyClosed);
      } else if mode.None? {
        mode := Suggests(reply.outcome);
      }
      i := i + 1;
    }
    verdict := Unhealthy(if mode.Some? then mode.value else Timeout);
    trace := Trace(log, Nothing);
  }

  // ---- the pool ----

  function CountAbove(free: seq<real>, t: real): nat {
    if free == [] then 0 else CountAbove(free[..|free| - 1], t) + (if free[|free| - 1] > t then 1 else 0)
  }

  lemma {:induction false} CountUpdate(free: seq<real>, w: nat, x: real, t: real)
    requires w < |free|
    ensures CountAbove(free[w := x], t)
            == CountAbove(free, t) - (if free[w] > t then 1 else 0) + (if x > t then 1 else 0)
  {
    if w == |free| - 1 {
      assert free[w := x][..w] == free[..w];
    } else {
      assert free[w := x][..|free| - 1] == free[..|free| - 1][w := x];
      CountUpdate(free[..|free| - 1], w, x, t);
    }
  }

  lemma {:induction false} CountAll(free: seq<real>, t: real)
    requires forall i :: 0 <= i < |free| ==> free[i] > t
    ensures CountAbove(free, t) == |free|
  {
    if free != [] {
      CountAll(free[..|free| - 1], t);
    }
  }

  lemma {:induction false} CountNone(free: seq<real>, t: real)
    requires CountAbove(free, t) == 0
    ensures forall i :: 0 <= i < |free| ==> free[i] <= t
  {
    if free != [] {
      CountNone(free[..|free| - 1], t);
      forall i | 0 <= i < |free| ensures free[i] <= t {
        if i < |free| - 1 {
          assert free[..|free| - 1][i] == free[i];
        }
      }
    }
  }

  lemma {:induction false} CountZeros(free: seq<real>, t: real)
    requires t >= 0.0 && forall i :: 0 <= i < |free| ==> free[i] == 0.0
    ensures CountAbove(free, t) == 0
  {
    if free != [] {
      CountZeros(free[..|free| - 1], t);
    }
  }

  function Rounds(k: nat, d: real): real {
    (k as real) * d
  }

  lemma {:induction false} RoundsNext(k: nat, d: real)
    ensures Rounds(k + 1, d) == Rounds(k, d) + d
  {
    assert (k + 1) as real == k as real + 1.0;
  }

  /** After `i` jobs: at most `i - k*m` of the `m` workers are busy beyond `k` deadlines. */
  ghost predicate Packed(free: seq<real>, i: nat, d: real) {
    forall k: nat :: CountAbove(free, Rounds(k, d)) <= (if i > k * |free| then i - k * |free| else 0)
  }

  lemma {:induction false} PackedOne(free: seq<real>, i: nat, d: real, w: nat, took: real, k: nat)
    requires free != [] && w < |free| && forall v :: 0 <= v < |free| ==> free[w] <= free[v]
    requires Packed(free, i, d) && 0.0 <= took <= d && forall v :: 0 <= v < |free| ==> free[v] >= 0.0
    ensures CountAbove(free[w := free[w] + took], Rounds(k, d)) <= (if i + 1 > k * |free| then i + 1 - k * |free|
          else 0)
  {
    CountUpdate(free, w, free[w] + took, Rounds(k, d));
    if free[w] + took > Rounds(k, d) && free[w] <= Rounds(k, d) && k > 0 {
      RoundsNext(k - 1, d);
      CountAll(free, Rounds(k - 1, d));
      assert (k - 1) * |free| == k * |free| - |free|;
    }
  }

  lemma {:induction false} PackedNext(free: seq<real>, i: nat, d: real, w: nat, took: real)
    requires free != [] && w < |free| && forall v :: 0 <= v < |free| ==> free[w] <= free[v]
    requires Packed(free, i, d) && 0.0 <= took <= d && forall v :: 0 <= v < |free| ==> free[v] >= 0.0
    ensures Packed(free[w := free[w] + took], i + 1, d)
  {
    forall k: nat
      ensures CountAbove(free[w := free[w] + took], Rounds(k, d)) <= (if i + 1 > k * |free| then i + 1 - k * |free|
            else 0)
    {
      PackedOne(free, i, d, w, took, k);
    }
  }

  function CeilDiv(n: nat, m: nat): (q: nat)
    requires m > 0
    ensures q * m >= n && (q > 0 ==> (q - 1) * m < n)
  {
    if n == 0 then 0 else if n <= m then 1 else 1 + CeilDiv(n - m, m)
  }

  lemma {:induction false} AllDone(free: seq<real>, i: nat, d: real, q: nat)
    requires Packed(free, i, d) && q * |free| >= i
    ensures forall v :: 0 <= v < |free| ==> free[v] <= Rounds(q, d)
  {
    CountNone(free, Rounds(q, d));
  }

  method EarliestFree(free: seq<real>) returns (w: nat)
    requires free != []
    ensures w < |free| && forall v :: 0 <= v < |free| ==> free[w] <= free[v]
  {
    w := 0;
    for v := 1 to |free|
      invariant w < |free| && forall u :: 0 <= u < v ==> free[w] <= free[u]
    {
      if free[v] < free[w] {
        w := v;
      }
    }
  }

  /** One job of a schedule. */
  datatype Job = Job(took: real, worker: nat, end: real)

  /** When worker `w` is free again after these jobs. */
  function FreeAt(jobs: seq<Job>, w: nat): real {
    if jobs == [] then 0.0
    else if jobs[|jobs| - 1].worker == w then jobs[|jobs| - 1].end
    else FreeAt(jobs[..|jobs| - 1], w)
  }

  /** Jobs in order, each begun by the worker that is free first, the moment it is. */
  ghost predicate Scheduled(jobs: seq<Job>, workers: nat) {
    jobs == []
    || (var before, last := jobs[..|jobs| - 1], jobs[|jobs| - 1];
        && Scheduled(before, workers) && last.worker < workers
        && (forall v :: 0 <= v < workers ==> FreeAt(before, last.worker) <= FreeAt(before, v))
        && last.end == FreeAt(before, last.worker) + last.took)
  }

  ghost predicate TracksFree(free: seq<real>, jobs: seq<Job>) {
    forall v :: 0 <= v < |free| ==> free[v] == FreeAt(jobs, v)
  }

  lemma {:induction false} ScheduledOneMore(jobs: seq<Job>, free: seq<real>, w: nat, took: real)
    requires Scheduled(jobs, |free|) && TracksFree(free, jobs)
    requires w < |free| && forall v :: 0 <= v < |free| ==> free[w] <= free[v]
    ensures Scheduled(jobs + [Job(took, w, free[w] + took)], |free|)
    ensures TracksFree(free[w := free[w] + took], jobs + [Job(took, w, free[w] + took)])
  {
    var job := Job(took, w, free[w] + took);
    assert (jobs + [job])[..|jobs|] == jobs;
  }

  /** The jobs of a schedule are these, in this order, with these ends. */
  ghost predicate JobsOf(jobs: seq<Job>, took: seq<real>, finished: seq<real>) {
    |jobs| == |finished| <= |took|
    && forall i :: 0 <= i < |jobs| ==> jobs[i].took == took[i] && jobs[i].end == finished[i]
  }

  /** Each job ends within its rounded-up share of deadlines. */
  ghost predicate InTime(took: seq<real>, finished: seq<real>, workers: nat, d: real)
    requires workers > 0
  {
    && |finished| <= |took|
    && forall j :: 0 <= j < |finished| ==> took[j] <= finished[j] <= Rounds(CeilDiv(j + 1, workers), d)
  }

  /** Where the pool stands after `|finished|` jobs. */
  ghost predicate PoolAt(took: seq<real>, free: seq<real>, jobs: seq<Job>, finished: seq<real>, d: real)
    requires free != []
  {
    && Packed(free, |finished|, d) && (forall v :: 0 <= v < |free| ==> free[v] >= 0.0)
    && Scheduled(jobs, |free|) && TracksFree(free, jobs) && JobsOf(jobs, took, finished)
    && InTime(took, finished, |free|, d)
  }

  lemma {:induction false} PoolStart(took: seq<real>, free: seq<real>, d: real)
    requires free != [] && d >= 0.0 && forall v :: 0 <= v < |free| ==> free[v] == 0.0
    ensures PoolAt(took, free, [], [], d)
  {
    forall k: nat ensures CountAbove(free, Rounds(k, d)) == 0 {
      CountZeros(free, Rounds(k, d));
    }
  }

  lemma {:induction false} InTimeNext(took: seq<real>, finished: seq<real>, free: seq<real>, w: nat, d: real, end: real)
    requires free != [] && InTime(took, finished, |free|, d) && |finished| < |took| && w < |free|
    requires Packed(free[w := end], |finished| + 1, d) && took[|finished|] <= end
    ensures InTime(took, finished + [end], |free|, d)
  {
    AllDone(free[w := end], |finished| + 1, d, CeilDiv(|finished| + 1, |free|));
    assert free[w := end][w] == end;
  }

  lemma {:induction false} JobsNext(jobs: seq<Job>, took: seq<real>, finished: seq<real>, w: nat, end: real)
    requires JobsOf(jobs, took, finished) && |finished| < |took|
    ensures JobsOf(jobs + [Job(took[|finished|], w, end)], took, finished + [end])
  {
  }

  lemma {:induction false} PoolNext(took: seq<real>, free: seq<real>, jobs: seq<Job>, finished: seq<real>, d: real,
                                    w: nat)
    requires free != [] && PoolAt(took, free, jobs, finished, d) && |finished| < |took|
    requires 0.0 <= took[|finished|] <= d && w < |free| && forall v :: 0 <= v < |free| ==> free[w] <= free[v]
    ensures var end := free[w] + took[|finished|];
            PoolAt(took, free[w := end], jobs + [Job(took[|finished|], w, end)], finished + [end], d)
  {
    var i := |finished|;
    var end := free[w] + took[i];
    PackedNext(free, i, d, w, took[i]);
    ScheduledOneMore(jobs, free, w, took[i]);
    JobsNext(jobs, took, finished, w, end);
    InTimeNext(took, finished, free, w, d, end);
  }

  /** The pool's schedule, and the bound it keeps. */
  method RunPool(took: seq<real>, workers: nat, d: real) returns (finished: seq<real>, ghost jobs: seq<Job>)
    requires workers > 0 && d >= 0.0 && forall i :: 0 <= i < |took| ==> 0.0 <= took[i] <= d
    ensures |finished| == |took| && Scheduled(jobs, workers) && JobsOf(jobs, took, finished)
    ensures forall i :: 0 <= i < |took| ==> took[i] <= finished[i] <= Rounds(CeilDiv(i + 1, workers), d)
  {
    var free := seq(workers, _ => 0.0);
    finished, jobs := [], [];
    PoolStart(took, free, d);
    for i := 0 to |took|
      invariant |free| == workers && |finished| == i && PoolAt(took, free, jobs, finished, d)
    {
      var w := EarliestFree(free);
      PoolNext(took, free, jobs, finished, d, w);
      var end := free[w] + took[i];
      jobs := jobs + [Job(took[i], w, end)];
      free, finished := free[w := end], finished + [end];
    }
  }

  lemma {:induction false} RoundsMonotone(a: nat, b: nat, d: real)
    requires a <= b && d >= 0.0
    ensures Rounds(a, d) <= Rounds(b, d)
  {
    if a < b {
      RoundsMonotone(a, b - 1, d);
      RoundsNext(b - 1, d);
    }
  }

  lemma {:induction false} CeilMonotone(a: nat, b: nat, m: nat)
    requires m > 0 && a <= b
    ensures CeilDiv(a, m) <= CeilDiv(b, m)
  {
    if a > m {
      CeilMonotone(a - m, b - m, m);
    }
  }

  /** The pool has `min(8, n)` workers; the bound is the one for 8. */
  lemma {:induction false} SmallPoolSameBound(n: nat)
    requires n > 0
    ensures CeilDiv(n, if n < PROBE_POOL_SIZE then n else PROBE_POOL_SIZE) == CeilDiv(n, PROBE_POOL_SIZE)
  {
  }

  /** What a pass records for a channel. */
  datatype Entry = Stopped | Published(verdict: Verdict) | CutOff

  const SOURCE_TIMEOUT := 10.0
  const IPV6_TIMEOUT := 6.0

  lemma {:induction false} PassBound(n: nat, i: nat, workers: nat)
    requires i < n && workers == if n < PROBE_POOL_SIZE then n else PROBE_POOL_SIZE
    ensures Rounds(CeilDiv(i + 1, workers), CHANNEL_DEADLINE) <= Rounds(CeilDiv(n, PROBE_POOL_SIZE), CHANNEL_DEADLINE)
    ensures n <= 32 ==> Rounds(CeilDiv(n, PROBE_POOL_SIZE), CHANNEL_DEADLINE) <= PROBE_PASS_DEADLINE
  {
    SmallPoolSameBound(n);
    CeilMonotone(i + 1, n, workers);
    RoundsMonotone(CeilDiv(i + 1, workers), CeilDiv(n, workers), CHANNEL_DEADLINE);
    if n <= 32 {
      CeilMonotone(n, 32, PROBE_POOL_SIZE);
      assert CeilDiv(32, 8) == 4;
      RoundsMonotone(CeilDiv(n, PROBE_POOL_SIZE), 4, CHANNEL_DEADLINE);
    }
  }

  /** The pass probes every line for its full due, on `min(8, n)` workers. */
  ghost predicate Passed(lines: seq<Line>, verdicts: seq<Verdict>, traces: seq<Trace>, took: seq<real>,
                         finished: seq<real>, jobs: seq<Job>) {
    && |verdicts| == |traces| == |took| == |finished| == |lines|
    && Scheduled(jobs, if |lines| < 8 then |lines| else 8) && JobsOf(jobs, took, finished)
    && forall i :: 0 <= i < |lines| ==> Reports(lines[i], 10.0, 6.0, 15.0, verdicts[i], traces[i], took[i])
  }

  /** What each line's probe comes to. */
  method ProbeEach(lines: seq<Line>) returns (verdicts: seq<Verdict>, took: seq<real>, ghost traces: seq<Trace>)
    requires forall i :: 0 <= i < |lines| ==> Honours(lines[i].net) && Honours(lines[i].net6)
    ensures |verdicts| == |took| == |traces| == |lines|
    ensures forall i :: 0 <= i < |lines| ==>
              0.0 <= took[i] <= CHANNEL_DEADLINE
              && Reports(lines[i], SOURCE_TIMEOUT, IPV6_TIMEOUT, CHANNEL_DEADLINE, verdicts[i], traces[i], took[i])
  {
    verdicts, took, traces := [], [], [];
    for i := 0 to |lines|
      invariant |verdicts| == |took| == |traces| == i
      invariant forall j :: 0 <= j < i ==>
                  && 0.0 <= took[j] <= CHANNEL_DEADLINE
                  && Reports(lines[j], SOURCE_TIMEOUT, IPV6_TIMEOUT, CHANNEL_DEADLINE, verdicts[j], traces[j], took[j])
    {
      var verdict, elapsed, trace := ProbeChannel(lines[i], SOURCE_TIMEOUT, IPV6_TIMEOUT, CHANNEL_DEADLINE);
      verdicts, took, traces := verdicts + [verdict], took + [elapsed], traces + [trace];
    }
  }

  /** A result that is late for the pass is not published. */
  method Publish(verdicts: seq<Verdict>, finished: seq<real>, workers: nat) returns (out: seq<Entry>)
    requires |verdicts| == |finished| > 0
    requires workers == if |finished| < PROBE_POOL_SIZE then |finished| else PROBE_POOL_SIZE
    requires forall i :: 0 <= i < |finished| ==> finished[i] <= Rounds(CeilDiv(i + 1, workers), CHANNEL_DEADLINE)
    ensures |out| == |verdicts|
    ensures forall i :: 0 <= i < |out| ==>
              && finished[i] <= Rounds(CeilDiv(|finished|, PROBE_POOL_SIZE), CHANNEL_DEADLINE)
              && out[i] == if finished[i] <= PROBE_PASS_DEADLINE then Published(verdicts[i]) else CutOff
    ensures |finished| <= 32 ==> forall i :: 0 <= i < |out| ==> finished[i] <= PROBE_PASS_DEADLINE
  {
    out := [];
    for i := 0 to |verdicts|
      invariant |out| == i
      invariant forall j :: 0 <= j < i ==>
                  && finished[j] <= Rounds(CeilDiv(|finished|, PROBE_POOL_SIZE), CHANNEL_DEADLINE)
                  && out[j] == if finished[j] <= PROBE_PASS_DEADLINE then Published(verdicts[j]) else CutOff
      invariant |finished| <= 32 ==> forall j :: 0 <= j < i ==> finished[j] <= PROBE_PASS_DEADLINE
    {
      PassBound(|finished|, i, workers);
      out := out + [if finished[i] <= PROBE_PASS_DEADLINE then Published(verdicts[i]) else CutOff];
    }
  }

  /** `probe_all`: every channel probed inside its own deadline, all of them done after ceil(n / 8) deadlines; a result
      that is late for the pass is not published. Of up to 32 channels none is ever cut off. */
  method ProbeAll(running: bool, lines: seq<Line>)
    returns (out: seq<Entry>, ghost verdicts: seq<Verdict>, ghost traces: seq<Trace>, ghost took: seq<real>,
             ghost finished: seq<real>, ghost jobs: seq<Job>)
    requires forall i :: 0 <= i < |lines| ==> Honours(lines[i].net) && Honours(lines[i].net6)
    ensures |out| == |lines|
    ensures !running ==> forall i :: 0 <= i < |out| ==> out[i] == Stopped
    ensures running ==> Passed(lines, verdicts, traces, took, finished, jobs)
    ensures running ==> forall i :: 0 <= i < |lines| ==>
              && 0.0 <= finished[i] <= Rounds(CeilDiv(|lines|, 8), 15.0)
              && out[i] == if finished[i] <= 60.0 then Published(verdicts[i]) else CutOff
    ensures running && |lines| <= 32 ==> forall i :: 0 <= i < |lines| ==> out[i] == Published(verdicts[i])
  {
    verdicts, traces, took, finished, jobs := [], [], [], [], [];
    if !running {
      return seq(|lines|, _ => Stopped), [], [], [], [], [];
    }
    if lines == [] {
      return [], [], [], [], [], [];
    }
    var results, spans;
    results, spans, traces := ProbeEach(lines);
    var workers := if |lines| < PROBE_POOL_SIZE then |lines| else PROBE_POOL_SIZE;
    var done;
    done, jobs := RunPool(spans, workers, CHANNEL_DEADLINE);
    out := Publish(results, done, workers);
    verdicts, took, finished := results, spans, done;
  }
}
