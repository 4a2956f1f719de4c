/** Recovery of dead channels: one step of the per-channel state machine, and its claims under overlapping passes. */
module Reconnect {
  import opened Common
  import opened State

  const FAIL_THRESHOLD: nat := 3
  const MAX_ATTEMPTS: nat := 5
  const BACKOFF: seq<nat> := [30, 60, 120, 300, 600]

  /** `_backoff`: 0-indexed, capped. */
  function Backoff(attempt: nat): nat {
    BACKOFF[if attempt < |BACKOFF| - 1 then attempt else |BACKOFF| - 1]
  }

  // ---- one step for one channel ----

  /** What a pass wants written for a channel, and whether writing it claims an attempt. */
  datatype Decision = Leave | Write(replacement: Option<Recovery>, claims: bool)

  const NO_RECORD := Recovery(0, 0, 0, 0, false, "", 0)

  function Decide(record: Option<Recovery>, probe: Option<Probe>, now: int, nonce: nat): Decision {
    if probe.Some? && probe.value.ok then
      if record.Some? then Write(None, false) else Leave
    else if probe.Some? && probe.value.error == "stopped" then Leave
    else
      var rc := if record.Some? then record.value else NO_RECORD;
      if rc.failed then Leave
      else
        var counted := rc.(fails := rc.fails + 1);
        if counted.fails < FAIL_THRESHOLD || now < rc.nextAt then Write(Some(counted), false)
        else if rc.attempts >= MAX_ATTEMPTS then Write(Some(counted.(failed := true, error := "gave up")), false)
        else Write(Some(counted.(attempts := rc.attempts + 1, lastAt := now, nextAt := now + Backoff(rc.attempts),
                                 nonce := nonce)), true)
  }

  // ---- the committed channel under concurrent writers ----

  /** An attempt some pass has claimed: the channel's fingerprint then, and the record it wrote. */
  datatype Claim = Claim(fingerprint: nat, record: Recovery)

  /** The committed channel; nonces handed out so far; and, for the current failure episode, the times of its
      attempts and the passes that counted a failure in it. A pass counts one whenever the channel has no good probe
      result, also when it has none at all. */
  datatype World = World(fingerprint: nat, record: Option<Recovery>, claims: seq<Claim>, nonces: nat,
                         times: seq<int>, observed: nat)

  /** How a claimed attempt ended: new keys, a failure worth retrying, or one that is not. */
  datatype Outcome = Resolved(fingerprint: nat) | Failed(error: string) | Hopeless(error: string)

  datatype Event =
    /** A pass decides on a snapshot it took earlier and offers what it decided. */
    | Offer(snapshotPrint: nat, snapshot: Option<Recovery>, probe: Option<Probe>, now: int)
    /** An attempt finishes, however late. */
    | Finish(claim: nat, outcome: Outcome)
    /** A human repairs, re-imports, disables or restarts: the record is dropped. */
    | Clear(fingerprint: nat)
    /** Anything else about the channel changes: a port moves, say. */
    | Edit(fingerprint: nat)

  /** `prepare_reconnects` commits only onto the very state the decision was made from. */
  function OfferStep(w: World, snapshotPrint: nat, snapshot: Option<Recovery>, probe: Option<Probe>, now: int): World {
    var decision := Decide(snapshot, probe, now, w.nonces + 1);
    if decision.Leave? || snapshotPrint != w.fingerprint || snapshot != w.record then w
    else
      match decision.replacement
      case None => w.(record := None, times := [], observed := 0)
      case Some(rc) =>
        if decision.claims
        then w.(record := Some(rc), claims := w.claims + [Claim(w.fingerprint, rc)], nonces := w.nonces + 1,
                times := w.times + [now], observed := w.observed + 1)
        else w.(record := Some(rc), observed := w.observed + 1)
  }

  function Concluded(c: Claim, outcome: Outcome): Recovery {
    match outcome
    case Resolved(_) => c.record
    case Failed(error) => c.record.(error := error)
    case Hopeless(error) => c.record.(failed := true, error := error)
  }

  /** `finish_reconnect_attempt` commits only onto the same fingerprint under the same nonce. */
  predicate FinishApplies(w: World, c: Claim) {
    w.fingerprint == c.fingerprint && w.record.Some? && w.record.value.nonce == c.record.nonce
  }

  function FinishStep(w: World, claim: nat, outcome: Outcome): World {
    if claim >= |w.claims| || !FinishApplies(w, w.claims[claim]) then w
    else w.(record := Some(Concluded(w.claims[claim], outcome)),
            fingerprint := if outcome.Resolved? then outcome.fingerprint else w.fingerprint)
  }

  function Step(w: World, e: Event): World {
    match e
    case Offer(mark, snapshot, probe, now) => OfferStep(w, mark, snapshot, probe, now)
    case Finish(claim, outcome) => FinishStep(w, claim, outcome)
    case Clear(mark) => w.(fingerprint := mark, record := None, times := [], observed := 0)
    case Edit(mark) => w.(fingerprint := mark)
  }

  // ---- what every step keeps ----

  /** The record is the one of the last attempt, failures apart. */
  ghost predicate OfLastAttempt(r: Recovery, times: seq<int>) {
    && r.attempts == |times|
    && (times != [] ==> r.lastAt == times[|times| - 1] && r.nextAt == r.lastAt + Backoff(|times| - 1))
    && (times == [] ==> r.nextAt == 0 && r.nonce == 0)
  }

  /** Same attempt, same timestamps. */
  predicate SameAttempt(a: Recovery, b: Recovery) {
    a.attempts == b.attempts && a.lastAt == b.lastAt && a.nextAt == b.nextAt
  }

  ghost predicate Spaced(times: seq<int>) {
    forall k :: 0 <= k < |times| - 1 ==> times[k + 1] >= times[k] + Backoff(k)
  }

  ghost predicate EpisodeOk(w: World) {
    && |w.times| <= MAX_ATTEMPTS && Spaced(w.times)
    && (w.times != [] ==> w.observed >= FAIL_THRESHOLD)
    && (w.record.None? ==> w.times == [])
    && (w.record.Some? ==> OfLastAttempt(w.record.value, w.times) && w.record.value.fails <= w.observed)
  }

  ghost predicate ClaimsOk(w: World) {
    && (forall i :: 0 <= i < |w.claims| ==> 0 < w.claims[i].record.nonce <= w.nonces && !w.claims[i].record.failed)
    && (w.record.Some? ==> w.record.value.nonce <= w.nonces)
    && (forall i :: 0 <= i < |w.claims| && w.record.Some? && w.record.value.nonce == w.claims[i].record.nonce ==>
          SameAttempt(w.record.value, w.claims[i].record) && w.claims[i].record.fails <= w.observed)
  }

  ghost predicate Inv(w: World) {
    EpisodeOk(w) && ClaimsOk(w)
  }

  function Start(fingerprint: nat): World {
    World(fingerprint, None, [], 0, [], 0)
  }

  lemma {:induction false} SpacedOneMore(times: seq<int>, now: int)
    requires Spaced(times) && (times != [] ==> now >= times[|times| - 1] + Backoff(|times| - 1))
    ensures Spaced(times + [now])
  {
  }

  lemma {:induction false} OfferKeepsEpisode(w: World, mark: nat, snapshot: Option<Recovery>, probe: Option<Probe>,
                                             now: int)
    requires EpisodeOk(w)
    ensures EpisodeOk(OfferStep(w, mark, snapshot, probe, now))
  {
    var next := OfferStep(w, mark, snapshot, probe, now);
    if next.times == w.times + [now] {
      SpacedOneMore(w.times, now);
    }
  }

  lemma {:induction false} OfferKeepsClaims(w: World, mark: nat, snapshot: Option<Recovery>, probe: Option<Probe>,
                                            now: int)
    requires Inv(w)
    ensures ClaimsOk(OfferStep(w, mark, snapshot, probe, now))
  {
  }

  lemma {:induction false} OfferKeeps(w: World, mark: nat, snapshot: Option<Recovery>, probe: Option<Probe>, now: int)
    requires Inv(w)
    ensures Inv(OfferStep(w, mark, snapshot, probe, now))
  {
    OfferKeepsEpisode(w, mark, snapshot, probe, now);
    OfferKeepsClaims(w, mark, snapshot, probe, now);
  }

  lemma {:induction false} FinishKeeps(w: World, claim: nat, outcome: Outcome)
    requires Inv(w)
    ensures Inv(FinishStep(w, claim, outcome))
  {
  }

  lemma {:induction false} StepKeeps(w: World, e: Event)
    requires Inv(w)
    ensures Inv(Step(w, e))
  {
    match e
    case Offer(mark, snapshot, probe, now) => OfferKeeps(w, mark, snapshot, probe, now);
    case Finish(claim, outcome) => FinishKeeps(w, claim, outcome);
    case Clear(_) =>
    case Edit(_) =>
  }

  function Run(w: World, events: seq<Event>): World {
    if events == [] then w else Step(Run(w, events[..|events| - 1]), events[|events| - 1])
  }

  /** In every run, whatever passes overlap and whatever humans edit: at most 5 attempts in an episode, none before
      3 observed failures, consecutive ones at least the backoff apart. */
  lemma {:induction false} EveryEpisodeIsOrderly(fingerprint: nat, events: seq<Event>)
    ensures var w := Run(Start(fingerprint), events);
            && Inv(w) && |w.times| <= 5
            && (w.times != [] ==> w.observed >= 3)
            && forall k :: 0 <= k < |w.times| - 1 ==> w.times[k + 1] - w.times[k] >= [30, 60, 120, 300][k]
  {
    RunKeeps(fingerprint, events);
    GapsFollow(Run(Start(fingerprint), events).times);
  }

  lemma {:induction false} RunKeeps(fingerprint: nat, events: seq<Event>)
    ensures Inv(Run(Start(fingerprint), events))
  {
    if events != [] {
      RunKeeps(fingerprint, events[..|events| - 1]);
      StepKeeps(Run(Start(fingerprint), events[..|events| - 1]), events[|events| - 1]);
    }
  }

  lemma {:induction false} GapsFollow(times: seq<int>)
    requires Spaced(times) && |times| <= 5
    ensures forall k :: 0 <= k < |times| - 1 ==> times[k + 1] - times[k] >= [30, 60, 120, 300][k]
  {
    forall k | 0 <= k < |times| - 1 ensures times[k + 1] - times[k] >= [30, 60, 120, 300][k] {
      assert Backoff(k) == [30, 60, 120, 300][k];
    }
  }

  /** A healthy probe, acted on while the channel is as it was seen, ends the episode: no record, no attempts, and the
      next failure counts as the first. */
  lemma {:induction false} RecoveryEndsEpisode(w: World, probe: Probe, next: Probe, now: int, later: int)
    requires Inv(w) && probe.ok && !next.ok && next.error != "stopped"
    ensures var healed := OfferStep(w, w.fingerprint, w.record, Some(probe), now);
            && healed.record == None && healed.times == []
            && OfferStep(healed, healed.fingerprint, healed.record, Some(next), later).record
               == Some(Recovery(1, 0, 0, 0, false, "", 0))
  {
  }

  /** Giving up by exhaustion comes after 5 attempts and at least 1110 seconds after the first. */
  lemma {:induction false} ExhaustionIsLate(w: World, mark: nat, snapshot: Option<Recovery>, probe: Option<Probe>,
                                            now: int)
    requires Inv(w) && w.record.Some? && !w.record.value.failed
    requires var next := OfferStep(w, mark, snapshot, probe, now); next.record.Some? && next.record.value.failed
    ensures |w.times| == 5 && now - w.times[0] >= 1110
  {
    assert Backoff(0) == 30 && Backoff(1) == 60 && Backoff(2) == 120 && Backoff(3) == 300 && Backoff(4) == 600;
    assert |w.times| == 5;
    assert w.times[1] >= w.times[0] + Backoff(0);
    assert w.times[2] >= w.times[1] + Backoff(1);
    assert w.times[3] >= w.times[2] + Backoff(2);
    assert w.times[4] >= w.times[3] + Backoff(3);
  }

  /** What finishing an attempt comes to: the record as the attempt claimed it, marked as given up only by a failure no
      retry can mend, with the failure's text; new keys change the fingerprint. It counts only while the channel and the
      attempt are the claim's own. */
  lemma {:induction false} FinishMeans(w: World, claim: nat, outcome: Outcome)
    requires Inv(w) && claim < |w.claims|
    ensures var c, next := w.claims[claim], FinishStep(w, claim, outcome);
            if w.fingerprint == c.fingerprint && w.record.Some? && w.record.value.nonce == c.record.nonce then
              && next == w.(record := next.record, fingerprint := next.fingerprint) && next.record.Some?
              && SameAttempt(next.record.value, w.record.value)
              && next.record.value.nonce == c.record.nonce && next.record.value.fails == c.record.fails
              && (next.record.value.failed <==> outcome.Hopeless?)
              && next.record.value.error == (if outcome.Resolved? then c.record.error else outcome.error)
              && next.fingerprint == (if outcome.Resolved? then outcome.fingerprint else w.fingerprint)
            else next == w
  {
    var c := w.claims[claim];
    if FinishApplies(w, c) {
      assert !c.record.failed && SameAttempt(w.record.value, c.record);
    }
  }

  /** A finish that applies never rolls attempts or timestamps back, and never counts failures up. */
  lemma {:induction false} LateFinishKeepsAttempt(w: World, claim: nat, outcome: Outcome)
    requires Inv(w) && claim < |w.claims| && FinishApplies(w, w.claims[claim])
    ensures var next := FinishStep(w, claim, outcome);
            next.record.Some? && SameAttempt(next.record.value, w.record.value) && next.times == w.times
  {
  }

  /** Two claims never share a nonce within an episode: the claim a finish applies to is the last attempt's. */
  lemma {:induction false} StaleFinishIsDiscarded(w: World, claim: nat, outcome: Outcome)
    requires Inv(w) && claim < |w.claims| && (w.record.None? || !SameAttempt(w.record.value, w.claims[claim].record))
    ensures FinishStep(w, claim, outcome) == w
  {
  }

  /** But a late finish can forget: it lifts a give-up recorded since its claim, exactly when it applies and does not
      itself give up. */
  lemma {:induction false} FinishLiftsGiveUp(w: World, claim: nat, outcome: Outcome)
    requires Inv(w) && claim < |w.claims| && w.record.Some? && w.record.value.failed
    ensures var next := FinishStep(w, claim, outcome);
            !next.record.value.failed <==> FinishApplies(w, w.claims[claim]) && !outcome.Hopeless?
  {
  }

  lemma {:induction false} RunSnoc(w: World, events: seq<Event>, e: Event)
    ensures Run(w, events + [e]) == Step(Run(w, events), e)
  {
    assert (events + [e])[..|events|] == events;
  }

  /** A probe fails and a pass acts on it at once. */
  function Failing(w: World, now: int): Event {
    Offer(w.fingerprint, w.record, Some(Probe(false, "timeout")), now)
  }

  /** Failing probes at the given times, each acted on at once. */
  function FailingRun(times: seq<int>): (events: seq<Event>)
    ensures |events| == |times|
  {
    if times == [] then []
    else
      var before := FailingRun(times[..|times| - 1]);
      before + [Failing(Run(Start(1), before), times[|times| - 1])]
  }

  function After(times: seq<int>): World {
    Run(Start(1), FailingRun(times))
  }

  lemma {:induction false} AfterOneMore(times: seq<int>, now: int)
    ensures After(times + [now]) == Step(After(times), Failing(After(times), now))
  {
    assert (times + [now])[..|times|] == times;
    RunSnoc(Start(1), FailingRun(times), Failing(After(times), now));
  }

  lemma {:induction false} Reaches(times: seq<int>, now: int, w: World, next: World) returns (more: seq<int>)
    requires After(times) == w && Step(w, Failing(w, now)) == next
    ensures more == times + [now] && After(more) == next
  {
    more := times + [now];
    AfterOneMore(times, now);
  }

  const REC1 := Recovery(3, 1, 0, 30, false, "", 1)
  const REC2 := Recovery(4, 2, 30, 90, false, "", 2)
  const REC3 := Recovery(5, 3, 90, 210, false, "", 3)
  const REC4 := Recovery(6, 4, 210, 510, false, "", 4)
  const REC5 := Recovery(7, 5, 510, 1110, false, "", 5)
  const THREE := World(1, Some(REC3), [Claim(1, REC1), Claim(1, REC2), Claim(1, REC3)], 3, [0, 30, 90], 5)
  const FIVE := World(1, Some(REC5), THREE.claims + [Claim(1, REC4), Claim(1, REC5)], 5, [0, 30, 90, 210, 510], 7)

  lemma {:induction false} ThreeAttempts() returns (times: seq<int>)
    ensures After(times) == THREE
  {
    var w0 := Start(1);
    var w1 := w0.(record := Some(NO_RECORD.(fails := 1)), observed := 1);
    var w2 := w0.(record := Some(NO_RECORD.(fails := 2)), observed := 2);
    var w3 := World(1, Some(REC1), [Claim(1, REC1)], 1, [0], 3);
    var w4 := World(1, Some(REC2), [Claim(1, REC1), Claim(1, REC2)], 2, [0, 30], 4);
    times := Reaches([], 0, w0, w1);
    times := Reaches(times, 0, w1, w2);
    times := Reaches(times, 0, w2, w3);
    times := Reaches(times, 30, w3, w4);
    times := Reaches(times, 90, w4, THREE);
  }

  lemma {:induction false} FiveAttempts() returns (times: seq<int>)
    ensures After(times) == FIVE
  {
    var w6 := World(1, Some(REC4), THREE.claims + [Claim(1, REC4)], 4, [0, 30, 90, 210], 6);
    times := ThreeAttempts();
    times := Reaches(times, 210, THREE, w6);
    times := Reaches(times, 510, w6, FIVE);
  }

  /** A run that shows it: five attempts, a give-up at 1110, and only then the fifth attempt's failure comes in. */
  lemma {:induction false} LateFinishForgetsGiveUp() returns (times: seq<int>)
    ensures var w := After(times);
            && w.record.Some? && w.record.value.failed && |w.claims| == 5
            && !FinishStep(w, 4, Failed("timeout")).record.value.failed
            && FinishStep(w, 4, Failed("timeout")).record.value.fails < w.record.value.fails
  {
    var gone := FIVE.(record := Some(REC5.(fails := 8, failed := true, error := "gave up")), observed := 8);
    times := FiveAttempts();
    times := Reaches(times, 1110, FIVE, gone);
  }
}
