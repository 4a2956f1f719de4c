/** One recovery pass over all channels: plan against a snapshot, then commit by compare-and-set. */
module RecoveryPass {
  import opened Common
  import opened State
  import opened Reconnect

  /** What recovery knows about one channel. */
  datatype Slot = Slot(fingerprint: nat, enabled: bool, probe: Option<Probe>, record: Option<Recovery>)

  /** A planned write: made for this fingerprint and this record, or not at all. */
  datatype Update = Update(fingerprint: nat, expected: Option<Recovery>, replacement: Option<Recovery>)

  // ---- what a pass does about a channel, told over its slot ----

  predicate ProbedOk(slot: Slot) {
    slot.probe.Some? && slot.probe.value.ok
  }

  /** Nothing to do: disabled, the whole service down, or given up until a human acts. */
  predicate LeftAlone(slot: Slot) {
    || !slot.enabled
    || (slot.probe.Some? && !slot.probe.value.ok && slot.probe.value.error == "stopped")
    || (!ProbedOk(slot) && slot.record.Some? && slot.record.value.failed)
    || (ProbedOk(slot) && slot.record.None?)
  }

  /** What the record held, an absent one counting from nothing. */
  function Held(slot: Slot): Recovery {
    if slot.record.Some? then slot.record.value else Recovery(0, 0, 0, 0, false, "", 0)
  }

  /** With this failure at least three are on record and the waiting time is over. */
  predicate Due(slot: Slot, now: int) {
    Held(slot).fails + 1 >= 3 && now >= Held(slot).nextAt
  }

  /** One more failure counted; an attempt claimed when one is due and fewer than five were made, under the new nonce
      and with the next waiting time; given up when one is due and five were made; nothing else touched. */
  predicate Counted(slot: Slot, now: int, nonce: nat, after: Recovery, claims: bool) {
    var before := Held(slot);
    && after.fails == before.fails + 1
    && (claims <==> Due(slot, now) && before.attempts < 5)
    && (after.failed <==> Due(slot, now) && before.attempts >= 5)
    && (if claims then
          && after.attempts == before.attempts + 1 && after.lastAt == now && after.nonce == nonce
          && after.nextAt == now + [30, 60, 120, 300, 600][before.attempts]
        else
          && after.attempts == before.attempts && after.lastAt == before.lastAt && after.nonce == before.nonce
          && after.nextAt == before.nextAt)
    && after.error == (if after.failed then "gave up" else before.error)
  }

  /** The decision about a channel. */
  predicate Treats(slot: Slot, now: int, nonce: nat, d: Decision) {
    if LeftAlone(slot) then d == Leave
    else if ProbedOk(slot) then d == Write(None, false)
    else d.Write? && d.replacement.Some? && Counted(slot, now, nonce, d.replacement.value, d.claims)
  }

  lemma {:induction false} PlannedTreats(slot: Slot, now: int, nonce: nat)
    ensures Treats(slot, now, nonce, Planned(slot, now, nonce))
  {
  }

  function Planned(slot: Slot, now: int, nonce: nat): Decision {
    if slot.enabled then Decide(slot.record, slot.probe, now, nonce) else Leave
  }

  ghost predicate PlannedUpTo(snapshot: map<Ref, Slot>, order: seq<Ref>, n: nat, now: int, nonces: Ref -> nat,
                              updates: map<Ref, Update>, actions: set<Ref>)
    requires n <= |order| && forall i :: 0 <= i < |order| ==> order[i] in snapshot
  {
    && (forall a <- updates.Keys + actions :: a in order[..n])
    && (forall a <- order[..n] :: PlannedAs(snapshot[a], Planned(snapshot[a], now, nonces(a)), a, updates, actions))
  }

  /** The write a decision about `a` asks for is there, and marked as claiming when it claims. */
  ghost predicate PlannedAs(slot: Slot, d: Decision, a: Ref, updates: map<Ref, Update>, actions: set<Ref>) {
    && (a in updates <==> d.Write?)
    && (a in actions <==> d.Write? && d.claims)
    && (d.Write? ==> updates[a] == Update(slot.fingerprint, slot.record, d.replacement))
  }

  /** Planning the same channel again comes to the same, so a channel may as well be visited twice. */
  lemma {:induction false} PlanOne(snapshot: map<Ref, Slot>, order: seq<Ref>, n: nat, now: int, nonces: Ref -> nat,
                                   updates: map<Ref, Update>, actions: set<Ref>)
    requires n < |order| && forall i :: 0 <= i < |order| ==> order[i] in snapshot
    requires PlannedUpTo(snapshot, order, n, now, nonces, updates, actions)
    ensures var a := order[n];
            var slot := snapshot[a];
            var d := Planned(slot, now, nonces(a));
            PlannedUpTo(snapshot, order, n + 1, now, nonces,
                        if d.Write? then updates[a := Update(slot.fingerprint, slot.record, d.replacement)]
                            else updates,
                        if d.Write? && d.claims then actions + {a} else actions)
  {
    assert order[..n + 1] == order[..n] + [order[n]];
  }

  /** The body of the planning loop, for one channel. */
  method PlanChannel(slot: Slot, now: int, nonce: nat) returns (d: Decision)
    ensures d == Planned(slot, now, nonce)
    ensures Treats(slot, now, nonce, d)
  {
    PlannedTreats(slot, now, nonce);
    if !slot.enabled {
      return Leave;
    }
    if slot.probe.Some? && slot.probe.value.ok {
      return if slot.record.Some? then Write(None, false) else Leave;
    }
    if slot.probe.Some? && slot.probe.value.error == "stopped" {
      return Leave;
    }
    var rc := if slot.record.Some? then slot.record.value else NO_RECORD;
    if rc.failed {
      return Leave;
    }
    rc := rc.(fails := rc.fails + 1);
    if rc.fails < FAIL_THRESHOLD || now < rc.nextAt {
      return Write(Some(rc), false);
    }
    var attempts := rc.attempts;
    if attempts >= MAX_ATTEMPTS {
      rc := rc.(failed := true);
      rc := rc.(error := "gave up");
      return Write(Some(rc), false);
    }
    rc := rc.(attempts := attempts + 1);
    rc := rc.(lastAt := now);
    rc := rc.(nextAt := now + Backoff(attempts));
    rc := rc.(nonce := nonce);
    d := Write(Some(rc), true);
  }

  /** The planning loop of `run_pass`: what to write, and which of those writes claim an attempt. */
  method PlanPass(snapshot: map<Ref, Slot>, order: seq<Ref>, now: int, nonces: Ref -> nat)
    returns (updates: map<Ref, Update>, actions: set<Ref>)
    requires forall i :: 0 <= i < |order| ==> order[i] in snapshot
    ensures PlannedUpTo(snapshot, order, |order|, now, nonces, updates, actions)
    ensures PlansFor(snapshot, order, now, nonces, updates, actions)
  {
    updates, actions := map[], {};
    for i := 0 to |order|
      invariant PlannedUpTo(snapshot, order, i, now, nonces, updates, actions)
    {
      var ref := order[i];
      PlanOne(snapshot, order, i, now, nonces, updates, actions);
      var slot := snapshot[ref];
      var d := PlanChannel(slot, now, nonces(ref));
      if d.Write? {
        updates := updates[ref := Update(slot.fingerprint, slot.record, d.replacement)];
        if d.claims {
          actions := actions + {ref};
        }
      }
    }
    PlannedIsFor(snapshot, order, now, nonces, updates, actions);
  }

  /** The writes of a pass: for channels it visited, made for what the snapshot showed, each as the slot calls for. */
  ghost predicate PlansFor(snapshot: map<Ref, Slot>, order: seq<Ref>, now: int, nonces: Ref -> nat,
                           updates: map<Ref, Update>, actions: set<Ref>) {
    && (forall a <- updates.Keys :: a in order && a in snapshot
          && updates[a].fingerprint == snapshot[a].fingerprint && updates[a].expected == snapshot[a].record)
    && (forall a <- actions :: a in updates)
    && (forall a <- order :: a in snapshot ==>
          Treats(snapshot[a], now, nonces(a),
                 if a in updates then Write(updates[a].replacement, a in actions) else Leave))
  }

  lemma {:induction false} PlannedIsFor(snapshot: map<Ref, Slot>, order: seq<Ref>, now: int, nonces: Ref -> nat,
                                        updates: map<Ref, Update>, actions: set<Ref>)
    requires forall i :: 0 <= i < |order| ==> order[i] in snapshot
    requires PlannedUpTo(snapshot, order, |order|, now, nonces, updates, actions)
    ensures PlansFor(snapshot, order, now, nonces, updates, actions)
  {
    assert order[..|order|] == order;
    forall a <- order
      ensures Treats(snapshot[a], now, nonces(a),
                     if a in updates then Write(updates[a].replacement, a in actions) else Leave)
    {
      PlannedTreats(snapshot[a], now, nonces(a));
      assert PlannedAs(snapshot[a], Planned(snapshot[a], now, nonces(a)), a, updates, actions);
    }
  }

  /** A planned write still applies. */
  predicate Applies(channels: map<Ref, Slot>, a: Ref, u: Update) {
    a in channels && channels[a].fingerprint == u.fingerprint && channels[a].record == u.expected
  }

  function Prepared(channels: map<Ref, Slot>, updates: map<Ref, Update>): map<Ref, Slot> {
    map a | a in channels ::
      if a in updates && Applies(channels, a, updates[a]) then channels[a].(record := updates[a].replacement)
          else channels[a]
  }

  /** Planned and committed onto an unchanged channel: a healthy one loses its record, one that is to be left alone
      keeps it, any other has its failure counted. A channel that changed in between is not touched, and nothing but
      the record ever is. */
  lemma {:induction false} PassCommits(snapshot: map<Ref, Slot>, order: seq<Ref>, now: int, nonces: Ref -> nat,
                                       updates: map<Ref, Update>, actions: set<Ref>, current: map<Ref, Slot>, a: Ref)
    requires PlansFor(snapshot, order, now, nonces, updates, actions) && a in order && a in snapshot && a in current
    ensures var after := Prepared(current, updates)[a];
            && after == current[a].(record := after.record)
            && (if current[a].fingerprint != snapshot[a].fingerprint || current[a].record != snapshot[a].record
                then after == current[a]
                else if LeftAlone(snapshot[a]) then after.record == current[a].record
                else if ProbedOk(snapshot[a]) then after.record == None
                else after.record.Some? && Counted(snapshot[a], now, nonces(a), after.record.value, a in actions))
    ensures forall b <- current.Keys :: b !in order ==> Prepared(current, updates)[b] == current[b]
  {
  }

  class RecoveryStore {
    var channels: map<Ref, Slot>

    /** `prepare_reconnects` */
    method PrepareReconnects(updates: map<Ref, Update>) returns (applied: set<Ref>)
      modifies this
      ensures channels == Prepared(old(channels), updates)
      ensures forall a :: a in applied <==> a in updates && Applies(old(channels), a, updates[a])
    {
      applied := {};
      var rest := updates.Keys;
      while rest != {}
        invariant rest <= updates.Keys && channels.Keys == old(channels).Keys
        invariant forall a <- channels.Keys :: channels[a] == if a !in rest then Prepared(old(channels), updates)[a]
                                                                else old(channels)[a]
        invariant forall a :: a in applied <==> a in updates && a !in rest && Applies(old(channels), a, updates[a])
        decreases |rest|
      {
        var a :| a in rest;
        if a in channels && channels[a].fingerprint == updates[a].fingerprint
            && channels[a].record == updates[a].expected {
          channels := channels[a := channels[a].(record := updates[a].replacement)];
          applied := applied + {a};
        }
        rest := rest - {a};
      }
    }

    /** `finish_reconnect_attempt`; a success also installs new keys, hence a new fingerprint. */
    method FinishAttempt(a: Ref, fingerprint: nat, nonce: nat, result: Recovery, keys: Option<nat>)
        returns (applied: bool)
      modifies this
      ensures applied <==> a in old(channels) && old(channels)[a].fingerprint == fingerprint
                           && old(channels)[a].record.Some? && old(channels)[a].record.value.nonce == nonce
      ensures !applied ==> channels == old(channels)
      ensures applied ==> channels == old(channels)[a := old(channels)[a].(record := Some(result),
                                      fingerprint := if keys.Some? then keys.value else fingerprint)]
    {
      applied := false;
      if a in channels && channels[a].fingerprint == fingerprint && channels[a].record.Some?
          && channels[a].record.value.nonce == nonce {
        var slot := channels[a];
        if keys.Some? {
          slot := slot.(fingerprint := keys.value);
        }
        slot := slot.(record := Some(result));
        channels := channels[a := slot];
        applied := true;
      }
    }
  }

  /** Planning on a snapshot and committing later is one offer of the state machine, channel by channel: the same
      record, and an attempt claimed exactly when a claiming write was applied. */
  lemma {:induction false} PassIsOffer(snapshot: map<Ref, Slot>, order: seq<Ref>, now: int, nonces: Ref -> nat,
                                       updates: map<Ref, Update>, actions: set<Ref>, current: map<Ref, Slot>, a: Ref,
                                           w: World)
    requires forall i :: 0 <= i < |order| ==> order[i] in snapshot
    requires PlannedUpTo(snapshot, order, |order|, now, nonces, updates, actions)
    requires a in order && snapshot[a].enabled && a in current
    requires w.fingerprint == current[a].fingerprint && w.record == current[a].record && nonces(a) == w.nonces + 1
    ensures var next := OfferStep(w, snapshot[a].fingerprint, snapshot[a].record, snapshot[a].probe, now);
            && Prepared(current, updates)[a].record == next.record
            && next.claims == w.claims + (if a in actions && Applies(current, a, updates[a])
                                          then [Claim(current[a].fingerprint, updates[a].replacement.value)] else [])
  {
    assert order[..|order|] == order;
  }
}
