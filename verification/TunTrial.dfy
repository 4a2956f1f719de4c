/** The TUN trial's dead-man switch: arm, confirm, expire, recover and the explicit toggle, each under one lock. */
module TunTrial {
  import opened Common

  // ---- the protocol state ----

  /** The marker file: absent, a trial, or something that does not read as one. */
  datatype Marker = NoMarker | Pending(nonce: nat, deadline: int) | Unreadable

  /** A detached process that will call expire with its nonce once `due` has come. */
  datatype Watchdog = Watchdog(nonce: nat, due: int)

  /** `trial` says that tun is on by an unconfirmed trial and nobody has decided to keep it; `nonces` counts the nonces
      handed out, so a fresh one is `nonces + 1`; `kept` are the nonces of confirmed trials. */
  datatype World = World(marker: Marker, tun: bool, watchdogs: set<Watchdog>, clock: int,
                         trial: bool, nonces: nat, kept: set<nat>)

  /** What a locked section meets: whether switching on is allowed, whether the state file takes a write, and whether
      the process lives to the end of the section. */
  datatype Guards = Guards(privileged: bool, writable: bool, survives: bool)

  const GOOD := Guards(true, true, true)

  /** The state write at the end of a section goes through. */
  predicate Writes(on: bool, g: Guards) {
    (on ==> g.privileged) && g.writable && g.survives
  }

  /** `late` is the time from fixing the deadline (or the time that remains) to the start of the watchdog: waiting for
      the lock, writing the marker. */
  datatype Event =
    | Arm(seconds: nat, late: nat, armed: Guards)
    /** The process died right after publishing the marker. */
    | ArmDied(window: nat, late: nat)
    | Confirm
    | Fire(watchdog: Watchdog, fired: Guards)
    | Recover(late: nat, recovered: Guards)
    | Toggle(on: bool, toggled: Guards)
    | Wait(seconds: nat)
    | Reboot
    | Damage

  // ---- the locked sections ----

  /** The deadline was fixed `late` seconds ago. */
  function PublishMarker(w: World, seconds: nat, late: nat): World {
    w.(marker := Pending(w.nonces + 1, w.clock - late + seconds), nonces := w.nonces + 1)
  }

  function ArmStep(w: World, seconds: nat, late: nat, g: Guards): World {
    if !(5 <= seconds <= 3600) then w
    else
      var m := PublishMarker(w, seconds, late);
      var n := m.(watchdogs := m.watchdogs + {Watchdog(m.nonces, m.clock + seconds)});
      if Writes(true, g) then n.(tun := true, trial := true) else n
  }

  function ConfirmStep(w: World): World {
    if w.marker.Pending? then w.(marker := NoMarker, trial := false, kept := w.kept + {w.marker.nonce}) else w
  }

  /** `tun_trial_expire`: the marker goes first, then the state is written. */
  function ExpireStep(w: World, nonce: nat, g: Guards): World {
    if !w.marker.Pending? || w.marker.nonce != nonce then w
    else if Writes(false, g) then w.(marker := NoMarker, tun := false, trial := false)
    else w.(marker := NoMarker)
  }

  function FireStep(w: World, dog: Watchdog, g: Guards): World {
    if dog in w.watchdogs && w.clock >= dog.due
    then ExpireStep(w.(watchdogs := w.watchdogs - {dog}), dog.nonce, g) else w
  }

  /** Recovery has to revert: the marker is unreadable or its deadline has passed. */
  predicate MustRevert(w: World) {
    w.marker.Unreadable? || (w.marker.Pending? && w.marker.deadline <= w.clock)
  }

  /** The state is only written when tun is on; a watchdog for the remaining time is due `late` seconds late. */
  function RecoverStep(w: World, late: nat, g: Guards): World {
    if w.marker.NoMarker? then w
    else if MustRevert(w) then
      if w.tun && !Writes(false, g) then w.(marker := NoMarker)
          else w.(marker := NoMarker, tun := false, trial := false)
    else if !g.survives then w
    else w.(watchdogs := w.watchdogs + {Watchdog(w.marker.nonce, w.marker.deadline + late)})
  }

  function ToggleStep(w: World, on: bool, g: Guards): World {
    if Writes(on, g) then w.(marker := NoMarker, tun := on, trial := false) else w.(marker := NoMarker)
  }

  function Step(w: World, e: Event): World {
    match e
    case Arm(seconds, late, g) => ArmStep(w, seconds, late, g)
    case ArmDied(seconds, late) => if 5 <= seconds <= 3600 then PublishMarker(w, seconds, late) else w
    case Confirm => ConfirmStep(w)
    case Fire(dog, g) => FireStep(w, dog, g)
    case Recover(late, g) => RecoverStep(w, late, g)
    case Toggle(on, g) => ToggleStep(w, on, g)
    case Wait(seconds) => w.(clock := w.clock + seconds)
    case Reboot => w.(watchdogs := {})
    case Damage => if w.marker.NoMarker? then w else w.(marker := Unreadable)
  }

  // ---- nonces ----

  /** Nonces are fresh, and a confirmed one is no longer pending. */
  ghost predicate NoncesOk(w: World) {
    && (w.marker.Pending? ==> w.marker.nonce <= w.nonces && w.marker.nonce !in w.kept)
    && (forall n <- w.kept :: n <= w.nonces)
    && (forall d <- w.watchdogs :: d.nonce <= w.nonces)
    && (w.trial ==> w.tun)
  }

  function Start(clock: int): World {
    World(NoMarker, false, {}, clock, false, 0, {})
  }

  function Run(w: World, events: seq<Event>): World {
    if events == [] then w else Step(Run(w, events[..|events| - 1]), events[|events| - 1])
  }

  lemma {:induction false} StepKeepsNonces(w: World, e: Event)
    requires NoncesOk(w)
    ensures NoncesOk(Step(w, e)) && w.kept <= Step(w, e).kept && w.nonces <= Step(w, e).nonces
  {
  }

  lemma {:induction false} RunKeepsNonces(w: World, events: seq<Event>)
    requires NoncesOk(w)
    ensures NoncesOk(Run(w, events)) && w.kept <= Run(w, events).kept && w.nonces <= Run(w, events).nonces
  {
    if events != [] {
      RunKeepsNonces(w, events[..|events| - 1]);
      StepKeepsNonces(Run(w, events[..|events| - 1]), events[|events| - 1]);
    }
  }

  /** Once confirm has returned, no expiry of that trial ever touches marker or tun again, whatever happens later:
      reboots, crashes, other trials. */
  lemma {:induction false} ConfirmationIsFinal(w: World, events: seq<Event>, dog: Watchdog, g: Guards)
    requires NoncesOk(w) && w.marker.Pending? && dog.nonce == w.marker.nonce
    ensures var later := Run(ConfirmStep(w), events);
            FireStep(later, dog, g) == later.(watchdogs := FireStep(later, dog, g).watchdogs)
  {
    RunKeepsNonces(ConfirmStep(w), events);
  }

  /** Nobody arms a trial or toggles. */
  predicate Bystanding(e: Event) {
    !e.Arm? && !e.ArmDied? && !e.Toggle?
  }

  /** Switching tun on or off by hand is final too: until somebody arms or toggles again, nothing that happens, no
      watchdog, recovery, reboot or damage, changes it. */
  lemma {:induction false} ToggleStands(w: World, on: bool, g: Guards, events: seq<Event>)
    requires Writes(on, g) && forall i :: 0 <= i < |events| ==> Bystanding(events[i])
    ensures var later := Run(ToggleStep(w, on, g), events); later.tun == on && !later.trial && later.marker == NoMarker
  {
    if events != [] {
      ToggleStands(w, on, g, events[..|events| - 1]);
    }
  }

  /** An armed trial that got through has tun on under a fresh nonce, with its marker and its watchdog in place, and its
      deadline `seconds` after it was fixed. */
  lemma {:induction false} ArmingSetsAllThree(w: World, seconds: nat, late: nat, g: Guards)
    requires NoncesOk(w) && 5 <= seconds <= 3600 && Writes(true, g)
    ensures var next := ArmStep(w, seconds, late, g);
            && next.tun && next.trial && next.marker.Pending? && next.marker.deadline == w.clock - late + seconds
            && next.marker.nonce !in w.kept && (w.marker.Pending? ==> next.marker.nonce != w.marker.nonce)
            && (forall d <- w.watchdogs :: d.nonce != next.marker.nonce)
            && HasWatchdog(next, late)
  {
    var m := PublishMarker(w, seconds, late);
    assert Watchdog(m.nonces, m.clock + seconds) in ArmStep(w, seconds, late, g).watchdogs;
  }

  /** A watchdog of a superseded trial never affects a newer one. */
  lemma {:induction false} SupersededIsHarmless(w: World, seconds: nat, late: nat, armed: Guards, events: seq<Event>,
                                               dog: Watchdog, g: Guards)
    requires NoncesOk(w) && 5 <= seconds <= 3600 && dog.nonce <= w.nonces
    ensures var later := Run(ArmStep(w, seconds, late, armed), events);
            FireStep(later, dog, g) == later.(watchdogs := FireStep(later, dog, g).watchdogs)
  {
    OldNoncesStayOld(ArmStep(w, seconds, late, armed), events, w.nonces);
  }

  lemma {:induction false} OldNoncesStayOld(w: World, events: seq<Event>, old_: nat)
    requires w.nonces > old_ && (w.marker.Pending? ==> w.marker.nonce > old_)
    ensures var later := Run(w, events); later.nonces > old_ && (later.marker.Pending? ==> later.marker.nonce > old_)
  {
    if events != [] {
      OldNoncesStayOld(w, events[..|events| - 1], old_);
    }
  }

  // ---- the marker is there while the trial is ----

  /** Tun on by an unconfirmed trial always has a marker, so recovery can find it. */
  ghost predicate Marked(w: World) {
    w.tun && w.trial ==> !w.marker.NoMarker?
  }

  /** A trial is running and its marker is there. */
  predicate RunningMarked(w: World) {
    w.tun && w.trial && !w.marker.NoMarker?
  }

  /** The section finds a running trial, consumes its marker, and cannot write the state. */
  predicate LosesTrial(w: World, e: Event) {
    && RunningMarked(w)
    && match e
       case Toggle(on, g) => (on && !g.privileged) || !g.writable || !g.survives
       case Fire(dog, g) => dog in w.watchdogs && w.clock >= dog.due && w.marker.Pending? && w.marker.nonce == dog.nonce
                            && (!g.writable || !g.survives)
       case Recover(_, g) => MustRevert(w) && (!g.writable || !g.survives)
       case _ => false
  }

  /** One step from a marked state keeps it marked exactly when it does not consume the marker and then fail. */
  lemma {:induction false} MarkedUnlessWriteFails(w: World, e: Event)
    requires NoncesOk(w) && Marked(w)
    ensures Marked(Step(w, e)) <==> !LosesTrial(w, e)
  {
  }

  /** No section of the run consumed the marker of a running trial and then failed to write. */
  ghost predicate NothingLost(w: World, events: seq<Event>) {
    forall n :: 0 <= n < |events| ==> !LosesTrial(Run(w, events[..n]), events[n])
  }

  ghost predicate AlwaysMarked(w: World, events: seq<Event>) {
    forall n :: 0 <= n <= |events| ==> Marked(Run(w, events[..n]))
  }

  lemma {:induction false} RunSplits(w: World, events: seq<Event>, n: nat)
    requires n < |events|
    ensures Run(w, events[..n + 1]) == Step(Run(w, events[..n]), events[n])
  {
    assert events[..n + 1][..n] == events[..n];
  }

  lemma {:induction false} MarkedUpTo(w: World, events: seq<Event>, n: nat)
    requires NoncesOk(w) && Marked(w) && NothingLost(w, events) && n <= |events|
    ensures Marked(Run(w, events[..n]))
  {
    if n != 0 {
      MarkedUpTo(w, events, n - 1);
      RunKeepsNonces(w, events[..n - 1]);
      RunSplits(w, events, n - 1);
      MarkedUnlessWriteFails(Run(w, events[..n - 1]), events[n - 1]);
    }
  }

  /** Through a whole run an unconfirmed trial has its marker at every instant, exactly when no toggle lacked its
      privilege and no write failed after a running trial's marker was consumed. */
  lemma {:induction false} AlwaysMarkedIff(w: World, events: seq<Event>)
    requires NoncesOk(w) && Marked(w)
    ensures AlwaysMarked(w, events) <==> NothingLost(w, events)
  {
    if NothingLost(w, events) {
      forall n | 0 <= n <= |events| ensures Marked(Run(w, events[..n])) {
        MarkedUpTo(w, events, n);
      }
    }
    if AlwaysMarked(w, events) {
      forall n | 0 <= n < |events| ensures !LosesTrial(Run(w, events[..n]), events[n]) {
        RunKeepsNonces(w, events[..n]);
        RunSplits(w, events, n);
        assert Marked(Run(w, events[..n])) && Marked(Run(w, events[..n + 1]));
        MarkedUnlessWriteFails(Run(w, events[..n]), events[n]);
      }
    }
  }

  /** A watchdog under the trial's nonce is waiting, due no earlier than the deadline and at most `late` after it. */
  ghost predicate HasWatchdog(w: World, late: nat)
    requires w.marker.Pending?
  {
    exists dog <- w.watchdogs :: dog.nonce == w.marker.nonce && w.marker.deadline <= dog.due <= w.marker.deadline + late
  }

  /** After a completed recovery an unconfirmed trial is off, or a watchdog under its nonce is due at its deadline,
      later only by what recovery took to start it. */
  lemma {:induction false} RecoveryIsSafe(clock: int, events: seq<Event>, late: nat)
    requires NothingLost(Start(clock), events)
    ensures var w := RecoverStep(Run(Start(clock), events), late, GOOD);
            w.tun && w.trial ==> w.marker.Pending? && w.marker.deadline > w.clock && HasWatchdog(w, late)
  {
    AlwaysMarkedIff(Start(clock), events);
    assert events[..|events|] == events;
    var before := Run(Start(clock), events);
    var w := RecoverStep(before, late, GOOD);
    if w.tun && w.trial {
      assert Watchdog(w.marker.nonce, w.marker.deadline + late) in w.watchdogs;
    }
  }

  // ---- while the machine stays up ----

  /** The dead man's switch is set: the trial's own watchdog is waiting. */
  ghost predicate Watched(w: World, late: nat) {
    w.tun && w.trial && w.marker.Pending? ==> HasWatchdog(w, late)
  }

  /** No reboot, no death and no failed write, and no watchdog started more than `late` seconds after its deadline was
      fixed. An arm may fail: its marker and watchdog are then in place. */
  predicate Undisturbed(e: Event, late: nat) {
    match e
    case Arm(_, l, g) => l <= late
    case ArmDied(_, _) => false
    case Fire(_, g) => Writes(false, g)
    case Recover(l, g) => l <= late && Writes(false, g)
    case Toggle(on, g) => Writes(on, g)
    case Reboot => false
    case _ => true
  }

  lemma {:induction false} StepKeepsWatched(w: World, e: Event, late: nat)
    requires NoncesOk(w) && Watched(w, late) && Marked(w) && Undisturbed(e, late)
    ensures Watched(Step(w, e), late) && Marked(Step(w, e)) && NoncesOk(Step(w, e))
  {
    StepKeepsNonces(w, e);
    MarkedUnlessWriteFails(w, e);
    var n := Step(w, e);
    if n.tun && n.trial && n.marker.Pending? {
      if w.tun && w.trial && n.marker == w.marker {
        var dog :| dog in w.watchdogs && dog.nonce == w.marker.nonce
            && w.marker.deadline <= dog.due <= w.marker.deadline + late;
        assert dog in n.watchdogs;
      } else {
        assert e.Arm? && Watchdog(n.marker.nonce, w.clock + e.seconds) in n.watchdogs;
      }
    }
  }

  /** Without reboots and failures there is no instant at which an unconfirmed trial is on and nothing is waiting to
      revert it. */
  lemma {:induction false} RunStaysWatched(clock: int, events: seq<Event>, late: nat)
    requires forall i :: 0 <= i < |events| ==> Undisturbed(events[i], late)
    ensures var w := Run(Start(clock), events); NoncesOk(w) && Marked(w) && Watched(w, late)
  {
    if events != [] {
      RunStaysWatched(clock, events[..|events| - 1], late);
      StepKeepsWatched(Run(Start(clock), events[..|events| - 1]), events[|events| - 1], late);
    }
  }

  /** Once the deadline and that delay have passed, a watchdog is due whose firing turns tun off. */
  lemma {:induction false} DueWatchdogReverts(w: World, late: nat) returns (dog: Watchdog)
    requires NoncesOk(w) && Watched(w, late) && Marked(w)
    requires w.tun && w.trial && w.marker.Pending? && w.clock >= w.marker.deadline + late
    ensures dog in w.watchdogs && w.clock >= dog.due
    ensures var n := FireStep(w, dog, GOOD); !n.tun && !n.trial && n.marker.NoMarker?
  {
    dog :| dog in w.watchdogs && dog.nonce == w.marker.nonce
        && w.marker.deadline <= dog.due <= w.marker.deadline + late;
  }

  /** At the deadline exactly one transition wins: whoever takes the lock first. */
  lemma {:induction false} OneWinner(w: World, dog: Watchdog)
    requires NoncesOk(w) && w.marker.Pending? && dog.nonce == w.marker.nonce && dog in w.watchdogs && w.clock >= dog.due
             && w.tun
    ensures FireStep(ConfirmStep(w), dog, GOOD).tun
    ensures var n := FireStep(w, dog, GOOD); !n.tun && ConfirmStep(n) == n
  {
  }

  // ---- where it does not hold ----

  lemma {:induction false} Reaches(events: seq<Event>, e: Event, w: World, next: World) returns (more: seq<Event>)
    requires Run(Start(0), events) == w && Step(w, e) == next
    ensures more == events + [e] && Run(Start(0), more) == next
  {
    more := events + [e];
    assert more[..|events|] == events;
  }

  /** Asking for tun on during a trial, without the privileges the check wants, drops the marker and leaves the
      unconfirmed trial on; its own watchdog then finds nothing and recovery has nothing to settle. */
  lemma {:induction false} RefusedToggleStrandsTrial() returns (events: seq<Event>)
    ensures events == [Arm(60, 0, GOOD), Toggle(true, Guards(false, true, true)), Wait(60), Fire(Watchdog(1, 60), GOOD),
                       Recover(0, GOOD)]
    ensures var w := Run(Start(0), events); w.tun && w.trial && w.marker.NoMarker? && w.watchdogs == {}
  {
    var armed := World(Pending(1, 60), true, {Watchdog(1, 60)}, 0, true, 1, {});
    var stranded := armed.(marker := NoMarker);
    var late := stranded.(clock := 60);
    var fired := late.(watchdogs := {});
    events := Reaches([], Arm(60, 0, GOOD), Start(0), armed);
    events := Reaches(events, Toggle(true, Guards(false, true, true)), armed, stranded);
    events := Reaches(events, Wait(60), stranded, late);
    events := Reaches(events, Fire(Watchdog(1, 60), GOOD), late, fired);
    events := Reaches(events, Recover(0, GOOD), fired, fired);
  }

  /** A marker damaged while its watchdog runs defeats the watchdog, until the next recovery fails closed. */
  lemma {:induction false} DamagedMarkerOutlivesItsWatchdog(w: World, dog: Watchdog, late: nat)
    requires NoncesOk(w) && w.marker.Unreadable?
    ensures FireStep(w, dog, GOOD).tun == w.tun
    ensures !RecoverStep(w, late, GOOD).tun
  {
  }

  // ---- the code, step by step ----

  class Trial {
    var marker: Marker
    var tun: bool
    var watchdogs: set<Watchdog>
    var clock: int
    ghost var trial: bool
    var nonces: nat
    ghost var kept: set<nat>

    ghost function Now(): World
      reads this
    {
      World(marker, tun, watchdogs, clock, trial, nonces, kept)
    }

    constructor (now: int)
      ensures Now() == Start(now)
    {
      marker, tun, watchdogs, clock, trial, nonces, kept := NoMarker, false, {}, now, false, 0, {};
    }

    /** `_set_tun`: switching on needs privileges; `stateWritable` stands for the state file taking the write. */
    method SetTun(on: bool, privileged: bool, stateWritable: bool) returns (ok: bool)
      modifies this`tun, this`trial
      ensures ok == ((on ==> privileged) && stateWritable)
      ensures ok ==> tun == on && trial == false
      ensures !ok ==> tun == old(tun) && trial == old(trial)
    {
      if on && !privileged {
        return false;
      }
      if !stateWritable {
        return false;
      }
      tun := on;
      trial := false;
      ok := true;
    }

    /** `tun_mode` with an explicit value: the marker goes first, then the state is written. */
    method SetMode(on: bool, privileged: bool, stateWritable: bool) returns (ok: bool)
      modifies this
      ensures ok == ((on ==> privileged) && stateWritable)
      ensures marker == NoMarker && (if ok then tun == on && !trial else tun == old(tun) && trial == old(trial))
      ensures watchdogs == old(watchdogs) && clock == old(clock) && nonces == old(nonces) && kept == old(kept)
      ensures Now() == ToggleStep(old(Now()), on, Guards(privileged, stateWritable, true))
      ensures Marked(old(Now())) ==>
                (Marked(Now()) <==> !(RunningMarked(old(Now())) && ((on && !privileged) || !stateWritable)))
    {
      marker := NoMarker;
      ok := SetTun(on, privileged, stateWritable);
    }

    /** `tun_trial_arm`; the lock was taken `late` seconds after the deadline was fixed. */
    method ArmTrial(seconds: nat, late: nat, privileged: bool, stillPrivileged: bool, stateWritable: bool)
        returns (ok: bool)
      modifies this
      ensures ok == (5 <= seconds <= 3600 && privileged && stillPrivileged && stateWritable)
      ensures if 5 <= seconds <= 3600 && privileged then
                && marker == Pending(old(nonces) + 1, old(clock) - late + seconds) && nonces == old(nonces) + 1
                && watchdogs == old(watchdogs) + {Watchdog(old(nonces) + 1, old(clock) + seconds)}
              else marker == old(marker) && nonces == old(nonces) && watchdogs == old(watchdogs)
      ensures if ok then tun && trial else tun == old(tun)
      ensures clock == old(clock) && kept == old(kept)
      ensures Now() == if !privileged then old(Now())
                       else ArmStep(old(Now()), seconds, late, Guards(stillPrivileged, stateWritable, true))
    {
      if !(5 <= seconds <= 3600) || !privileged {
        return false;
      }
      nonces := nonces + 1;
      var nonce, deadline := nonces, clock - late + seconds;
      marker := Pending(nonce, deadline);
      watchdogs := watchdogs + {Watchdog(nonce, clock + seconds)};
      ok := SetTun(true, stillPrivileged, stateWritable);
      if ok {
        trial := true;
      }
    }

    /** `tun_trial_confirm` */
    method ConfirmTrial() returns (ok: bool)
      modifies this
      ensures ok == old(marker).Pending? && Now() == ConfirmStep(old(Now()))
      ensures ok ==> tun == old(tun) && marker == NoMarker && !trial && kept == old(kept) + {old(marker).nonce}
      ensures !ok ==> Now() == old(Now())
      ensures watchdogs == old(watchdogs) && clock == old(clock) && nonces == old(nonces)
    {
      if !marker.Pending? {
        return false;
      }
      kept := kept + {marker.nonce};
      marker := NoMarker;
      trial := false;
      ok := true;
    }

    /** `tun_trial_expire` */
    method Expire(nonce: nat, stateWritable: bool) returns (reverted: bool)
      modifies this
      ensures Now() == ExpireStep(old(Now()), nonce, Guards(false, stateWritable, true))
      ensures Marked(old(Now())) ==>
                (Marked(Now()) <==> !(RunningMarked(old(Now())) && old(marker).Pending? && old(marker).nonce == nonce
                                      && !stateWritable))
      ensures reverted == (old(marker).Pending? && old(marker).nonce == nonce && stateWritable)
      ensures if reverted then !tun && !trial else tun == old(tun) && trial == old(trial)
      ensures marker == if old(marker).Pending? && old(marker).nonce == nonce then NoMarker else old(marker)
      ensures watchdogs == old(watchdogs) && clock == old(clock) && nonces == old(nonces) && kept == old(kept)
    {
      if !marker.Pending? || marker.nonce != nonce {
        return false;
      }
      marker := NoMarker;
      reverted := SetTun(false, false, stateWritable);
    }

    /** `tun_trial_recover`; the state is only written when tun is on. */
    method Settle(late: nat, stateWritable: bool)
      requires trial ==> tun
      modifies this
      ensures Now() == RecoverStep(old(Now()), late, Guards(false, stateWritable, true))
      ensures old(marker).NoMarker? ==> Now() == old(Now())
      ensures old(marker).Unreadable? || (old(marker).Pending? && old(marker).deadline <= old(clock)) ==>
                marker == NoMarker && (stateWritable || !old(tun) ==> !tun) && watchdogs == old(watchdogs)
      ensures old(marker).Pending? && old(marker).deadline > old(clock) ==>
                marker == old(marker) && tun == old(tun)
                && watchdogs == old(watchdogs) + {Watchdog(old(marker).nonce, old(marker).deadline + late)}
      ensures Marked(old(Now())) ==>
                (Marked(Now()) <==> !(RunningMarked(old(Now())) && MustRevert(old(Now())) && !stateWritable))
    {
      if marker.NoMarker? {
        return;
      }
      if marker.Unreadable? {
        marker := NoMarker;
        if tun {
          var _ := SetTun(false, false, stateWritable);
        }
        return;
      }
      var remaining := marker.deadline - clock;
      if remaining <= 0 {
        marker := NoMarker;
        if tun {
          var _ := SetTun(false, false, stateWritable);
        }
        return;
      }
      watchdogs := watchdogs + {Watchdog(marker.nonce, clock + late + remaining)};
    }
  }
}
