/** What moving ports away and bringing them home commit and report. */
module PortCommits {
  import opened Common
  import opened State
  import opened Setup
  import opened Ports
  import opened Operations

  // ---- away ----

  type MoveReport = (seq<(Ref, nat, nat)>, seq<(Ref, nat)>, RouterMove)

  /** Exactly the automatic ports among `ports` moved; the report names who moved, from where to where, and who holds a
      declared one. */
  ghost predicate Reallocated(s: State, t: State, ports: set<nat>, told: MoveReport) {
    && t.providers == s.providers && t.rules == s.rules && t.channels.Keys == s.channels.Keys
    && (forall a <- s.channels.Keys :: MovedOrKept(s.channels[a], t.channels[a], ports, true))
    && RouterMovedOrKept(s.router, t.router, t.channels, ports, told.2)
    && (forall a, p: nat, q: nat :: (a, p, q) in told.0 <==> MovedFrom(s, t, ports, a, p, q))
    && (forall a, p: nat :: (a, p) in told.1 <==> HeldAt(s, ports, a, p))
  }

  predicate MovedFrom(s: State, t: State, ports: set<nat>, a: Ref, p: nat, q: nat)
    requires t.channels.Keys == s.channels.Keys
  {
    a in s.channels && s.channels[a].port == p && p in ports && !s.channels[a].portExplicit && t.channels[a].port == q
  }

  predicate HeldAt(s: State, ports: set<nat>, a: Ref, p: nat) {
    a in s.channels && s.channels[a].port == p && p in ports && s.channels[a].portExplicit
  }

  lemma {:induction false} ReallocationCommits(s: State, ports: set<nat>, order: seq<Ref>, offers: seq<nat>)
    requires Enumerates(order, s.channels.Keys) && ReallocatePorts(s, ports, order, offers).Ok?
    ensures Reallocated(s, ReallocatePorts(s, ports, order, offers).value, ports,
                        ReallocationReport(s, ports, order, offers))
  {
    var t, told := ReallocatePorts(s, ports, order, offers).value, ReallocationReport(s, ports, order, offers);
    var start := Reallocation(s.channels, offers, [], []);
    var m := ReallocateAll(start, s.router, ports, order).value;
    RouterMoves(m.channels, s.router, ports, m.offers);
    forall a | a in s.channels ensures MovedOrKept(s.channels[a], t.channels[a], ports, true) {
      ReallocateAllMoves(start, s.router, ports, order, a);
    }
    forall a, p: nat, q: nat ensures (a, p, q) in told.0 <==> MovedFrom(s, t, ports, a, p, q) {
      ReallocateTells(s.channels, offers, s.router, ports, order, a, p, q);
    }
    forall a, p: nat ensures (a, p) in told.1 <==> HeldAt(s, ports, a, p) {
      ReallocateTells(s.channels, offers, s.router, ports, order, a, p, 0);
    }
  }

  // ---- and home ----

  /** An automatic port that has another home, free at the operating system. */
  predicate Homesick(port: nat, explicit: bool, home: Option<nat>, osFree: nat -> bool) {
    !explicit && home.Some? && home.value != port && osFree(home.value)
  }

  /** Somebody claimed the port, before the pass or after it. */
  ghost predicate ClaimedMeanwhile(s: State, t: State, port: nat) {
    port == s.router.port
    || exists a :: a in s.channels && a in t.channels && (s.channels[a].port == port || t.channels[a].port == port)
  }

  /** A channel went home, or stays as it was; it stays though it could go only where its home is claimed. */
  ghost predicate HomeOrStays(s: State, t: State, osFree: nat -> bool, a: Ref, goes: bool)
    requires a in s.channels && a in t.channels
  {
    var before, after := s.channels[a], t.channels[a];
    if goes then
      Homesick(before.port, before.portExplicit, before.portHome, osFree)
      && after == before.(port := before.portHome.value)
    else
      && after == before
      && (Homesick(before.port, before.portExplicit, before.portHome, osFree) && before.portHome.value != 0
          ==> ClaimedMeanwhile(s, t, before.portHome.value))
  }

  ghost predicate RouterHomeOrStays(s: State, t: State, osFree: nat -> bool, goes: bool) {
    var before, after := s.router, t.router;
    if goes then
      Homesick(before.port, before.portExplicit, before.portHome, osFree)
      && after == before.(port := before.portHome.value)
    else
      && after == before
      && (Homesick(before.port, before.portExplicit, before.portHome, osFree) && before.portHome.value != 0
          ==> ClaimedMeanwhile(s, t, before.portHome.value))
  }

  ghost predicate CameHome(s: State, t: State, osFree: nat -> bool, restored: seq<(Ref, nat)>, routerToo: bool) {
    && t.providers == s.providers && t.rules == s.rules && t.channels.Keys == s.channels.Keys
    && (forall a <- s.channels.Keys :: HomeOrStays(s, t, osFree, a, (a, t.channels[a].port) in restored))
    && (forall a, p: nat :: (a, p) in restored ==> a in s.channels && t.channels[a].port == p)
    && RouterHomeOrStays(s, t, osFree, routerToo)
  }

  /** Once visited, a channel is as it will be in the end. */
  lemma {:induction false} PrefixStands(h: Homing, osFree: nat -> bool, order: seq<Ref>, n: nat, b: Ref)
    requires forall i :: 0 <= i < |order| ==> order[i] in h.channels
    requires forall i, j :: 0 <= i < j < |order| ==> order[i] != order[j]
    requires n <= |order| && b in order[..n]
    ensures HomeAll(h, osFree, order[..n]).channels[b] == HomeAll(h, osFree, order).channels[b]
    decreases |order|
  {
    if n < |order| {
      var front := order[..|order| - 1];
      assert front[..n] == order[..n];
      PrefixStands(h, osFree, front, n, b);
      assert order[|order| - 1] != b;
    } else {
      assert order[..n] == order;
    }
  }

  /** What is claimed on the way is claimed before or after. */
  lemma {:induction false} ClaimedOnTheWay(s: State, t: State, osFree: nat -> bool, order: seq<Ref>, n: nat, port: nat)
    requires Inv(s) && Enumerates(order, s.channels.Keys) && n <= |order| && t == RestoreHomePorts(s, order, osFree)
    requires port != 0
    requires port in HomeAll(Homing(s.channels, UsedPorts(s.channels, s.router), []), osFree, order[..n]).used
    ensures ClaimedMeanwhile(s, t, port)
  {
    var start := Homing(s.channels, UsedPorts(s.channels, s.router), []);
    var m := HomeAll(start, osFree, order[..n]);
    HomeAllKeepsPorts(start, s.router, osFree, order[..n]);
    assert port in UsedPorts(m.channels, s.router);
    if port != s.router.port {
      var b :| b in m.channels && m.channels[b].port == port;
      if b in order[..n] {
        PrefixStands(start, osFree, order, n, b);
      } else {
        NotVisited(start, osFree, order[..n], b);
      }
      assert b in s.channels && b in t.channels && (s.channels[b].port == port || t.channels[b].port == port);
    }
  }

  lemma {:induction false} OneHome(s: State, t: State, osFree: nat -> bool, order: seq<Ref>, a: Ref)
    requires Inv(s) && Enumerates(order, s.channels.Keys) && t == RestoreHomePorts(s, order, osFree)
    requires a in s.channels
    ensures var restored := HomecomingReport(s, order, osFree).0;
            && HomeOrStays(s, t, osFree, a, (a, t.channels[a].port) in restored)
            && forall p: nat :: (a, p) in restored ==> t.channels[a].port == p
  {
    var n :| 0 <= n < |order| && order[n] == a;
    HomeAllTells(s.channels, UsedPorts(s.channels, s.router), osFree, order, n);
    var home := s.channels[a].portHome;
    if home.Some? && home.value != 0
        && home.value in HomeAll(Homing(s.channels, UsedPorts(s.channels, s.router), []), osFree, order[..n]).used {
      ClaimedOnTheWay(s, t, osFree, order, n, home.value);
    }
  }

  lemma {:induction false} HomecomingCommits(s: State, order: seq<Ref>, osFree: nat -> bool)
    requires Inv(s) && Enumerates(order, s.channels.Keys)
    ensures var (restored, routerToo) := HomecomingReport(s, order, osFree);
            CameHome(s, RestoreHomePorts(s, order, osFree), osFree, restored, routerToo)
  {
    var t := RestoreHomePorts(s, order, osFree);
    var (restored, routerToo) := HomecomingReport(s, order, osFree);
    forall a | a in s.channels
      ensures HomeOrStays(s, t, osFree, a, (a, t.channels[a].port) in restored)
      ensures forall p: nat :: (a, p) in restored ==> t.channels[a].port == p
    {
      OneHome(s, t, osFree, order, a);
    }
    forall a, p: nat | (a, p) in restored ensures a in s.channels {
      if a !in s.channels {
        NoStranger(s.channels, UsedPorts(s.channels, s.router), osFree, order, a, p);
      }
    }
    RouterHome(s, order, osFree);
  }

  lemma {:induction false} RouterHome(s: State, order: seq<Ref>, osFree: nat -> bool)
    requires Inv(s) && Enumerates(order, s.channels.Keys)
    ensures RouterHomeOrStays(s, RestoreHomePorts(s, order, osFree), osFree, HomecomingReport(s, order, osFree).1)
  {
    assert order[..|order|] == order;
    var home := s.router.portHome;
    if home.Some? && home.value != 0
        && home.value in HomeAll(Homing(s.channels, UsedPorts(s.channels, s.router), []), osFree, order).used {
      ClaimedOnTheWay(s, RestoreHomePorts(s, order, osFree), osFree, order, |order|, home.value);
    }
  }

  lemma {:induction false} NoStranger(channels: map<Ref, Channel>, used: set<nat>, osFree: nat -> bool, order: seq<Ref>,
                                      a: Ref, p: nat)
    requires forall i :: 0 <= i < |order| ==> order[i] in channels
    requires a !in channels
    ensures (a, p) !in HomeAll(Homing(channels, used, []), osFree, order).restored
  {
    if order != [] {
      NoStranger(channels, used, osFree, order[..|order| - 1], a, p);
    }
  }
}
