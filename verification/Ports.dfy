/** Port recovery: moving stolen automatic ports away, and back home once their holder is gone. */
module Ports {
  import opened Common
  import opened State
  import opened Setup

  // ---- moving stolen ports ----

  /** A channel record that gets a replacement port; the first automatic port stays remembered as home. */
  function Moved(ch: Channel, port: nat): Channel {
    ch.(port := port, portHome := if ch.portHome.None? then Some(ch.port) else ch.portHome)
  }

  predicate Stolen(ch: Channel, ports: set<nat>) {
    ch.port in ports && !ch.portExplicit
  }

  datatype Reallocation = Reallocation(channels: map<Ref, Channel>, offers: seq<nat>,
                                       moved: seq<(Ref, nat, nat)>, held: seq<(Ref, nat)>)

  function ReallocateOne(r: Reallocation, router: Router, ports: set<nat>, ref: Ref): Result<Reallocation, string>
    requires ref in r.channels
  {
    var ch := r.channels[ref];
    if ch.port !in ports then Ok(r)
    else if ch.portExplicit then Ok(r.(held := r.held + [(ref, ch.port)]))
    else if !OfferOk(r.channels, router, r.offers) then Err("no free port")
    else Ok(Reallocation(r.channels[ref := Moved(ch, r.offers[0])], r.offers[1..],
                         r.moved + [(ref, ch.port, r.offers[0])], r.held))
  }

  /** The channels in the order they are visited. */
  function ReallocateAll(r: Reallocation, router: Router, ports: set<nat>,
                         order: seq<Ref>): (out: Result<Reallocation, string>)
    requires forall i :: 0 <= i < |order| ==> order[i] in r.channels
    ensures out.Ok? ==> out.value.channels.Keys == r.channels.Keys
  {
    if order == [] then Ok(r)
    else
      match ReallocateAll(r, router, ports, order[..|order| - 1])
      case Err(e) => Err(e)
      case Ok(m) => ReallocateOne(m, router, ports, order[|order| - 1])
  }

  datatype RouterMove = RouterStays | RouterHeld(port: nat) | RouterMoved(from: nat, to: nat)

  /** The router's own port, after the channels. */
  function ReallocateRouter(channels: map<Ref, Channel>, router: Router, ports: set<nat>, offers: seq<nat>):
    Result<(Router, RouterMove), string>
  {
    if router.port == 0 || router.port !in ports then Ok((router, RouterStays))
    else if router.portExplicit then Ok((router, RouterHeld(router.port)))
    else if !OfferOk(channels, router, offers) then Err("no free port")
    else Ok((router.(port := offers[0], portHome := if router.portHome.None? then Some(router.port)
                                                      else router.portHome),
             RouterMoved(router.port, offers[0])))
  }

  /** Each channel once. */
  ghost predicate Enumerates(order: seq<Ref>, refs: set<Ref>) {
    && (forall i :: 0 <= i < |order| ==> order[i] in refs)
    && (forall a <- refs :: a in order)
    && (forall i, j :: 0 <= i < j < |order| ==> order[i] != order[j])
  }

  /** Only a stolen automatic port moves: to a port it did not have, keeping everything else and any home set before. */
  ghost predicate MovedOrKept(before: Channel, after: Channel, ports: set<nat>, visited: bool) {
    if visited && before.port in ports && !before.portExplicit then
      && after == before.(port := after.port, portHome := after.portHome)
      && after.port != before.port && 0 < after.port <= 65535
      && after.portHome == (if before.portHome.Some? then before.portHome else Some(before.port))
    else after == before
  }

  lemma {:induction false} ReallocateOneKeepsPorts(r: Reallocation, router: Router, ports: set<nat>, ref: Ref)
    requires ref in r.channels && DistinctPorts(r.channels, router) && ReallocateOne(r, router, ports, ref).Ok?
    ensures DistinctPorts(ReallocateOne(r, router, ports, ref).value.channels, router)
  {
    var out := ReallocateOne(r, router, ports, ref).value;
    if out.channels != r.channels {
      assert r.offers[0] !in OtherPorts(r.channels, router, ref) by {
        assert forall a :: a in r.channels - {ref} ==> a in r.channels && (r.channels - {ref})[a] == r.channels[a];
      }
      SetChannelKeepsPorts(r.channels, router, ref, Moved(r.channels[ref], r.offers[0]));
    }
  }

  lemma {:induction false} ReallocateAllKeepsPorts(r: Reallocation, router: Router, ports: set<nat>, order: seq<Ref>)
    requires forall i :: 0 <= i < |order| ==> order[i] in r.channels
    requires DistinctPorts(r.channels, router) && ReallocateAll(r, router, ports, order).Ok?
    ensures DistinctPorts(ReallocateAll(r, router, ports, order).value.channels, router)
  {
    if order != [] {
      ReallocateAllKeepsPorts(r, router, ports, order[..|order| - 1]);
      ReallocateOneKeepsPorts(ReallocateAll(r, router, ports, order[..|order| - 1]).value, router, ports,
                              order[|order| - 1]);
    }
  }

  /** What the whole pass did to one channel. */
  lemma {:induction false} ReallocateAllMoves(r: Reallocation, router: Router, ports: set<nat>, order: seq<Ref>, a: Ref)
    requires forall i :: 0 <= i < |order| ==> order[i] in r.channels
    requires forall i, j :: 0 <= i < j < |order| ==> order[i] != order[j]
    requires ReallocateAll(r, router, ports, order).Ok? && a in r.channels
    ensures MovedOrKept(r.channels[a], ReallocateAll(r, router, ports, order).value.channels[a], ports, a in order)
  {
    if order != [] {
      var front, last := order[..|order| - 1], order[|order| - 1];
      assert order == front + [last];
      ReallocateAllMoves(r, router, ports, front, a);
      var m := ReallocateAll(r, router, ports, front).value;
      if last == a {
        assert a !in front;
        assert m.channels[a] == r.channels[a];
        if Stolen(r.channels[a], ports) && r.channels[a].port != 0 {
          assert m.channels[a].port in UsedPorts(m.channels, router);
        }
      }
    }
  }

  /** The report is exactly what happened: who moved, from where to where, and who holds a declared port. */
  lemma {:induction false} ReallocateTells(channels: map<Ref, Channel>, offers: seq<nat>, router: Router,
                                           ports: set<nat>, order: seq<Ref>, a: Ref, p: nat, q: nat)
    requires forall i :: 0 <= i < |order| ==> order[i] in channels
    requires forall i, j :: 0 <= i < j < |order| ==> order[i] != order[j]
    requires ReallocateAll(Reallocation(channels, offers, [], []), router, ports, order).Ok?
    ensures var out := ReallocateAll(Reallocation(channels, offers, [], []), router, ports, order).value;
            && ((a, p, q) in out.moved
                <==> a in order && channels[a].port == p && p in ports && !channels[a].portExplicit
                     && out.channels[a].port == q)
            && ((a, p) in out.held <==> a in order && channels[a].port == p && p in ports && channels[a].portExplicit)
  {
    if order != [] {
      var front, last := order[..|order| - 1], order[|order| - 1];
      var start := Reallocation(channels, offers, [], []);
      assert order == front + [last] && last !in front;
      ReallocateTells(channels, offers, router, ports, front, a, p, q);
      ReallocateAllMoves(start, router, ports, front, last);
    }
  }

  /** The router's own port, told the same way. */
  ghost predicate RouterMovedOrKept(before: Router, after: Router, channels: map<Ref, Channel>, ports: set<nat>,
                                    told: RouterMove) {
    if before.port == 0 || before.port !in ports then after == before && told == RouterStays
    else if before.portExplicit then after == before && told == RouterHeld(before.port)
    else
      && after == before.(port := after.port, portHome := after.portHome)
      && after.port != before.port && 0 < after.port <= 65535
      && (forall a <- channels.Keys :: channels[a].port != after.port)
      && after.portHome == (if before.portHome.Some? then before.portHome else Some(before.port))
      && told == RouterMoved(before.port, after.port)
  }

  lemma {:induction false} RouterMoves(channels: map<Ref, Channel>, router: Router, ports: set<nat>, offers: seq<nat>)
    requires ReallocateRouter(channels, router, ports, offers).Ok?
    ensures var (after, told) := ReallocateRouter(channels, router, ports, offers).value;
            RouterMovedOrKept(router, after, channels, ports, told)
  {
    assert forall a <- channels.Keys :: channels[a].port != 0 ==> channels[a].port in UsedPorts(channels, router);
  }

  lemma {:induction false} ReallocateRouterKeepsPorts(channels: map<Ref, Channel>, router: Router, ports: set<nat>,
                                                      offers: seq<nat>)
    requires DistinctPorts(channels, router) && ReallocateRouter(channels, router, ports, offers).Ok?
    ensures DistinctPorts(channels, ReallocateRouter(channels, router, ports, offers).value.0)
  {
    if ReallocateRouter(channels, router, ports, offers).value.1.RouterMoved? {
      forall a <- channels.Keys ensures channels[a].port != 0 ==> channels[a].port != offers[0] {
        assert channels[a].port != 0 ==> channels[a].port in UsedPorts(channels, router);
      }
    }
  }

  // ---- going home ----

  /** The claimed ports as the pass goes along, and what it put back. */
  datatype Homing = Homing(channels: map<Ref, Channel>, used: set<nat>, restored: seq<(Ref, nat)>)

  predicate CanGoHome(port: nat, explicit: bool, home: Option<nat>, used: set<nat>, osFree: nat -> bool) {
    !explicit && home.Some? && home.value != port && home.value !in used && osFree(home.value)
  }

  function HomeOne(h: Homing, osFree: nat -> bool, ref: Ref): Homing
    requires ref in h.channels
  {
    var ch := h.channels[ref];
    if CanGoHome(ch.port, ch.portExplicit, ch.portHome, h.used, osFree)
    then Homing(h.channels[ref := ch.(port := ch.portHome.value)], h.used - {ch.port} + {ch.portHome.value},
                h.restored + [(ref, ch.portHome.value)])
    else h
  }

  function HomeAll(h: Homing, osFree: nat -> bool, order: seq<Ref>): (out: Homing)
    requires forall i :: 0 <= i < |order| ==> order[i] in h.channels
    ensures out.channels.Keys == h.channels.Keys
  {
    if order == [] then h
    else HomeOne(HomeAll(h, osFree, order[..|order| - 1]), osFree, order[|order| - 1])
  }

  function HomeRouter(router: Router, used: set<nat>, osFree: nat -> bool): Router {
    if CanGoHome(router.port, router.portExplicit, router.portHome, used, osFree)
    then router.(port := router.portHome.value) else router
  }

  /** `used` is every claimed port, give or take the number 0 that claims nothing. */
  ghost predicate UsedMatches(channels: map<Ref, Channel>, router: Router, used: set<nat>) {
    used - {0} == UsedPorts(channels, router)
  }

  lemma {:induction false} UsedAfterMove(channels: map<Ref, Channel>, router: Router, used: set<nat>, ref: Ref,
                                         port: nat)
    requires DistinctPorts(channels, router) && UsedMatches(channels, router, used)
    requires ref in channels && port !in used
    ensures var next := channels[ref := channels[ref].(port := port)];
            DistinctPorts(next, router) && UsedMatches(next, router, used - {channels[ref].port} + {port})
  {
    var next := channels[ref := channels[ref].(port := port)];
    forall a | a in channels && channels[a].port != 0 ensures channels[a].port in used {
      assert channels[a].port in UsedPorts(channels, router);
    }
    assert router.port != 0 ==> router.port in UsedPorts(channels, router);
    var before, after := UsedPorts(channels, router), UsedPorts(next, router);
    forall p | p in after ensures p in before - {channels[ref].port} + {port} {
      if p != router.port {
        var a :| a in next && next[a].port == p && p != 0;
        assert a != ref ==> channels[a].port in before;
      }
    }
    forall p | p in before && p != channels[ref].port ensures p in after {
      if p != router.port {
        var a :| a in channels && channels[a].port == p && p != 0;
        assert next[a].port in after;
      }
    }
    assert port != 0 ==> next[ref].port in after;
  }

  /** The pass keeps ports distinct and its own account of them right. */
  lemma {:induction false} HomeAllKeepsPorts(h: Homing, router: Router, osFree: nat -> bool, order: seq<Ref>)
    requires forall i :: 0 <= i < |order| ==> order[i] in h.channels
    requires DistinctPorts(h.channels, router) && UsedMatches(h.channels, router, h.used)
    ensures var out := HomeAll(h, osFree, order);
            DistinctPorts(out.channels, router) && UsedMatches(out.channels, router, out.used)
  {
    if order != [] {
      var front, last := order[..|order| - 1], order[|order| - 1];
      HomeAllKeepsPorts(h, router, osFree, front);
      var m := HomeAll(h, osFree, front);
      var ch := m.channels[last];
      if CanGoHome(ch.port, ch.portExplicit, ch.portHome, m.used, osFree) {
        UsedAfterMove(m.channels, router, m.used, last, ch.portHome.value);
      }
    }
  }

  lemma {:induction false} HomeRouterKeepsPorts(channels: map<Ref, Channel>, router: Router, used: set<nat>,
                                                osFree: nat -> bool)
    requires DistinctPorts(channels, router) && UsedMatches(channels, router, used)
    ensures DistinctPorts(channels, HomeRouter(router, used, osFree))
  {
    forall a <- channels.Keys | channels[a].port != 0 ensures channels[a].port in used {
      assert channels[a].port in UsedPorts(channels, router);
    }
  }

  /** A channel keeps its record, except that an automatic port may go back to its home if nobody outside holds that;
      the home itself stays. */
  ghost predicate HomeOrKept(before: Channel, after: Channel, osFree: nat -> bool) {
    after == before
    || (!before.portExplicit && before.portHome.Some? && osFree(before.portHome.value)
        && after == before.(port := before.portHome.value))
  }

  lemma {:induction false} HomeAllMoves(h: Homing, osFree: nat -> bool, order: seq<Ref>, a: Ref)
    requires forall i :: 0 <= i < |order| ==> order[i] in h.channels
    requires a in h.channels
    ensures HomeOrKept(h.channels[a], HomeAll(h, osFree, order).channels[a], osFree)
  {
    if order != [] {
      HomeAllMoves(h, osFree, order[..|order| - 1], a);
    }
  }

  lemma {:induction false} NotVisited(h: Homing, osFree: nat -> bool, order: seq<Ref>, a: Ref)
    requires forall i :: 0 <= i < |order| ==> order[i] in h.channels
    requires a in h.channels && a !in order
    ensures HomeAll(h, osFree, order).channels[a] == h.channels[a]
    ensures forall p :: (a, p) !in HomeAll(h, osFree, order).restored || (a, p) in h.restored
  {
    if order != [] {
      NotVisited(h, osFree, order[..|order| - 1], a);
    }
  }

  /** Whoever can goes home when it is its turn, and exactly those are reported: an automatic port with another home
      that is free at the operating system and that no channel and not the router claims at that moment. */
  lemma {:induction false} HomeAllTells(channels: map<Ref, Channel>, used: set<nat>, osFree: nat -> bool,
                                        order: seq<Ref>, n: nat)
    requires forall i :: 0 <= i < |order| ==> order[i] in channels
    requires n < |order| && forall i, j :: 0 <= i < j < |order| ==> order[i] != order[j]
    ensures var start := Homing(channels, used, []);
            var a, claimed := order[n], HomeAll(start, osFree, order[..n]).used;
            var goes := !channels[a].portExplicit && channels[a].portHome.Some?
                        && channels[a].portHome.value != channels[a].port
                        && channels[a].portHome.value !in claimed && osFree(channels[a].portHome.value);
            var out := HomeAll(start, osFree, order);
            && out.channels[a] == (if goes then channels[a].(port := channels[a].portHome.value) else channels[a])
            && forall p :: (a, p) in out.restored <==> goes && p == channels[a].portHome.value
    decreases |order|
  {
    var start := Homing(channels, used, []);
    var front, last := order[..|order| - 1], order[|order| - 1];
    if n < |front| {
      assert front[..n] == order[..n] && front[n] == order[n];
      HomeAllTells(channels, used, osFree, front, n);
    } else {
      assert front == order[..n] && last !in front;
      NotVisited(start, osFree, front, last);
    }
  }

  // ---- there and back ----

  /** Nothing has drifted: a remembered home is the current port. */
  ghost predicate AtHome(channels: map<Ref, Channel>, router: Router) {
    && (forall a <- channels.Keys :: channels[a].portHome.Some? ==> channels[a].portHome.value == channels[a].port)
    && (router.portHome.Some? ==> router.portHome.value == router.port)
  }

  /** `now` is `orig` with some of the ports in `ports` moved out of `ports`, home remembered. */
  ghost predicate Displaced(orig: Channel, now: Channel, ports: set<nat>) {
    now == orig || (Stolen(orig, ports) && now == Moved(orig, now.port) && now.port !in ports)
  }

  /** `now` is back on the original port, remembering it when it had moved. */
  ghost predicate Returned(orig: Channel, now: Channel) {
    now == orig || now == orig.(portHome := Some(orig.port))
  }

  ghost predicate RouterDisplaced(orig: Router, now: Router, ports: set<nat>) {
    || now == orig
    || (orig.port in ports && !orig.portExplicit && now.port !in ports
        && now == orig.(port := now.port, portHome := if orig.portHome.None? then Some(orig.port) else orig.portHome))
  }

  /** Some channels are back, the others still displaced. */
  ghost predicate OnTheWay(orig: map<Ref, Channel>, now: map<Ref, Channel>, ports: set<nat>, back: set<Ref>) {
    && now.Keys == orig.Keys
    && forall a <- orig.Keys :: if a in back then Returned(orig[a], now[a]) else Displaced(orig[a], now[a], ports)
  }

  /** No other channel and not the router sits on the home of a displaced channel. */
  lemma {:induction false} HomeIsFree(orig: map<Ref, Channel>, origRouter: Router, m: Homing, router: Router,
                                      ports: set<nat>, back: set<Ref>, ref: Ref)
    requires DistinctPorts(orig, origRouter) && OnTheWay(orig, m.channels, ports, back)
    requires UsedMatches(m.channels, router, m.used) && RouterDisplaced(origRouter, router, ports)
    requires ref in orig && orig[ref].port in ports && orig[ref].port != 0 && m.channels[ref].port != orig[ref].port
    ensures orig[ref].port !in m.used
  {
    forall a | a in m.channels && a != ref ensures m.channels[a].port != orig[ref].port {
      assert a in orig;
    }
    assert orig[ref].port !in UsedPorts(m.channels, router);
  }

  lemma {:induction false} HomeOneReturns(orig: map<Ref, Channel>, origRouter: Router, m: Homing, router: Router,
                                          ports: set<nat>, osFree: nat -> bool, back: set<Ref>, ref: Ref)
    requires DistinctPorts(orig, origRouter) && AtHome(orig, origRouter) && OnTheWay(orig, m.channels, ports, back)
    requires UsedMatches(m.channels, router, m.used) && RouterDisplaced(origRouter, router, ports)
    requires forall p <- ports :: osFree(p)
    requires ref in orig && ref !in back && orig[ref].port != 0
    ensures OnTheWay(orig, HomeOne(m, osFree, ref).channels, ports, back + {ref})
  {
    if m.channels[ref] != orig[ref] {
      HomeIsFree(orig, origRouter, m, router, ports, back, ref);
    }
  }

  function Visited(order: seq<Ref>, n: nat): set<Ref>
    requires n <= |order|
  {
    set i | 0 <= i < n :: order[i]
  }

  lemma {:induction false} VisitedNext(order: seq<Ref>, refs: set<Ref>, n: nat)
    requires Enumerates(order, refs) && 0 < n <= |order|
    ensures order[n - 1] in refs && order[n - 1] !in Visited(order, n - 1)
    ensures Visited(order, n) == Visited(order, n - 1) + {order[n - 1]}
  {
  }

  lemma {:induction false} HomeAllNext(h: Homing, osFree: nat -> bool, order: seq<Ref>, n: nat)
    requires 0 < n <= |order| && forall i :: 0 <= i < |order| ==> order[i] in h.channels
    ensures HomeAll(h, osFree, order[..n]) == HomeOne(HomeAll(h, osFree, order[..n - 1]), osFree, order[n - 1])
  {
    assert order[..n][..n - 1] == order[..n - 1];
  }

  lemma {:induction false} HomeNextReturns(orig: map<Ref, Channel>, origRouter: Router, m: Homing, router: Router,
                                           ports: set<nat>, osFree: nat -> bool, order: seq<Ref>, n: nat)
    requires Enumerates(order, orig.Keys) && 0 < n <= |order|
             && OnTheWay(orig, m.channels, ports, Visited(order, n - 1))
    requires DistinctPorts(orig, origRouter) && AtHome(orig, origRouter) && forall a <- orig.Keys :: orig[a].port != 0
    requires UsedMatches(m.channels, router, m.used)
    requires RouterDisplaced(origRouter, router, ports) && forall p <- ports :: osFree(p)
    ensures order[n - 1] in m.channels
    ensures OnTheWay(orig, HomeOne(m, osFree, order[n - 1]).channels, ports, Visited(order, n))
  {
    VisitedNext(order, orig.Keys, n);
    HomeOneReturns(orig, origRouter, m, router, ports, osFree, Visited(order, n - 1), order[n - 1]);
  }

  /** Going home from a displaced setup once the holders are gone: every port is back where it was. */
  lemma {:induction false} HomeAllReturns(orig: map<Ref, Channel>, origRouter: Router, h: Homing, router: Router,
                                          ports: set<nat>, osFree: nat -> bool, order: seq<Ref>, n: nat)
    requires Enumerates(order, orig.Keys) && n <= |order| && h.channels.Keys == orig.Keys
    requires DistinctPorts(orig, origRouter) && AtHome(orig, origRouter) && forall a <- orig.Keys :: orig[a].port != 0
    requires DistinctPorts(h.channels, router) && UsedMatches(h.channels, router, h.used)
    requires OnTheWay(orig, h.channels, ports, {})
    requires RouterDisplaced(origRouter, router, ports) && forall p <- ports :: osFree(p)
    ensures OnTheWay(orig, HomeAll(h, osFree, order[..n]).channels, ports, Visited(order, n))
  {
    if n != 0 {
      HomeAllReturns(orig, origRouter, h, router, ports, osFree, order, n - 1);
      HomeAllKeepsPorts(h, router, osFree, order[..n - 1]);
      HomeAllNext(h, osFree, order, n);
      HomeNextReturns(orig, origRouter, HomeAll(h, osFree, order[..n - 1]), router, ports, osFree, order, n);
    }
  }

  lemma {:induction false} RouterReturns(orig: map<Ref, Channel>, origRouter: Router, channels: map<Ref, Channel>,
                                         router: Router,
                      ports: set<nat>, used: set<nat>, osFree: nat -> bool)
    requires DistinctPorts(orig, origRouter) && AtHome(orig, origRouter) && RouterDisplaced(origRouter, router, ports)
    requires origRouter.port != 0 || router == origRouter
    requires channels.Keys == orig.Keys && forall a <- orig.Keys :: orig[a].port != 0 && Returned(orig[a], channels[a])
    requires UsedMatches(channels, router, used) && forall p <- ports :: osFree(p)
    ensures HomeRouter(router, used, osFree).port == origRouter.port
  {
    if router != origRouter {
      assert forall a <- channels.Keys :: a in orig && channels[a].port == orig[a].port;
      assert origRouter.port !in UsedPorts(channels, router);
    }
  }

  lemma {:induction false} ReallocateAllDisplaces(r: Reallocation, router: Router, ports: set<nat>, order: seq<Ref>)
    requires forall i :: 0 <= i < |order| ==> order[i] in r.channels
    requires forall i :: 0 <= i < |r.offers| ==> r.offers[i] !in ports
    requires ReallocateAll(r, router, ports, order).Ok?
    ensures var out := ReallocateAll(r, router, ports, order).value;
            && (forall i :: 0 <= i < |out.offers| ==> out.offers[i] !in ports)
            && (forall a <- r.channels.Keys :: Displaced(r.channels[a], out.channels[a], ports))
  {
    if order != [] {
      ReallocateAllDisplaces(r, router, ports, order[..|order| - 1]);
    }
  }

  /** After a reallocation every channel and the router are where they were or displaced, and ports are distinct. */
  lemma {:induction false} ReallocationDisplaces(channels: map<Ref, Channel>, router: Router, ports: set<nat>,
                                                 offers: seq<nat>, order: seq<Ref>)
    requires DistinctPorts(channels, router) && forall i :: 0 <= i < |order| ==> order[i] in channels
    requires forall i :: 0 <= i < |offers| ==> offers[i] !in ports
    requires ReallocateAll(Reallocation(channels, offers, [], []), router, ports, order).Ok?
    requires var m := ReallocateAll(Reallocation(channels, offers, [], []), router, ports, order).value;
             ReallocateRouter(m.channels, router, ports, m.offers).Ok?
    ensures var m := ReallocateAll(Reallocation(channels, offers, [], []), router, ports, order).value;
            var away := ReallocateRouter(m.channels, router, ports, m.offers).value.0;
            && DistinctPorts(m.channels, away) && OnTheWay(channels, m.channels, ports, {})
            && RouterDisplaced(router, away, ports) && (router.port == 0 ==> away == router)
  {
    var start := Reallocation(channels, offers, [], []);
    var m := ReallocateAll(start, router, ports, order).value;
    ReallocateAllKeepsPorts(start, router, ports, order);
    ReallocateAllDisplaces(start, router, ports, order);
    ReallocateRouterKeepsPorts(m.channels, router, ports, m.offers);
  }

  /** From any displaced setup, one homecoming brings every port back. */
  lemma {:induction false} HomecomingReturns(orig: map<Ref, Channel>, origRouter: Router, now: map<Ref, Channel>,
                                             away: Router, ports: set<nat>, order: seq<Ref>, osFree: nat -> bool)
    requires DistinctPorts(orig, origRouter) && AtHome(orig, origRouter) && forall a <- orig.Keys :: orig[a].port != 0
    requires Enumerates(order, orig.Keys) && forall p <- ports :: osFree(p)
    requires DistinctPorts(now, away) && OnTheWay(orig, now, ports, {}) && RouterDisplaced(origRouter, away, ports)
    requires origRouter.port == 0 ==> away == origRouter
    ensures var home := HomeAll(Homing(now, UsedPorts(now, away), []), osFree, order);
            && (forall a <- orig.Keys :: Returned(orig[a], home.channels[a]))
            && HomeRouter(away, home.used, osFree).port == origRouter.port
  {
    var h := Homing(now, UsedPorts(now, away), []);
    HomeAllReturns(orig, origRouter, h, away, ports, osFree, order, |order|);
    assert order[..|order|] == order;
    HomeAllKeepsPorts(h, away, osFree, order);
    var home := HomeAll(h, osFree, order);
    forall a <- orig.Keys ensures Returned(orig[a], home.channels[a]) {
      var i :| 0 <= i < |order| && order[i] == a;
      assert a in Visited(order, |order|);
    }
    RouterReturns(orig, origRouter, home.channels, away, ports, home.used, osFree);
  }

  /** Stolen ports moved away come home in one pass once their holders are gone, in whatever order channels are
      visited, as long as no replacement was itself one of the stolen ports. */
  lemma {:induction false} ReallocateThenHome(channels: map<Ref, Channel>, router: Router, ports: set<nat>,
                                              offers: seq<nat>, order: seq<Ref>, order2: seq<Ref>, osFree: nat -> bool)
    requires DistinctPorts(channels, router) && AtHome(channels, router)
             && forall a <- channels.Keys :: channels[a].port != 0
    requires Enumerates(order, channels.Keys) && Enumerates(order2, channels.Keys)
    requires forall i :: 0 <= i < |offers| ==> offers[i] !in ports
    requires forall p <- ports :: osFree(p)
    requires ReallocateAll(Reallocation(channels, offers, [], []), router, ports, order).Ok?
    requires var m := ReallocateAll(Reallocation(channels, offers, [], []), router, ports, order).value;
             ReallocateRouter(m.channels, router, ports, m.offers).Ok?
    ensures var m := ReallocateAll(Reallocation(channels, offers, [], []), router, ports, order).value;
            var away := ReallocateRouter(m.channels, router, ports, m.offers).value.0;
            var home := HomeAll(Homing(m.channels, UsedPorts(m.channels, away), []), osFree, order2);
            && (forall a <- channels.Keys :: Returned(channels[a], home.channels[a]))
            && HomeRouter(away, home.used, osFree).port == router.port
  {
    var m := ReallocateAll(Reallocation(channels, offers, [], []), router, ports, order).value;
    var away := ReallocateRouter(m.channels, router, ports, m.offers).value.0;
    ReallocationDisplaces(channels, router, ports, offers, order);
    HomecomingReturns(channels, router, m.channels, away, ports, order2, osFree);
  }
}
