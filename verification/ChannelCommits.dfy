/** What the writes to single channels and to the router section commit, field by field. */
module ChannelCommits {
  import opened Common
  import opened State
  import opened Setup
  import opened ChannelIds
  import opened Operations
  import Bundles = BundleCommits

  /** Everything but the channels is as it was, and so is every channel outside `refs`. */
  ghost predicate OnlyChannels(s: State, t: State, refs: set<Ref>) {
    && t.providers == s.providers && t.router == s.router && t.rules == s.rules
    && (forall a :: a !in refs ==> (a in t.channels <==> a in s.channels))
    && (forall a <- s.channels.Keys :: a !in refs ==> t.channels[a] == s.channels[a])
  }

  // ---- adding and importing ----

  /** A channel added by hand: as asked for, enabled, under no mark. */
  ghost predicate Added(s: State, t: State, ref: Ref, spec: ChannelSpec) {
    && OnlyChannels(s, t, {ref}) && ref !in s.channels && ref in t.channels
    && ref.provider == spec.ref.provider && ref.provider in s.providers
    && Bundles.CreatedAs(t.channels[ref], spec.(enabled := None), false)
  }

  /** The id is the base with the least number from 1 on that makes it new to the provider. */
  ghost predicate NamedNext(channels: map<Ref, Channel>, ref: Ref, base: string) {
    exists n: nat :: n >= 1 && ref == NthRef(ref.provider, base, n) && ref !in channels
      && forall k: nat :: 1 <= k < n ==> NthRef(ref.provider, base, k) in channels
  }

  function NthRef(provider: string, base: string, n: nat): Ref {
    Ref(provider, base + ['_'] + Digits(n))
  }

  lemma {:induction false} NextIsNamed(channels: map<Ref, Channel>, provider: string, base: string)
    ensures var ids := ChannelIdsOf(channels, provider);
            NamedNext(channels, Ref(provider, Candidate(base, NextNumber(ids, base, 1))), base)
  {
    var ids := ChannelIdsOf(channels, provider);
    var n := NextNumber(ids, base, 1);
    NextNumberIsLeastFree(ids, base, 1);
    assert Candidate(base, n) == NthRef(provider, base, n).cid;
    forall k: nat | 1 <= k < n ensures NthRef(provider, base, k) in channels {
      assert Candidate(base, k) == NthRef(provider, base, k).cid;
      assert Candidate(base, k) in ids;
    }
  }

  /** A re-import replaces location and keys, drops the recovery record, and takes over a stated port or title; the pin,
      the state, the mark, the home port and the probe result stay. */
  predicate ReimportedAs(before: Channel, after: Channel, spec: ChannelSpec) {
    && after.country == spec.country && after.city == spec.city && after.wg == spec.wg && after.reconnect == None
    && after.port == (if spec.port != 0 then spec.port else before.port)
    && (after.portExplicit <==> spec.port != 0 || before.portExplicit)
    && after.title == (if spec.title != "" then spec.title else before.title)
    && after.server == before.server && after.enabled == before.enabled && after.managed == before.managed
    && after.portHome == before.portHome && after.probe == before.probe
  }

  /** An import creates the channel without a pin, or re-imports it. */
  ghost predicate Imported(s: State, t: State, spec: ChannelSpec) {
    && OnlyChannels(s, t, {spec.ref}) && spec.ref in t.channels
    && (if spec.ref in s.channels then ReimportedAs(s.channels[spec.ref], t.channels[spec.ref], spec)
        else Bundles.CreatedAs(t.channels[spec.ref], spec.(enabled := None, server := ""), false))
  }

  lemma {:induction false} AddCommits(s: State, spec: ChannelSpec, base: string, offers: seq<nat>) returns (ref: Ref)
    requires AddChannel(s, spec, base, offers).Ok?
    ensures var t := AddChannel(s, spec, base, offers).value;
            Added(s, t, ref, spec) && t.channels.Keys == s.channels.Keys + {ref} && NamedNext(s.channels, ref, base)
  {
    NextIsNamed(s.channels, spec.ref.provider, base);
    var ids := ChannelIdsOf(s.channels, spec.ref.provider);
    var n := NextNumber(ids, base, 1);
    NextNumberIsLeastFree(ids, base, 1);
    ref := Ref(spec.ref.provider, Candidate(base, n));
    assert forall a <- s.channels.Keys :: a.provider == spec.ref.provider ==> a.cid in ids;
  }

  lemma {:induction false} UpsertCommits(s: State, spec: ChannelSpec, offers: seq<nat>)
    requires UpsertChannel(s, spec, offers).Ok?
    ensures Imported(s, UpsertChannel(s, spec, offers).value, spec)
  {
  }

  // ---- removing and toggling ----

  ghost predicate Removed(s: State, t: State, refs: seq<Ref>) {
    && OnlyChannels(s, t, set a | a in refs) && (forall a <- refs :: a !in t.channels)
    && forall i :: 0 <= i < |s.rules| ==> s.rules[i].target.Via? ==> s.rules[i].target.ref !in refs
  }

  lemma {:induction false} RemoveCommits(s: State, refs: seq<Ref>)
    requires RemoveChannels(s, refs).Ok?
    ensures Removed(s, RemoveChannels(s, refs).value, refs)
  {
  }

  /** Enabling changes nothing but the state; disabling also forgets probe result and recovery record. A channel already
      in that state keeps everything. */
  predicate ToggledTo(before: Channel, after: Channel, enabled: bool) {
    && after.enabled == enabled
    && after.country == before.country && after.city == before.city && after.title == before.title
    && after.server == before.server && after.wg == before.wg && after.port == before.port
    && after.portExplicit == before.portExplicit && after.portHome == before.portHome
    && after.managed == before.managed
    && (if before.enabled && !enabled then after.probe == None && after.reconnect == None
        else after.probe == before.probe && after.reconnect == before.reconnect)
  }

  ghost predicate SetTo(s: State, t: State, refs: seq<Ref>, enabled: bool) {
    && OnlyChannels(s, t, set a | a in refs) && t.channels.Keys == s.channels.Keys
    && (forall a <- refs :: a in s.channels ==> ToggledTo(s.channels[a], t.channels[a], enabled))
  }

  lemma {:induction false} SetCommits(s: State, refs: seq<Ref>, enabled: bool, expected: map<Ref, Channel>)
    requires SetEnabled(s, refs, enabled, expected).Ok?
    ensures SetTo(s, SetEnabled(s, refs, enabled, expected).value, refs, enabled)
  {
  }

  // ---- notes ----

  /** What port, state and provenance do under any note: they stay. */
  predicate SameStanding(before: Channel, after: Channel) {
    && after.port == before.port && after.portExplicit == before.portExplicit && after.portHome == before.portHome
    && after.enabled == before.enabled && after.managed == before.managed
  }

  predicate SamePlace(before: Channel, after: Channel) {
    after.country == before.country && after.city == before.city && after.server == before.server
  }

  /** Each note writes what it says and nothing else; moving the pin also drops the recovery record. */
  predicate NotedAs(before: Channel, after: Channel, note: Note) {
    && SameStanding(before, after)
    && match note
       case SetLabel(title) =>
         && after.title == title && SamePlace(before, after) && after.wg == before.wg
         && after.probe == before.probe && after.reconnect == before.reconnect
       case SetServer(server, country, city, keys) =>
         && after.server == server && after.reconnect == None && after.probe == before.probe
         && after.title == before.title
         && (if server == "" then
               after.country == before.country && after.city == before.city && after.wg == before.wg
             else
               after.country == country && after.city == city
               && after.wg == (if keys == None then before.wg else keys.value))
       case SetKeys(wg) =>
         && after.wg == wg && after.title == before.title && SamePlace(before, after)
         && after.probe == before.probe && after.reconnect == before.reconnect
       case SetProbe(probe) =>
         && after.probe == Some(probe) && after.title == before.title && SamePlace(before, after)
         && after.wg == before.wg && after.reconnect == before.reconnect
       case SetReconnect(record) =>
         && after.reconnect == record && after.title == before.title && SamePlace(before, after)
         && after.wg == before.wg && after.probe == before.probe
       case FinishAttempt(outcome, newKeys) =>
         && after.reconnect == Some(outcome) && after.title == before.title && SamePlace(before, after)
         && after.wg == (if newKeys == None then before.wg else newKeys.value) && after.probe == before.probe
  }

  ghost predicate NoteWritten(s: State, t: State, ref: Ref, note: Note) {
    && OnlyChannels(s, t, {ref}) && t.channels.Keys == s.channels.Keys
    && (ref in s.channels ==> NotedAs(s.channels[ref], t.channels[ref], note))
  }

  lemma {:induction false} NoteCommits(s: State, ref: Ref, note: Note, expected: Option<Channel>)
    requires WriteNote(s, ref, note, expected).Ok?
    ensures NoteWritten(s, WriteNote(s, ref, note, expected).value, ref, note)
  {
  }

  /** New keys reach exactly the named channels; every channel of the provider loses its recovery record. */
  ghost predicate Rekeys(s: State, t: State, provider: string, keys: map<string, Wg>) {
    && OnlyChannels(s, t, set a | a in s.channels && a.provider == provider)
    && t.channels.Keys == s.channels.Keys
    && forall a <- s.channels.Keys :: a.provider == provider ==>
         && SameStanding(s.channels[a], t.channels[a]) && SamePlace(s.channels[a], t.channels[a])
         && t.channels[a].title == s.channels[a].title && t.channels[a].probe == s.channels[a].probe
         && t.channels[a].reconnect == None
         && t.channels[a].wg == (if a.cid in keys then keys[a.cid] else s.channels[a].wg)
  }

  lemma {:induction false} RekeyCommits(s: State, provider: string, keys: map<string, Wg>)
    ensures Rekeys(s, ReplaceKeys(s, provider, keys), provider, keys)
  {
  }

  ghost predicate Forgotten(s: State, t: State) {
    && OnlyChannels(s, t, s.channels.Keys) && t.channels.Keys == s.channels.Keys
    && forall a <- s.channels.Keys ::
         && SameStanding(s.channels[a], t.channels[a]) && SamePlace(s.channels[a], t.channels[a])
         && t.channels[a].title == s.channels[a].title && t.channels[a].wg == s.channels[a].wg
         && t.channels[a].probe == s.channels[a].probe && t.channels[a].reconnect == None
  }

  lemma {:induction false} ForgetCommits(s: State)
    ensures Forgotten(s, ClearReconnects(s))
  {
  }

  // ---- providers and the router section ----

  /** A provider added by hand carries no mark; one that is there stays as it is. */
  ghost predicate ProviderIsAdded(s: State, t: State, p: string) {
    && t.channels == s.channels && t.router == s.router && t.rules == s.rules
    && t.providers.Keys == s.providers.Keys + {p}
    && (forall q <- s.providers.Keys :: t.providers[q] == s.providers[q]) && (p !in s.providers ==> !t.providers[p])
  }

  /** The providers go with all their channels, none of which a rule targets. */
  ghost predicate ProvidersAreRemoved(s: State, t: State, gone: seq<string>) {
    && t.router == s.router && t.rules == s.rules
    && (forall q :: q in t.providers <==> q in s.providers && q !in gone)
    && (forall q <- t.providers.Keys :: t.providers[q] == s.providers[q])
    && (forall a :: a in t.channels <==> a in s.channels && a.provider !in gone)
    && (forall a <- t.channels.Keys :: t.channels[a] == s.channels[a])
    && forall i :: 0 <= i < |s.rules| && s.rules[i].target.Via? && s.rules[i].target.ref in s.channels ==>
         s.rules[i].target.ref.provider !in gone
  }

  lemma {:induction false} ProvidersCommit(s: State, p: string, gone: seq<string>)
    ensures ProviderIsAdded(s, AddProvider(s, p), p)
    ensures RemoveProviders(s, gone).Ok? ==> ProvidersAreRemoved(s, RemoveProviders(s, gone).value, gone)
  {
  }

  /** One toggle of the router section changes; ports and the other two toggles stay. */
  predicate ToggleIsSet(before: Router, after: Router, toggle: Toggle, on: bool) {
    && after.port == before.port && after.portExplicit == before.portExplicit && after.portHome == before.portHome
    && after.killswitch == (if toggle == Killswitch then on else before.killswitch)
    && after.lanDirect == (if toggle == LanDirect then on else before.lanDirect)
    && after.tun == (if toggle == Tun then on else before.tun)
  }

  ghost predicate ToggleCommitted(s: State, t: State, toggle: Toggle, on: bool) {
    && t.providers == s.providers && t.channels == s.channels && t.rules == s.rules
    && ToggleIsSet(s.router, t.router, toggle, on)
  }

  lemma {:induction false} ToggleCommits(s: State, toggle: Toggle, on: bool)
    ensures ToggleCommitted(s, SetToggle(s, toggle, on), toggle, on)
  {
  }

  /** A router port once allocated stays; a new one is valid and nobody's. */
  ghost predicate RouterPortEnsured(s: State, t: State) {
    && t.providers == s.providers && t.channels == s.channels && t.rules == s.rules
    && (if s.router.port != 0 then t.router == s.router
        else
          && t.router == s.router.(port := t.router.port) && 0 < t.router.port <= 65535
          && forall a <- s.channels.Keys :: s.channels[a].port != t.router.port)
  }

  lemma {:induction false} RouterPortCommits(s: State, offers: seq<nat>)
    requires EnsureRouterPort(s, offers).Ok?
    ensures RouterPortEnsured(s, EnsureRouterPort(s, offers).value)
  {
    assert forall a <- s.channels.Keys :: s.channels[a].port != 0 ==>
             s.channels[a].port in UsedPorts(s.channels, s.router);
  }

  // ---- what is refused ----

  /** Somebody other than `ref` has the port. */
  ghost predicate Taken(s: State, port: nat, ref: Ref) {
    port == s.router.port || exists a :: a in s.channels && a != ref && s.channels[a].port == port
  }

  predicate PortNumber(port: nat) {
    0 < port <= 65535
  }

  /** The allocator's first offer is a valid port that nobody has. */
  ghost predicate PortOnOffer(s: State, offers: seq<nat>) {
    offers != [] && PortNumber(offers[0]) && offers[0] != s.router.port
    && forall a <- s.channels.Keys :: s.channels[a].port != offers[0]
  }

  ghost predicate MayAdd(s: State, spec: ChannelSpec, offers: seq<nat>) {
    && spec.ref.provider in s.providers
    && (if spec.port != 0 then
          PortNumber(spec.port) && spec.port != s.router.port
          && forall a <- s.channels.Keys :: s.channels[a].port != spec.port
        else PortOnOffer(s, offers))
  }

  ghost predicate MayImport(s: State, spec: ChannelSpec, offers: seq<nat>) {
    && spec.ref.provider in s.providers
    && (if spec.port != 0 then
          (spec.ref in s.channels && s.channels[spec.ref].port == spec.port)
          || (PortNumber(spec.port) && !Taken(s, spec.port, spec.ref))
        else spec.ref in s.channels || PortOnOffer(s, offers))
  }

  lemma {:induction false} UsedMeans(channels: map<Ref, Channel>, router: Router, port: nat)
    requires port != 0
    ensures port in UsedPorts(channels, router)
            <==> port == router.port || exists a :: a in channels && channels[a].port == port
  {
    if a :| a in channels && channels[a].port == port {
      assert channels[a].port in UsedPorts(channels, router);
    }
  }

  lemma {:induction false} OtherMeans(s: State, port: nat, ref: Ref)
    requires port != 0
    ensures port in OtherPorts(s.channels, s.router, ref) <==> Taken(s, port, ref)
  {
    UsedMeans(s.channels - {ref}, s.router, port);
    if a :| a in s.channels && a != ref && s.channels[a].port == port {
      assert a in s.channels - {ref};
    }
  }

  lemma {:induction false} OfferMeans(s: State, offers: seq<nat>)
    ensures OfferOk(s.channels, s.router, offers) <==> PortOnOffer(s, offers)
  {
    if offers != [] && offers[0] != 0 {
      UsedMeans(s.channels, s.router, offers[0]);
    }
  }

  lemma {:induction false} AddAcceptedIff(s: State, spec: ChannelSpec, base: string, offers: seq<nat>)
    ensures AddChannel(s, spec, base, offers).Ok? <==> MayAdd(s, spec, offers)
  {
    OfferMeans(s, offers);
    if spec.port != 0 {
      UsedMeans(s.channels, s.router, spec.port);
    }
  }

  lemma {:induction false} UpsertAcceptedIff(s: State, spec: ChannelSpec, offers: seq<nat>)
    ensures UpsertChannel(s, spec, offers).Ok? <==> MayImport(s, spec, offers)
  {
    OfferMeans(s, offers);
    if spec.port != 0 {
      OtherMeans(s, spec.port, spec.ref);
    }
  }

  /** No rule targets one of the channels. */
  predicate Untargeted(rules: seq<Rule>, refs: seq<Ref>) {
    forall i :: 0 <= i < |rules| ==> rules[i].target.Via? ==> rules[i].target.ref !in refs
  }

  /** A channel that was read is as it was read, its probe result and recovery record aside. */
  predicate AsRead(channels: map<Ref, Channel>, read: map<Ref, Channel>) {
    forall a <- read.Keys :: a in channels && channels[a].(probe := None, reconnect := None) == read[a]
  }

  lemma {:induction false} RemoveAcceptedIff(s: State, refs: seq<Ref>, enabled: bool, expected: map<Ref, Channel>)
    ensures RemoveChannels(s, refs).Ok? <==> Untargeted(s.rules, refs)
    ensures SetEnabled(s, refs, enabled, expected).Ok?
            <==> AsRead(s.channels, expected) && (enabled || Untargeted(s.rules, refs))
  {
    assert References(s.rules, RefSet(refs)) <==> !Untargeted(s.rules, refs);
  }

  /** No rule leads to a channel of these providers. */
  ghost predicate MayDrop(s: State, gone: seq<string>) {
    forall i :: 0 <= i < |s.rules| ==>
      s.rules[i].target.Via? && s.rules[i].target.ref in s.channels ==> s.rules[i].target.ref.provider !in gone
  }

  lemma {:induction false} DropAcceptedIff(s: State, gone: seq<string>)
    ensures RemoveProviders(s, gone).Ok? <==> MayDrop(s, gone)
  {
  }
}
