# anyhop, verified

anyhop runs several VPN exits behind one sing-box process. This project models the parts of it where a small slip
would be expensive and hard to see, and proves what they promise for every input and every run:

- **Domain sets** (`Bits`, `LabelTree`, `Louds`, `SuccinctTrie`, `LoudsLayouts`, `DomainMatcher`): the bit-packed label
  trie of sing-box rule-sets, from its bytes to its answers. The rank/select walk over 64-bit words ends for any arrays,
  never leaves arrays that code a tree, and answers what a plain walk of the tree of labels answers; the two marker
  labels mean what their documentation says.
- **Rule-sets** (`SrsReader`, `RuleSets`, `Unsupported`): reading a rule-set body back from its bytes, the range lookup,
  what nested and/or/invert rules mean, and when it is safe to take a constraint that cannot be evaluated for "no match".
- **Shadow lint** (`Routes`, `MatcherMeaning`, `DomainLabels`, `LabelTrie`, `CoverIndex`, `LanShadow`): what each matcher
  matches, that covering is inclusion, that the three-way index finds exactly the earliest covering rule, and that
  deleting what it reports changes no verdict.
- **Configuration store** (`State`, `Ruleset*`, `Normalize*`, `LegacyFiles`, `Setup`, `Ports`, `ChannelIds`, `Sync*`,
  `Operations`, `RulesPreserved`, `Reachable`, `Revisions`, `StoreLoops`, `SyncLoops`, `PortLoops`, `Store`): the
  transactions on providers, channels, ports, rulesets and whole bundles, as the loops that run them and as what they
  commit and report. Every state a run reaches keeps rulesets contiguous with one target, rule ids unique, rules pointing
  at enabled channels only, and ports distinct. A declarative sync converges and stays converged.
- **What the store commits** (`BundleCommits`, `SyncedRulesets`, `ChannelCommits`, `RulesetCommits`, `Soundness`): the
  same transactions told over the fields of the state before and after, and exactly when each is refused. The methods of
  `Store` promise both forms, so neither the specification functions nor the loops can drift from what is meant.
- **Route compiler** (`RouteCompiler`, `ConfigMeaning`, `RouteSafety`, `Signature`): what the built config holds for each
  channel, what first-match evaluation of the compiled list does to each connection, and that equal signature material
  means an equal config.
- **Traffic totals** (`Traffic*`, `Metrics`): what sampled counters add up to through failed samples, failed writes and
  counters that start over.
- **Recovery** (`Reconnect`, `RecoveryPass`, `RestartBudget`): the per-channel state machine under overlapping passes,
  and the sliding budget of process restarts.
- **TUN trial** (`TunTrial`): the dead-man switch over all interleavings of its locked sections, restarts and crashes.
- **Log tail** (`Utf8`, `TextMeaning`, `LogTail`) and **probe pool** (`ProbePool`): the backwards block reader over decoded
  lines; what a probe says about the answers it got, and how long a pass takes.

Operations that may raise return `Result`; an error leaves the state as it was. Code that changes things step by step is
a class or a method with the same loops, proved equal to a specification function; the properties are lemmas about that
function, and what it computes is also told over the records' own fields, without it. What the operating system, the
network, the clock or another program decides (a free port, a probe result, a verified file, whether a write succeeds) is
a parameter, so it is arbitrary in every theorem.

Where a claim turned out not to hold of the code, the code is modelled as it is, a lemma names an input that shows it, and
another says exactly when the claim holds:

- one lookup decides membership in sorted ranges: `OverlapHidesTail`, `ContainsIsMembership`;
- an unsupported constraint is taken conservatively: `InvertedUnsupportedMatches`, `ConservativeIffNoError`;
- any rule file loads into contiguous rulesets: `SplitBlockStaysSplit`, `GroupedIffBlocksWhole`;
- a second sync finds nothing to do: `SecondSyncQuietIff`;
- a rule decides only what it matches: `UncachedBlocksAll`, `DecidesOnlyItsOwnIff`;
- a running trial keeps its marker: `RefusedToggleStrandsTrial`, `AlwaysMarkedIff`;
- a recorded give-up stays: `LateFinishForgetsGiveUp`, `FinishLiftsGiveUp`. This one is about the store's compare-and-set
  under overlapping passes; one daemon starts no pass while another is running (src/anyhop/daemon.py:760-769), so it takes
  two processes or a direct caller to see it.

`ReservedProviderIsHidden` is no such case: no provider outside the registry can be added, and `MaterialDecidesIff` says
why that matters to the signature.

## Model

| member | source | states |
|---|---|---|
| LabelTree.WalkMeansSomeEntryMatches | src/anyhop/srs.py:171-197 | on trees written by the format's rules the walk succeeds exactly when some stored entry matches the key |
| LabelTree.WalkMeansDomainMatch | src/anyhop/srs.py:44-45 | the markers' meaning: a domain is in the set iff it is a stored domain, lies under a stored suffix on a dot boundary, or has a stored suffix |
| Louds.Layout.RankInsideNode | src/anyhop/srs.py:148-155 | anywhere inside node i's edge list, terminator included, the rank is i |
| Louds.Layout.SelectIsTerminator | src/anyhop/srs.py:157-169 | the i-th set bit is the terminator of node i: select inverts rank |
| Louds.Layout.ChildNumber | src/anyhop/srs.py:187-188 | the rank formula numbers the child an edge leads to |
| LoudsLayouts.EveryTreeIsCoded | src/anyhop/srs.py:122-129 | for every tree some word arrays code it, so the theorems about coded arrays are about all trees |
| SuccinctTrie.Decode | src/anyhop/srs.py:132-140 | the rank index built word by word holds the set bits before each word |
| SuccinctTrie.BisectRight | src/anyhop/srs.py:159 | binary search returns the number of entries at or below the value |
| SuccinctTrie.SuccinctTrie.Rank1 | src/anyhop/srs.py:148-155 | index plus one popcount equals counting the set bits one by one, also past the end |
| SuccinctTrie.SuccinctTrie.Select1 | src/anyhop/srs.py:157-169 | terminates in bounds on the position that holds the i-th set bit, and fails on an index exactly when there are no more than i set bits |
| SuccinctTrie.SuccinctTrie.FindEdge | src/anyhop/srs.py:174-186 | scanning for a byte ends for any arrays; on a coded tree it stays in bounds and finds what the tree's own scan finds |
| SuccinctTrie.SuccinctTrie.Descend | src/anyhop/srs.py:187-188 | rank then select lands on the first edge of the child the tree names, or fails on an index when no tree is coded |
| SuccinctTrie.SuccinctTrie.FindMarker | src/anyhop/srs.py:191-197 | after the key, accepts iff the node has a marker edge; ends for any arrays |
| SuccinctTrie.SuccinctTrie.Has | src/anyhop/srs.py:171-197 | for any arrays and any key the walk ends, with an answer or an index failure; for every coded tree it never fails and equals the plain walk |
| SuccinctTrie.SuccinctTrie.MatchDomain | src/anyhop/srs.py:199-200 | a domain is looked up by its reversed bytes |
| DomainMatcher.ReadWords | src/anyhop/srs.py:203-205 | the loop reads the counted big-endian words, or refuses the file |
| DomainMatcher.ReadDomainMatcher | src/anyhop/srs.py:208-213 | reads version byte, words and labels and builds a trie over exactly those arrays, whatever they code |
| DomainMatcher.PayloadRoundTrip | src/anyhop/srs.py:208-213 | a domain set written to bytes is read back array by array, and nothing behind it is touched |
| DomainMatcher.LookUpWritten | src/anyhop/srs.py:171-213 | from bytes to answer: reading the set written for a coded tree and looking a key up answers what the plain walk of that tree answers |
| SrsReader.UvarintRoundTrip | src/anyhop/srs.py:103-112 | a number coded in at most ten bytes is read back and nothing behind it is touched |
| SrsReader.Stream.ReadUvarint | src/anyhop/srs.py:103-112 | the shifting loop reads exactly the number the coding defines, and fails on truncation or an eleventh byte |
| SrsReader.Stream.ReadStringList | src/anyhop/srs.py:115-119 | the length-prefixed list is read element by element, or refused as a whole |
| SrsReader.IpRangesRoundTrip | src/anyhop/srs.py:216-234 | a version byte, an 8-byte count and the spans are read back exactly |
| SrsReader.ItemRoundTrip | src/anyhop/srs.py:298-350 | every kind of rule item is read back with its payload, and none is mistaken for the end |
| SrsReader.RuleRoundTrip | src/anyhop/srs.py:353-364 | however deeply rules nest, reading a written rule gives it back and leaves exactly what followed |
| SrsReader.RangeAsWritten | src/anyhop/srs.py:216-234 | the byte layout itself: version 1, eight bytes of count, then both ends of each range with their lengths |
| SrsReader.BodyAsWritten | src/anyhop/srs.py:298-364 | the byte layout of a body: type, mode and count of an `or` rule, the items by their type bytes, the final item, the invert flags |
| RuleSets.ContainsIsMembership | src/anyhop/srs.py:275-279 | the one-range lookup is membership in the union for every address exactly when no later range hides the tail of an earlier one |
| RuleSets.DisjointRangesHideNothing | src/anyhop/srs.py:250-252 | sorted disjoint ranges, as serialized, hide nothing |
| RuleSets.OverlapHidesTail | src/anyhop/srs.py:216-234 | the reader accepts overlapping ranges, and then an address inside one is missed |
| RuleSets.MatchDefault | src/anyhop/srs.py:256-273 | told over the record's own fields: a rule that names nothing answers by its invert flag; any other answers yes exactly when a stored domain, a contained keyword, a found pattern or a range hits, the opposite when inverted; an unsupported constraint never matches |
| RuleSets.Match | src/anyhop/srs.py:292-295 | lazily evaluated and/or over nested rules comes to the documented meaning of the whole rule, `Denotes` |
| RuleSets.MatchRuleSet | src/anyhop/srs.py:379-383 | some rule of the set means yes |
| RuleSets.MeansDenotes | src/anyhop/srs.py:256-295 | however deeply rules are nested and inverted, what is computed is what the rule's own lists say, for rule-sets as their writer leaves them |
| Unsupported.ConservativeIffNoError | src/anyhop/srs.py:256-295 | over arbitrary verdicts of the leaves, taking unsupported ones for "no" never invents a match iff no unsupported leaf with everything beside its path able to hold still sits under an odd number of inverted logical rules |
| Unsupported.UnsupportedIsConservative | src/anyhop/srs.py:257-260 | under that condition a match is a match for every destination, whatever the unsupported constraints would have said |
| Unsupported.ParitySuffices | src/anyhop/srs.py:292-295 | an even number of inverted rules above every unsupported leaf is safe, an odd number is safe in the other direction |
| Unsupported.ParityDecides | src/anyhop/srs.py:292-295 | where unsupported leaves do not mask one another, parity is exact |
| Unsupported.MaskedLeafIsHarmless | src/anyhop/srs.py:292-295 | in general it is not: an unsupported leaf can make another one under an inverted rule harmless |
| RuleSets.InvertedUnsupportedMatches | src/anyhop/srs.py:292-295 | under an inverted rule it does: such a rule matches every destination |
| Routes.InNetIsInterval | src/anyhop/routes.py:228-233 | membership in a canonical block is an address interval |
| Routes.SubnetIsMaskedLookup | src/anyhop/routes.py:247-262 | containment of blocks is a prefix comparison plus one masked address |
| MatcherMeaning.SuffixMeans | src/anyhop/routes.py:198-202 | a suffix matches a domain iff it is the domain or the domain is something, a dot and the suffix |
| MatcherMeaning.NetworkMeans | src/anyhop/routes.py:228-233 | a network matches iff it parses and some one of the destination's addresses lies in its interval |
| MatcherMeaning.PlainKindsMean | src/anyhop/routes.py:205-242 | `all` matches everything, a domain matcher needs a domain, an unknown kind matches nothing |
| MatcherMeaning.GeositeMeans | src/anyhop/routes.py:234-244 | a geosite category matches iff its file is cached and some rule of it means the domain |
| MatcherMeaning.GeoipMeans | src/anyhop/routes.py:234-244 | a geoip category matches iff its file is cached and some rule of it means the addresses |
| Routes.CoversIsSound | src/anyhop/routes.py:265-290 | whatever the covered rule matches, the covering rule matches |
| Routes.CoversTransitive | src/anyhop/routes.py:265-290 | covering is transitive across all matcher kinds |
| MatcherMeaning.CoversIsComplete | src/anyhop/routes.py:265-290 | among domains and among networks covering is exactly inclusion: where one matcher takes in all another does, it covers it |
| MatcherMeaning.CoversElsewhere | src/anyhop/routes.py:265-290 | what covers what among all other pairs of kinds, and that only a network that does not parse leaves the question open |
| Routes.DeletingShadowedRulesIsSafe | src/anyhop/routes.py:413-422 | deleting all shadowed rules at once leaves every destination the same first match |
| Routes.EarliestCoverIsUnshadowed | src/anyhop/routes.py:413-422 | the rule named as the reason is itself never shadowed |
| DomainLabels.SuffixIsPathPrefix | src/anyhop/routes.py:198-202 | matching on a dot boundary is being a prefix of the reversed labels, for every pair of strings |
| LabelTrie.LabelTrie.Claim | src/anyhop/routes.py:362-367 | an added domain owns its path unless an earlier rule does; no other path changes |
| LabelTrie.LabelTrie.FirstOnPath | src/anyhop/routes.py:384-395 | the walk down a domain's labels returns the earliest owner on its path |
| CoverIndex.CoversIsKeyed | src/anyhop/routes.py:265-290 | the covering relation is exactly ownership of one of a finite family of keys |
| CoverIndex.CoverIndex.Add | src/anyhop/routes.py:347-373 | the index records the next position under its key and never displaces an earlier claim |
| CoverIndex.CoverIndex.FirstNetCover | src/anyhop/routes.py:396-410 | probing one masked address per prefix length in use finds the earliest covering network |
| CoverIndex.CoverIndex.FirstCover | src/anyhop/routes.py:375-410 | the earliest added rule that covers the given one, or none when none does |
| CoverIndex.EarliestCoverMeaning | src/anyhop/routes.py:265-290 | the pairwise scan finds the smallest covering position, and none iff there is none |
| CoverIndex.IndexEqualsScan | src/anyhop/routes.py:323-410 | the index answers what the pairwise scan answers |
| CoverIndex.ShadowedBy | src/anyhop/routes.py:413-422 | the report maps exactly the shadowed rules, each to its earliest cover |
| LanShadow.LanRangesAreNetworks | src/anyhop/routes.py:38-50 | every built-in LAN range is a canonical network, so the lint can use all of them |
| LanShadow.LanIntervals | src/anyhop/routes.py:38-50 | an address is in a built-in LAN range exactly when it is in one of these intervals |
| LanShadow.MarkedRuleNeverDecides | src/anyhop/routes.py:431-446 | with LAN-direct on, deleting a rule marked by the built-in block changes what happens to no connection |
| State.RulesetBlocks | src/anyhop/state.py:416-444 | succeeds exactly on contiguous single-target rulesets and then returns the runs |
| State.FlattenRuns | src/anyhop/state.py:416-444 | the blocks laid end to end are the rows |
| State.RunsOfFlatten | src/anyhop/state.py:416-444 | splitting well-formed blocks laid end to end gives the blocks back |
| State.RunsWellBlocked | src/anyhop/state.py:416-444 | grouped rows split into uniform blocks with distinct ids |
| Normalize.NormalizeRulesets | src/anyhop/state.py:377-413 | the loading loop with its run counter, equal to the row-by-row specification |
| LegacyFiles.LoadedMeans | src/anyhop/state.py:377-413 | row by row: everything a row has stays, the legacy matcher type and missing names are filled in, and legacy rows share a ruleset exactly along a run of one target, under the next unused number |
| LegacyFiles.GroupedIffBlocksWhole | src/anyhop/state.py:377-413 | loaded rows are contiguous rulesets exactly when nothing stood inside an existing block |
| LegacyFiles.LegacyFilesAreGrouped | src/anyhop/state.py:380-384 | a file without any ruleset always loads into contiguous ones |
| LegacyFiles.SplitBlockStaysSplit | src/anyhop/state.py:382-384 | a legacy row inside a block splits it, although mixed files are called safe |
| LegacyFiles.NormalizedIsStable | src/anyhop/state.py:377-413 | loading what was loaded changes nothing |
| RulesetOps.CreateAppendsBlock | src/anyhop/state.py:1417-1445 | creating adds one block behind all others and keeps every other block |
| RulesetOps.CreateUnique | src/anyhop/state.py:335-340 | freshly minted ids never collide |
| RulesetOps.AddExtendsBlock | src/anyhop/state.py:1447-1479 | added matchers extend their own block at its end; order and other blocks stay |
| RulesetOps.UpdateKeepsPosition | src/anyhop/state.py:1537-1585 | an updated ruleset keeps id and place; all other blocks are untouched |
| RulesetOps.FilterGrouped | src/anyhop/state.py:1587-1601 | removing any rows keeps rulesets contiguous |
| RulesetMoves.RetargetKeepsGrouping | src/anyhop/state.py:1519-1535 | retargeting one ruleset keeps contiguity, single targets and ids |
| RulesetMoves.RenameKeepsGrouping | src/anyhop/state.py:1500-1517 | renaming one ruleset keeps contiguity, single targets and ids |
| RulesetMoves.MoveKeepsGrouping | src/anyhop/state.py:1603-1649 | rows moved into a ruleset leave every ruleset contiguous |
| RulesetMoves.MoveConserves | src/anyhop/state.py:1608-1616 | a move conserves the multiset of id, type and value |
| RulesetOrder.CheckPermutation | src/anyhop/state.py:558-577 | passes exactly on full permutations: no duplicate, nothing unknown, nothing missing |
| RulesetOrder.ReorderConserves | src/anyhop/state.py:1651-1672 | reordering rules conserves the rows as a multiset |
| RulesetOrder.ReorderRulesetsConserves | src/anyhop/state.py:1674-1696 | reordering rulesets moves whole blocks: contiguity holds and every row is conserved |
| Setup.UpsertAllFrame | src/anyhop/state.py:2203-2284 | a bundle's upserts touch declared channels only and never change who manages a channel |
| Setup.UpsertAllKeepsPorts | src/anyhop/state.py:79-98 | declared and allocated ports stay pairwise distinct with the router's |
| Setup.UpsertAllSettles | src/anyhop/state.py:2242-2258 | after a pass every declared channel agrees with its declaration |
| Setup.SettledPassIsIdentity | src/anyhop/state.py:2242-2258 | a pass over agreeing channels changes nothing, whatever the allocator would offer |
| Setup.RouterAfterKeepsPorts | src/anyhop/state.py:2298-2307 | a declared router port is refused when a channel has it, so ports stay distinct |
| SyncConvergence.ConvergeIdempotent | src/anyhop/state.py:2095-2160 | converging the managed rulesets twice is converging once, repeated names included |
| SyncConvergence.ConvergeKeepsHandMade | src/anyhop/state.py:2045-2048 | rulesets without a managed row keep rows and relative order |
| SyncConvergence.ConvergeUnique | src/anyhop/state.py:2113-2137 | rows written by a sync never reuse an id |
| SyncConvergence.ConvergeWellBlocked | src/anyhop/state.py:2138-2160 | the converged list is uniform blocks with distinct ids |
| SyncConvergence.SecondSyncQuietIffComplete | src/anyhop/state.py:2041-2048 | a second convergence reports nothing exactly for bundles whose rulesets have a name and a matcher |
| SyncSetup.SyncKeepsInv | src/anyhop/state.py:2023-2309 | a sync keeps contiguity, unique ids, restrict-only targets, distinct ports and known providers |
| SyncSetup.SyncTouchesOnlyManaged | src/anyhop/state.py:2041-2056 | hand-made rulesets and unmanaged channels outside the bundle stay; a dropped managed channel survives iff a surviving rule references it |
| SyncSetup.SyncIdempotent | src/anyhop/state.py:2041-2044 | a second sync of the same complete bundle succeeds, leaves the state identical and reports nothing, for any allocator |
| SyncSetup.SecondSyncQuietIff | src/anyhop/state.py:2041-2044 | a second sync finds nothing to do exactly when every bundle ruleset has a name and a matcher |
| BundleCommits.MergeDoes | src/anyhop/state.py:1848-2021 | a merge over the fields before and after: stated toggles and port taken over, unstated ones kept, declared channels followed field by field, providers added unmanaged, rulesets appended as new rows, and the report says so |
| BundleCommits.SyncDoes | src/anyhop/state.py:2023-2309 | the same for a sync: new channels and providers are managed, an unstated port is no longer explicit, undeclared managed channels stay iff targeted and the report names the rules that keep them, undeclared managed providers go once empty |
| BundleCommits.RestoreDoes | src/anyhop/state.py:2311-2406 | the same for a restore: exactly what the bundle declares, fresh history, ports declared, kept or fresh, rows numbered from 1, tun as it was |
| BundleCommits.MergeAcceptedIff | src/anyhop/state.py:1848-2021 | the four things that make a merge fail, and no other |
| BundleCommits.SyncAcceptedIff | src/anyhop/state.py:2161-2309 | the four things that make a sync fail, and no other |
| BundleCommits.UpsertAcceptedIff | src/anyhop/state.py:2203-2284 | an upsert pass goes through iff every port settles when its turn comes |
| BundleCommits.NamesAreKeepers | src/anyhop/state.py:2178-2187 | a kept channel is reported with the names of exactly the rules that target it, each once, in order of first appearance |
| SyncedRulesets.DeclaredStand | src/anyhop/state.py:2095-2160 | after the sync of a complete bundle each declared ruleset stands in a block of its own exactly as declared, in order among equals, and no other block has a managed row |
| SyncedRulesets.RulesetsKeepTheirPlaces | src/anyhop/state.py:2095-2160 | surviving rulesets keep id and order, hand-made ones their rows; new ones stand behind all of them under unused ids |
| SyncedRulesets.EveryRulesetIsReported | src/anyhop/state.py:2095-2160 | every bundle entry is reported once as kept, updated or added, every managed ruleset once as kept, updated or pruned |
| ChannelIds.NextNumberIsLeastFree | src/anyhop/state.py:180-184 | the search for a free id ends, on the least free number |
| ChannelIds.NextId | src/anyhop/state.py:157-184 | the minted id is none the provider has |
| ChannelCommits.NextIsNamed | src/anyhop/state.py:157-184 | the id is the base, an underscore and the least number from 1 on that makes it new |
| Ports.ReallocateAllMoves | src/anyhop/state.py:1281-1334 | only stolen automatic ports move, each to a different valid port; a home once set is never overwritten; nothing else in a record changes |
| Ports.ReallocateAllKeepsPorts | src/anyhop/state.py:1281-1334 | ports stay distinct through reallocation |
| Ports.HomeAllMoves | src/anyhop/state.py:1336-1384 | going home changes a port to its remembered home or not at all; declared ports never move |
| Ports.HomeAllKeepsPorts | src/anyhop/state.py:1336-1384 | ports stay distinct and the running set of used ports stays right |
| Ports.ReallocateThenHome | src/anyhop/state.py:1336-1345 | moved away and brought home once the holders are gone, every port is the original one, in any visiting order |
| PortCommits.ReallocationCommits | src/anyhop/state.py:1281-1334 | over channels and router: exactly the automatic ports among the stolen ones moved, homes remembered once, and the report is exactly that |
| PortCommits.HomecomingCommits | src/anyhop/state.py:1336-1384 | over channels and router: who is reported went home, everybody else stays as it was, and who could go stays only where its home is claimed |
| Reachable.AddChannelKeeps | src/anyhop/state.py:926-963 | an added channel is new under its provider and keeps every invariant |
| Reachable.MergeKeeps | src/anyhop/state.py:1848-2021 | a merge keeps every invariant, in particular no rule is left on a channel it disables |
| Reachable.RestoreKeeps | src/anyhop/state.py:2311-2406 | restoring a validated bundle over any state establishes every invariant |
| Reachable.FillPortsKeeps | src/anyhop/state.py:2386-2389 | fresh ports go to portless channels only and keep ports distinct |
| Reachable.FillPortsFills | src/anyhop/state.py:2386-2389 | afterwards every declared channel has a port |
| Reachable.EditRulesKeeps | src/anyhop/state.py:1417-1696 | every rule edit that succeeds keeps every invariant |
| Reachable.EditSetupKeeps | src/anyhop/state.py:867-1160 | every edit of providers, channels or toggles that succeeds keeps every invariant |
| Reachable.RunsKeepInv | src/anyhop/state.py:818-843 | every state of every run from the blank file has contiguous rulesets, unique ids, restrict-only targets and distinct ports; failed transactions change nothing |
| Soundness.InvMeans | src/anyhop/state.py:818-843 | the standing invariants say exactly this, row by row and channel by channel |
| Soundness.RunsStaySound | src/anyhop/state.py:818-843 | every state on every run from the blank file is sound in that sense |
| StoreLoops.UsedPortHolders | src/anyhop/state.py:65-76 | exactly the claimed ports are on record, each under somebody who holds it; with distinct ports under its one claimant |
| StoreLoops.ClaimPort | src/anyhop/state.py:79-98 | in any state a port nobody else holds is granted, and one somebody else holds is refused unless the caller holds a duplicate of it |
| StoreLoops.MatchBlocks | src/anyhop/state.py:2098-2110 | the greedy nested loop pairs the k-th managed block of a name with the k-th bundle entry of that name |
| StoreLoops.UpsertChannels | src/anyhop/state.py:2203-2284 | the loop with its field-by-field updates computes the upsert specification and stops at the first clash |
| SyncLoops.ConvergeRules | src/anyhop/state.py:2095-2160 | the two loops with their counters write exactly the converged blocks, flat |
| SyncLoops.PruneChannels | src/anyhop/state.py:2171-2189 | candidates are deleted iff no surviving rule references them |
| PortLoops.MoveStolen | src/anyhop/state.py:1303-1321 | the visiting loop computes the reallocation, or fails when a port is missing |
| PortLoops.BringHome | src/anyhop/state.py:1352-1369 | the visiting loop with its used set computes the homecoming |
| PortLoops.PortsDistinct | src/anyhop/state.py:2375-2385 | the duplicate check over a restored setup passes iff all ports are distinct |
| PortLoops.AllocateMissing | src/anyhop/state.py:2386-2389 | missing ports are handed out in bundle order, or the restore fails |
| PortLoops.NumberRules | src/anyhop/state.py:2392-2405 | restored rules are numbered from r1 and rs1 in order |
| Store.Store.constructor | src/anyhop/state.py:306-322 | the blank state: nothing in it, LAN direct on, every other toggle off, every invariant holds |
| Store.Store.AddChannel | src/anyhop/state.py:926-963 | commits the new channel as asked for under the next numbered id and nothing else, iff the provider is there and a port can be had; else nothing |
| Store.Store.AddProvider | src/anyhop/state.py:867-870 | the provider is there, unmanaged when new; nothing else changes |
| Store.Store.UpsertChannel | src/anyhop/state.py:965-1029 | creates, or re-imports in place keeping port, label, pin, mark and probe unless told otherwise, iff the port can be had; else commits nothing |
| Store.Store.RemoveChannels | src/anyhop/state.py:1031-1048 | removes and reports exactly the batch iff no rule targets any of it; else commits nothing |
| Store.Store.RemoveProviders | src/anyhop/state.py:872-893 | the providers go with all their channels iff no rule targets one; else nothing |
| Store.Store.SetChannelsEnabled | src/anyhop/state.py:1050-1097 | exactly the named channels are on or off, switching off forgets probe and recovery; iff the revisions hold and nothing targeted goes off; else nothing |
| Store.Store.WriteNote | src/anyhop/state.py:1099-1161 | writes one channel's label, pin, keys or records, field by field, iff the expected revision still holds, and says whether the channel is there |
| Store.Store.UpdateChannelsWg | src/anyhop/state.py:1822-1846 | new keys for the named channels of a provider that exist, reported; all recovery records of the provider go |
| Store.Store.ClearReconnectAll | src/anyhop/state.py:2408-2418 | drops every reconnect record and reports how many channels had one |
| Store.Store.ReallocateChannelPorts | src/anyhop/state.py:1281-1334 | commits and reports exactly what moved and what is held, over channels and router, or commits nothing |
| Store.Store.RestoreHomePorts | src/anyhop/state.py:1336-1384 | commits and reports exactly who went home, over channels and router |
| Store.Store.EnsureRouterPort | src/anyhop/state.py:1399-1415 | allocates once; later calls change nothing |
| Store.Store.SetToggle | src/anyhop/state.py:1698-1717 | exactly the named toggle has the value, everything else stays |
| Store.Store.CreateRuleset | src/anyhop/state.py:1417-1445 | new rows with the given target and name, under unused ids, behind all others, iff there is a name, a matcher and a usable target; returns that block |
| Store.Store.AddRulesetMatchers | src/anyhop/state.py:1447-1479 | new rows right behind the ruleset's last one with its target and name, iff there is a matcher and the ruleset exists; returns the block as it then stands |
| Store.Store.RemoveRuleset | src/anyhop/state.py:1481-1498 | succeeds iff the ruleset exists and returns its rows |
| Store.Store.RenameRuleset | src/anyhop/state.py:1500-1517 | rewrites the name of exactly the ruleset's rows, iff there is a name and the ruleset exists |
| Store.Store.RetargetRuleset | src/anyhop/state.py:1519-1535 | rewrites the target of exactly the ruleset's rows, iff the target is usable and the ruleset exists |
| Store.Store.UpdateRuleset | src/anyhop/state.py:1537-1585 | the ruleset's rows are replaced where they stand, all else stays, iff its inputs are good and the expected revision holds; returns the new block |
| Store.Store.RemoveRules | src/anyhop/state.py:1587-1601 | removes and reports exactly the named rows, all others stay in order, unknown ids ignored |
| Store.Store.MoveRules | src/anyhop/state.py:1603-1649 | the named rows stand behind the destination's last row in order of first mention, all others keep their order, iff the destination exists and every id names a row outside it; returns the block and the rulesets that dissolved |
| Store.Store.ReorderRules | src/anyhop/state.py:1651-1672 | every row is where the new order puts its id, rulesets stay contiguous, rows are conserved; says whether the order changed |
| Store.Store.ReorderRulesets | src/anyhop/state.py:1674-1696 | every block is where the new order puts its id with the rows it had, iff the expected order holds and the ids are a full permutation; says whether the order changed |
| Store.Store.MergeSetup | src/anyhop/state.py:1848-2021 | commits and reports, field by field, what the merge of the bundle means, or commits nothing |
| Store.Store.SyncSetup | src/anyhop/state.py:2023-2309 | commits and reports, field by field, what the sync of the bundle means, or commits nothing |
| Store.Store.RestoreSetup | src/anyhop/state.py:2311-2406 | commits, field by field, what the restore of the bundle means, or nothing |
| SyncSetup.ReferencedIsNamed | src/anyhop/state.py:2178-2187 | a channel is reported with the names of rules that keep it iff some rule references it |
| Revisions.StaleWritesAreRefused | src/anyhop/state.py:535-542 | an update that expects a revision goes through only onto the block that was read |
| Revisions.HeartbeatsKeepRevisions | src/anyhop/state.py:464-481 | probe and recovery writes never make a channel's revision stale |
| Revisions.ReorderKeepsRulesetRevisions | src/anyhop/state.py:484-493 | reordering rulesets leaves every ruleset's revision as it was |
| Revisions.InsideEditsKeepOrder | src/anyhop/state.py:496-505 | an edit inside a ruleset never makes the revision of the ruleset order stale |
| RouteCompiler.EndpointNeverSmugglesV6 | src/anyhop/engine.py:186-225 | a channel that cannot carry IPv6 gets none, and no peer is left without allowed addresses |
| RouteCompiler.FleetIsUsable | src/anyhop/engine.py:227-264 | the build holds exactly the enabled channels with a free port and keys; its IPv6 part exactly the capable ones |
| RouteCompiler.CompileOne | src/anyhop/engine.py:476-543 | one pass of the rule loop: the compiled form, its failure and its geo category |
| RouteCompiler.RouterRules | src/anyhop/engine.py:415-563 | the appended list in order |
| RouteCompiler.BuildConfig | src/anyhop/engine.py:227-315 | every enabled channel with keys and a free port, and no other, gets a mixed inbound on its port and an endpoint with its own private key, its peer's host, port, key, keepalive and preshared key, and its addresses and allowed ips whole when it carries IPv6, else their IPv4 part in order; doors, DNS strategy and geo sets exactly as the state says |
| RouteCompiler.EndpointServes | src/anyhop/engine.py:186-225 | the endpoint of one channel over its stored keys, addresses and peer, the default route only where no allowed address is left |
| ConfigMeaning.AheadOfRules | src/anyhop/engine.py:415-475 | over the stored state: LAN ports direct, then DNS from tun hijacked, then LAN addresses direct, then IPv6 from tun rejected when no channel carries it |
| ConfigMeaning.FirstMatchDecides | src/anyhop/engine.py:476-543 | the first matching rule's target decides; a tunnel that is not built, or cannot carry the connection's IPv6, rejects |
| ConfigMeaning.UncachedRuleBlocks | src/anyhop/engine.py:484-503 | a geo rule without its file blocks what reaches it |
| ConfigMeaning.UnmatchedFalls | src/anyhop/engine.py:547-563 | what no rule matches is rejected when it is IPv6 from tun or the kill-switch is on, and goes direct otherwise |
| ConfigMeaning.FailuresMean | src/anyhop/engine.py:227-543 | exactly the held ports, missing keys and rules that cannot work are reported |
| RouteCompiler.CompileRulesMean | src/anyhop/engine.py:476-543 | compiled user rules decide as the rule table means, guards and rejects included |
| RouteCompiler.TableMeansIntended | src/anyhop/engine.py:357-390 | first match over the compiled list is the intended order: LAN ports, DNS hijack, LAN addresses, IPv6 block, user rules, unmatched IPv6, kill-switch, direct |
| RouteSafety.ConfigMeansIntended | src/anyhop/engine.py:346-563 | the same for every connection by the router or tun door of the whole config |
| RouteSafety.OwnPortOwnTunnel | src/anyhop/engine.py:261 | a usable channel's own port always leads into its own tunnel |
| RouteSafety.NoV6IntoIncapable | src/anyhop/engine.py:530-543 | with tun on no IPv6 connection from tun enters a channel that cannot carry it |
| RouteSafety.DirectOnlyWhenAllowed | src/anyhop/engine.py:547-563 | with the kill-switch on, or IPv6 from tun, nothing goes direct but LAN traffic and `direct` rules |
| RouteSafety.NoDanglingTunnel | src/anyhop/engine.py:379-387 | every tunnel a rule names is defined by the config |
| RouteSafety.UncachedBlocksAll | src/anyhop/engine.py:484-503 | a rule whose geo category is not cached blocks everything that reaches it, matching or not |
| RouteSafety.DecidesOnlyItsOwnIff | src/anyhop/engine.py:484-503 | a compiled rule decides only connections its matcher matches iff its geo category is cached or it has none |
| Signature.SameMaterialSameConfig | src/anyhop/state.py:2421-2481 | equal signature material compiles to the same config, failures and geo files |
| Signature.BookkeepingKeepsMaterial | src/anyhop/state.py:2421-2426 | label, probe, reconnect and pin writes never move the signature |
| Signature.IrrelevantKeepsMaterial | src/anyhop/state.py:2440-2479 | LAN-direct with no shared door, rule or kill-switch, and geo records without files, never move the signature |
| Signature.ReservedProviderIsHidden | src/anyhop/state.py:2446 | a provider named like either reserved key would be overwritten in the material |
| Signature.HiddenChannelBuilds | src/anyhop/state.py:2446 | yet such a channel would be built, so the two configs would differ |
| Signature.MaterialDecidesIff | src/anyhop/state.py:2421-2481 | over states with providers from a set of names, equal material always means an equal config iff neither reserved key is among them |
| Traffic.AddDeltasIsSafe | src/anyhop/metrics.py:106-131 | banking adds exactly the increments of live channels, never revives a removed one, never lowers a total |
| Traffic.RemovalsKeepNoGhosts | src/anyhop/metrics.py:172-222 | removals leave a tombstone and no row; revivals add no row |
| Traffic.RunBanksIncrements | src/anyhop/metrics.py:305-351 | through failed samples and failed writes the totals gain exactly the increments of the snapshots that took effect |
| TrafficTotals.IncrementsAddUp | src/anyhop/metrics.py:272-288 | those increments are, connection by connection, last counter minus baseline plus what was reached before each restart |
| TrafficTotals.RunBanksExactly | src/anyhop/metrics.py:305-351 | over a run in one generation a channel's total grows by the sum over its connections of last counter minus baseline, plus what a counter had reached each time it fell or its connection came back |
| TrafficTotals.SteadyContribution | src/anyhop/metrics.py:272-288 | a connection that never starts over contributes its last counter minus its baseline |
| Metrics.Database.AddDeltas | src/anyhop/metrics.py:106-131 | the loop folds a sample in and leaves removed channels out |
| Metrics.Database.ReconcileTombstones | src/anyhop/metrics.py:225-269 | rows of what is removed are gone and all others as they were; removal marks as they come to, removals first, revivals second |
| Metrics.ComesBack | src/anyhop/metrics.py:172-222 | a provider brought back counts again for all its channels, a channel unless its provider is still removed |
| Metrics.WatermarksMark | src/anyhop/metrics.py:305-351 | the watermark of an id is the counter of the last connection that carries it and leads to a channel |
| Metrics.BankingGrows | src/anyhop/metrics.py:106-131 | banking raises exactly the live channels' totals, by what their connections show since the last sample |
| Metrics.ObservedMeans | src/anyhop/metrics.py:305-351 | what one observation does, case by case: nothing read or the write refused, a new generation, or the increments of each live channel banked and reported |
| Metrics.Accumulator.Observe | src/anyhop/metrics.py:305-351 | watermarks become the sample's exactly when it took effect; a new generation banks nothing; a sample of the same one banks each live channel's increments; a failed read or write changes nothing |
| Reconnect.EveryEpisodeIsOrderly | src/anyhop/reconnect.py:195-269 | in every run at most 5 attempts an episode, none before 3 failures, consecutive ones at least the backoff apart |
| Reconnect.ExhaustionIsLate | src/anyhop/reconnect.py:239-252 | giving up comes after 5 attempts and at least 1110 seconds after the first |
| Reconnect.RecoveryEndsEpisode | src/anyhop/reconnect.py:204-210 | a healthy probe leaves no record and no attempts, and the next failure counts as the first |
| Reconnect.FinishMeans | src/anyhop/reconnect.py:299-344 | a finish that applies leaves the record as its attempt claimed it, given up only by a failure no retry mends; any other leaves everything |
| Reconnect.LateFinishKeepsAttempt | src/anyhop/state.py:1253-1279 | a finish that applies never rolls attempts or timestamps back |
| Reconnect.StaleFinishIsDiscarded | src/anyhop/state.py:1253-1279 | a finish of any other attempt changes nothing |
| Reconnect.FinishLiftsGiveUp | src/anyhop/state.py:1271-1277 | a recorded give-up is lifted exactly by a finish that applies and does not itself give up |
| Reconnect.LateFinishForgetsGiveUp | src/anyhop/reconnect.py:299-344 | a run in which a late failure report undoes a give-up and lowers the failure count |
| RecoveryPass.PlanPass | src/anyhop/reconnect.py:195-265 | over each slot: a disabled, stopped or given-up channel is left alone, a healthy one loses its record, any other has one more failure counted, an attempt claimed iff three failures are on record, the time has come and fewer than five were made, and gives up iff five were |
| RecoveryPass.PassCommits | src/anyhop/reconnect.py:195-270 | planned and committed onto an unchanged channel exactly that happens to its record; a changed or unvisited channel is not touched |
| RecoveryPass.RecoveryStore.PrepareReconnects | src/anyhop/state.py:1218-1251 | commits exactly the plans whose channel is still as it was |
| RecoveryPass.RecoveryStore.FinishAttempt | src/anyhop/state.py:1253-1279 | commits under the same fingerprint and nonce only |
| RecoveryPass.PassIsOffer | src/anyhop/reconnect.py:267 | planning on a snapshot and committing later is one compare-and-set step of the state machine: same record, and an attempt claimed iff a claiming write was applied |
| RestartBudget.EveryWindowIsBounded | src/anyhop/reconnect.py:54-60 | every six-hour window holds at most five restarts |
| RestartBudget.Budget.RestartIfAllowed | src/anyhop/reconnect.py:87-121 | although old stamps are pruned, a restart is refused exactly when the window ending now already holds five |
| TunTrial.ConfirmationIsFinal | src/anyhop/service.py:2123-2136 | once confirm returned, no expiry of that trial ever acts, whatever happens later |
| TunTrial.SupersededIsHarmless | src/anyhop/service.py:2139-2155 | a watchdog of a superseded trial never affects a newer one |
| TunTrial.OneWinner | src/anyhop/service.py:2038-2044 | at the deadline exactly one of confirm and expire wins |
| TunTrial.ToggleStands | src/anyhop/service.py:2017-2031 | after a toggle that took, tun stays as asked through everything but another toggle or trial |
| TunTrial.ArmingSetsAllThree | src/anyhop/service.py:2099-2120 | a trial that was armed has tun on, its marker and a watchdog of its own |
| TunTrial.MarkedUnlessWriteFails | src/anyhop/service.py:2017-2031 | one section keeps the trial marked iff it does not find it running, consume its marker, and lack the privilege, the write or its life |
| TunTrial.AlwaysMarkedIff | src/anyhop/service.py:2017-2202 | through a whole run a running trial has its marker at every instant iff no section of the run did that |
| TunTrial.RunStaysWatched | src/anyhop/service.py:2099-2120 | without reboots and failures an unconfirmed trial always has its own watchdog waiting, due after its deadline by at most the time arming took |
| TunTrial.DueWatchdogReverts | src/anyhop/service.py:2139-2155 | after the deadline and that time such a watchdog is due, and its firing turns tun off |
| TunTrial.RecoveryIsSafe | src/anyhop/service.py:2158-2202 | after recovery an unconfirmed trial is off or has a watchdog under its nonce due at its deadline, later only by the time recovery took to start it |
| TunTrial.RefusedToggleStrandsTrial | src/anyhop/service.py:2029-2031 | a refused `tun on` during a trial drops the marker and leaves the trial on for good |
| TunTrial.DamagedMarkerOutlivesItsWatchdog | src/anyhop/service.py:2047-2066 | a damaged marker defeats its watchdog until the next recovery fails closed |
| TunTrial.Trial.SetMode | src/anyhop/service.py:2017-2031 | the marker goes first; if privilege and write are there tun is as asked and no trial runs, else both stay; nothing else changes |
| TunTrial.Trial.ArmTrial | src/anyhop/service.py:2099-2120 | marker and watchdog stand before tun goes on; the deadline was fixed before the lock was taken |
| TunTrial.Trial.ConfirmTrial | src/anyhop/service.py:2123-2136 | consumes the marker and keeps tun, or reports that nothing is pending |
| TunTrial.Trial.Expire | src/anyhop/service.py:2139-2155 | reverts its own trial only; keeps it marked iff the write takes or it was not its own |
| TunTrial.Trial.Settle | src/anyhop/service.py:2158-2202 | reverts an expired or unreadable trial, re-arms a live one; keeps a trial marked iff it need not revert or the write takes |
| Utf8.DecodeSplits | src/anyhop/applog.py:110 | decoding with replacement splits at every line feed, wherever multibyte sequences were cut |
| Utf8.LinesSplit | src/anyhop/applog.py:111 | after a line feed a new line starts, also after a carriage return |
| TextMeaning.DecodeInverts | src/anyhop/applog.py:110 | decoding gives back any sequence of Unicode scalar values from its encoding after section 3 of RFC 3629 |
| TextMeaning.FirstReplaces | src/anyhop/applog.py:110 | where no encoding starts, the replacement character stands |
| TextMeaning.ReplacesLongest | src/anyhop/applog.py:110 | it stands for the longest start of an encoding there is, and for at least one byte |
| TextMeaning.LinesAreCut | src/anyhop/applog.py:111 | the lines are the text cut at its breaks, a carriage return with its line feed counting as one, without an empty last line |
| LogTail.SuffixSuffices | src/anyhop/applog.py:100-111 | the last n lines depend only on a suffix with more than n line feeds, wherever it starts |
| LogTail.ReverseTail | src/anyhop/applog.py:87-111 | for every content, n and block size: the end of what the decoded file is cut into at its breaks, n lines or all |
| LogTail.RotateIfNeeded | src/anyhop/applog.py:37-53 | every generation moves up by one, the oldest falls off, gaps included, nothing else changes |
| ProbePool.ProbeIpv6 | src/anyhop/probe.py:109-145 | the sources are asked in order with what is left of the budget; the answer is the first IPv6 address among the replies, and the time is what the replies took |
| ProbePool.ProbeChannel | src/anyhop/probe.py:148-241 | the trace is what the network answered: source i asked i-th with the timeout cut to what is left; the verdict is the first address, or the dominant cause of the replies; time is the sum of the replies' times plus the lookup, inside one deadline |
| ProbePool.PackedNext | src/anyhop/engine.py:727-760 | greedy scheduling keeps at most i - km workers busy beyond k deadlines |
| ProbePool.RunPool | src/anyhop/engine.py:719-788 | the workers keep a schedule without overlap, and job i is finished within ceil((i + 1) / workers) deadlines |
| ProbePool.ProbeAll | src/anyhop/engine.py:719-788 | every channel's entry reports what its own network answered; done within ceil(n / 8) deadlines of 15 seconds, results later than 60 seconds cut off, of up to 32 channels none is |

## Left out

- Has: the guarantee that labels are sorted and a marker only ends a key is the writer's, so it is a precondition of the meaning theorems, not of the equality of walks.
- ReadRule: item payloads are read back uninterpreted; compiling patterns, sorting ranges per family and decoding text as UTF-8 are left to the caller, and decompression happens before.
- MeansDenotes: takes a rule-set as its writer leaves it, with markers only at the end of an entry and disjoint ranges, and a domain without marker bytes; that the methods compute `Means` needs neither.
- MatchDefault: pattern search is an arbitrary function of pattern and domain.
- MatchDestination: address parsing and parsed rule-sets are arbitrary functions; a stored value that does not parse matches nothing.
- CreateRuleset: the name is the stripped one; stripping is not modelled.
- Expected: a revision stands for the content it digests; digests are taken as injective.
- MoveRules: with repeated rule ids in a damaged file the code fails on an index; the model then reports an ordinary error.
- UsedPortHolders: which of several duplicate claimants is met last is left open.
- Op: the geo data record, backup settings and the service offer are sections of the file of their own and not part of the state here; batches of probe and recovery writes are sequences of single ones.
- OfferOk: the allocator is any source of unclaimed valid ports or a failure; sockets and the base-port mode are not modelled.
- RestoreSetup: takes bundle validation's guarantee on ruleset targets as a precondition; validation itself is not modelled.
- ConfigOf: tags are the channel references themselves; log, API, interface and MTU sections are constant for a given environment and left out.
- Applies: sing-box's matching is modelled for the conditions anyhop emits, with one destination address per connection.
- SameMaterialSameConfig: digests are taken as injective, so the theorem is about the hashed material.
- Observe: the accounting theorem takes a snapshot's connection ids as unique and an id as always leading to the same channel; the code's handling of repeated ids is modelled, their accounting is not claimed.
- RemoveChannel: a channel called `*` would collide with the provider-wide tombstone; channel ids never are.
- Decide: clocks are integers; the provider calls between claim and finish are arbitrary outcomes at arbitrary times.
- RestartIfAllowed: the stamp file is assumed readable; an unreadable one counts as an empty budget in the code.
- Guards: `survives` stands for the process living to the end of a locked section; the lock itself is assumed.
- ReverseTail: the file does not change while it is read.
- ProbeChannel: opens honour the timeout they are given, and only opens take time.
- RunPool: workers take jobs in submission order, as soon as they are free.
- File locking, fsync and rename, process control, helper sockets, HTTP and DNS calls, YAML and JSON, the CLI and the web UI are not modelled: their guarantees rest on the operating system or on other programs.
