# TinyCloud node: a verified model

TinyCloud node is an authorization and storage engine built on signed capability delegations. This
project models its hardest parts in Dafny and proves what they promise. `dafny verify dfyconfig.toml`
checks all of it.

| files | what they model |
|---|---|
| `Graph`, `ChainWalk`, `LockTable`, `SpaceTables`, `SpaceProtocol`, `CallChecks`, `GuardSafety`, `RevocationSafety`, `RevocationRace` | `delegate`, `revoke`, status queries and invocations as concurrent tasks: chain walk, guards, transaction, commit |
| `KvDispatch`, `KvRefinement`, `KvListing`, `LikePrefix` | the log of versioned writes and tombstones against a plain map; listings; LIKE escaping |
| `EventSpaces`, `EpochDag` | numbering and linking the epochs of a space under two isolation levels |
| `AccountLifecycle`, `Paging` | the state a delegation is in because of its ancestors; pages of a query |
| `Registry`, `Authority`, `Provenance`, `Identity`, `ResourceUri` | action registry, resource containment, provenance of stored capabilities, DIDs, resource URIs |
| `Order`, `Unicode`, `Decimal`, `JsonText`, `CanonicalJson`, `JsonWriters` | the two canonical JSON writers, and readers of JSON, UTF-8 and UTF-16 to hold them against |
| `Splitting`, `Eip55`, `Siwe`, `Cacao`, `Recap`, `RecapStatement` | EIP-4361 messages, EIP-55 addresses, CACAO payloads, ERC-5573 capabilities and their statements |
| `SqlAst`, `SqlMentions`, `SqlWalk`, `SqlValidation`, `SqlCaveats` | DuckDB statement validation: what it collects, what a statement refers to, what acceptance means |
| `ReplayCache`, `Webhook` | the replay cache and the webhook delivery lifecycle |

`RevocationSafety.dfy`, `RevocationRace.dfy` and `KvRefinement.dfy` hold their main results first, then
the modules with the step-by-step lemmas these rest on (`RevocationSteps`; `Calls` and `Runs`; `KvSteps`).

## How the model is built

The space database is a transition system (`SpaceProtocol`). A step is one database statement, one
mutex operation or one commit of one task; a run is any interleaving of any number of tasks, started at
any time, each of which may also fail at any point. Every statement reads the rows committed by then,
which is the weaker of the two isolation levels the node asks for (tinycloud-core/src/db.rs:1203-1231).
Digests are numbers whose order is the order of their bytes, so distinct hashes have distinct digests.
Hash functions, the SQL parser, URI and timestamp grammars and the serialization of capabilities are
parameters; the laws they are used with are stated as predicates (`Siwe.Lawful`,
`ResourceUri.Lawful`, `Recap.Inverse`).

Code that changes state keeps that form: `LockTable.Registry`, `ReplayCache.Cache`, `Webhook.Delivery`,
`JsonWriters.Buffer` and the SQL walkers are classes, the searches are loops, and each is tied to a
function or predicate about which the laws are proved.

Proofs by induction are written out: automatic induction is switched off wherever it would apply.

## Where a promised property needs a condition

- A call is *settled* when every delegation it cites was stored when it began and no query of its walks
  dropped a row. Every commit of a settled call rests on live grants to its actor
  (`RevocationSafety.CommitsUnderLiveGrants`), and neither half of the condition can be left out
  (`RevocationRace.LiveIffSettled`). A caller can check it beforehand: when all that a call names is stored,
  it is safe with up to 33 delegations from there upwards, whatever runs beside it, and 34 are too many
  (`RevocationRace.LiveUpToIff`). A call that cites a delegation before it is stored guards only that
  id; the delegation and then the revocation of its parent can commit while the call waits
  (`RevocationRace.UnstoredRootOutrunsRevocation`). A call that cites a delegation and 32 of its 33 parents
  asks for the parents in its 33rd query, which may drop the 33rd; its revocation can then commit too
  (`RevocationRace.CutWalkOutrunsRevocation`). The first run exists for any ids and principals, the second
  for any in which the delegation has the least digest of those cited and is the only one made to the caller.
- The chain walk bounds each query by what is left of its 64 nodes plus one. It returns all ancestors
  exactly when every parent a query dropped was met another way (`ChainWalk.CollectChain`);
  `ChainWalk.TruncatedWalkMissesAncestor` is a chain on which one was not.
- Sequence numbers grow along the links of the epoch DAG in all runs exactly when the numbers and the
  tips are read from one snapshot (`EpochDag.IncreasesIffSnapshot`). A run in which every statement reads
  the latest rows keeps them growing exactly when none of its commits links to an epoch that came in
  between its two reads and whose own number was read later, or earlier without a rise of the greatest
  number in between; whether that number rose is decided by the order of the events alone
  (`EpochDag.IncreasesIffNotOvertaken`, `EpochDag.RaisedIff`).
- A resource extends itself unless it is a malformed encryption network id (`Authority.ExtendsReflexiveIff`).
- Parsing a printed sign-in message gives it back exactly when its statement is not empty, its free-text
  fields hold no newline and its nonce has at least 8 bytes (`Siwe.RoundTripIffWellFormed`).
- A CACAO payload survives the conversion to a message and back exactly when its issuer is spelled
  canonically and its resources are not an empty list (`Cacao.PayloadRoundTrip`).
- The two JSON writers write the same bytes exactly when no two keys of one object first differ in a
  character of U+E000 to U+FFFF against one from U+10000 up (`CanonicalJson.WritersAgreeIff`); without such
  characters they always do (`CanonicalJson.WritersAgree`).
- An invocation is not accepted twice before it expires while clocks lag by at most 60 seconds
  (`ReplayCache.NoReplayBeforeExpiry`); any larger lag admits a replay (`ReplayCache.LargerLagReplays`), so does
  an expiration past the year 9999, which falls back to a minute (`ReplayCache.FarExpirationReplays`),
  and `ReplayCache.AcceptedAgainIff` says exactly when a key is accepted again.
- Statement validation does not look at every part of a statement: WITH tables, SELECT INTO, arguments of
  tables, options of wildcards, the source of an INSERT, the query of a CREATE, the FROM of an UPDATE, USING,
  explained statements, queries inside expressions, and the whole of every statement of a kind it does not
  tell apart, such as COPY. Columns it takes only from the projection of a bare SELECT and the targets of an
  UPDATE. The reported tables are exactly the named ones when, and only when, what the skipped parts name is
  also named in a walked part (`SqlCaveats.TablesReportedIff`, `SqlCaveats.ColumnsReportedIff`), and an
  accepted query keeps to the allowed tables and columns exactly when its skipped parts do
  (`SqlCaveats.CaveatsRespectedIff`). `SqlCaveats.InsertHidesSource`, `SqlCaveats.UnionHidesWildcard`,
  `SqlCaveats.AliasHidesColumn`, `SqlCaveats.ArgumentsHideQuery` and `SqlCaveats.CopyOutHidesWildcard` are
  accepted queries that do not.
- The tables an accepted query is seen to write are allowed ones exactly when no DELETE in it lists another
  (`SqlCaveats.TargetsAllowedIff`, `SqlCaveats.ListedDeleteEscapes`).
- What is reported as read-only changes nothing exactly when no query body, no explained statement and no
  statement of a kind not told apart does (`SqlCaveats.ReadOnlyCaveat`); without the write tier and
  pre-approval the last kind is refused (`SqlCaveats.OthersOnlyRead`). `SqlCaveats.CopyInIsRead`,
  `SqlCaveats.ExplainedCopyIsRead`, `SqlCaveats.SelectIntoIsRead` and `SqlCaveats.ReadsHideChange` are changes
  accepted as reads.

## Model

| member | source | states |
|---|---|---|
| `Graph.ReachLeast` | tinycloud-core/src/models/revocation.rs:98-134 | the ancestors of a set of delegations are the least set that holds them and all parents of its members |
| `ChainWalk.StepKeepsSound` | tinycloud-core/src/models/revocation.rs:98-134 | one iteration of the walk meets only ancestors and keeps visited and waiting ids distinct |
| `ChainWalk.StepKeepsComplete` | tinycloud-core/src/models/revocation.rs:98-134 | a step leaves behind no parent of a visited id but those its query dropped |
| `ChainWalk.CollectChain` | tinycloud-core/src/models/revocation.rs:98-134 | the walk returns distinct ids between the roots and all ancestors, at most 64; it returns all ancestors exactly when every parent a query dropped was met another way, and if none was dropped it refuses exactly when there are more than 64 |
| `ChainWalk.SmallIsUncut` | tinycloud-core/src/models/revocation.rs:117-121 | while at most 33 ids lie above the roots no query can drop a row |
| `ChainWalk.TruncatedWalkMissesAncestor` | tinycloud-core/src/models/revocation.rs:117-121 | a chain on which the bounded query drops a stored ancestor and the walk still succeeds |
| `LockTable.KeyOrder` | tinycloud-core/src/db.rs:734-806 | the order in which guards are taken is total and puts chain guards before object guards |
| `LockTable.LookupKeeps` | tinycloud-core/src/db.rs:744-766 | a registry lookup keeps every live entry, adds only the keys asked for and never gives one mutex to two keys |
| `LockTable.LookupPrunes` | tinycloud-core/src/db.rs:744-766 | after a task's lookup the registry of that kind holds live mutexes only, the other kind's is unchanged, and the task has the mutex of each key it asked for |
| `LockTable.Registry.FindOrCreate` | tinycloud-core/src/db.rs:744-766 | in place: dead weak entries are pruned, then each key's mutex is upgraded or created |
| `LockTable.LookupKeepsInv` | tinycloud-core/src/db.rs:734-806 | after any task's lookup there is still one live mutex a key and waiting keys stay ascending |
| `LockTable.LockKeepsInv` | tinycloud-core/src/db.rs:760-769 | taking the next mutex keeps the registry and the order of waiting keys |
| `LockTable.LockExcludes` | tinycloud-core/src/db.rs:760-769 | a mutex that can be taken belongs to a key nobody guards, so guards stay exclusive |
| `LockTable.ForgetKeepsInv` | tinycloud-core/src/db.rs:734-806 | a failed or cancelled call leaves the registry consistent |
| `LockTable.NoDeadlock` | tinycloud-core/src/db.rs:734-806 | whenever some task waits, some task can take its next mutex or holds guards without waiting |
| `SpaceTables.NextSeq` | tinycloud-core/src/db.rs:1481-1495 | one more than the greatest sequence number of the space, zero in a new space |
| `SpaceTables.LatestExists` | tinycloud-core/src/db.rs:1912-1926 | the descending query finds a write exactly when the object has one |
| `SpaceTables.NewestIsLatest` | tinycloud-core/src/db.rs:1912-1926 | a write newer than all others of its object is the one the query finds |
| `GuardSafety.EventKeepsGuards` | tinycloud-core/src/db.rs:734-806 | every step of every task keeps: guards are exclusive and each task in its transaction owns the guards of its chain and objects |
| `GuardSafety.RunKeepsGuards` | tinycloud-core/src/db.rs:734-847 | that invariant holds in every state of every run |
| `GuardSafety.TransactionHolds` | tinycloud-core/src/db.rs:828-847 | between guard acquisition and commit a task owns a guard for each id of its walk and each object it mutates |
| `GuardSafety.OverlappingTasksExclude` | tinycloud-core/src/db.rs:828-847 | two tasks between guard acquisition and commit share no guarded delegation and no object, in every interleaving |
| `GuardSafety.SomeTaskMoves` | tinycloud-core/src/db.rs:734-806 | in every state of every run with an unfinished call some call can make progress |
| `RevocationSafety.EventKeepsRevocationInv` | tinycloud-core/src/db.rs:828-847 | every step keeps: what a settled task has checked is unrevoked and covers the ancestors of what it relies on |
| `RevocationSafety.CommitsUnderLiveChain` | tinycloud-core/src/db.rs:960-967 | whatever commits with its roots stored beforehand and no row dropped by its walks rests on parents that are, at the commit, unrevoked together with all their ancestors |
| `RevocationSafety.CommitsUnderLiveGrants` | tinycloud-core/src/models/invocation.rs:164-240 | in every run, on the request and the tables alone: a settled invocation that needs authority cites at least one delegation, and all it cites are stored, made to the invoker and unrevoked with all ancestors; a delegation cites such a grant, and all grants to its maker that it cites are live; a revocation has a stored target and at most one proof, a live grant to the revoker |
| `RevocationSafety.ReliedIff` | tinycloud-core/src/models/delegation.rs:208-236 | exactly the calls supported by stored grants to their actor go on to validation, with exactly those grants |
| `RevocationSafety.SmallChainsCommitLive` | tinycloud-core/src/db.rs:828-847 | a call whose roots were all stored when it began, with at most 33 delegations from them upwards, commits on live grants only, in every interleaving |
| `RevocationSafety.RevokedStays` | tinycloud-core/src/models/revocation.rs:234-326 | a revocation is never undone |
| `RevocationSafety.RevocationIsFinal` | tinycloud-core/src/db.rs:2793-2890 | after a revocation commits, no delegation cited by a settled invocation or revocation, and no grant cited by a settled delegation, that commits later is the revoked one or lies below it |
| `RevocationRace.UnstoredRootOutrunsRevocation` | tinycloud-core/src/db.rs:828-847 | for any two delegations there is a run in which a call that cites the child before it is stored, and whose walks drop nothing, may commit after the parent's revocation |
| `RevocationRace.CutWalkOutrunsRevocation` | tinycloud-core/src/models/revocation.rs:108-134 | for any delegation with 33 parents of which 32 have greater digests there is a run in which a call that cites it and these 32, all stored, may commit after the revocation of the 33rd, which its guard walk dropped |
| `RevocationRace.LiveIffSettled` | tinycloud-core/src/db.rs:828-847 | all commits of the calls that meet the asked conditions, in all runs, rest on live grants exactly when both are asked: roots stored, no row dropped |
| `RevocationRace.LiveUpToIff` | tinycloud-core/src/models/revocation.rs:98-134 | calls that begin with all roots stored and at most n delegations from them upwards commit on live grants in all runs exactly when n is at most 33 |
| `KvDispatch.Stage` | tinycloud-core/src/db.rs:968-1030 | for every list of capabilities the staged operations match its mutating capabilities one for one and in order: a put, with its own input, exactly for tinycloud.kv/put, a delete exactly for tinycloud.kv/del and tinycloud.kv/delete; they are on the guarded keys, each key is put at most once, and staging fails exactly when some put finds no input |
| `KvDispatch.LastMutationDecides` | tinycloud-core/src/db.rs:968-1030 | applied to a map, the staged operations leave at each key the input of its last put, or nothing if a delete came last |
| `KvDispatch.UntouchedStays` | tinycloud-core/src/db.rs:968-1030 | and leave every key no capability mutates as it was |
| `CallChecks.ReadGoesOnIff` | tinycloud-core/src/db.rs:1040-1049 | the read before a write lets the call go on exactly when nothing is asked of the object, it is absent and asked to be, or it has the asked value |
| `CallChecks.StagesIff` | tinycloud-core/src/models/invocation.rs:391-550 | staging succeeds exactly when no object is put twice, no space has two deletes and every delete finds a write, of an earlier transaction or an earlier operation |
| `CallChecks.SavesIff` | tinycloud-core/src/models/invocation.rs:391-550 | the rows of a call are saved exactly when all it cites is stored and, for an invocation not seen before, its operations can be staged |
| `CallChecks.CommitsIff` | tinycloud-core/src/db.rs:1520-1600 | a call whose rows are saved may commit exactly when no epoch it made is taken in its space and an invocation is as new as it was when they were saved |
| `CallChecks.OrdersIn` | tinycloud-core/src/db.rs:1297-1342 | a revocation is ordered in exactly the spaces its target is, other calls in those they name, each with the number after the greatest there |
| `CallChecks.EpochsStayUnique` | tinycloud-core/src/db.rs:1520-1588 | in every run no epoch of a space is used by two commits |
| `CallChecks.AnswersYesIffCommitted` | tinycloud-core/src/db.rs:828-967 | in every run a call that is not a status query has answered yes exactly when it has committed |
| `KvDispatch.AliasedDelete` | tinycloud-auth/src/policy_capability/generated.rs:82-89 | the deprecated delete action is dispatched as the canonical one |
| `KvSteps.StagingRefines` | tinycloud-core/src/models/invocation.rs:391-550 | staging an invocation's operations changes what point reads return exactly as applying them to a map would |
| `KvSteps.CommitRefines` | tinycloud-core/src/db.rs:1192-1199 | a commit changes the readable contents exactly by the invocation's operations, and a replayed id changes nothing |
| `KvRefinement.EventKeepsKv` | tinycloud-core/src/db.rs:1038-1052 | every step keeps: the log refines the map, writes of an object have distinct increasing numbers, staged rows are still what staging would give |
| `KvRefinement.ReadsLastCommittedWrite` | tinycloud-core/src/db.rs:1890-1930 | in every run a point read returns the last committed put, or nothing if a delete came last |
| `KvRefinement.ConditionalCommitIsAtomic` | tinycloud-core/src/db.rs:1038-1052 | when a conditional write commits, the map it is applied to lacks the key if it was to be absent, and holds the asked value if it was to match |
| `KvRefinement.LaterWritesHaveGreaterSeq` | tinycloud-core/src/db.rs:1481-1495 | a committed write of an object has a greater sequence number than every earlier write of it |
| `LikePrefix.EscapeStep` | tinycloud-core/src/db.rs:1782-1786 | the three replacements escape character by character; none touches what an earlier one put in |
| `LikePrefix.LikeIffPrefix` | tinycloud-core/src/db.rs:1782-1812 | for every prefix, the escaped pattern followed by % matches exactly the texts with that prefix |
| `KvListing.SelectedIffLive` | tinycloud-core/src/db.rs:1729-1820 | an object is selected exactly when its path has the prefix and a point read finds it |
| `KvListing.ResultAscends` | tinycloud-core/src/db.rs:1820-1821 | the selected keys are strictly ascending: no key twice |
| `KvListing.ListingIsOfTheMap` | tinycloud-core/src/db.rs:1729-1840 | in every run the listing of a prefix is the ascending list of the keys with that prefix in the map of committed operations |
| `KvListing.Query` | tinycloud-core/src/db.rs:1787-1821 | a search in any row order yields each selected row once, ordered by key |
| `KvListing.ListBounded` | tinycloud-core/src/db.rs:1822-1839 | the first keys up to the limit; truncated exactly when there are more |
| `EventSpaces.EventsOf` | tinycloud-core/src/db.rs:1312-1342 | the events of a space are those that touch it, once each |
| `EventSpaces.Group` | tinycloud-core/src/db.rs:1297-1344 | exactly the touched spaces get an entry, each with its events in order and none empty |
| `EpochDag.TipsMove` | tinycloud-core/src/db.rs:1497-1518 | adding an epoch turns the tips into (tips minus its parents) plus itself |
| `EpochDag.CommitMovesTips` | tinycloud-core/src/db.rs:1497-1588 | in every run and at either isolation level a commit consumes the tips it read and becomes a tip |
| `EpochDag.EveryEpochUnderTip` | tinycloud-core/src/db.rs:1497-1588 | in every run every epoch is a tip or an ancestor of one |
| `EpochDag.SeqsRespectAncestry` | tinycloud-core/src/db.rs:1480-1588 | reading one snapshot, every epoch is numbered above all its ancestors, in every run of concurrent commits |
| `EpochDag.OrderExtendsDag` | tinycloud-core/src/db.rs:1555-1566 | the order of (seq, epoch, epoch_seq) puts the events of an ancestor first |
| `EpochDag.OrderIsTotal` | tinycloud-core/src/db.rs:1555-1566 | that order is strict and total on the events of a space |
| `EpochDag.RaisedIff` | tinycloud-core/src/db.rs:1481-1495 | the order in which numbers are read and commits happen decides whether the greatest number of a space rose between two points of a run |
| `EpochDag.IncreasesIffNotOvertaken` | tinycloud-core/src/db.rs:1481-1518 | with every statement reading the latest rows, numbers grow in a space throughout a run exactly when no commit links to an epoch committed between its two reads whose number, by the order of events, is no lower |
| `EpochDag.UndisturbedIncreases` | tinycloud-core/src/db.rs:1481-1518 | so they grow in a space whose commits keep out of the gap between the two reads |
| `EpochDag.ReadCommittedRace` | tinycloud-core/src/db.rs:1203-1216 | a run in which an epoch gets the number of its parent |
| `EpochDag.IncreasesIffSnapshot` | tinycloud-core/src/db.rs:1203-1231 | numbers grow along all links in all runs exactly when a transaction reads one snapshot |
| `AccountLifecycle.LifecycleIsUnique` | tinycloud-core/src/db.rs:2187-2263 | the declarative meaning of a lifecycle admits one outcome |
| `AccountLifecycle.RevokedIffReachable` | tinycloud-core/src/db.rs:2206-2233 | with at most 4096 reachable ids there is no limit error, and the outcome is ancestor_revoked exactly when some proper ancestor is revoked |
| `AccountLifecycle.ScanLevel` | tinycloud-core/src/db.rs:2207-2225 | one level: stops at the nearest revoked ancestor with the least digest, else visits exactly the next level |
| `AccountLifecycle.DateStatus` | tinycloud-core/src/db.rs:2235-2256 | missing when a reachable delegation is not stored; else expired exactly when some reachable expiry is at or before now, and active exactly when every expiry lies ahead and every start has come |
| `AccountLifecycle.Lifecycle` | tinycloud-core/src/db.rs:2187-2263 | the search computes that meaning on any parent graph, cycles included |
| `AccountLifecycle.LifecycleOverTime` | tinycloud-core/src/db.rs:2244-2256 | with the tables fixed, what is expired stays expired, what is active is never pending again, and the other outcomes do not depend on the time |
| `AccountLifecycle.TakeLinks` | tinycloud-core/src/db.rs:2280-2291 | one round of loading: new parents become the next frontier, and the limit is reported exactly when passed by a new id |
| `AccountLifecycle.WalkUp` | tinycloud-core/src/db.rs:2265-2304 | loads exactly the ancestors within 64 levels with their links, or names the limit that was passed |
| `AccountLifecycle.SameLifecycle` | tinycloud-core/src/db.rs:2305-2330 | a lifecycle depends only on what lies above the root, so the loaded part suffices |
| `AccountLifecycle.AccountStatus` | tinycloud-core/src/db.rs:2187-2330 | loading then searching gives the meaning on the whole tables: the least revocation of the root, else its lifecycle, with the dates of all reachable delegations compared field by field; more than 4096 ids or more than 64 levels are reported as such, and nothing else is |
| `Paging.SortSorted` | tinycloud-core/src/db.rs:399-404 | records are ordered by issue time, latest first and missing ones last, then by CID ascending |
| `Paging.FetchIs` | tinycloud-core/src/db.rs:405-417 | a request with the CID of a record as cursor starts right after that record |
| `Paging.FollowCursors` | tinycloud-core/src/db.rs:399-422 | following the cursors returns every record once, in order, in as few pages as the limit allows |
| `Paging.PageCountIsCeiling` | tinycloud-core/src/db.rs:414-417 | the number of pages is max(1, ceil(n / limit)) |
| `Registry.ExpandActions` | tinycloud-auth/src/policy_capability.rs:49-61 | on every registry, cyclic ones included, the worklist ends with the least alias-resolved set closed under implication |
| `Registry.ExpansionIsUnique` | tinycloud-auth/src/policy_capability.rs:49-61 | that set is unique |
| `Registry.AbilityMatches` | tinycloud-auth/src/policy_capability.rs:15-17 | holds exactly when every closed set with the held action has the required one |
| `Registry.MatchesPreorder` | tinycloud-auth/src/policy_capability.rs:15-17 | matching is reflexive and transitive |
| `Registry.DuckDbWriteTier` | tinycloud-auth/src/policy_capability/generated.rs:82-111 | for every string: admin is implied by exactly admin and *, write by exactly write and *, so the write tier is exactly admin, write and * |
| `Registry.DuckDbTiers` | tinycloud-auth/src/policy_capability/generated.rs:82-111 | for every string: DuckDB read is matched by exactly read, its alias select and *, import and export by themselves and * |
| `Registry.SqlTiers` | tinycloud-auth/src/policy_capability/generated.rs:82-111 | for every string: SQL schema is matched by exactly schema, admin and *, read by read, its alias select and *, write and admin by themselves and * |
| `Authority.PathExtendsPreorder` | tinycloud-auth/src/resource.rs:200-209 | extending a path is reflexive and transitive |
| `Authority.ExtendsIffSegments` | tinycloud-auth/src/resource.rs:200-209 | extending a path is having its segments as a prefix, one more below a final slash |
| `Authority.PathContainsExtends` | tinycloud-auth/src/policy_capability.rs:20-37 | path_contains implies extends |
| `Authority.PathContainsIff` | tinycloud-auth/src/policy_capability.rs:20-37 | path_contains is extends restricted to equal paths or, off SQL, to a base with a final slash |
| `Authority.IdExtendsPreorder` | tinycloud-auth/src/resource.rs:193-217 | ResourceId::extends is a preorder |
| `Authority.ExtendsTransitive` | tinycloud-core/src/types/resource.rs:30-51 | Resource::extends is transitive on all resources |
| `Authority.ExtendsReflexiveIff` | tinycloud-core/src/types/resource.rs:30-51 | Resource::extends is reflexive exactly off the malformed encryption network ids |
| `Authority.ExtendsIffWithin` | tinycloud-core/src/types/resource.rs:30-51 | a resource extends another exactly when space, service and fragment are equal and its path lies at or below segment by segment, when both are one encryption network, or when neither is and the text is a prefix |
| `Authority.CoversIff` | tinycloud-core/src/models/delegation.rs:300-345 | a capability covers another exactly when the resource lies within its own and the ability is implied by its own |
| `Authority.ChainNeverWidens` | tinycloud-verifier-wasm/src/lib.rs:162-170 | along a chain of grants of any length, whatever the last covers the first covers |
| `Authority.FindGrant` | tinycloud-verifier-wasm/src/lib.rs:367-381 | returns a grant that covers the expected resource and action exactly when there is one; the resource lies within the grant's segment by segment and the action is implied |
| `Provenance.EveryCapabilityTraces` | tinycloud-core/src/models/delegation.rs:194-345 | in every run of accepted delegations every stored capability goes back, parent by parent, to a delegation by the owner of its resource |
| `Provenance.AcceptedIff` | tinycloud-core/src/models/delegation.rs:194-345 | a delegation is accepted exactly when what it cites is stored, each capability is its maker's own or lies within one of a cited row made to its maker, in resource, ability, caveats and time, and unless all are its maker's own it cites no terminal row made to its maker |
| `Provenance.EveryCapabilityIsHandedDown` | tinycloud-core/src/models/delegation.rs:216-245 | custody in every run: for every stored capability a sequence of stored rows, the first made by the owner of its resource, each citing the one before and made by whom that was made to, none that is passed on terminal, none wider than the one before |
| `Provenance.TerminalEndsChains` | tinycloud-core/src/models/delegation.rs:236-245 | in every run no stored row with a capability beyond its maker's own cites a terminal row made to its maker |
| `Provenance.TraceNeverWidens` | tinycloud-core/src/models/delegation.rs:194-345 | along such a trace neither resource nor ability nor time window widens |
| `Provenance.InvocationTracesToOwner` | tinycloud-core/src/models/invocation.rs:151-330 | in every run, what an invoker may do beyond their own resources an owner granted, and that grant is in force now |
| `Provenance.InvocationIsHandedDown` | tinycloud-core/src/models/invocation.rs:151-330 | in every run what is invoked beyond the invoker's own resources lies within a capability of a cited row made to the invoker's principal, which has come down from the owner hand to hand with every row on the way in force now |
| `Provenance.AuthorizedIff` | tinycloud-core/src/models/invocation.rs:151-330 | an invocation is authorized exactly when all its capabilities are on the invoker's own resources, or it cites distinct stored rows made to the invoker's principal, each in force with all that the walk returned above it, and every other capability lies within one of theirs in resource, ability and caveats |
| `Provenance.AuthorizedIsHandedDown` | tinycloud-core/src/models/invocation.rs:151-330 | in every run each capability of an authorized invocation is on the invoker's own resource or was handed down from its owner in that way |
| `Identity.CanonicalizeAddress` | tinycloud-auth/src/identity.rs:38-55 | the loop that fills the byte array computes the checksummed form, or nothing at the first bad digit |
| `Identity.CanonicalizeIdempotent` | tinycloud-auth/src/identity.rs:77-89 | canonical DIDs are left as they are |
| `Identity.PrincipalMatchesEquivalence` | tinycloud-auth/src/identity.rs:111-116 | did_principal_matches is an equivalence relation |
| `Identity.SamePrincipal` | tinycloud-auth/src/identity.rs:98-116 | a DID, its canonical form and that form with any fragment name one principal |
| `ResourceUri.ComponentsAre` | tinycloud-auth/src/resource.rs:338-375 | the component split of section 3 of RFC 3986 recovers the parts a printed id is made of |
| `ResourceUri.PrintedAccepted` | tinycloud-auth/src/resource.rs:262-328 | a URI stays accepted when the space id at its start is printed in canonical form |
| `ResourceUri.SpaceRoundTrip` | tinycloud-auth/src/resource.rs:262-328 | for every accepted text, parsing the printed form of the parsed space id gives that id |
| `ResourceUri.ResourceRoundTrip` | tinycloud-auth/src/resource.rs:268-369 | for every accepted text, parsing the printed form of the parsed resource id gives that id |
| `ResourceUri.PrintSpaceInjective` | tinycloud-auth/src/resource.rs:262-328 | printing is injective on parsed space ids |
| `ResourceUri.PrintResourceInjective` | tinycloud-auth/src/resource.rs:268-369 | printing is injective on parsed resource ids |
| `Unicode.Utf8Order` | tinycloud-core/src/encryption_network/canonical.rs:70-71 | UTF-8 is injective and its byte order is the order of scalar values |
| `Unicode.Utf8Decodes` | tinycloud-core/src/encryption_network/canonical.rs:45-85 | a reader of section 4 of RFC 3629 gives every string back from its UTF-8 bytes |
| `Unicode.Utf16Decodes` | tinycloud-auth/src/share_email_evidence.rs:722-724 | a reader of section 2.2 of RFC 2781 gives every string back from its UTF-16 units |
| `Unicode.Utf16Total` | tinycloud-auth/src/share_email_evidence.rs:722-724 | comparing UTF-16 units is a strict total order on strings |
| `Unicode.OrdersAgreeIff` | tinycloud-auth/src/share_email_evidence.rs:722-724 | both orders agree on two strings exactly when these do not first differ in a character of U+E000 to U+FFFF against one from U+10000 up |
| `JsonText.QuoteReads` | tinycloud-auth/src/share_email_evidence.rs:684-688 | a quoted string is read back whatever follows it |
| `JsonText.UnescapeEscape` | tinycloud-auth/src/share_email_evidence.rs:684-688 | every string is read back from its escaped form and a closing quote by a reader of section 7 of RFC 8259, surrogate pairs included |
| `JsonText.EscapeShortest` | tinycloud-auth/src/share_email_evidence.rs:684-688 | no text that reads as a character is shorter than its escape |
| `JsonText.PrintReads` | tinycloud-auth/src/share_email_evidence.rs:671-720 | a reader of sections 2 to 7 of RFC 8259, written without the printer, gives every tree back from its text: literals, integers from digits and sign, floats, strings, arrays, objects |
| `JsonText.PrintTight` | tinycloud-auth/src/share_email_evidence.rs:671-720 | the text holds no white space outside strings |
| `JsonText.PrintInjective` | tinycloud-auth/src/share_email_evidence.rs:671-720 | different trees have different texts |
| `CanonicalJson.NormalMeans` | tinycloud-auth/src/share_email_evidence.rs:699-715 | sorting members keeps the key-to-value mapping |
| `CanonicalJson.WrittenIsRead` | tinycloud-auth/src/share_email_evidence.rs:665-724 | the bytes decode as UTF-8 to a JSON text that reads as the given mapping, with the keys of every object strictly in order |
| `CanonicalJson.MeaningFixesNormal` | tinycloud-auth/src/share_email_evidence.rs:699-715 | trees with the same mapping have the same sorted form |
| `CanonicalJson.CanonicalAndInjective` | tinycloud-auth/src/share_email_evidence.rs:665-724 | two trees are written as the same bytes exactly when they are the same mapping, for both key orders |
| `CanonicalJson.WritersAgreeIff` | tinycloud-core/src/encryption_network/canonical.rs:35-85 | both writers write the same bytes exactly when no two keys of one object differ in that way |
| `CanonicalJson.WritersAgree` | tinycloud-core/src/encryption_network/canonical.rs:35-85 | so they do when no key has a character from U+E000 to U+FFFF |
| `CanonicalJson.WritersDisagree` | tinycloud-auth/src/share_email_evidence.rs:751-758 | an accepted tree on which the two key orders give different bytes |
| `JsonWriters.SortCommutes` | tinycloud-auth/src/share_email_evidence.rs:700-701 | sorting before or after writing the values makes no difference |
| `JsonWriters.Write` | tinycloud-core/src/encryption_network/canonical.rs:45-85 | appends exactly the canonical text to the buffer, or fails exactly on a number RFC 8785 mode refuses; read back, the appended bytes are the given tree with the keys of every object in order |
| `JsonWriters.Jcs` | tinycloud-auth/src/share_email_evidence.rs:665-669 | accepts exactly trees of safe integers; read back, the bytes are the given tree in key order; they are fixed by the mapping and fix it |
| `Splitting.SplitJoin` | dependencies/siwe/src/lib.rs:196-196 | splitting joined lines gives the lines back |
| `Eip55.DecodeEncode` | dependencies/siwe/src/lib.rs:711-760 | decoding undoes encoding, for any hash |
| `Eip55.EncodeDecode` | dependencies/siwe/src/lib.rs:711-760 | encoding undoes decoding: an address has one accepted text |
| `Eip55.ChecksumCase` | dependencies/siwe/src/lib.rs:730-760 | a character is upper case exactly when it is a letter and the hash of the lower-case text has a digit of at least 8 at its place |
| `Siwe.OriginReads` | dependencies/siwe/src/lib.rs:197-216 | scheme and domain are recovered from the preamble line |
| `Siwe.TailReads` | dependencies/siwe/src/lib.rs:245-268 | the optional fields and the resources are recovered whichever of them are there |
| `Siwe.ParsePrint` | dependencies/siwe/src/lib.rs:108-143 | parsing the printed form of a well-formed message gives the message |
| `Siwe.ParsedIsWellFormed` | dependencies/siwe/src/lib.rs:193-287 | whatever is parsed is well-formed |
| `Siwe.RoundTripIffWellFormed` | dependencies/siwe/src/lib.rs:108-287 | the round trip holds exactly for well-formed messages |
| `Siwe.PrintInjective` | dependencies/siwe/src/lib.rs:108-143 | printing is injective on well-formed messages |
| `Siwe.PrintsAbnf` | dependencies/siwe/src/lib.rs:108-143 | the printed text is the lines of the ABNF of EIP-4361, in order, each with its label |
| `Siwe.Display` | dependencies/siwe/src/lib.rs:108-143 | the formatter writes exactly the printed form |
| `Cacao.MessageRoundTrip` | dependencies/cacao/src/siwe_cacao.rs:122-172 | a message survives the payload |
| `Cacao.PayloadRoundTrip` | dependencies/cacao/src/siwe_cacao.rs:122-172 | a payload survives the message exactly when its issuer is canonical and its resources are not an empty list |
| `Recap.GroupsPartition` | dependencies/siwe-recap/src/capability.rs:180-195 | grouping keeps every ability name, under its namespace and in order, with one group a namespace |
| `Recap.LineHolds` | dependencies/siwe-recap/src/capability.rs:173-197 | a line holds exactly the names its resource grants in its namespace |
| `Recap.GrantOnLine` | dependencies/siwe-recap/src/capability.rs:173-197 | every granted ability is on a line |
| `Recap.LinesDistinct` | dependencies/siwe-recap/src/capability.rs:173-197 | no two lines are for the same resource and namespace |
| `Recap.BuildExtract` | dependencies/siwe-recap/src/capability.rs:250-293 | the capability can be extracted, with its statement, from the message it was written into |
| `Recap.StatementFree` | dependencies/siwe-recap/src/capability.rs:217-231 | the statement is one line and not empty |
| `RecapStatement.StatementReads` | dependencies/siwe-recap/src/capability.rs:199-230 | a reader of the statement gives back the lines it was made from |
| `RecapStatement.StatementSaysGrants` | dependencies/siwe-recap/src/capability.rs:199-230 | read back, the statement names an ability for a resource exactly when the capability grants it |
| `RecapStatement.VerifiedStatementSays` | dependencies/siwe-recap/src/capability.rs:271-284 | a message whose capability passes the check ends with a statement that names exactly what it grants |
| `Recap.CapabilityRoundTrip` | dependencies/siwe-recap/src/capability.rs:250-293 | written into a message, printed, parsed back and extracted with the statement check, a capability is the original |
| `SqlMentions.BodyTablesNamed` | tinycloud-core/src/duckdb/parser.rs:512-552 | the tables a query body names are those the walk collects and those of the parts it passes over |
| `SqlWalk.WalkQuery` | tinycloud-core/src/duckdb/parser.rs:508-552 | the walkers push exactly the tables of the walked parts, in order |
| `SqlMentions.StatementTablesNamed` | tinycloud-core/src/duckdb/parser.rs:469-510 | the tables a statement names at any depth are those collected and those of the parts passed over |
| `SqlMentions.StatementColumnsNamed` | tinycloud-core/src/duckdb/parser.rs:554-589 | the columns and wildcards a statement names at any depth are those reported and those of the parts left out |
| `SqlMentions.PlainSelectReportsAll` | tinycloud-core/src/duckdb/parser.rs:571-589 | a bare SELECT of columns and wildcards from plain tables, without arguments, options or further clauses, has every column reported |
| `SqlValidation.TargetsAreWrites` | tinycloud-core/src/duckdb/parser.rs:591-611 | only statements that change data or schema have a write target |
| `SqlValidation.TargetsAre` | tinycloud-core/src/duckdb/parser.rs:591-643 | which tables the write target of each kind of statement names, and when it is marked as unsupported |
| `SqlValidation.TargetsWalked` | tinycloud-core/src/duckdb/parser.rs:591-643 | every write target is a table the walk collects, except those a DELETE lists |
| `SqlValidation.Classify` | tinycloud-core/src/duckdb/parser.rs:254-293 | appends the statement's tables and columns and updates the read-only and DDL flags |
| `SqlValidation.CheckCaveats` | tinycloud-core/src/duckdb/parser.rs:295-324 | succeeds exactly when the read-only, table and column caveats all hold |
| `SqlValidation.ValidateSql` | tinycloud-core/src/duckdb/parser.rs:25-153 | accepts exactly the described queries on both paths and reports what they refer to |
| `SqlCaveats.AcceptedIff` | tinycloud-core/src/duckdb/parser.rs:25-153 | by ability string and kind of statement: the text parses, only admin and * may call blocked functions, the caveats hold, and unless the text is pre-approved it holds statements, writes only for admin, write and *, settings only for admin and * and only unblocked ones, other kinds only for admin and * |
| `SqlCaveats.TablesReportedIff` | tinycloud-core/src/duckdb/parser.rs:469-552 | the reported tables are exactly the named ones if and only if every table of a skipped part is also named in a walked one |
| `SqlCaveats.ColumnsReportedIff` | tinycloud-core/src/duckdb/parser.rs:554-589 | the same of columns and wildcards |
| `SqlCaveats.CaveatsRespectedIff` | tinycloud-core/src/duckdb/parser.rs:295-324 | on both paths what is reported is allowed, and an accepted query names only allowed tables and columns exactly when its skipped parts do |
| `SqlCaveats.WildcardRefusedIff` | tinycloud-core/src/duckdb/caveats.rs:33-43 | under a column restriction no wildcard is reported, and an accepted query holds none exactly when its skipped parts hold none |
| `SqlCaveats.PlainSelectRespected` | tinycloud-core/src/duckdb/caveats.rs:33-43 | such a SELECT, when accepted, names only allowed columns |
| `SqlCaveats.UnionHidesWildcard` | tinycloud-core/src/duckdb/parser.rs:571-589 | a UNION of two wildcard SELECTs is accepted for every ability although no column is allowed |
| `SqlCaveats.AliasHidesColumn` | tinycloud-core/src/duckdb/parser.rs:574-587 | a column selected under an alias is accepted although no column is allowed |
| `SqlCaveats.InsertHidesSource` | tinycloud-core/src/duckdb/parser.rs:474-476 | an INSERT from the SELECT of another table is accepted under a restriction to its target |
| `SqlCaveats.ArgumentsHideQuery` | tinycloud-core/src/duckdb/parser.rs:538-542 | a query in the arguments of a table is accepted whatever tables and columns it names |
| `SqlCaveats.CopyOutHidesWildcard` | tinycloud-core/src/duckdb/parser.rs:25-153 | a COPY of a wildcard SELECT is accepted although no table and no column is allowed, for every ability when pre-approved and for admin without |
| `SqlCaveats.TargetsAllowedIff` | tinycloud-core/src/duckdb/parser.rs:591-643 | the tables an accepted query is seen to write are allowed exactly when no DELETE in it lists another |
| `SqlCaveats.ListedDeleteEscapes` | tinycloud-core/src/duckdb/parser.rs:620-628 | a DELETE whose table list names a table it may not touch is accepted, with that table as its write target |
| `SqlCaveats.ReadOnlyIff` | tinycloud-core/src/duckdb/parser.rs:254-293 | statements reported as read-only change nothing exactly when no query body, no explained statement and no statement of a kind not told apart does |
| `SqlCaveats.OthersOnlyRead` | tinycloud-core/src/duckdb/parser.rs:25-153 | off the pre-approved path every ability string but admin, write and * yields only queries, explanations and transaction statements, reported as read-only without write targets, which change nothing exactly when no query body and no explained statement does |
| `SqlCaveats.ReadOnlyCaveat` | tinycloud-core/src/duckdb/parser.rs:295-303 | under the read-only caveat, on both paths, an accepted query is reported as read-only without write targets and changes nothing exactly when no query body, no explained statement and no statement of a kind not told apart does |
| `SqlCaveats.ReadsHideChange` | tinycloud-core/src/duckdb/parser.rs:326-331 | an explained INSERT, and one that is a query body, are accepted as reads |
| `SqlCaveats.CopyInIsRead` | tinycloud-core/src/duckdb/parser.rs:254-293 | a COPY into a table is accepted as a read although no table is allowed, for every ability when pre-approved and for admin without |
| `SqlCaveats.ExplainedCopyIsRead` | tinycloud-core/src/duckdb/parser.rs:326-331 | an explained COPY into a table is accepted as a read for every ability |
| `SqlCaveats.SelectIntoIsRead` | tinycloud-core/src/duckdb/parser.rs:512-518 | a SELECT INTO another table is accepted as a read under a restriction to the tables it selects from |
| `ReplayCache.Cache.CheckAndInsert` | tinycloud-node-server/src/invocation_replay.rs:36-51 | prunes, then rejects a key that is left or inserts it with its expiry |
| `ReplayCache.AcceptedAgainIff` | tinycloud-node-server/src/invocation_replay.rs:36-67 | a key is next accepted exactly when some clock since has reached the time it was held until: a minute past its expiration or, for one outside the years -9999 to 9999, a minute from the call |
| `ReplayCache.NoReplayBeforeExpiry` | tinycloud-node-server/src/invocation_replay.rs:26-67 | with clocks that lag by at most 60 seconds no invocation that expires by the end of the year 9999 less a minute is accepted twice before it expires |
| `ReplayCache.PruningIsInvisible` | tinycloud-node-server/src/invocation_replay.rs:36-51 | with a monotone clock the pruned cache answers as a log that forgets nothing |
| `ReplayCache.LargerLagReplays` | tinycloud-node-server/src/invocation_replay.rs:8-8 | with any larger lag an invocation is accepted twice before it expires |
| `ReplayCache.FarExpirationReplays` | tinycloud-node-server/src/invocation_replay.rs:62-67 | an invocation that expires later than that is accepted again a minute after, whatever the clocks |
| `Webhook.Delivery.Dispatch` | tinycloud-node-server/src/webhook_dispatcher.rs:59-197 | one dispatch updates the row as its outcome asks |
| `Webhook.RunKeepsRow` | tinycloud-node-server/src/webhook_dispatcher.rs:59-197 | attempts count dispatches; a retrying row has attempts left and a time set |
| `Webhook.EndsWithinMaximum` | tinycloud-node-server/src/webhook_dispatcher.rs:145-170 | no delivery is dispatched more than max_attempts times, and then it is delivered or dead-lettered |
| `Webhook.TerminalIsFinal` | tinycloud-core/src/db.rs:425-448 | a terminal row is never selected again |
| `Webhook.NeverStuck` | tinycloud-core/src/db.rs:425-448 | a row that is not terminal has attempts left and is due exactly from 30 seconds, 2 minutes, 10 minutes and an hour after its first four failures on, and at once otherwise |
| `Webhook.DispatchesSpaced` | tinycloud-node-server/src/webhook_dispatcher.rs:145-210 | every dispatch but the last failed, and the next came no sooner than that |
| `Webhook.DeadLetterMeans` | tinycloud-node-server/src/webhook_dispatcher.rs:102-170 | a delivery is given up only after a hopeless attempt or when all attempts have failed |

## Left out

- Signatures, hashes and encryption are parameters or absent; only what the rest needs of them is stated.
- HTTP routes, configuration, CLI, tracing, storage backends and foreign database engines are input and output.
- The space database is modelled for one process: the guards are in-process, and several processes on one database are not modelled.
- The `space` table and its missing-space error, the contents of status answers, and webhook rows enqueued by an invocation are not part of the protocol model.
- Sequence numbers and attempts are unbounded integers; 64-bit overflow is not modelled.
- The account's session graph (tinycloud-core/src/db.rs:2115-2173) is not modelled: how its row limit counts joined rows depends on the query library.
- Caveat containment between parent and child is a parameter of `Provenance`; the checks on revocation and on the current time at registration are in the protocol model instead.
- Of the parts of a statement that validation does not look into, the syntax trees keep the columns and tables they name, the queries nested in them and, for statements of a kind not told apart, whether they change anything. Which texts parse into which trees is for the parser, a parameter, to say; so are blocked functions and settings.
- SqlCaveats.WildcardRefusedIff: does not promise that a column restriction refuses every wildcard, because validation does not look at set operations, nested queries and other parts; it gives the exact condition instead.
- SqlCaveats.CaveatsRespectedIff: does not promise that an accepted query names only allowed tables, for the same reason.
- The second write-target extractor (tinycloud-core/src/duckdb/parser.rs:155-252) and `merge`, `with_proofs` of capabilities would only add easy members.
- LIKE is case-sensitive; SQLite's default case folding is not modelled.
- Email normalisation, the issuer trust registry and low-s signatures (tinycloud-auth/src/share_email_evidence.rs) are easier than the parts modelled here.
- Errors are modelled by their presence, not by their kind, except where the kind is part of a statement.
- JsonWriters.Write: bytes are integers from 0 to 255 without a bound in the type, because only their equality and order matter.
- Who may revoke a delegation (tinycloud-core/src/models/revocation.rs:328-364) is not part of the protocol model; that a cited proof is one live grant to the revoker is.
- In the protocol model a DID stands for its principal; `Identity` and `Provenance` compare principals as the node does.
- RecapStatement.StatementReads: speaks of URIs and abilities without spaces, which are the only ones; with spaces in them a statement could be read in two ways.
- Webhook.TerminalIsFinal: due times are numbers, while the node compares RFC 3339 text, which can hold a row back for less than a second.
- RevocationSafety.RevocationIsFinal: speaks of settled calls only; `RevocationRace.LiveIffSettled` shows that neither half of that condition can be left out.
- The URI grammar is a parameter; `ResourceUri.Lawful` says all that is used of it.
- Registry.AbilityMatches: takes any registry, of which the generated tables are one instance.
