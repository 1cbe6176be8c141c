# Verified models of a connection pool, a pool cluster, five algorithms of d3 and a build dependency graph

The repository holds a MySQL driver for Node.js (`mysql-master`), a copy of the d3 library (`www/d3.v2.js`) and the
build tooling of a database (`python/yb`, `build-support`).  This project models the parts of it whose behaviour is
hardest to see from the code, and proves what they keep, preserve and compute.  `dafny verify dfyconfig.toml` checks
all of it.

## What is modelled

**The connection pool** (`Pool*.dfy`).  `PoolModel.dfy` is the pool as a state machine over values: one function per
operation of the pool and of its connections, and the steps that users, sockets and the event loop can take, in any
order.  `PoolClasses.dfy` has the objects with their arrays and fields; every method is proved to take the pool from one
state of the model to the state that the function of the same name gives, through the recursion in which purging a
connection destroys it, destroying removes it, removing purges it again and serves the queue.  The other files prove
what holds in every state of every run: the structure and the limits (`PoolInvariants`), that lost connections are made
up for (`PoolSupply`), that callbacks are conserved (`PoolRuns`), that no listed connection is forgotten and no waiter
stranded (`PoolWaiting`), what shutdown does (`PoolShutdown`, and `EndCallback` for its callback), exactly which steps
keep the order of service (`PoolOrder`, with `PoolLines` and `PoolStarts`), that without failures all do
(`PoolFairness`) and how it breaks (`PoolDisorder`), the exclusive use of connections (`PoolExclusive`), exactly how
connections leave and that they do so for good (`PoolLeaving`), that they are opened only when none is idle and go round
(`PoolCycling`), and that errors are true of the pool's state when they are given (`PoolErrors`).  The environment may
do everything except three things: an operation calls back at most once, it succeeds only on a connection that is up and
not quitting, unless the pool is closed, and users do not call `acquireConnection` themselves, although it is public;
with such a call a connection could be free and being acquired at the same time.

**The cluster** (`Cluster*.dfy`): pattern lookup through a cache, the health of nodes, the selectors, and the retry loop
of a namespace, on clock readings and outcomes that are given as functions.  `ClusterHealth.dfy` has the health of a node
over runs of errors and successes, `ClusterTurns.dfy` whose turn it is in successive requests.  `ClusterChances.dfy`
counts the errors that nodes can take while time passes and nodes come back, and `ClusterInterleaving.dfy` does so for
requests that overlap.

**Delimiter-separated values** (`Dsv*.dfy`): the tokenizer with its position in the text and the two reading loops
compute a parser on values, which inverts the printer exactly on the rows that can be written.  `DsvGrammar.dfy` says
what any text means without reference to the parser: it is a document of cells and separators, in one way, and is read
as the rows of that document.  `DsvLines.dfy` has written rows with any line breaks between them.

**String interpolation** (`Interpolate*.dfy`): the three loops that build the template and the loop that fills it,
against a reference that replaces the numbers of one string in place.  The blend of two numbers at one moment is any
function of them, and one template is proved right for all such functions.  `NumberPattern.dfy` has the grammar of the
numbers that are replaced.

**The quadtree** (`Quadtree*.dfy`): insertion on nodes that are updated in place computes insertion on trees, for any
points in any box, wherever it ends; `QuadtreeEnds.dfy` says where that is, and `QuadtreeNear.dfy` which points are kept
together.

**The keyed data join** (`DataJoin*.dfy`): the three loops of the join.

**The squarified treemap** (`Tiling.dfy`, `Treemap*.dfy`): rows, scores and rectangles over exact numbers, with any
ratio and any rounding function that keeps non-negative numbers non-negative.  Where the code divides by zero the
numbers are those of `Floats.dfy`, with infinities and one that is not a number.  `Squarify` is proved to lay out the
greedy rows, of which there is one choice only, unless an area is infinite; that these tile the rectangle, and that
unrounded areas are proportional to values in the whole tree, is proved of the rows.

**The dependency graph** (`GraphSearch`, `DependencyGraph`, `GraphJson`, `FileCategories`, `TestSelection`): depth-first
closures on graphs that may have cycles, saving and loading, and the choice of tests that a change must run, by the paths
of the changed files.

## Where the code does something else than one might expect

- A connection is `disconnected` before its socket is up as well as after it has ended (`Connection.js:21`), so a
  connection of an open pool that is purged before it is up is removed twice and serves the queue twice.
  `PurgeIsPurged` says exactly when.
- First come, first served holds in every run in which no operation fails, no connection ends, and only connections of
  the pool are given back (`FirstComeFirstServed`), but not in every run.  `OrderKeptExactlyBy` says which steps keep
  the order, each request counted where it was last started or waits.  A failed ping keeps it if its request was the
  last one started and nobody has to go to the back for it (`FailedPingOrder`); a failed connect unless its connection
  is down and a third request waits, because the second service moves a waiter to the back (`FailedConnectOrder`, and
  `OrderBreaks` for a run that gets there).  A connection that ends while it is being acquired keeps the order, but
  makes room for the next request before the waiters (`OvertakenAfterEnd`); if no such connection ends, nobody
  overtakes whatever else fails (`NobodyOvertakes`).  Giving a connection to the pool that another pool has let go can
  break the order as well (`StrayBreaks`).
- A request whose ping fails is started again before all others if its connection is still listed
  (`FailedPingIsRetried`).  If the connection has ended meanwhile it asks again like a new request
  (`FailedPingAsksAgain`): if there is no room it goes behind all waiters, or is told POOL_ENQUEUELIMIT or
  POOL_CONNLIMIT, although it had a connection to work with (`LosesItsPlace` for runs that get there).
- A request to a cluster can be retried for ever if and only if retries are allowed, nodes are restored, and the pattern
  names a node (`EndlessExactlyIf`); `RetriesAreBounded` has the number of retries until a given time.
- A cluster node goes when its error count reaches `removeNodeErrorCount` (`PoolCluster.js:212`); the documentation
  says when it is greater (`Readme.md:597`).
- Printing and parsing rows is not the identity for empty rows, unquoted carriage returns and an empty last field;
  `Dsv.RoundTrip` has the exact condition.
- A row whose text is empty is lost between a return and a line feed, which are read as one line break; with any other
  breaks rows that survive are read back (`ReadsMixedBreaks`).  Behind a closing quote one character is skipped, whatever
  it is; a quote that is not closed takes the rest of the text; and an empty cell at the very end is none (`Good` in
  `DsvGrammar.dfy`).
- With one node online the selector of a namespace is not asked, so the round robin does not move on (`Chosen`).
- The data join can lose a node when node keys repeat (`NodeLost`); `EveryNodeOnce` has the exact condition.
- A treemap node of value zero that has room and a child of positive value makes an infinite area.  No row accepts it,
  and the loop then positions an empty row, on which the code fails; it does so if and only if an area is infinite
  (`Squarify`), and on a whole tree if and only if some node is of that kind in the rectangle that it is given
  (`Layout`).  Values 1 and -1 are an example (`OneAndMinusOneFail`); next to a node of value 1 their parent gets no room
  and does no harm (`NoRoomToFail`).  Such a node needs negative values (`SummedIsBalanced`).  Padding that is lopsided
  by more than the rectangle leaves it (`PadInside`).
- Two points that do not coincide are split until they part, which need not happen outside the quadtree's box.
  `SeparatedExactlyIf` says for every box that they part if and only if they differ on one of its sides: by their nearest
  points where the side has a length, by the half they are sent to where it has none.  Insertion ends exactly if it
  meets no other point, or one that coincides or parts (`InsertionEndsExactlyIf`).  Adding (1, 1) to the quadtree of the
  origin alone does not end (`NeverEnds`).
- `get_recursive_deps` includes the node itself if it is on a cycle, `get_recursive_cmake_deps` never does
  (`ClosuresDifferOnCycles`).
- `YB_RUN_ALL_CPP_TESTS` does not run all C++ tests: the list of affected programs is written and filters them
  (`AllCppTestsAreFiltered`).

## Model

| member | source | states |
|---|---|---|
| PoolModel.PurgeIsPurged | mysql-master/lib/Pool.js:251-278 | the recursion of purge, destroy and removal ends, and amounts to one removal and a quit for a connection that is up, two removals for one that is down, listed and in an open pool, and one removal otherwise |
| PoolModel.DestroyIs | mysql-master/lib/PoolConnection.js:51-65 | destroying ends the connection, and in an open pool removes it once if it still belongs to the pool |
| PoolModel.RemoveKeepsConns | mysql-master/lib/Pool.js:268-278 | removal changes no connection but the removed one, and of that only its pool; in a closed pool it opens none |
| PoolModel.PurgeWhenClosed | mysql-master/lib/Pool.js:180-183 | purging a listed connection of a closed pool takes exactly that one off the list, so the loop of `end` terminates |
| PoolClasses.SpliceConnection | mysql-master/lib/Pool.js:288-294 | takes out the first occurrence of a connection, if there is one |
| PoolClasses.Pool.constructor | mysql-master/lib/Pool.js:10-20 | a new pool is in the initial state of the model |
| PoolClasses.Pool.GetConnection | mysql-master/lib/Pool.js:22-79 | refines the model's step: closed, free connection, new connection, no waiting, or enqueue, in that order |
| PoolClasses.Pool.OnConnect | mysql-master/lib/Pool.js:48-65 | refines the completion of a connect: the callback gets the connection, the error, or POOL_CLOSED |
| PoolClasses.Pool.AcquireConnection | mysql-master/lib/Pool.js:81-121 | throws, and changes nothing, exactly for a connection that is not of this pool; otherwise refines the start of a ping |
| PoolClasses.Pool.OnOperationComplete | mysql-master/lib/Pool.js:91-111 | refines the completion of a ping: handed out, or the request goes back first in the queue and the connection is purged |
| PoolClasses.Pool.ReleaseConnection | mysql-master/lib/Pool.js:123-159 | refines release: nothing while being acquired, an error for a connection of another pool and for one that is free already, otherwise the queue is served, also for a connection that no pool has |
| PoolClasses.Pool.TurnAllAway | mysql-master/lib/Pool.js:146-154 | every waiter of a closed pool is told POOL_CLOSED, in order |
| PoolClasses.Pool.End | mysql-master/lib/Pool.js:161-188 | the loop of `end` terminates with no connection listed, refines the model's shutdown, and its callback awaits one report for every connection that was listed |
| PoolClasses.Pool.EnqueueCallback | mysql-master/lib/Pool.js:220-238 | the request waits, or is told that the queue is full |
| PoolClasses.Pool.PurgeConnection | mysql-master/lib/Pool.js:251-266 | refines the purge, and terminates because the connection's pool is cleared before it is purged again |
| PoolClasses.Pool.RemoveConnection | mysql-master/lib/Pool.js:268-278 | refines removal from both lists and the release that serves the queue |
| PoolClasses.PoolConnection.Release | mysql-master/lib/PoolConnection.js:28-36 | refines a user's release, which a closed pool ignores and so does a connection without a pool; the second release of one that is free is an error |
| PoolClasses.PoolConnection.Destroy | mysql-master/lib/PoolConnection.js:51-54 | refines destruction |
| PoolClasses.PoolConnection.RemoveFromPool | mysql-master/lib/PoolConnection.js:56-65 | refines removal after an end or a fatal error |
| PoolInvariants.PurgeKeepsStructure | mysql-master/lib/Pool.js:251-278 | a purge restores the structure from a state in which the purged connection alone may break it |
| PoolInvariants.NextKeepsStructure | mysql-master/lib/Pool.js:22-294 | every step keeps the structure: a connection is listed exactly if its pool is this one, free ones are listed, unrepeated and not being acquired, and the limit holds |
| PoolSupply.GetRestoresSupply | mysql-master/lib/Pool.js:36-78 | asking for a connection makes up for one that was lost |
| PoolSupply.ServeRestoresSupply | mysql-master/lib/Pool.js:146-158 | serving the queue does so for the first waiter |
| PoolSupply.PurgeRestoresSupply | mysql-master/lib/Pool.js:251-278 | a purge in an open pool leaves the waiters supplied, even though the queue may be served twice |
| PoolSupply.OverIsShort | mysql-master/lib/Pool.js:91-103 | when an operation is over the pool is short of at most the connection it worked with, also if that died meanwhile |
| PoolSupply.EndDrains | mysql-master/lib/Pool.js:161-188 | `end` keeps waiters only while an operation is in progress |
| PoolSupply.NextKeepsQueueing | mysql-master/lib/Pool.js:22-294 | every step keeps the queue within its limit, supplied, and drained after `end` |
| PoolRuns.PurgeHolds | mysql-master/lib/Pool.js:251-278 | a purge moves callbacks and neither loses nor copies one |
| PoolRuns.NextHolds | mysql-master/lib/Pool.js:22-294 | a step adds the callback of a new request, if it is one, and otherwise conserves all callbacks |
| PoolRuns.EveryRunIsSound | mysql-master/lib/Pool.js:22-294 | structure, queueing and conservation of callbacks hold in every state of every run |
| PoolRuns.CallbacksAreConserved | mysql-master/lib/Pool.js:22-159 | in every state of every run each request issued is in exactly one place, once: waiting, bound to an operation, scheduled with an error, or called back |
| PoolRuns.NoLostWakeup | mysql-master/lib/Pool.js:36-78 | while somebody waits in an open pool nothing is free, the limit is positive, and at least as many connections as the limit are listed or being acquired |
| PoolRuns.LimitsHold | mysql-master/lib/Pool.js:42-46 | in every state of every run the lists agree, and both limits and `waitForConnections` are respected |
| PoolWaiting.NextAccounts | mysql-master/lib/Pool.js:22-294 | every step keeps every listed connection free, being acquired, or held by a user |
| PoolWaiting.EveryConnectionIsAccounted | mysql-master/lib/Pool.js:123-159 | so in every run no listed connection is forgotten |
| PoolWaiting.NobodyIsStranded | mysql-master/lib/Pool.js:36-78 | in every run, while somebody waits in an open pool an operation is in progress or a user holds a connection that is listed |
| PoolShutdown.NextOnlyClosed | mysql-master/lib/Pool.js:24-31 | a step of a closed pool settles requests by POOL_CLOSED only |
| PoolShutdown.EndEmptiesThePool | mysql-master/lib/Pool.js:180-183 | a closed pool lists no connection, and no connection belongs to it |
| PoolShutdown.NothingHandedOutAfterEnd | mysql-master/lib/Pool.js:51-60 | no connection is handed out after `end` |
| PoolShutdown.ShutdownDrains | mysql-master/lib/Pool.js:94-103 | once nothing is in progress nobody waits, and whoever was unsettled at `end` or came later was told POOL_CLOSED |
| EndCallback.CalledOnce | mysql-master/lib/Pool.js:170-178 | whatever is reported, the callback of `end` is called once at most, and what it was called with stays |
| EndCallback.CalledExactlyIf | mysql-master/lib/Pool.js:170-187 | it is called if and only if a report was an error or all awaited ones are in, one if none is awaited, and without an error if and only if none of those was one |
| EndCallback.Closing.OnEnd | mysql-master/lib/PoolCluster.js:81-86 | the countdown makes exactly these calls |
| PoolStarts.NextRecords | mysql-master/lib/Pool.js:22-294 | every step keeps the record of starts: only requests that were issued are in it, and every operation in progress was started for its request |
| PoolStarts.ClosedStartsNothing | mysql-master/lib/Pool.js:24-31 | neither `end` nor any step of a closed pool starts a request |
| PoolLines.StartedAgain | mysql-master/lib/Pool.js:94-100 | starting a request again keeps a line in order if and only if nobody who came later was started, except for those who wait again |
| PoolLines.WaitsAgain | mysql-master/lib/Pool.js:94-100 | sending it to the back does if and only if it is also the only one to wait |
| PoolOrder.OrderKeptExactlyBy | mysql-master/lib/Pool.js:22-294 | a step of an open pool in order keeps the order of the requests started and waiting if and only if it is none of these: a new request that finds room while others wait, a release of a connection that the pool does not list while two requests wait and there is no room, and the failed connects and pings that the next rows name |
| PoolOrder.OrderKeptInRuns | mysql-master/lib/Pool.js:22-294 | the same in every state that a run can reach in order |
| PoolOrder.FailedConnectOrder | mysql-master/lib/Pool.js:51-56 | a failed connect keeps the order if and only if there is room, or its connection is listed and up, or listed and at most two requests wait, or at most one waits |
| PoolOrder.FailedPingOrder | mysql-master/lib/Pool.js:94-100 | a failed ping keeps it if and only if its request was started last and nobody who waits goes to the back for it; without room on a connection no longer listed, if and only if it was started last and nobody waits, or it is turned away |
| PoolOrder.FailedPingIsRetried | mysql-master/lib/Pool.js:91-103 | a request whose ping fails on a listed connection is given another one in the same step, before all waiters, who keep their order unless the connection is down and there is no room |
| PoolOrder.FailedPingAsksAgain | mysql-master/lib/Pool.js:91-103 | on a connection no longer listed it is started if there is room, and goes behind all waiters, or is told of a limit, if there is none |
| PoolOrder.KeepingRunsAreInOrder | mysql-master/lib/Pool.js:139-158 | in runs of steps that keep the order requests get connections in the order of their arrival, each counted where it was last started, and before everybody who waits; without failed pings each is started once, also through `end` |
| PoolFairness.FullWhileWaiting | mysql-master/lib/Pool.js:36-46 | while every connection being acquired is listed, a new request cannot overtake a waiting one, because there is no room |
| PoolFairness.NextStaysListed | mysql-master/lib/Pool.js:22-294 | every step that ends no connection being acquired, failures included, keeps all of them listed |
| PoolFairness.NobodyOvertakes | mysql-master/lib/Pool.js:36-46 | in every run in which no connection ends while it is being acquired, failures included, no new request is started while somebody waits |
| PoolFairness.CalmRunsAreInOrder | mysql-master/lib/Pool.js:139-158 | in such a run the order is kept as long as no failed operation or foreign release puts those in line out of order, whatever new requests come |
| PoolFairness.FirstComeFirstServed | mysql-master/lib/Pool.js:22-159 | in every run of requests, releases, `end`, sockets coming up, notices and operations without an error, requests get connections once each in the order of their arrival, before everybody who waits, and none is started while somebody waits |
| PoolDisorder.OvertakenAfterEnd | mysql-master/lib/Pool.js:251-278 | a connection that ends while being acquired keeps the order and leaves room; the next new request then keeps it if and only if nobody waits |
| PoolDisorder.OrderBreaks | mysql-master/lib/Pool.js:251-278 | a run with limit 1, four requests and a failed connect, after which a request waits behind a later one |
| PoolDisorder.StrayBreaks | mysql-master/lib/Pool.js:123-159 | a run with limit 1 and three requests, in order until a connection that no pool has is given back, although nothing fails |
| PoolDisorder.LosesItsPlace | mysql-master/lib/Pool.js:91-103 | runs with limit 1 after which a request that had a connection to work with waits behind a later one, or is told that the queue is full |
| PoolExclusive.ConnectionsAreExclusive | mysql-master/lib/Pool.js:123-159 | if users give back only what they hold, no connection is held twice, nor offered while it is held |
| PoolErrors.PurgeTrue | mysql-master/lib/Pool.js:251-278 | what the first service of a purge reports is still true after the second |
| PoolErrors.NextTrue | mysql-master/lib/Pool.js:22-238 | a step that reports POOL_CONNLIMIT leaves no connection free and the limit used up, one that reports POOL_ENQUEUELIMIT also the queue at its limit, one that reports POOL_CLOSED a closed pool |
| PoolErrors.ErrorsAreTrue | mysql-master/lib/Pool.js:22-238 | in every run each outcome was settled by one of its steps, and was true of the pool in this sense right after that step |
| PoolLeaving.LeavesExactlyBy | mysql-master/lib/PoolConnection.js:20-65 | in every run, a listed connection of an open pool leaves in a step if and only if the pool is ended, the connection ends, has a fatal error or is destroyed, or an operation on it fails; such a step leaves it neither listed nor free |
| PoolLeaving.EndedIsUnlisted | mysql-master/lib/PoolConnection.js:20-65 | in every state of every run a connection that has ended is neither listed nor free |
| PoolLeaving.LeftForGood | mysql-master/lib/Pool.js:268-278 | from the moment a connection is out of the list, in every later state of the run it is neither listed nor free, no operation was started on it, and it was given to nobody |
| PoolLeaving.GivenIsGood | mysql-master/lib/Pool.js:48-66 | whatever connection a step gives to anybody was up, listed, not free and not quitting, and an operation was in progress on it for that request |
| PoolCycling.TakenFromTheTop | mysql-master/lib/Pool.js:36-48 | in every step of every run that leaves the pool open, connections are taken from the top of those that are idle, in order, those given back are at the bottom, and a new one is opened only if no idle one is left |
| PoolCycling.MadeWhenNeeded | mysql-master/Readme.md:437-440 | in every run in which never more than n connections are in use at a time, never more than n are listed, and never more than n are made if none is taken out |
| Cluster.LiteralPattern | mysql-master/lib/PoolCluster.js:270-280 | a pattern without a star matches its own text and nothing else |
| Cluster.StarPattern | mysql-master/lib/PoolCluster.js:270-280 | a star alone matches exactly the ids without a line terminator |
| Cluster.PatternParts | mysql-master/lib/PoolCluster.js:270-280 | a pattern made of two parts matches exactly the ids made of a match of each |
| Cluster.FirstFound | mysql-master/lib/PoolCluster.js:171-203 | the first id found is the first one, in the order of the ids, that the pattern names and whose node is online |
| ClusterHealth.OfflineForTheTimeout | mysql-master/lib/PoolCluster.js:209-220 | a new node after k errors in a row is online if and only if k is below the limit or the timeout after the last error has passed |
| ClusterHealth.ErrorsThenSuccesses | mysql-master/lib/PoolCluster.js:152-169 | after any number of errors one success brings a node back; as many successes as the limit clear its count however far beyond it was; before that exactly as many errors as there were successes take it offline again |
| Cluster.PoolCluster.constructor | mysql-master/lib/PoolCluster.js:16-30 | a new cluster is empty, with 5 errors as the default limit |
| Cluster.PoolCluster.Add | mysql-master/lib/PoolCluster.js:34-59 | adds a healthy node unless the cluster is closed or knows the id, and keeps the caches right |
| Cluster.PoolCluster.FindNodeIds | mysql-master/lib/PoolCluster.js:171-203 | what is found through the cache is what a fresh filter of the current ids gives, and every id found has a node |
| Cluster.PoolCluster.Remove | mysql-master/lib/PoolCluster.js:119-129 | exactly the nodes that the pattern does not name stay, untouched, and the pools of the others are ended |
| Cluster.PoolCluster.RemoveNode | mysql-master/lib/PoolCluster.js:244-250 | takes out one node, ends its pool, and leaves no stale cache |
| Cluster.PoolCluster.DecreaseErrorCount | mysql-master/lib/PoolCluster.js:152-169 | after a success the node is online with its count one lower and below the limit, also if it was removed meanwhile; all nodes stay healthy |
| Cluster.PoolCluster.IncreaseErrorCount | mysql-master/lib/PoolCluster.js:209-224 | after an error the node is counted up, and at the limit goes offline or is removed; an error of a node that is removed already changes no other, and ends its pool again; all nodes stay healthy |
| Cluster.PoolCluster.End | mysql-master/lib/PoolCluster.js:61-99 | ends every pool once, its callback awaiting one report of each; the second time it ends nothing and just calls back |
| ClusterSelectors.TakesTurns | mysql-master/lib/PoolSelector.js:7-19 | of successive round-robin choices among the same n > 1 nodes, number k is k places on from the first, modulo n |
| ClusterSelectors.EachHasItsTurn | mysql-master/lib/PoolSelector.js:7-19 | any n successive choices among n nodes are the list of them, rotated: each has its turn once |
| ClusterRetry.PoolNamespace.Select | mysql-master/lib/PoolSelector.js:7-31 | the three selectors choose an id of the list: in turn, starting over past the end, the first, or any; only the first of them moves its index |
| ClusterRetry.PoolNamespace.GetClusterNode | mysql-master/lib/PoolNamespace.js:117-136 | gives none exactly if no node of the pattern is online; otherwise the selector's choice among those online, and with one online that one, without moving the index |
| ClusterTurns.Requests | mysql-master/lib/PoolNamespace.js:20-56 | successive requests that succeed, while the same nodes of the pattern are online: with a round robin and n > 1 nodes request number k is served by the node k places on, and any n requests reach each node once; the ordered selector always gives the first node online; with one node online the index does not move |
| ClusterChances.ErrorCostsOne | mysql-master/lib/PoolCluster.js:209-224 | an error of an online node uses up one of the errors that the nodes of the pattern can take until a given time, counting those that come back; exactly one if none comes back |
| ClusterChances.RetriesAreBounded | mysql-master/lib/PoolNamespace.js:39-47 | a request is retried less often than that, for every clock, every outcome and every choice of nodes |
| ClusterInterleaving.OverlappingRequestsAreBounded | mysql-master/lib/PoolCluster.js:209-243 | however many requests overlap, between two successes the nodes of a pattern take no more errors while they are online than they can take until a given time; errors that come late, for nodes offline or removed by then, win no chances back |
| ClusterChances.BackInTime | mysql-master/lib/PoolNamespace.js:40-46 | by a clock that advances one restore timeout between readings every failed attempt is retried, whichever node it was made on |
| ClusterChances.EndlessExactlyIf | mysql-master/lib/PoolNamespace.js:20-56 | a request can be retried for ever if and only if retries are allowed, nodes are restored, and the pattern names a node |
| ClusterRetry.PoolNamespace.TryOnce | mysql-master/lib/PoolNamespace.js:20-56 | one attempt: on the node that the selector chooses among those of the pattern that are online then, whose count goes down or up, and retried exactly if allowed and a node is online after it |
| ClusterRetry.EndsWithinChances | mysql-master/lib/PoolNamespace.js:39-47 | a request ends if an attempt succeeds, if retries are not allowed, or by any time that the clock does not pass, after no more retries than its nodes can take errors until then |
| ClusterRetry.PoolNamespace.GetConnection | mysql-master/lib/PoolNamespace.js:20-56 | a request that ends gets one answer, after at most as many attempts as its nodes can take errors until a time that the clock does not pass, one if retries are not allowed; a pool's error is passed on, where they are, only when no node is online, and then all attempts are used up if none came back; the two codes for no node are given exactly when there is none; every attempt is on the selector's choice among the nodes that the errors before it left online, and a connection is of the last one |
| Dsv.UnescapeEscape | www/d3.v2.js:5195 | undoubling quotes undoes doubling them |
| Dsv.CloseQuoteEscaped | www/d3.v2.js:5180-5186 | the scan of a written quoted field stops at its closing quote |
| Dsv.LexField | www/d3.v2.js:5172-5204 | a written field is read back, with what follows it |
| Dsv.LexCutsField | www/d3.v2.js:5197-5201 | an unquoted carriage return cuts its field short |
| Dsv.RowRoundTrip | www/d3.v2.js:5205-5210 | a written row is read back exactly if its fields survive and it does not end the text with an empty field |
| Dsv.NoEmptyRows | www/d3.v2.js:5205-5214 | no text is read as rows with an empty row among them |
| Dsv.RoundTrip | www/d3.v2.js:5169-5224 | parsing what was printed gives the rows back if and only if no row is empty, no unquoted field has a carriage return, and the last field of the last row is not empty |
| DsvGrammar.ReadsDocument | www/d3.v2.js:5169-5215 | a text that is a document of cells, delimiters and line breaks of all three kinds, plain, quoted or with an unclosed quote, is read as the rows between its line breaks |
| DsvGrammar.EveryText | www/d3.v2.js:5172-5204 | every text, well written or not, is such a document |
| DsvGrammar.OneDocument | www/d3.v2.js:5172-5204 | in one way only |
| DsvLines.ReadsMixedBreaks | www/d3.v2.js:5197-5214 | rows that survive, written with any mix of line feeds, returns and both between them, are read back if and only if no row with an empty text stands between a return and a line feed; otherwise exactly those rows are lost |
| DsvLines.WriterUsesLineFeeds | www/d3.v2.js:5216-5224 | the printer is the case of line feeds only |
| DsvReader.Tokenizer.Token | www/d3.v2.js:5172-5204 | one call of the tokenizer reads what the model reads, and leaves its position and flag accordingly |
| DsvReader.Tokenizer.FindClose | www/d3.v2.js:5180-5186 | the scan for the closing quote |
| DsvReader.ReadRow | www/d3.v2.js:5206-5210 | the inner loop reads one row |
| DsvReader.ParseRows | www/d3.v2.js:5169-5215 | the two loops end, for every text, and compute the parser on values, which gives the rows of the document that the text is |
| NumberPattern.LongestNumber | www/d3.v2.js:993 | the pattern matches at a place if and only if a number begins there, by a grammar of signs, digits, points and exponents; the match is a number, and the longest one from there |
| NumberPattern.NumberByItself | www/d3.v2.js:993 | whether a part of a text is a number depends on that part alone |
| NumberPattern.LeftmostNumber | www/d3.v2.js:819-828 | a search finds the leftmost place where a number begins, or there is none |
| NumberPattern.NumbersOfText | www/d3.v2.js:819-828 | the matches in a text are longest numbers that follow one another, and no number begins outside of them |
| NumberPattern.TokensOfNumber | www/d3.v2.js:819-828 | a number is its own only match |
| NumberPattern.StartsAtA | www/d3.v2.js:816-877 | where the texts around the numbers are the same and every blend gives the number of `a` the result is `a` |
| InterpolateString.OwnTokens | www/d3.v2.js:819-828 | the text filled with its own numbers is the text |
| InterpolateString.EndsAtB | www/d3.v2.js:816-877 | where every blend gives the number of `b` the result is `b` |
| InterpolateString.SpliceFits | www/d3.v2.js:832-850 | replacing a hole and the texts next to it by one text, and moving the later slots, leaves every slot pointing at its own hole |
| InterpolateString.SpliceRender | www/d3.v2.js:832-850 | and leaves the text of the template unchanged |
| InterpolateString.CutNumbers | www/d3.v2.js:819-828 | the first loop: every number of `b` has a slot that points at its hole, and the template stands for `b` |
| InterpolateString.MergeSlot | www/d3.v2.js:832-851 | a slot whose number did not change is spliced into the text around it, in all four cases |
| InterpolateString.FillSlot | www/d3.v2.js:858-867 | a slot is filled with its own number, together with the text after it |
| InterpolateString.CompareNumbers | www/d3.v2.js:829-857 | the second loop: numbers are compared in order, and the slots left are those of the numbers that differ |
| InterpolateString.FillRest | www/d3.v2.js:858-867 | the third loop: numbers without a counterpart stay as they are |
| InterpolateString.BuildTemplate | www/d3.v2.js:816-867 | after all splices the slots point at their holes, and the template stands for `b` with its differing numbers blended |
| InterpolateString.Interpolate | www/d3.v2.js:868-876 | the constant, the single number or the one template that is returned yields that text, for all strings and for every way of blending, so at every moment |
| InterpolateEvaluate.TemplateFunction.Call | www/d3.v2.js:873-876 | every call, the first or a later one, writes the values into the slots by index and gives the text of the template, whatever earlier calls left in its array |
| Quadtree.InsertAdds | www/d3.v2.js:6367-6393 | insertion, of any point in any box, keeps every point in the quarter of its coordinates, and adds exactly the new point |
| Quadtree.StoredIsFound | www/d3.v2.js:6386-6393 | the path that a point's coordinates give meets it exactly if it is stored |
| QuadtreeEnds.SeparatedExactlyIf | www/d3.v2.js:6371-6393 | two points, in the box or not, are sent to different quarters at some depth if and only if they differ on a side: by their nearest points in it if it has a length, by their halves if it has none or is given the wrong way round |
| QuadtreeEnds.InsertionEndsExactlyIf | www/d3.v2.js:6367-6393 | the recursion ends within some depth if and only if the point meets no other, or one that coincides with it or parts from it; it then computes the insertion |
| QuadtreeEnds.NeverEnds | www/d3.v2.js:6353-6395 | adding (1, 1) to the quadtree of the origin does not end within any depth |
| QuadtreeEnds.InBoxCompatible | www/d3.v2.js:6386-6393 | any two points of a box coincide or part |
| QuadtreeEnds.CompatibleAllEnd | www/d3.v2.js:6394-6402 | points of which any two coincide or part can be inserted one after the other |
| QuadtreeEnds.InsertInBoxes | www/d3.v2.js:6367-6393 | points inserted in the box stay in the boxes of their nodes |
| QuadtreeNear.KeepsExactlyNear | www/d3.v2.js:6367-6382 | a leaf that gets a second point keeps its own if and only if their distances in x and in y add up to less than 0.01 |
| QuadtreeNear.InsertCrowded | www/d3.v2.js:6367-6393 | insertion keeps it so that a node above the leaves holds a point only if a point so near is below it |
| QuadtreeNodes.QuadNode.Insert | www/d3.v2.js:6367-6385 | insertion in place computes insertion on trees wherever the recursion ends |
| QuadtreeNodes.QuadNode.Put | www/d3.v2.js:6386-6393 | insertion into a child, made if needed, computes the same on trees wherever it ends |
| QuadtreeNodes.Bounds | www/d3.v2.js:6353-6365 | the box is a square around all points whose near sides touch points, and so does one of its far sides |
| QuadtreeNodes.BuildIn | www/d3.v2.js:6394-6402 | building, wherever its insertions end, stores each point once, above the leaves only over a near one, and looking up by coordinates finds exactly the given points |
| QuadtreeNodes.Build | www/d3.v2.js:6346-6403 | without bounds building ends for all points, none included, stores each of them once in the box of its node, above the leaves only over a near one, and looking up finds exactly these |
| DataJoin.EveryNodeOnce | www/d3.v2.js:1637-1664 | every node is at exactly one place of update and exit if and only if each node with a repeated key loses its spare place exactly when it has one of its own |
| DataJoin.DistinctKeys | www/d3.v2.js:1637-1664 | with distinct node keys every node is at exactly one place, whatever the keys of the data |
| DataJoin.NodeLost | www/d3.v2.js:1641-1662 | a join that loses a node |
| DataJoinBind.IndexNodes | www/d3.v2.js:1638-1647 | the first loop: the first node of each key, and the others behind the data in order |
| DataJoinBind.MatchData | www/d3.v2.js:1648-1659 | the second loop: every datum takes the first node with its key, or enters |
| DataJoinBind.ExitNodes | www/d3.v2.js:1660-1664 | the third loop: nodes whose key no datum has exit at their own index |
| DataJoinBind.Bind | www/d3.v2.js:1635-1664 | every datum updates or enters, never both; an updated node had the key of its new datum and has that datum now; the others keep theirs; the exit places are exactly those of the model |
| Tiling.RefineAt | www/d3.v2.js:5046-5075 | tiling a tile in turn gives a tiling |
| Treemap.RowTiles | www/d3.v2.js:5050-5061 | the children of a row tile it, whatever the rounding |
| Treemap.StripTiles | www/d3.v2.js:5046-5075 | a row and what it leaves tile the rectangle, both across and down |
| TreemapStages.ExtremesDecide | www/d3.v2.js:5035-5045 | the largest and the smallest area decide the worst aspect ratio of a row |
| TreemapStages.ScoreIsWorst | www/d3.v2.js:5035-5045 | for a positive ratio the score is the largest stretch of any child with an area, and infinite exactly for a row without area or along no side |
| TreemapStages.AlongShorterSide | www/d3.v2.js:4991-5075 | the children of a row lie side by side along the shorter side of what is left, from one end of it to the other, all of one thickness |
| TreemapRows.SquarifiedTiles | www/d3.v2.js:4991-5017 | the rectangles of a squarified layout lie in the rectangle, do not overlap and leave no point out |
| TreemapRows.SquarifiedIsSized | www/d3.v2.js:4991-5075 | where nothing is rounded every child of a squarified layout gets exactly its area |
| TreemapLayout.Position | www/d3.v2.js:5046-5075 | a row is placed as the model says, other children are left alone, and the rectangle shrinks by the row |
| TreemapLayout.Worst | www/d3.v2.js:5035-5045 | the score of a row by its largest and smallest area, for any ratio; not a number if an area is infinite |
| TreemapLayout.Squarify | www/d3.v2.js:4991-5014 | the loop ends, positions an empty row if and only if an area is infinite, and otherwise lays out the greedy rows: each goes on while its score does not get worse, and is closed when the next child would make it worse |
| TreemapUnique.SquarifiedUnique | www/d3.v2.js:4991-5014 | there is only one layout of greedy rows |
| TreemapTree.PadInside | www/d3.v2.js:5132-5148 | padding, negative or not, stays in the rectangle if and only if on each side it is not negative where it fits, and where it does not is not lopsided by more than the size of the side |
| TreemapTree.Scale | www/d3.v2.js:4984-4990 | the children's areas, one of which is infinite if and only if the node has value zero, room, and a child of positive value |
| TreemapTree.Layout | www/d3.v2.js:4991-5017 | a whole tree: every node's children are squarified in its padded rectangle; fails if and only if some node of value zero has room in the rectangle it is given and a child of positive value |
| TreemapTree.BalancedNeverFails | www/d3.v2.js:4984-4990 | no layout fails where no node of value zero has a child of positive value |
| TreemapTree.OneAndMinusOneFail | www/d3.v2.js:4984-5017 | a node of value 0 with children 1 and -1 fails in every rectangle with room |
| TreemapTree.NoRoomToFail | www/d3.v2.js:4984-5017 | next to a node of value 1 it does not fail where nothing is rounded |
| TreemapTree.LeavesTile | www/d3.v2.js:4991-5017 | without padding the leaves of the whole tree tile the root's rectangle |
| TreemapTree.SummedIsBalanced | www/d3.v2.js:4523-4543 | values summed from non-negative leaves never make a layout fail |
| TreemapTree.SharesAddUp | www/d3.v2.js:4984-4990 | every child gets its share of the room, and the shares add up to it |
| TreemapTree.AreasAreProportional | www/d3.v2.js:4984-5087 | where nothing is rounded or padded, all nodes of the tree have areas in the same proportion to their values |
| TreemapLayout.InfiniteRating | www/d3.v2.js:5035-5045 | the score of a row with an infinite area is not a number, so no row with one is accepted, not even the first |
| GraphSearch.AffectedSearch.Dfs | python/yb/dependency_graph.py:913-935 | a search adds nodes that are reached, finishes them all, and collects the wanted ones |
| GraphSearch.FindAffected | python/yb/dependency_graph.py:913-935 | the search ends on any graph with exactly the wanted nodes outside the start set that are reached from it |
| GraphSearch.RecursiveDeps | python/yb/dependency_graph.py:327-342 | exactly the nodes reached in one step or more |
| GraphSearch.RecursiveTargets | python/yb/dependency_graph.py:482-496 | exactly the targets reached, without the target itself |
| GraphSearch.ClosuresDifferOnCycles | python/yb/dependency_graph.py:327-342 | the two closures differ by the start node only, and only if it is on a cycle |
| DependencyGraph.Dependencies.FindOrCreateNode | python/yb/dependency_graph.py:871-885 | one node per canonical path, without dependencies when it is new |
| DependencyGraph.Dependencies.AddDependency | python/yb/dependency_graph.py:202-205 | dependencies and reverse dependencies stay each other's converse |
| DependencyGraph.Dependencies.FindAffectedNodes | python/yb/dependency_graph.py:913-935 | exactly the nodes of the wanted type that depend, directly or not, on a start node and are none |
| DependencyGraph.Converse | python/yb/dependency_graph.py:202-205 | a path in one direction is a path back in the other |
| GraphJson.IdTable.GetNodeId | python/yb/dependency_graph.py:947-976 | ids are positive, never given twice, and never change |
| GraphJson.SaveAsJson | python/yb/dependency_graph.py:947-976 | every node is written once, with an id of its own and the ids of its dependencies |
| GraphJson.LoadNodes | python/yb/dependency_graph.py:887-893 | the first loop makes all nodes |
| GraphJson.InitFromJson | python/yb/dependency_graph.py:887-897 | loading succeeds if and only if every dependency has a known id of another node, and makes exactly the dependencies described |
| GraphJson.RoundTrip | python/yb/dependency_graph.py:887-976 | loading what was saved succeeds, and gives the same nodes with the same dependencies in both directions |
| FileCategories.Categories | python/yb/dependency_graph.py:1255-1293 | the category of a file by its path alone: quiet directories, build files wherever they are, PostgreSQL's tree, the trees of the languages, and the rest |
| FileCategories.SafePaths | python/yb/dependency_graph.py:110-111 | a file makes all tests run if and only if it is not quiet, and is a CMake file, or under src/postgres, or under none of the trees of C++, Python and Java |
| TestSelection.WhatRuns | build-support/run_tests_on_spark.py:825-834 | a program runs if and only if all tests are selected, or C++ tests are asked for and a test node of its name was found |
| TestSelection.WhenCppRuns | python/yb/dependency_graph.py:1478-1533 | C++ tests are asked for if and only if all tests are selected, or a C++ file changed or they were demanded and a test node was found |
| TestSelection.WhenJavaRuns | python/yb/dependency_graph.py:1478-1491 | Java tests are asked for if and only if all tests are selected, a Java file changed, an affected node is named yb-master or yb-tserver, or they were demanded |
| TestSelection.DecidesByPaths | python/yb/dependency_graph.py:1470-1533 | all tests are selected, the C++ programs unfiltered, every program kept and the Java tests run, if some changed file makes all tests run, and by changes only if one does |
| TestSelection.AllCppTestsAreFiltered | python/yb/dependency_graph.py:1478-1533 | asking for all C++ tests runs none where no node was found |
| TestSelection.InitialNodes | python/yb/dependency_graph.py:1406-1419 | the start nodes are exactly the nodes of changed files |
| TestSelection.SelectTests | python/yb/dependency_graph.py:1437-1533 | the configuration is decided, as above, by the paths of the changed files and exactly the affected nodes |
| TestSelection.SelectionIsSound | python/yb/dependency_graph.py:1437-1533 | an unchanged test that depends, directly or not, on a changed C++ file is kept by the runner's filter |

## Left out

- Pool: `query`, `escape`, listeners that call back into the pool while it emits an event, users' own calls of `acquireConnection`, fractional and negative limits, and the difference between `ping` and `changeUser`, which complete alike.
- Liveness of the network: that operations complete at all is not assumed; what holds once they have is.
- ClusterRetry.PoolNamespace.GetConnection: one request at a time on a clock that does not go back, and only requests that end; EndsWithinChances says which do, and EndlessExactlyIf where one need not.  Of requests that overlap only the errors are counted, in OverlappingRequestsAreBounded.
- Cluster: patterns that are regular expressions, the cache of namespaces in `of`, generated node ids, `query`, events, and adding an id again while a request on its old node is pending; removed nodes are kept by their id, so the old node would not be told from the new one.
- Dsv: delimiters that mean something in a character class, the row function of `parseRows`, and `parse` with its header.
- InterpolateString: the arithmetic of blending two numbers and its text.
- Quadtree: points that are not numbers, points given as arrays, the infinite box of a call without points, and `visit`; coordinates are exact reals, so that halving a box never rounds.
- QuadtreeNodes.QuadNode.Insert: where the recursion does not end there is no result to state; InsertionEndsExactlyIf says where that is.
- DataJoin: the join without keys, and places of a selection that hold no node; the second loop's null entries at exit places below the number of data make no difference and are not represented.
- Treemap: sticky layouts and the flag they remember, sorting of children, floating-point rounding, and ratios that are not finite; finite numbers are exact reals, and rectangles whose sides are not numbers, which come up only before the code fails, are not represented.
- TreemapTree.AreasAreProportional: for unrounded layouts; with the default rounding of coordinates only the tiling is exact.
- TestSelection: node types other than any and test, the later filtering by regular expression, the choice of Java tests by the runner, and logging, including a percentage that divides by the number of test nodes.
- DependencyGraph: parsing of build files, the text of the JSON file, and the check for circular dependencies, which stops at the first dependency it has seen before and can miss cycles.
