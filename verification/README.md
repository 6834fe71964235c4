# OpenDiamond: a verified model

OpenDiamond is a platform for interactive search. Its server runs a stack of filters over every
object in a search's scope and tries hard not to do so: a result cache lets a recorded drop stand,
an attribute cache replays a filter without running it, identical filters are removed. Around that
core several parties share state without locks (a blob cache, session variables, worker processes,
a client with many connections), and several wire formats connect them.

This project models that behaviour in Dafny and proves what it is for: the caches do not change what
a search decides, the protocols lose and duplicate nothing in any interleaving, and every format looks as
its standard or its code says and is read back as it was written. `dafny verify dfyconfig.toml` checks the whole project.

| file | component |
|---|---|
| `Objects`, `Filters`, `PlainLoop` | objects; filters as deterministic interactive programs; the filter loop without caches, which is the meaning the caches must keep |
| `Verdicts` | what that loop decides, said without the loop |
| `ResultCache`, `Evaluation` | the cached drop, the attribute cache, whole histories of evaluations |
| `CertainDrops`, `UncertainDrops`, `Limits`, `Programs` | exactly when a cached drop is certain; why the assumptions are needed; filters put together for that purpose |
| `EndMarker` | exactly when an accepted object can be mistaken for the end of the search |
| `FilterStacks`, `Optimize` | dependency order and de-duplication |
| `BlobCache`, `BlobPrune`, `BlobRaces` | the blob cache with its pruner, accessors and adders; the prune call by call; exactly when reading can fail |
| `SessionVars`, `SessionProtocol` | session variables on one server; N servers and a client |
| `WorkerQueue`, `BlastSet`, `RpcClient` | workers and the end of a search; the client's blast set; calls and replies |
| `Xdr`, `XdrWire`, `Protocol` | the XDR codec, the wire format of the standard that it meets, the concrete schemas |
| `Rpc`, `RpcWire`, `RpcCodes` | the message stream and its dispatcher; the bytes of each reply |
| `Texts`, `Base64`, `Scope`, `ScopeFormat` | scope cookies; their text, and what is read from any text |
| `FilterPipe` | the pipe between the server and a filter |
| `Pyramid` | tile pyramid arithmetic |
| `Wrappers`, `Sequences` | shared types and functions |

Where the source updates an object in place the model is a class whose methods are proved against a
function of the old state; the properties are then lemmas about that function. Concurrent
components are state machines whose steps are the source's atomic steps, and the properties hold
for every sequence of steps.

## Assumptions

* MurmurHash and SHA-256 do not collide: a digest is a free constructor over what it hashes. A
  filter's cache digest identifies its behaviour, as `filter.py:1194` itself assumes.
* A filter is deterministic: what it does next depends on the answers it got so far. The caches
  are further proved under `Disciplined` (a filter does not read an attribute after writing it, nor
  omit one it has neither read nor written); the cached drop also needs one writer per attribute key and
  every writer ordered before its readers. `Limits` shows that a cached drop can be wrong without
  the order, and a replay without the discipline. A cached result is truthful if it is the record of a
  finished run of the same filter, on whatever attributes the object had at that time.
* The data retriever answers the same each time it is asked for an object. A loaded object always has a data
  attribute and a display name (`object_.py:267-281`); any other attribute may come with it.
* UTF-8 decodes what it encoded; serial numbers and dates are read back from their own texts.

## What the code does that its documentation does not say

* The resolution of a cached drop never looks at the order of the runners. A search that runs a writer
  before its reader leaves a cache with which a second search, with the two the other way round, drops
  an object that its own filters accept (`Limits.CachedDropNeedsWritersFirst`). A rejected cached score
  with a derivation in which every producer stands before its reader is always right
  (`ResultCache.ForwardDropSound`). Exactly: on a given server, the drop is right whatever the retriever
  answers and the filters compute in agreement with what is cached, if and only if some *sure* result is
  rejected or some filter accepts no score at all (`UncertainDrops.DropCertainExactly`). A result is
  sure if every value it read was left by a sure runner before it, as an output or as its score, or is the
  only score text with which an earlier filter can be passed; and every attribute it found missing has a
  later writer or comes after sure runners only, none of which writes it. That is a condition on the cache
  and the stack alone. It takes for granted that a filter which accepts scores with different texts accepts
  one that no cached result has read, as it does if it accepts more texts than there are cached results
  (`UncertainDrops.ManyTextsVary`). If every filter declares the writers of what it reads as dependencies,
  the order found at construction is a safe one (`Optimize.DeclaredReadsAreOrdered`).
* A worker that dies with an object in hand keeps the end of the search from being announced. In every
  reachable state the end can still come if and only if no object is lost like that and some worker lives, or
  nothing is left to evaluate (`WorkerQueue.EndPossibleExactly`).
* Score thresholds are not part of the cache digest, so removing a "duplicate" filter keeps every
  decision exactly when the survivor's score interval lies within that of the removed filter
  (`Optimize.OptimizeSafeExactly`).
* The second `open()` of a blob "should succeed" (`blobcache.py:52-53`). If the readings already under way
  are in order (each has a copy as young as its access, no addition of the blob is in progress, and a prune
  under way does not treat an access as expired: `Settled`), it does for every reader and every future in
  which nobody adds the blob and no new prune treats an access as expired, if and only if no thread is between
  a failed touch or open and its rescue while both `<sig>` and `<sig>-` exist
  (`BlobRaces.ReadsSafeExactly`). From an empty cache, a prune, a repeated addition and a rescue get there,
  and a later reader fails (`BlobRaces.ReadCanFail`).
* The protocol document asks that a session variable be set to the value sent plus what it gained
  since the last get. In every run, the code does so exactly when nothing was in its `between` part at that
  get (`SessionProtocol.SetMeetsDocumentExactly`); `SessionProtocol.SetDisagrees` is a run from the start
  in which it does not, and reads the sum of all updates where the document's rule would lose it. One
  round without updates does not always bring the servers into agreement
  (`SessionProtocol.OneRoundIsNotEnough`, also from the start); two do, and one does if no update ever falls
  into a round (`SessionProtocol.OneRoundIsEnoughAtRest`).
* An accepted object is sent without attributes, and so taken for the end of the search, if its filters
  have omitted all of them. That cannot happen to a stack under the caches' own assumption of one writer
  for each attribute (`EndMarker.OneWriterIsEnough`): the last filter's score is stored when nothing can
  omit it any more. It is excluded, whatever the filters compute, if and only if there is no filter
  or nobody else may write the last filter's score attribute (`EndMarker.EndMarkerSafeExactly`).
* `ScopeCookie.parse` lets a `ValueError` through instead of reporting a `ScopeError` exactly in four
  cases (`Scope.ValueErrorExactly`, with a cookie for each in `Scope.FourEscapes`): incomplete base64,
  bytes that are not UTF-8, a signature that is not hexadecimal, and a header line without a colon that
  is the first one at fault. The handlers catch `TypeError`. The `Version` header may be missing.
* The examples in the docstring of `path_to_tile` lack the ".jpg" that the function appends. A
  `max_depth` of 0 means no limit.

## Model

| member | source | states |
|---|---|---|
| Objects.DiamondObject.SetItem | opendiamond/server/object_.py:133-148 | an assignment changes one attribute and its signature; signatures stay those of the values |
| Objects.DiamondObject.Omit | opendiamond/server/object_.py:82-87 | an omission is recorded exactly when the attribute exists |
| Objects.DiamondObject.XdrAttributes | opendiamond/server/object_.py:89-117 | which names are sent, and which of them with their value, for accepted and for dropped objects |
| EndMarker.LastScoreIsSent | opendiamond/server/filter.py:1026-1032 | if nobody else writes it, the last filter's score attribute is sent with every accepted object |
| EndMarker.OneWriterIsEnough | opendiamond/server/search.py:338-346 | under one writer for each attribute no accepted object is sent without attributes |
| EndMarker.UnreservedIsMistaken | opendiamond/server/object_.py:94-121 | if someone may write that attribute, a stack and object exist, accepted and sent as the end marker |
| EndMarker.EndMarkerSafeExactly | opendiamond/server/search.py:338-346 | accepted objects are never mistaken for the end marker, whatever the retriever adds and the filters compute, if and only if the attribute is reserved or there is no filter |
| Filters.ServeFilter | opendiamond/server/filter.py:446-590 | the command loop leaves the object, the record and the ending that the filter's program determines |
| Filters.ExecEffect | opendiamond/server/filter.py:468-495 | a finished run changed the object in what it recorded as output or omission, and in nothing else |
| Filters.ExecInputs | opendiamond/server/filter.py:468-480 | the inputs recorded are what the object showed when the run began, absence included |
| Filters.ExecReplays | opendiamond/server/filter.py:942-962 | from any object that shows the recorded inputs, the filter ends with the same record |
| PlainLoop.PlainVsReached | opendiamond/server/filter.py:1012-1037 | the uncached loop: its outcome continues from the state in which any stage is reached, and an object that does not reach a stage is not accepted |
| PlainLoop.ReachedFrame | opendiamond/server/filter.py:1012-1032 | an attribute shows at a later stage what its last writer left |
| Verdicts.ReachedByPassage | opendiamond/server/filter.py:1012-1032 | the loop gives each filter the object as the filters before it left it, each one's score stored under its name |
| Verdicts.VerdictExactly | opendiamond/server/filter.py:1012-1037 | accepted exactly if every filter reports a score in its interval; dropped exactly if unloadable or a filter that gets the object dies or reports a score outside; failed exactly if one that gets it breaks the protocol or its initialization |
| Verdicts.LastCommandDecides | opendiamond/server/filter.py:565-597 | on a single filter: the end of the pipe drops, an unknown command fails, a score is compared with both ends of the interval, which belong to it |
| Verdicts.AnswersAreTrue | opendiamond/server/filter.py:468-480 | a filter that asks for an attribute is answered with the object's value, or with a blank if there is none |
| Verdicts.EffectsAreTold | opendiamond/server/filter.py:481-495 | it is answered with what it has just set, and told whether there was something to omit |
| ResultCache.Resolver.Resolve | opendiamond/server/filter.py:861-926 | on every cache, cyclic ones included, resolution terminates, answers only with self-supporting sets, and finds every runner that has a derivation avoiding those in process |
| ResultCache.Resolver.ResolveInput | opendiamond/server/filter.py:895-920 | the search for a producer of one input value succeeds only with, and whenever there is, an unblocked one |
| ResultCache.ResolveTop | opendiamond/server/filter.py:858-926 | a top-level resolution yields a set exactly when the runner is in the least fixed point, whatever the memo table holds; the set contains it and is closed under support |
| ResultCache.UnblockedStep | opendiamond/server/filter.py:872-920 | a runner with a shortest derivation has, for each input, a producer with a shorter one: why failures need not be memoised and cycles do no harm |
| ResultCache.CanDrop | opendiamond/server/filter.py:838-940 | drop is answered exactly when some usable cached result misses its threshold, and the runners notified support each other |
| ResultCache.ForwardReproduces | opendiamond/server/filter.py:848-857 | when the uncached loop reaches a runner whose inputs have producers before it, that runner reproduces its cached result |
| ResultCache.ForwardDropSound | opendiamond/server/filter.py:928-938 | a rejected cached score with such a derivation means a drop, without any assumption on the order of writers and readers |
| ResultCache.UsableIsForward | opendiamond/server/filter.py:861-926 | with writers before readers, every derivation the code finds is of that kind |
| ResultCache.CachedDropSound | opendiamond/server/filter.py:838-940 | if the cache says drop, the uncached loop does not accept the object |
| CertainDrops.SureReproduces | opendiamond/server/filter.py:883-894 | sure results come again, scores read and attributes found missing included, for all filters that agree with the cache |
| CertainDrops.SureDropSound | opendiamond/server/filter.py:928-938 | a sure result with a rejected score means a drop |
| UncertainDrops.ManyTextsVary | opendiamond/server/filter.py:1026-1032 | a filter that accepts more score texts than there are cached results accepts one that none of them has read |
| UncertainDrops.UnsureIsAccepted | opendiamond/server/filter.py:838-940 | if no sure result is rejected, then on the same server, with its score texts, a retriever and filters exist that meet all assumptions, agree with the whole cache and accept the object |
| UncertainDrops.DropCertainExactly | opendiamond/server/filter.py:838-940 | on a given server, a drop is right for every retriever and all filters that agree with the cache if and only if some sure result is rejected or some filter accepts no score |
| Evaluation.LoadIsRun | opendiamond/server/filter.py:963-987 | loading a truthful record is running the runner: same record, same attributes, same omissions |
| Evaluation.FilterStackRunner.TryLoad | opendiamond/server/filter.py:942-987 | it succeeds exactly when the object shows the recorded inputs and all output values are cached; then it has run the runner, else it has done nothing |
| Evaluation.FilterStackRunner.InputsShown | opendiamond/server/filter.py:946-962 | the input test, in both directions, missing attributes included |
| Evaluation.FilterStackRunner.CachedValues | opendiamond/server/filter.py:963-974 | values are found exactly when every output value is cached, and they hash to the recorded signatures |
| Evaluation.NewRecord | opendiamond/server/filter.py:1020-1022 | only a finished run leaves a record, and that record is truthful |
| Evaluation.FilterStackRunner.Update | opendiamond/server/filter.py:1038-1064 | the update keeps both caches truthful; under a new record's key there is a new record, every other result is as before, and new attribute entries are outputs still shown; or nothing changes because Redis refuses |
| Evaluation.FilterStackRunner.OutputValues | opendiamond/server/filter.py:1047-1055 | the overwrite guard: exactly the outputs still shown are stored, under the hash of the value stored |
| Evaluation.FilterStackRunner.FilterLoop | opendiamond/server/filter.py:1012-1037 | with any truthful cache, and any interference of other workers between requests, the loop ends as the uncached loop does, object included |
| Evaluation.FilterStackRunner.Evaluate | opendiamond/server/filter.py:989-1064 | evaluation with both caches decides as the uncached loop and leaves both caches truthful |
| Evaluation.ServeHistory | opendiamond/server/filter.py:989-1079 | over any history of evaluations, by any searches, from empty caches: the same objects are accepted as without caches, with the same attributes and omissions |
| Limits.CachedDropNeedsWritersFirst | opendiamond/server/filter.py:848-857 | two searches over the same filters: with what the first records, the second drops an object that the loop accepts |
| Limits.ReplayNeedsDiscipline | opendiamond/server/filter.py:942-962 | a concrete filter whose recorded inputs do not determine its score |
| FilterStacks.StackBuilder.Resolve | opendiamond/server/filter.py:1136-1150 | the recursion terminates on every graph, extends the order with dependencies first, and fails only with a missing name or a real cycle |
| FilterStacks.BuildOrder | opendiamond/server/filter.py:1120-1153 | construction succeeds exactly when all named dependencies exist and the graph is acyclic, and yields a permutation with every dependency before its dependants |
| FilterStacks.CompleteOrderIsAcyclic | opendiamond/server/filter.py:1136-1153 | an order with dependencies first exists only if there is no cycle |
| FilterStacks.LastNamedIsIndex | opendiamond/server/filter.py:1124 | a name stands for the last filter of that name |
| Optimize.FilterStack.Optimize | opendiamond/server/filter.py:1193-1216 | the new order is the de-duplicated one, computed once, and refused without a change while a digest is missing |
| Optimize.DedupShape | opendiamond/server/filter.py:1200-1212 | every digest is kept and none twice |
| Optimize.SurvivorPosition | opendiamond/server/filter.py:1200-1212 | the survivors keep their relative order |
| Optimize.DependenciesKept | opendiamond/server/filter.py:1200-1212 | a survivor keeps before it a filter of each digest that was before it |
| Optimize.DeclaredReadsAreOrdered | opendiamond/server/filter.py:1128-1153 | declaring the writers of what one reads makes the constructed order safe for cached drops |
| Optimize.RerunIsNoOp | opendiamond/server/filter.py:1193-1216 | running a covered duplicate again at any later stage changes nothing |
| Optimize.OptimizeKeepsOutcome | opendiamond/server/filter.py:1193-1216 | with covered duplicates the stack's outcome, object included, is unchanged |
| Optimize.UncoveredChangesDecision | opendiamond/server/filter.py:1194-1195 | any duplicate with a narrower score interval than its survivor changes the decision in some search |
| Optimize.OptimizeSafeExactly | opendiamond/server/filter.py:1193-1216 | outcomes are kept in every search if and only if the survivors' intervals lie within those of the filters removed for them |
| BlobCache.StepKeepsInv | opendiamond/blobcache.py:62-150 | every system call of any pruner, accessor or adder keeps: blobs hash to their names, files in progress are private, the pruner's candidate is expired |
| BlobCache.Run | opendiamond/blobcache.py:62-150 | so every reachable state, in any interleaving, satisfies that |
| BlobCache.UnlinksOnlyExpired | opendiamond/blobcache.py:123-150 | in every interleaving, a blob about to be unlinked has an mtime before `expires` |
| BlobCache.OnlyExpiredContentLeaves | opendiamond/blobcache.py:62-150 | the only step after which the cache no longer has a blob is the pruner's unlink of an expired one |
| BlobCache.StepKeepsCalm | opendiamond/blobcache.py:43-100 | without a concurrent addition of the same blob, the conditions for reading survive every step, also while the blob goes by both names |
| BlobCache.ReadSucceeds | opendiamond/blobcache.py:77-99 | without such a crossing, with nobody adding the blob and no prune that starts so late that the access already counts as expired: after a successful access, reading succeeds by the second open, with data that hashes to the signature |
| BlobRaces.CrossingFails | opendiamond/blobcache.py:62-99 | whenever a rescue is under way while the blob goes by both names, wherever the pruner is, an admissible future exists in which a reader fails |
| BlobRaces.ReadsSafeExactly | opendiamond/blobcache.py:50-54 | if the readings under way are in order, every admissible future is safe for every reader if and only if there is no such crossing |
| BlobRaces.ReadCanFail | opendiamond/blobcache.py:50-54 | a run from an empty cache, with a second addition of the blob, in which the second open fails |
| BlobCache.QuietRead | opendiamond/blobcache.py:62-99 | undisturbed, a read succeeds exactly when the blob is there under either name, and leaves it touched under its proper name |
| BlobCache.QuietAdd | opendiamond/blobcache.py:102-121 | undisturbed, an addition puts the data under its proper name if that is free and leaves the directory as it is if not; no earlier name loses its file or age, no temporary name stays |
| BlobCache.Directory.Prune | opendiamond/blobcache.py:123-150 | undisturbed, exactly the expired names leave the directory, a doomed copy making way for its live name |
| BlobPrune.QuietPrune | opendiamond/blobcache.py:123-150 | the pruner's system calls, undisturbed and in any order of names, leave exactly the directory that the method leaves |
| SessionVars.SessionVariables.FilterUpdate | opendiamond/server/sessionvars.py:81-88 | every value is added to the local part, or with the interlock on to the part between; other variables and parts are unchanged |
| SessionVars.SessionVariables.ClientGet | opendiamond/server/sessionvars.py:90-98 | the client gets every local part and the interlock is on |
| SessionVars.SessionVariables.ClientSet | opendiamond/server/sessionvars.py:100-107 | the interlock is off; each variable sent takes the value and what was between becomes local |
| SessionVars.SessionVariables.FilterGet | opendiamond/server/sessionvars.py:69-79 | a filter reads the sum of the three parts, or zero |
| SessionVars.ReadsOwnUpdates | opendiamond/server/sessionvars.py:69-88 | a filter reads its updates at once, whether or not a round is under way |
| SessionProtocol.StepKeepsInv | opendiamond/server/sessionvars.py:81-107 | every update, get, merge and set keeps the interlock in step with the round and the balance of every variable |
| SessionProtocol.Conservation | opendiamond/server/sessionvars.py:28-58 | for N servers, in every interleaving: client total, parts being carried and uncollected parts sum to all updates ever made |
| SessionProtocol.QuietRoundDone | opendiamond/server/sessionvars.py:90-107 | a round without updates, in any order of servers, leaves each server the client's total and what was between before |
| SessionProtocol.TwoQuietRoundsConverge | doc/diamond-protocol.xml:773-818 | after two rounds without updates every server reads the sum of all updates |
| SessionProtocol.OneQuietRound | opendiamond/server/sessionvars.py:47-58 | after one round a server lacks exactly what was between on the other servers |
| SessionProtocol.OneRoundIsNotEnough | opendiamond/server/sessionvars.py:47-58 | a run from the start after which a whole round without updates leaves a server short |
| SessionProtocol.OneRoundIsEnoughAtRest | opendiamond/server/sessionvars.py:47-58 | if updates are made only between rounds, every server reads the sum of all of them after one round |
| SessionProtocol.SetMeetsDocumentExactly | doc/diamond-protocol.xml:814-817 | in any run from a get to the set, the documented meaning of the set is met exactly when nothing was between at the get |
| SessionProtocol.SetDisagrees | doc/diamond-protocol.xml:814-817 | a run from the start in which it is not met |
| WorkerQueue.StepKeepsInv | opendiamond/server/filter.py:1088-1096 | every step of the feeder or of a worker, deaths included, keeps every object in exactly one place and the task counter exact |
| WorkerQueue.EndComesLast | opendiamond/server/filter.py:1166-1191 | in every interleaving, once the end of the search is sent every object has been evaluated, every accepted one sent exactly once, and nothing follows |
| WorkerQueue.LostObjectBlocksEnd | opendiamond/server/filter.py:1097-1113 | if a worker dies holding an object, the end is never sent |
| WorkerQueue.EndPossibleExactly | opendiamond/server/filter.py:1088-1113 | in every reachable state some continuation sends the end if and only if no dead worker holds an object and a worker lives or nothing is left to evaluate |
| WorkerQueue.TakenInOrder | opendiamond/server/filter.py:1088-1091 | in every run objects are taken from the queue in the order of the scope |
| WorkerQueue.OneWorkerSendsInOrder | opendiamond/server/filter.py:1088-1096 | with a single worker the channel holds the accepted ones among the first objects of the scope, in order, and among all of them when the end is announced |
| BlastSet.DiamondBlastSet.TryStartNow | opendiamond/blaster/search.py:206-212 | every blocking connection gets one request, or none if paused or not started |
| BlastSet.DiamondBlastSet.ObjectArrives | opendiamond/blaster/search.py:214-241 | an object is delivered and, whatever the callback does to the set, its connection then requests again or blocks |
| BlastSet.StepKeepsInv | opendiamond/blaster/search.py:194-241 | every event keeps: a live connection is blocking or has one request outstanding, never both |
| BlastSet.BlastSetIsSound | opendiamond/blaster/search.py:182-241 | over every run: that, no request of an ended or failed connection, and at most one finished callback |
| BlastSet.DeliveredInOrder | opendiamond/blaster/search.py:214-241 | though the server may answer outstanding requests in any order, what is delivered from a connection is a prefix of what the server has, and all of it once the connection has finished |
| BlastSet.FinishedAtLastEnd | opendiamond/blaster/search.py:229-237 | the finished callback fires exactly at the end of the last connection |
| BlastSet.PauseHolds | opendiamond/blaster/search.py:199-241 | from pause() until somebody resumes the set no request is made, and a connection on which an object arrives blocks |
| BlastSet.PausingCallbackBlocks | opendiamond/blaster/search.py:214-241 | a callback that pauses the set last keeps its connection from asking for more |
| BlastSet.ResumeAsks | opendiamond/blaster/search.py:202-212 | resume() asks once on every blocking connection of a started set, and on no other |
| RpcClient.RpcClientConnection.MessageArrives | opendiamond/blaster/rpc.py:142-176 | a message resumes the call of its sequence number, or none; a request is answered with an error |
| RpcClient.RpcClientConnection.ConnectionLost | opendiamond/blaster/rpc.py:151-157 | a loss resumes every pending call once, empties the map and ends the reader |
| RpcClient.RunKeepsInv | opendiamond/blaster/rpc.py:110-176 | sequence numbers are fresh, and every call is pending or resumed, not both |
| RpcClient.EachCallResumedOnce | opendiamond/blaster/rpc.py:110-176 | in every run a call is resumed at most once, and by a reply only if it bears its own number |
| RpcClient.LossFailsPending | opendiamond/blaster/rpc.py:151-157 | a loss fails exactly the calls then pending |
| RpcClient.SentInOrder | opendiamond/blaster/rpc.py:106-118 | in every run the requests written bear the numbers 0, 1, 2 and so on with the commands of the calls, in order, and every other message refuses a stray request under its own number and command |
| RpcClient.RepliesArrived | opendiamond/blaster/rpc.py:165-173 | a call is resumed with the header and data of a message that has arrived |
| RpcClient.LossIsLast | opendiamond/blaster/rpc.py:151-157 | after a loss nothing is read and no call is resumed |
| Xdr.RoundTrip | opendiamond/xdr.py:226-262 | decoding an encoding followed by any bytes gives the value and exactly those bytes, for all schemas (sections 4.1, 4.2, 4.4, 4.5, 4.7, 4.9 to 4.11, 4.13, 4.14 and 4.19 of RFC 4506) |
| Xdr.WholeWords | opendiamond/xdr.py:64-139 | every encoding is a multiple of four bytes long |
| Xdr.ItemsRoundTrip | opendiamond/xdr.py:81-93 | the same for arrays |
| Xdr.MembersRoundTrip | opendiamond/xdr.py:242-262 | the same for the members of a struct |
| Xdr.WholeRoundTrip | opendiamond/xdr.py:226-240 | decode() of encode() leaves nothing over |
| Xdr.SelfDelimiting | opendiamond/xdr.py:226-262 | no encoding is a proper prefix of another of the same schema |
| Xdr.CanonIsIdentity | opendiamond/xdr.py:114-125 | a value comes back unchanged exactly when its constants, nameless members and hypers are in canonical form |
| XdrWire.EncodeExactly | opendiamond/xdr.py:26-139 | for all schemas and values the encoding is exactly the bytes of the standard, most significant first, and a value is refused exactly if it has none (sections 4.1, 4.2, 4.4, 4.5, 4.7, 4.9 to 4.11, 4.13, 4.14 and 4.19 of RFC 4506) |
| XdrWire.Vectors | opendiamond/xdr.py:64-112 | literal encodings of numbers and optional data |
| XdrWire.DataVector | opendiamond/xdr.py:64-79 | literal encodings of a string and of fixed data, padding included |
| XdrWire.ArrayVector | opendiamond/xdr.py:81-93 | a literal encoding of an array |
| XdrWire.Truncated | opendiamond/xdr.py:234-240 | however an encoding is cut short, decoding it fails |
| Xdr.Packer.Pack | opendiamond/xdr.py:74-136 | the handlers append the encoding, and raise exactly for values outside the schema |
| Xdr.Unpacker.Unpack | opendiamond/xdr.py:77-139 | the handlers consume what the decoding function consumes, and fail when it fails |
| Protocol.MessagesAreTransparent | opendiamond/protocol.py:48-164 | no message but the statistics holds a type that could change a value |
| Protocol.MessageRoundTrip | opendiamond/protocol.py:48-164 | each of those messages is read back as the identical value |
| Protocol.StatisticsRoundTrip | opendiamond/protocol.py:106-127 | statistics are read back identically exactly when they fit 64 bits |
| Rpc.HeaderIsEncoding | opendiamond/rpc.py:65-75 | the 16 header bytes are the XDR encoding of the header struct |
| Rpc.HeaderOfIsDecoding | opendiamond/rpc.py:65-75 | reading a header off 16 bytes is what the XDR decoder does with the header struct |
| Rpc.HeaderInverse | opendiamond/rpc.py:85-88 | and give back the four fields |
| Rpc.Socket.Recv | opendiamond/rpc.py:100-113 | recv gives any non-empty piece of what is to come, or nothing at the end |
| Rpc.RpcConnection.ReadBytes | opendiamond/rpc.py:100-113 | however recv splits the stream, exactly the bytes asked for are read, or the connection closes |
| Rpc.RpcConnection.ReceiveRequest | opendiamond/rpc.py:98-120 | the next request is received, replies before it are skipped |
| Rpc.RpcConnection.Dispatch | opendiamond/rpc.py:132-172 | one turn: the request is decoded, handled and answered as the answer function says, for each way of failing |
| Rpc.RpcConnection.DispatchAll | opendiamond/server/server.py:241-242 | repeated dispatch serves the whole stream |
| Rpc.ServesExactlyTheRequests | opendiamond/rpc.py:115-120 | of any messages with any unfinished one at the end, exactly the requests are served, in order |
| Rpc.OneReplyEach | opendiamond/rpc.py:122-172 | one reply for each request, with its sequence and command, an empty body on error; only an exception that is no RPC error cuts this short |
| Rpc.ConversationServed | opendiamond/rpc.py:85-172 | both together, for every conversation |
| RpcWire.MessageOnWire | opendiamond/rpc.py:65-88 | a message is four big-endian words, the signed ones in two's complement, and the body |
| RpcWire.HeaderVector | opendiamond/rpc.py:65-75 | the literal bytes of one request header |
| RpcWire.BrokenOffConversation | opendiamond/rpc.py:98-120 | a conversation cut off anywhere inside a message is served up to that message |
| RpcWire.StatusOfReply | opendiamond/rpc.py:132-172 | the status and body on the wire for each way of handling: no handler, an undecodable request, an RPC error, no result, a result, any other exception |
| Rpc.BlastChannelSender.Send | opendiamond/server/search.py:309-346 | requests for unknown commands are refused until one get_object is answered with the object, once |
| Texts.SplitJoin | opendiamond/scope.py:233-239 | splitting undoes joining |
| Texts.CleanedSplitShape | opendiamond/scope.py:233-239 | what a cleaned, split text can hold |
| Base64.RoundTrip | opendiamond/scope.py:90-94 | base64 decoding undoes encoding for all byte strings (section 4 of RFC 4648) |
| Base64.RfcVectors | opendiamond/scope.py:90-94 | three test vectors of section 10 of RFC 4648 |
| Base64.NewlinesAreSkipped | opendiamond/scope.py:191-195 | newlines do not change what is decoded |
| Base64.LinesAreShort | opendiamond/scope.py:92-93 | no line of an encoded cookie is longer than 64 characters |
| Base64.HexRejectsExactly | opendiamond/scope.py:202-206 | exactly an odd length or a character that is no digit makes unhexlify fail |
| ScopeFormat.HexVectors | opendiamond/scope.py:78-80 | signatures are written in lower-case hexadecimal, the high digit first, and read in either case |
| ScopeFormat.DataText | opendiamond/scope.py:154-163 | the signed text: which headers, in which order, a blank line, one URL a line |
| ScopeFormat.EncodedText | opendiamond/scope.py:90-94 | signature and text in base64 lines of 64 between the boundary lines |
| ScopeFormat.HeaderExactly | opendiamond/scope.py:207-236 | a header is read if and only if every line passes, and then each field has the value of the last line of its name |
| ScopeFormat.AcceptedExactly | opendiamond/scope.py:191-245 | exactly which texts parse() accepts, and as which cookie |
| Scope.MatchIsUnique | opendiamond/scope.py:185-190 | the boundary pattern matches in at most one way, which taking the longest run finds |
| Scope.Parse | opendiamond/scope.py:174-245 | the loop over header lines computes the parsing function, each error included |
| Scope.LinesEscape | opendiamond/scope.py:209-210 | reading the header raises a ValueError exactly when the first line at fault has no colon |
| Scope.ValueErrorExactly | opendiamond/scope.py:185-245 | parse() raises a ValueError instead of a ScopeError if and only if the boundaries match and base64, UTF-8, the signature or a header line fails in one of four ways |
| Scope.FourEscapes | opendiamond/scope.py:191-210 | a whole cookie for each of the four |
| Scope.ParsedItemsAreGood | opendiamond/scope.py:207-239 | whatever text is parsed, servers, URLs and blaster are trimmed, non-empty and free of separators |
| Scope.RoundTripExactly | opendiamond/scope.py:137-245 | a generated cookie is parsed back with identical signed data, signature, servers, URLs and blaster if and only if its items are trimmed, non-empty and free of separators |
| Scope.SplitUndoesConcatenation | opendiamond/scope.py:247-250 | splitting concatenated cookies gives them back in order, with any text without hyphens around them |
| FilterPipe.PipeEnd.ReadItem | opendiamond/server/filter.py:170-185 | an item, a blank or a failure is read as the framing function says |
| FilterPipe.PipeEnd.ReadArray | opendiamond/filter/__init__.py:512-519 | items are read up to the blank line |
| FilterPipe.PipeEnd.Send | opendiamond/server/filter.py:203-223 | what is written for scalars, blanks and lists |
| FilterPipe.PipeEnd.SendMessage | opendiamond/filter/__init__.py:542-556 | what is written for a tag and its values |
| FilterPipe.FramingRoundTrip | opendiamond/filter/__init__.py:495-556 | any sequence of strings, blanks and lists is read back as the same sequence, newlines and empty payloads included |
| FilterPipe.MessageRoundTrip | opendiamond/filter/__init__.py:542-556 | and so is a tagged message |
| FilterPipe.DecimalExactly | opendiamond/server/filter.py:195-201 | lengths are decimal, without leading zeros |
| FilterPipe.FramingVectors | opendiamond/server/filter.py:203-223 | literal bytes for a scalar, an empty one, None and an empty list |
| FilterPipe.ListVector | opendiamond/server/filter.py:203-223 | literal bytes for a list |
| FilterPipe.CutShort | opendiamond/server/filter.py:170-185 | an item that is cut short is never taken for another: reading fails, unless only the final newline or the payload of an empty item is missing |
| Pyramid.CeilDivIsLeast | opendiamond/dataretriever/pyramid.py:37-41 | rounding up a quotient gives the least integer not below it |
| Pyramid.Log2 | opendiamond/dataretriever/pyramid.py:24-34 | the least power of two that is not less than the argument |
| Pyramid.GridIsProper | opendiamond/dataretriever/pyramid.py:73-84 | level 0 of every image is a single tile, and the level count is least |
| Pyramid.LevelBounds | opendiamond/dataretriever/pyramid.py:80-84 | columns and rows of a level are between 1 and two to its number |
| Pyramid.Quadtree | opendiamond/dataretriever/pyramid.py:69-96 | every tile's parent is in the pyramid and every tile above the finest level has a child; the root is the only tile of level 0 |
| Pyramid.AscendingIsDistinct | opendiamond/dataretriever/pyramid.py:86-96 | so no tile is yielded twice |
| Pyramid.IterCoords | opendiamond/dataretriever/pyramid.py:69-96 | exactly the tiles within the depth limit, each once, in ascending order |
| Pyramid.TilesInGigapan | opendiamond/dataretriever/gigapan_store.py:128-144 | the sum over the levels |
| Pyramid.CountMatchesList | opendiamond/dataretriever/gigapan_store.py:128-144 | the announced count is the number of tiles listed |
| Pyramid.FileName | opendiamond/dataretriever/pyramid.py:53-63 | the bits from the highest down spell the tile's quadtree digits |
| Pyramid.PathToTile | opendiamond/dataretriever/pyramid.py:44-66 | directories of three characters of the name, then the name |
| Pyramid.DigitsAt | opendiamond/dataretriever/pyramid.py:56-63 | which bits of column and row each digit of the name tells |
| Pyramid.ParentPrefix | opendiamond/dataretriever/pyramid.py:53-63 | a tile's digits start with its parent's |
| Pyramid.PathsAreDistinct | opendiamond/dataretriever/pyramid.py:44-66 | different tiles of a pyramid have different paths |
| Pyramid.PathVectors | opendiamond/dataretriever/pyramid.py:44-66 | the two examples of the documentation, with the suffix |

## Left out

- Evaluation.FilterStackRunner.Update: which filters are slow enough for their outputs to be cached is
  left open, since the clock decides it.
- Objects.DiamondObject.XdrAttributes: the order of the attributes sent is not modelled; values are
  texts, not bytes.
- Filters.ServeFilter: session variables, log messages, resources and `hint-large-attribute` are not
  among the commands; sizes and throughput are not computed.
- Scope.RoundTripExactly: assumes that the texts of the serial number and of the date are read back as
  such; `uuid`, `dateutil` and `int()` are parameters.
- FilterPipe.PipeEnd.ReadItem: Python's `int()` also accepts signs and underscores in a length; here
  such a length fails.
- Xdr.RoundTrip: strings are their UTF-8 bytes and a double is its 8-byte image; what the unseen
  `xdrlib` does with input that no encoder produces is not claimed.
- Xdr.Unpacker.Unpack: a string that is not UTF-8 is decoded like any other; in the source it raises
  `UnicodeDecodeError`, which `xdr.py:193-196` does not turn into an encoding error.
- Rpc.RpcConnection.Dispatch: so a request with such a string is answered here, while its error escapes
  from `dispatch` in the source.
- RpcClient.EachCallResumedOnce: sequence numbers do not wrap at 32 bits, and decoding of the reply body
  is not modelled.
- BlobCache.UnlinksOnlyExpired: one pruner; two concurrent ones can break it.
- Pyramid.CeilDivIsLeast: quotients are exact; the source divides floating-point numbers.
- The `ExecutableBlobCache`, the JSON encoding of cached results, and the statistics loggers.
- Floating-point rounding of scores and session variables, which are reals here.
- Sockets, HTTP, Docker, subprocesses, the Redis client, signals, forking and certificate checks.
- Pairing of control and blast connections by nonce (`listen.py`), whose map holds weak references.
- `generate_cookie` with proxies: it only formats scope URLs and concatenates cookies.
- `mixer_store.py`, `augment_store.py`, the machine-learning proxy, the Django views, the JSON schemas and `libfilter`.
