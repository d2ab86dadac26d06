# Transflect: the operator and the descriptor collector, verified

Transflect watches the replica sets of a Kubernetes cluster. For every deployment that names a gRPC
port in an annotation it asks the server's reflection service for its descriptors and writes an
Istio EnvoyFilter with them. This project models the two parts of it that are hard to get right and
proves what they keep:

* **The collector** (`ImportGraph`, `Descriptors`, `SortedFiles`, `TopoTermination`, `Servers`,
  `Gathering`, `Collector`): files by symbol, their transitive imports over a shared table, HTTP rules set in
  place, and the recursive sort that empties the table while it fills the list. Server answers are a
  finite table of file records, some of which may not decode.
* **The operator** (`ServiceFilter`, `Objects`, `MutexMaps`, `Locking`, `Reconcile`, `Operators`,
  `Ledgers`, `Runs`, `Restart`, `Protosets`, `MicroSteps`, `Workers`, `Slices`, `Serial`,
  `Midway`, `Concurrent`, `UnsafeRuns`, `Witnesses`, `Shutdown`): a class whose methods make the API calls and
  update cache, gauge and locks, each method proved to do exactly what a closed form on values says;
  runs of such steps; and any number of workers whose single actions interleave at will.

How the parts hang together:

1. `Operators.Operator.ProcessNext` is the code, step by step; its contract says that it does
   `Reconcile.Next`. `MicroSteps.FinishIsNext` says the same of the separate actions in a row.
2. `Runs` proves properties of all runs of `Next`; `Serial.Serializable` and
   `Concurrent.ConcurrentIsSerial` carry every interleaving over to such a run, so `Runs` holds of
   concurrent runs as well (`Concurrent.ConcurrentAgreement`, `Concurrent.ConcurrentNewestWins`).
3. `SortedFiles.SortInto` is the code of the sort, proved to do what the plain recursion `SortWithin`
   does; `TopoTermination.OrderIs` says what that is, and `TopoTermination.SortReturnsIffNoCycle` when
   it comes back at all.
4. `Gathering` is the collection on values, and what follows for its table; the loops of `Collector`
   over the shared table are proved to do exactly that, failures included.
5. `Protosets` joins the two parts: every filter that an event wrote holds what
   `Collector.GetFileDescriptorSet` brings back from the server behind that event.

Locks, serial order and newest-wins are stated for one deployment under a condition on its own lock
(`Locking.MutualExclusion`, `Serial.SerializableAt`, `Concurrent.ConcurrentExclusion`), since removals
at other deployments do it no harm.

Every API call has an outcome of its own, picked freely (`Faults`). A call that fails changes
nothing. Nothing in the model forbids a failure anywhere; where a law needs a call to succeed, the
lemma says which one.

Things that look true and are not, each with its exact condition and a run that shows it:

* A delete that the API refuses still drops the cache entry: cache and cluster then disagree, for
  good unless the deployment names a port again or goes, and nothing else makes them disagree
  (`Runs.AgreeIffNoRefusal`, `Runs.RefusedDeleteIsFinal`, `Witnesses.RefusedDelete`).
* The gauge does not count filters that the cluster collects with their deployment
  (`Runs.GaugeLaw`, `Runs.GaugeConserved`, `Witnesses.GarbageUncounted`).
* Removing a lock entry is harmless exactly if nobody else is at it and nobody asks for it before the
  unlock (`Locking.InvStep`); every removal or request that breaks this has its victim
  (`Locking.UnsafeTry`, `Locking.UnsafeDrop`, `Locking.UnsafePurge`), and the operator gets there with
  ordinary events (`UnsafeRuns`, `Witnesses.DeleteUnderWaiterHappens`).
* A cleanup of the cache takes no lock. It never harms serializability (`Serial.Serializable`), but one
  that falls before the store of an upsert counts as before it (`Serial.CleanAfterIff`), so the entry
  outlives the deployment (`UnsafeRuns.CleanupBeforeStore`).
* Revisions never go back only while the entry is there: after a delete an older revision may be
  upserted again (`Runs.DeletedComesBack`, `Witnesses.OlderComesBack`).
* A new process reads one page of at most 42 filters and skips those of revision 0: the cache is
  rebuilt exactly when that leaves none out (`Restart.RebuiltIffOnePage`, `Witnesses.PageTooSmall`).
* Excluding services panics when the list has more distinct entries than there are services
  (`ServiceFilter.IncludeExcludePartition`, `ServiceFilter.ExcludeTooMany`).

The repository's comment and README give the generated path as `/api/<pkg>.<service>/<method>`; the
code puts a configurable prefix in place of `/api`, and so does the model.

Verify with `dafny verify dfyconfig.toml` (Dafny 4.11).

## Model

| member | source | states |
|---|---|---|
| Descriptors.AnnotateHTTPRule | pkg/transflect/transflect.go:151-172 | The in-place loops change a descriptor's services to exactly its annotated form and nothing else of it |
| Descriptors.AnnotationIs | pkg/transflect/transflect.go:162-169 | What that form is: a method without a rule gets POST `<prefix>/<pkg>.<service>/<method>` with body `*`, every rule that was there stays, and nothing else differs |
| Descriptors.AnnotationComplete | pkg/transflect/transflect.go:149-172 | Afterwards every method has a rule; names, imports and every rule that was there are untouched |
| Descriptors.AnnotationFixpoint | pkg/transflect/transflect.go:155-157 | Annotating changes nothing if and only if every method already has a rule |
| Descriptors.AnnotationIdempotent | pkg/transflect/transflect.go:151-172 | A second pass, with the same or any other prefix, is silent |
| Descriptors.PathsDistinct | pkg/transflect/transflect.go:162 | For one prefix two paths are equal if and only if package, service and method are, when services have no dot and methods no slash |
| Descriptors.PathsCollide | pkg/transflect/transflect.go:162 | Both name conditions are needed: two clashes |
| SortedFiles.TopoSort | pkg/transflect/transflect.go:137-147 | Without a reachable cycle the sort ends; the list holds exactly the present files reached from the names, each once, after its present imports; the table is the old one minus the list; order and rest are those of the plain recursion |
| SortedFiles.SortInto | pkg/transflect/transflect.go:137-147 | The recursion over the shared table, deletion after recursion: list and remaining table are those of the plain recursion, whenever that comes back |
| TopoTermination.OrderedAppend | pkg/transflect/transflect.go:141 | Sorting what a sorted order leaves and appending it gives a sorted order |
| TopoTermination.OwnNameLast | pkg/transflect/transflect.go:139-143 | Without a reachable cycle a file is not among the files that its imports reach, and its present imports are all among them |
| TopoTermination.OrderIs | pkg/transflect/transflect.go:137-147 | The order of a run: exactly the present files that the names reach, each once, after all its present imports; these are the files that are gone |
| TopoTermination.SortReturnsIffNoCycle | pkg/transflect/transflect.go:137-147 | The unguarded recursion returns if and only if the names reach no import cycle, and takes from the map exactly what they reach |
| TopoTermination.ReturnsOnlyWithoutCycle | pkg/transflect/transflect.go:137-147 | A recursion that comes back within some depth has met no cycle |
| TopoTermination.ReturnsWithoutCycle | pkg/transflect/transflect.go:137-147 | Without a reachable cycle a depth of the number of reachable files is enough |
| TopoTermination.DeeperIsSame | pkg/transflect/transflect.go:137-147 | Allowing more depth never changes an answer |
| TopoTermination.SortStep | pkg/transflect/transflect.go:139-145 | One round of the loop, seen from the recursion |
| TopoTermination.SortKeepsOrder | pkg/transflect/transflect.go:139-145 | Files without imports come out in the order of the names |
| Collector.DecodeResponse | pkg/transflect/transflect.go:202-213 | Fails exactly if a file cannot be decoded; else new descriptors, one for each record, in the order of the answer, all distinct |
| Collector.GetFileDescriptorBySymbol | pkg/transflect/transflect.go:188-200 | Fails exactly on a symbol without an answer that can be decoded, and names it; else the decoded answer |
| Collector.GetFileDescriptorByFilename | pkg/transflect/transflect.go:174-186 | Fails exactly on a file name without an answer that can be decoded, and names it; else the decoded answer |
| Collector.AddDependencies | pkg/transflect/transflect.go:112-133 | The loop leaves exactly the table, or exactly the failure, that `Gathering.AddDeps` says, on every finite server, import cycles included |
| Collector.AddImport | pkg/transflect/transflect.go:117-131 | One missing import: the failed request if it has no answer, else the table with the files of the answer |
| Collector.AddFiles | pkg/transflect/transflect.go:121-130 | The files of one answer in order, those already present skipped, each followed by its own imports; the first failure ends it |
| Collector.InsertFile | pkg/transflect/transflect.go:126-129 | A new file goes in before its own imports are looked at |
| Collector.AddSymbolFile | pkg/transflect/transflect.go:92-97 | Only a name that is new is annotated, stored and listed; the first answer of a name stays |
| Collector.AddSymbolFiles | pkg/transflect/transflect.go:91-98 | The files of one service's answer in order: names and table are those of `Gathering.AddSymbols` |
| Collector.GatherSymbols | pkg/transflect/transflect.go:84-99 | Names and table, or the failure, of the first phase |
| Collector.AddAllDependencies | pkg/transflect/transflect.go:101-106 | Table or failure of the second phase |
| Collector.GatherAll | pkg/transflect/transflect.go:84-106 | Names and table of both phases, or the first failure |
| Gathering.SymbolsGathered | pkg/transflect/transflect.go:86-99 | The first phase fails exactly on the first service without an answer; else it takes the files of all answers in order |
| Gathering.SymbolsAre | pkg/transflect/transflect.go:91-98 | Each name listed once, with the first file of that name, annotated |
| Gathering.DepsSettled | pkg/transflect/transflect.go:112-133 | Success means that every import of the file and of every new one is there, or that its request was answered and every file of that answer is there: a failed request never passes |
| Gathering.RecordsCame | pkg/transflect/transflect.go:121-130 | Every new file is the first of its name in the answer for an import of a file that is there, and the whole answer is there |
| Gathering.DepsFail | pkg/transflect/transflect.go:117-120 | A failure comes with a table that shows it: the service files, files answered for imports of files in it, and one that imports a missing file whose request has no answer |
| Gathering.GatherSucceeds | pkg/transflect/transflect.go:84-106 | After both phases: one annotated file for every name in the services' answers, every other file from an answer for an import of a file that is there, every import met; all services have answered |
| Gathering.GatherFails | pkg/transflect/transflect.go:84-106 | Why both phases fail: the first service without an answer, or an import of a gathered file without one |
| Gathering.CompleteGathers | pkg/transflect/transflect.go:84-106 | A server that answers every request that can come up never fails |
| Collector.SortTable | pkg/transflect/transflect.go:107-108 | The sorted list is the part of the table that the names reach, imports first, in the order of the plain recursion |
| Collector.CollectionReturnsIff | pkg/transflect/transflect.go:107 | The condition under which the collection is proved to end is exact: the sort of the gathered table returns if and only if it holds |
| Collector.Assembled | pkg/transflect/transflect.go:101-109 | Sorting a closed table gives a collected list |
| Collector.ReachedInList | pkg/transflect/transflect.go:137-147 | What the table's imports reach from the services' files, the imports of the listed files reach |
| Collector.GetFileDescriptorSet | pkg/transflect/transflect.go:78-110 | End to end: it succeeds exactly if the services are listed and both phases succeed. Then each file comes once and after its imports; every file of the services' answers is there as first sent, with the rule of each method as spelled out; every other file is as first sent in an answer for a file name; each is reached from the services' files through listed files; an import that is missing was asked for and answered by files of other names |
| Servers.AnswerIs | pkg/transflect/transflect.go:202-213 | An answer counts exactly if the request is answered and every file of it decodes |
| Protosets.Reflect | cmd/transflect-operator/envoyfilter.go:59-62 | What a query hands to the operator is a collection of the server, asked with the prefix |
| Protosets.FiltersTraced | cmd/transflect-operator/envoyfilter.go:53-65 | With the server behind each event fixed: after any run every filter is the unchanged one of the start, or an event of the run wrote it with exactly the files collected from its own server with its own prefix, and those of that server's services that its annotations select |
| Protosets.WrittenIsOrdered | cmd/transflect-operator/envoyfilter.go:53-65 | So, with the prefix of the replica set's own annotation, or the operator's without one: its files are in imports-first order, none twice, with every file of that server's service answers and the rules spelled out; its services are all of the server's without the two annotations, else exactly those outside the exclude list, or inside the include list, in order and with every occurrence |
| ServiceFilter.MapFromString | cmd/transflect-operator/envoyfilter.go:96-105 | The keys are the trimmed pieces, all true; empty exactly for the empty text |
| ServiceFilter.TrimSpaceIs | cmd/transflect-operator/envoyfilter.go:102 | Trimming takes all white space from both ends and nothing else |
| ServiceFilter.SplitJoin | cmd/transflect-operator/envoyfilter.go:101 | Splitting loses nothing |
| ServiceFilter.SplitClean | cmd/transflect-operator/envoyfilter.go:101 | Splitting leaves no comma in a piece |
| ServiceFilter.FilterGRPCServices | cmd/transflect-operator/envoyfilter.go:72-94 | The loops give the specified selection, and panic exactly when it says so |
| ServiceFilter.SelectionIs | cmd/transflect-operator/envoyfilter.go:72-94 | All services without annotations; with an exclude list those outside it, else with an include list those inside it, in order and with every occurrence |
| ServiceFilter.NoAnnotationKeepsAll | cmd/transflect-operator/envoyfilter.go:93 | Without either annotation the selection always succeeds, with all services |
| ServiceFilter.KeptIs | cmd/transflect-operator/envoyfilter.go:76-90 | What is kept is an order-preserving sublist with exactly the services inside (or outside) the list |
| ServiceFilter.KeptBoth | cmd/transflect-operator/envoyfilter.go:76-90 | Kept inside and kept outside together hold every occurrence exactly once |
| ServiceFilter.IncludeExcludePartition | cmd/transflect-operator/envoyfilter.go:72-94 | One text as include and as exclude list cuts the services in two if and only if it has no more distinct entries than there are services; exclude wins over include |
| ServiceFilter.ExcludeTooMany | cmd/transflect-operator/envoyfilter.go:73-75 | `a,b` against one service: excluding panics, including does not |
| Objects.ReadExactly | cmd/transflect-operator/operator.go:328-346 | A port or revision other than 0 is read exactly from a numeral (digits after at most one sign) of a value in range, and is that value; every other text gives 0 |
| Objects.NumeralKept | cmd/transflect-operator/operator.go:328-346 | A number written in decimal is read back as itself up to 65535 (port) or the largest 64-bit integer (revision), with or without a plus sign, and as 0 beyond or when negative |
| Objects.LeadingZero | cmd/transflect-operator/operator.go:328-346 | A leading zero changes nothing |
| Objects.ListedEntry | cmd/transflect-operator/operator.go:483-499 | Reading back a filter that was written gives the deployment's key, port and revision, and loses include, exclude and prefix; it fails exactly for port or revision 0 or no deployment |
| Objects.EntryTakes | cmd/transflect-operator/operator.go:516-524 | What an entry remembers of its replica set: revision, port, exclude, include and prefix, each read from the annotation of that name |
| Objects.FilterIs | cmd/transflect-operator/envoyfilter.go:302-315 | Name, owner and each of the five annotations of a filter, by their names |
| Objects.DeploymentIsFirst | cmd/transflect-operator/operator.go:359-366 | The deployment of a replica set is its first owner of that kind, and there is none exactly without such an owner |
| Objects.CleanupFindsEntry | cmd/transflect-operator/operator.go:501-513 | The key under which a deleted deployment is cleaned up is the key of all its replica sets |
| Objects.FilterNamesOneDeployment | cmd/transflect-operator/envoyfilter.go:332-338 | A filter name has one deployment key, so the lock of a key covers its filter |
| Objects.KeyNamesOneFilter | cmd/transflect-operator/operator.go:348-357 | A deployment key has one filter name, for names without a slash |
| MutexMaps.MutexMap.Lock | pkg/transflect/mutexmap.go:11-17 | Takes the named mutex, made and stored already locked when the name is new |
| MutexMaps.MutexMap.Unlock | pkg/transflect/mutexmap.go:20-24 | Releases the mutex the name has now; nothing for a missing name |
| MutexMaps.MutexMap.Remove | pkg/transflect/mutexmap.go:27-29 | The name goes, its mutex stays as it is |
| Locking.InvStep | pkg/transflect/mutexmap.go:11-29 | The invariant of names, mutexes, holders and waiters is kept by an action if and only if it takes no lock entry from its users |
| Locking.NameInvStep | pkg/transflect/mutexmap.go:11-29 | The part of it that one name rests on is kept by every action at other names, removals under their users included, and by the safe ones at the name |
| Locking.InvByName | pkg/transflect/mutexmap.go:11-29 | The invariant holds exactly if its part holds for every name |
| Locking.MutualExclusion | pkg/transflect/mutexmap.go:11-24 | Name by name: in every state of every run of any number of workers that takes this name from none of its users, whatever is removed elsewhere, it has at most one worker inside, who unlocks it releases his own mutex, and no unlock of it is fatal |
| Locking.NoRemovalIsSafe | pkg/transflect/mutexmap.go:11-24 | A name that is never removed is taken from nobody, whatever is removed elsewhere |
| Locking.ReleasesOwn | pkg/transflect/mutexmap.go:20-24 | An unlock is never fatal, releases the caller's mutex and no other, or nothing after his removal |
| Locking.RemoveThenUnlock | cmd/transflect-operator/operator.go:257-258 | Remove without a waiter, then unlock before the next lock of the name: the name is as if never used, whatever happens at other names in between |
| Locking.UnsafeTry | pkg/transflect/mutexmap.go:11-17 | In every hall: asking for a name between its removal and the unlock puts two workers inside at once |
| Locking.UnsafeDrop | pkg/transflect/mutexmap.go:27-29 | In every hall: removing a name with anybody else at it leaves that worker blocked in every continuation |
| Locking.UnsafePurge | pkg/transflect/mutexmap.go:27-29 | In every hall: a name purged while anybody is at it lets the next worker that asks join another inside, at once or after one wake-up |
| Locking.OrphanStays | pkg/transflect/mutexmap.go:27-29 | A mutex that has lost its name never gets one again |
| Locking.WaiterOfOrphanIsStuck | pkg/transflect/mutexmap.go:14-16 | A worker that waits for a held mutex without a name waits in every continuation |
| Locking.RemovalUnderWaiter | pkg/transflect/mutexmap.go:27-29 | A run of the lock map from its start: removal with a waiter blocks that waiter for good |
| Locking.LockBeforeUnlock | pkg/transflect/mutexmap.go:11-29 | A run of the lock map from its start: a lock between remove and unlock ends with two workers inside and a fatal unlock |
| Locking.PurgeUnderHolder | pkg/transflect/mutexmap.go:11-29 | A run of the lock map from its start: a purge under a holder lets a second worker in |
| Reconcile.TemporariesBracketed | cmd/transflect-operator/envoyfilter.go:38-70 | For every combination of failures: a taken Service or Ingress is left exactly if its delete failed, all others are as before; a failed upsert leaves the filters as they were |
| Reconcile.TemporariesLead | cmd/transflect-operator/envoyfilter.go:135-224 | The Service carries the event's port; the Ingress leads to the Service of the same name at that port |
| Reconcile.OwnPrefixDecides | cmd/transflect-operator/envoyfilter.go:55-62 | With an own prefix annotation only the answer for it decides what is written, without one only the answer for the operator's prefix |
| Reconcile.UpsertNeeds | cmd/transflect-operator/envoyfilter.go:38-70 | An upsert goes through if and only if every call that it makes does, each named |
| Reconcile.DeleteCounts | cmd/transflect-operator/envoyfilter.go:23-36 | A delete that is not refused takes the filter and lowers the gauge, also for a filter that is not there; a refused one does nothing |
| Reconcile.UncachedIff | cmd/transflect-operator/operator.go:295-300 | An event of a deployment that is not cached is processed exactly if it is ready and names a port |
| Operators.Resources.CreateOrUpdate | cmd/transflect-operator/envoyfilter.go:243-264 | Create, else get and update: the resource is there with the new content, or nothing has changed |
| Operators.Operator.CreateService | cmd/transflect-operator/envoyfilter.go:107-133 | The Service is created or taken over, or nothing has changed |
| Operators.Operator.CreateIngress | cmd/transflect-operator/envoyfilter.go:161-188 | The Ingress is created or taken over, or nothing has changed |
| Operators.Operator.UpsertEnvoyFilter | cmd/transflect-operator/envoyfilter.go:234-265 | The filter is written and the gauge raised exactly if it is new, or nothing has changed |
| Operators.Operator.UpsertFilter | cmd/transflect-operator/envoyfilter.go:38-70 | With the deferred deletions on every way out, the whole new cluster state and the success are those of the closed form |
| Operators.Operator.DeleteFilter | cmd/transflect-operator/envoyfilter.go:23-36 | The filter is gone and the gauge lowered, also for a filter that was not there; a refused delete changes nothing |
| Operators.Operator.ShouldProcessReplicaset | cmd/transflect-operator/operator.go:271-301 | The early returns amount to the one condition that the runs reason about |
| Operators.Operator.ProcessReplicaset | cmd/transflect-operator/operator.go:303-322 | Whole new state; the lock entry goes exactly when the event deletes, even if the API refuses |
| Operators.Operator.ProcessNext | cmd/transflect-operator/operator.go:256-268 | An undisturbed event from lock to unlock is one step of the runs and leaves its lock free |
| Operators.Operator.CleanupDeployment | cmd/transflect-operator/operator.go:501-514 | Cache entry and lock entry under the deployment's namespace and name go, nothing else |
| Operators.Operator.SyncActive | cmd/transflect-operator/operator.go:449-481 | Lists until a call succeeds, gives up after twelve failures and changes nothing then; the first page that comes makes cache and gauge |
| Operators.Operator.SyncPage | cmd/transflect-operator/operator.go:466-477 | One page of filters into cache and gauge; unreadable ones are skipped |
| Operators.MergedLast | cmd/transflect-operator/operator.go:466-472 | Of several filters with one deployment the last listed counts |
| Runs.KeptByStep | cmd/transflect-operator/operator.go:303-322 | After every step every cached deployment has its filter with the cached port and revision and the gauge follows the filters; agreement is lost if and only if a delete was refused |
| Runs.AgreeAlways | cmd/transflect-operator/operator.go:303-322 | In every reachable state of runs whose deletes succeed a key is cached exactly when its filter exists, with the same port and revision |
| Runs.AgreeIffNoRefusal | cmd/transflect-operator/operator.go:303-322 | Cache and cluster agree in every state of a run if and only if the API refuses no delete |
| Runs.OrphanFilterStays | cmd/transflect-operator/operator.go:276-298 | Without a cache entry no event without a port touches the deployment's filter, whatever fails |
| Runs.RefusedDeleteIsFinal | cmd/transflect-operator/operator.go:305-308 | After a refused delete the filter stays, re-deliveries of the event included, until the deployment names a port again or is deleted: cache and cluster never agree before that |
| Witnesses.RefusedDelete | cmd/transflect-operator/operator.go:305-308 | A run from the empty cluster that ends in disagreement by a refused delete |
| Runs.CoveredAlways | cmd/transflect-operator/operator.go:303-322 | In every run, whatever fails, a cached deployment has its filter |
| Runs.OwnedAlways | cmd/transflect-operator/envoyfilter.go:340-343 | In every run every filter is owned by the deployment that it is named after |
| Runs.DeletedIsOwned | cmd/transflect-operator/envoyfilter.go:315 | So the filters that go with a deleted deployment are exactly those that it owns |
| Runs.GaugeLaw | cmd/transflect-operator/envoyfilter.go:243-264 | In every run, whatever fails, gauge minus number of filters grows by exactly the filters collected with their deployment |
| Runs.GaugeConserved | cmd/transflect-operator/envoyfilter.go:23-36 | When deletes succeed cache and cluster have equally many; the gauge is that number if and only if no filter went with its deployment |
| Witnesses.GarbageUncounted | cmd/transflect-operator/operator.go:501-514 | A run from the empty cluster after which the gauge counts a filter that went with its deployment |
| Runs.TemporariesGone | cmd/transflect-operator/envoyfilter.go:43-50 | Over whole runs: a Service or Ingress that is new or different can be blamed on a refused delete for its replica set; one that is missing was that of a replica set in the run |
| Runs.RevisionsNeverGoBack | cmd/transflect-operator/operator.go:276-294 | From an entry's appearance to its removal its revision never decreases, whatever fails |
| Runs.DeletedComesBack | cmd/transflect-operator/operator.go:295-319 | The removal forgets the revision: after a delete the next ready event of the deployment with a port is upserted whatever its revision |
| Witnesses.OlderComesBack | cmd/transflect-operator/operator.go:295-319 | A run from the empty cluster in which every call succeeds and an older revision's filter is back after a newer revision had it deleted |
| Runs.IgnoredIff | cmd/transflect-operator/operator.go:271-301 | An event of a cached deployment is ignored if and only if it is the same again, older, without a revision or not ready |
| Runs.ChangeNoticed | cmd/transflect-operator/operator.go:276-294 | An event of the cached revision is processed if and only if the port or one of the exclude, include and prefix annotations differs from those of the event that was stored |
| Runs.ChangeNoticedLater | cmd/transflect-operator/operator.go:276-294 | The same after every upsert and any replays since |
| Runs.ReplaysSilent | cmd/transflect-operator/operator.go:276-294 | Any number of re-deliveries and older revisions leave entry and filter alone, with any events of other deployments between them |
| Runs.UpsertThenSilent | cmd/transflect-operator/operator.go:314-319 | After a successful upsert the resync's replays change neither cache nor cluster |
| Runs.NewestWins | cmd/transflect-operator/operator.go:271-322 | From no entry, after any run, the entry is that of the last of the highest revision among the events that could be upserted; there is one exactly if there was such an event |
| Restart.RebuiltIffOnePage | cmd/transflect-operator/operator.go:449-499 | The cache of a new process knows every deployment if and only if there are at most 42 filters and no cached revision is 0; what it knows is right up to include, exclude and prefix; the gauge is what was read |
| Witnesses.PageTooSmall | cmd/transflect-operator/operator.go:450-453 | Runs from the empty cluster that end with any number of filters above 42: whatever page a new process reads, it misses one and the gauge is short |
| Runs.StoredAlways | cmd/transflect-operator/operator.go:295-319 | Cached entries have a port in every run, as the restart lemmas ask for |
| Restart.RestartRecovers | cmd/transflect-operator/operator.go:516-524 | However many filters there are and whatever page was read: replaying each deployment's last stored event, in any order and repetition, restores exactly the old cache if the upserts go through; at most one upsert a deployment, and only where the filter was not read or an annotation was lost |
| Restart.GaugeStaysShort | cmd/transflect-operator/envoyfilter.go:243-264 | The gauge does not recover with it: it stays at the number of entries that were read |
| MicroSteps.FinishIsNext | cmd/transflect-operator/operator.go:260-268 | The separate actions of a worker, nobody interfering, do what the whole step does |
| Workers.HallStep | cmd/transflect-operator/operator.go:256-268 | Each action of a worker is the matching action of the lock protocol or none |
| Workers.KeyInvStep | cmd/transflect-operator/operator.go:256-268 | The locks stay in order for one deployment under every action, whatever it does to the locks of others |
| Workers.OneAtKey | cmd/transflect-operator/operator.go:59-61 | Then one worker runs at it, and its unlock will not be fatal |
| Workers.FinishFrame | cmd/transflect-operator/operator.go:303-322 | What is left of a step changes nothing of another deployment |
| Workers.FinishSame | cmd/transflect-operator/operator.go:303-322 | What is left of a step depends on its own deployment only: two states alike there stay alike |
| Slices.EntrySame | cmd/transflect-operator/operator.go:303-322 | A step does the same to states alike on its own deployment, and nothing to the others |
| Slices.Slice | cmd/transflect-operator/operator.go:237-322 | Serial runs come apart by deployment: each is left as by its own steps and cleanups alone |
| Slices.GaugeInserted | cmd/transflect-operator/operator.go:501-514 | A cleanup put right before a step changes the gauge of a serial run only through that step |
| Serial.FinishCleaned | cmd/transflect-operator/operator.go:303-322 | A cleanup of the cache after a worker's decision is either overwritten by the entry stored later, or takes what is left in the end, and changes nothing else |
| Serial.CleanAfterIff | cmd/transflect-operator/operator.go:501-514 | A cleanup that falls into a section after the decision counts as after the step if and only if no entry is still to be stored |
| Serial.CleanEarly | cmd/transflect-operator/operator.go:501-514 | Otherwise, and before the decision, it counts as before the step: with it there the deployment is still linked to its serial entries |
| Serial.KeyLinkStep | cmd/transflect-operator/operator.go:237-322 | The invariant, deployment by deployment: the serial state is what the concurrent one will be when its worker there has finished; every action and every cleanup keeps it, whatever is done to the locks of others |
| Midway.SectionsInOrder | cmd/transflect-operator/envoyfilter.go:38-70 | In every state of concurrent runs: whoever queries a server has its Service and Ingress in place, whoever stores an entry has the filter written and the temporaries deleted, whoever drops an entry has the filter deleted, all unless refused |
| Midway.CoveredMidway | cmd/transflect-operator/operator.go:303-322 | In every state of concurrent runs, in the middle of sections too: a cached deployment has its filter, except between the delete and the removal of the entry by one worker |
| Serial.LinkedStep | cmd/transflect-operator/operator.go:237-322 | The same for all deployments together, with the gauge being what is still owed |
| Serial.Serializable | cmd/transflect-operator/operator.go:237-322 | Any number of workers, any interleaving that takes no lock from its users, cleanups of the cache at any moment: with nobody inside a section the state is that of whole steps in the order of lock acquisition, each cleanup before or after the step it fell into |
| Serial.SerializableAt | cmd/transflect-operator/operator.go:237-322 | One deployment: as long as its own lock is taken from none of its users, whatever happens to other locks and whenever it is cleaned up, its cache entry, filter and temporaries are those of the serial run whenever nobody runs at it |
| Serial.HistoryOrder | cmd/transflect-operator/operator.go:256-258 | The steps of the serial history are exactly those that got their lock, in the order in which they got it |
| Concurrent.HistoryValid | cmd/transflect-operator/operator.go:237-268 | The serial history consists of the events that were taken |
| Concurrent.SerialIsRun | cmd/transflect-operator/operator.go:237-268 | A serial history of whole events is a run in the sense of all the run properties |
| Concurrent.ConcurrentIsSerial | cmd/transflect-operator/operator.go:237-322 | Concurrent reconciliation of events ends in the state of a serial run of them |
| Concurrent.ConcurrentIsSerialAt | cmd/transflect-operator/operator.go:237-322 | The same for one deployment, under a condition on its own lock only |
| Concurrent.ConcurrentExclusion | cmd/transflect-operator/operator.go:59-61 | No two updates of one deployment run at once and its unlock is never fatal, in every run that takes its own lock from none of its users, whatever happens to the others |
| Concurrent.ConcurrentAgreement | docs/inner-workings.md:18-21 | Concurrent runs whose deletes succeed end with a filter exactly for the cached deployments, and the gauge right |
| Concurrent.ConcurrentNewestWins | cmd/transflect-operator/operator.go:271-322 | The newest revision wins in concurrent runs, in the order of lock acquisition, under a condition on the deployment's own lock only |
| Concurrent.NoRemovalIsSafe | cmd/transflect-operator/operator.go:303-312 | A run that never removes a deployment's lock takes it from none of its users, whatever it removes elsewhere |
| Concurrent.NoRemovalsAreSafe | cmd/transflect-operator/operator.go:303-312 | Runs that never reach a removal meet the condition of the lemmas about all deployments |
| UnsafeRuns.DeleteUnderWaiter | cmd/transflect-operator/operator.go:303-312 | From every cluster and events of any two replica sets of a deployment of which the first deletes: a run of the operator after which the second's worker waits in every continuation |
| UnsafeRuns.LockBeforeUnlock | cmd/transflect-operator/operator.go:256-258 | From every cluster and events of any three replica sets of a deployment of which the first deletes: a run of the operator that puts the other two into the section together |
| UnsafeRuns.FatalUnlock | cmd/transflect-operator/operator.go:256-258 | When the second of them has no port either, the run goes on to an unlock that is fatal |
| UnsafeRuns.CleanupUnderHolder | cmd/transflect-operator/operator.go:501-514 | From every cluster and events of any two replica sets of a deployment: a cleanup during the first's section lets the second in |
| UnsafeRuns.CleanupBeforeStore | cmd/transflect-operator/operator.go:501-514 | From every cluster and every event that upserts: a run in which the deployment's cleanup comes before the entry is stored, so the entry stays, and every event of a lower revision is ignored from then on, should the deployment come back |
| Witnesses.DeleteUnderWaiterHappens | cmd/transflect-operator/operator.go:303-312 | Such a run with real events: a first revision is up, a second one without a port deletes its filter, and the first, still ready and delivered again, waits for good |
| Shutdown.InvStep | cmd/transflect-operator/operator.go:208-235 | The wait count is the number of live workers, and who has closed the channel keeps the lock until it is zero: kept by every action |
| Shutdown.StopWaitsForWorkers | cmd/transflect-operator/operator.go:215-235 | Any number of workers and of concurrent calls: the channel is closed at most once, and once any call has returned it is closed, no worker runs and none is blocked for good |
| Shutdown.StopNeverStuck | cmd/transflect-operator/operator.go:221-235 | While a call has not returned some action is possible, if no worker is blocked for good |
| Shutdown.LeftFalls | cmd/transflect-operator/operator.go:208-235 | Every action brings the end closer: calls to return, workers to finish, the queue to go down |
| Shutdown.StopReturns | cmd/transflect-operator/operator.go:208-235 | No run is longer than three actions a call, one a worker and one for the queue; in a run that cannot go on all calls have returned if and only if no worker is blocked for good at a lock, and with such a worker none has |

## Left out

- Streams, dialing, marshalling, base64 and the EnvoyFilter's fixed patch structure: library calls and constants; an answer is a list of file records, each of which may fail to decode, and whether encoding fails is part of the free outcomes.
- Error answers of a reflection server: the code dereferences the missing descriptor response at pkg/transflect/transflect.go:203 and panics; the model counts it with the requests that fail.
- Retries around the collector, and all pauses: bounds set by a third-party counter; the outcome after the last attempt is what the model sees. The list call's retries are there, with that counter taken to go up by one a pause.
- Resource versions, cluster IPs and selectors: a conflict shows as a failing update. EnvoyFilters, Services and Ingresses that others write while the operator runs are outside the model, and a call that reports an error is taken to have had no effect.
- A panic in the service selection: for the state it is an upsert that fails after the deferred deletions; that the process then ends is not modelled.
- Work queue and the filter before it (cmd/transflect-operator/operator.go:180-206), informers, leases, signals, metrics other than the filters gauge, logging: what holds of all runs holds of events in any order and number, which is more than a queue would do; the runs that are shown to happen never give one replica set to two workers at once, as the queue does not.
- Collector.GetFileDescriptorSet: requires that the gathered table has no reachable import cycle, because the sort never returns otherwise (Collector.CollectionReturnsIff).
- Runs.AgreeAlways: a deleted deployment loses filter and cache entry in one step; between the cluster's collection and the cleanup call the two differ.
- Concurrent.ConcurrentIsSerial: runs of events; a cleanup call in between is covered by Serial.Serializable, which keeps it as a step of its own. The names of replica sets are taken to have one deployment each.
- Shutdown.StopWaitsForWorkers: calls of stop after runWorkers has returned; a stop while workers are still being started, or before the channel exists, is not modelled.
- Shutdown.StopReturns: which workers are blocked for good is given; that the operator can get there is UnsafeRuns.DeleteUnderWaiter. A worker that is not comes to its end once the queue is down.
- The command-line tool, its templates, the polling helpers and the auxiliary servers: plumbing.
