# A verified model of istio-csr

istio-csr signs workload certificates for an Istio mesh through cert-manager and keeps the mesh's root
certificates in a ConfigMap of every namespace. This project models its concurrent parts as state
machines and its decision procedures as methods, and proves what they guarantee.
`dafny verify dfyconfig.toml` checks all of it.

## The parts

* **Root propagation** (`RootFile`, `Provider`, `ConfigMaps`, `Propagation`, `Convergence`, `Writes`, `Pipeline`,
  `Liveness`).
  A file or the issuer's answer changes the provider's roots; payload-free events are sent by goroutines;
  a handler copies the current roots into a cache and enqueues namespaces; workers reconcile ConfigMaps
  against an API server with versions, conflicts, failures and lagging informers. One inductive invariant
  says that nothing is ever forgotten, and another account of all runs says what is ever written: only into
  namespaces seen selected and not terminating, only bundles the provider has had, and never over something
  that was not read. From the invariant follow: a quiescent state is a converged one; the system
  is never stuck before that; left alone it can always converge and cannot run for ever. Joint runs of
  watcher, provider and controller give the two end-to-end results: every selected namespace ends up with
  the last decodable content read from the root file or, without a file, with the last issuer CA that loaded;
  and fair endless runs do get there once the world is calm, while renewals go on.
* **Issuer manager** (`Issuers`, `Signing`, `Waiting`, `Notifier`, `IssuerRuns`). The active issuer is a fold of the
  watch events; any number of Sign calls interleave with issuer changes under a read-write lock; a wait
  loses no verdict because its watch opens before its Get; notifications are goroutines that look up a
  list index late; joint runs of watcher, notifier and provisioner say when the provisioner agrees with the manager.
* **Serving certificate** (`Provider`, `Renewal`, `RenewalRuns`). Safety of roots, configuration and readiness
  over all interleavings; the renewal time in wrapping 64-bit nanoseconds; and, over timed runs of the
  provider, that with a timer and renewals on time no expired certificate is ever served.
* **Request authorisation** (`Der`, `Extensions`, `Identities`, `NodeAuth`, `Server`). A signer call happens
  exactly for authorised requests; SAN acceptance is characterised through a DER encoder and reader that
  are proved inverse to each other.
* **Names and curves** (`Revisions`, `Curves`).

Concurrency is modelled by one action per critical section, API call, channel operation or goroutine
step. Decoders, renderers, chain verification and similar calls into other libraries are function-valued
parameters; the API server, informers and the work queue are the actions of the environment. The classes
carry the fields the Go types update, and their methods are proved against the same functions the state
machines use.

## Where the code does not do what one would expect

Each of these is proved, with an input or a whole range of inputs, and with the exact condition under which
the expectation holds.

* A send to a subscriber behind a closed one indexes past the shortened list, which panics
  (`ClosedAheadPanics`, `ClosedAheadReachable`). A late lookup is right if and only if nothing at or ahead
  of the target was dropped (`LateLookup`).
* Without a startup issuer, deleting the runtime configuration is not announced, and the istiod
  certificate provisioner keeps the deleted issuer (`ProvisionerKeepsDeletedIssuer`; exact condition in
  `ProvisionerAgrees`).
* Sends race: a run from the initial state delivers two configurations swapped, and the provisioner ends on
  the older one (`SwappedDisagrees`). With receipts in the order of the launches it has received exactly what
  was announced (`IssuerRuns.InOrderAgrees`). In any order it agrees with the manager if and only if nothing was
  announced, or the notice received last means the same as the one announced last and there is a startup
  issuer or the configuration was not deleted last (`AnyOrderAgrees`).
* The watcher reads the file again only on a write, or on an event that is a removal and nothing else: a file
  replaced by a rename goes unread (`WritesAndRemovalsAreRead`). What was read last is the content of the file if and only
  if a reading event came with the last change or after it, or that change went back to what was read
  (`ReadIsCurrent`).
* A new root file leaves the served client trust pool as it was until the next renewal (`FileUpdateStale`),
  and so does a fetch that loads a new CA and then fails (`FailedFetchStale`). In every run the served pool is
  that of the current roots if and only if nothing was stored since the last installation, or the last bundle
  stored has the same pool (`TrustFollowsRoots`).
* Twice the remaining life wraps above 2^62 ns: a very long-lived certificate is renewed at once, and one
  that expired more than 2^62 ns ago would not be (`RenewsBeforeExpiry`, `ExpiredRenewsAtOnce`).
* A requested validity whose nanoseconds wrap can become negative instead of being capped (`WrappedGrant`,
  `GrantIsCappedRequest`); the maximum is never exceeded.
* SAN elements are told apart by tag number only: a universal tag 6, an empty list and a name outside IA5 are
  accepted (`UniversalTagSixAccepted`, `EmptySanAccepted`, `NonIa5SanAccepted`). An accepted value is a list of
  URI names by their ASN.1 type in RFC 5280 if and only if it has an element, every element starts with 0x86
  and every content is IA5 (`AcceptedAreUriNames`); the content need not be a URI (`EmptyUriAccepted`).
* The key usage mask lets through bytes that are no BIT STRING (`NotBitStringAccepted`). An accepted value is
  one if and only if it starts with 3, 2 and its padding is zero (`AcceptedBitString`).
* The provisioner and the Helm chart produce the same names if and only if no revision is empty or
  repeated (`HelmAgrees`, `HelmDisagrees`), although the comment on the function asks for the same names always.
* A configured additional annotation can replace the identity annotation of a CertificateRequest
  (`AnnotationReplaced`; exact condition in `Signing.Client.Sign`).

## Model

| member | source | states |
|---|---|---|
| `ConfigMaps.Repair` | pkg/controller/configmap.go:247-268 | the edited ConfigMap is the desired one, differs from the stored one exactly if that was not, keeps every foreign label and gets no other |
| `ConfigMaps.Plan` | pkg/controller/configmap.go:217-277 | nothing is written exactly if data and label are right, a create exactly if there is no object; what is written has the root key alone, the label, and exactly the foreign labels of the object it replaces |
| `ConfigMaps.Decide` | pkg/controller/configmap.go:179-278 | one Reconcile writes exactly if the namespace is found, selected and not terminating, the cache is filled and the ConfigMap is missing or wrong; when it fails and when it asks to be called again soon; what is written is the plan |
| `ConfigMaps.Controller.HandleRootEvent` | pkg/controller/configmap.go:142-170 | the cache takes the roots that were read, and the requests are exactly the selected namespaces, each once |
| `ConfigMaps.Controller.Reconcile` | pkg/controller/configmap.go:179-278 | the imperative Reconcile computes `Decide` on every branch |
| `ConfigMaps.Controller.EditInPlace` | pkg/controller/configmap.go:240-275 | the three in-place edits, in any key order, give the repaired object, and the flag is set exactly if something was wrong |
| `Propagation.StepInv` | pkg/controller/configmap.go:134-171 | every action of provider, handler, informers, queue, workers and outside world keeps the invariant: a stale cache has an event behind it, and every namespace in need is covered by something pending |
| `Propagation.WorkFrame` | pkg/controller/configmap.go:179-278 | a worker's step touches nothing but its own namespace |
| `Propagation.UninterruptedReconcile` | pkg/controller/configmap.go:179-278 | the worker's four steps without interleaving have the effect of one call of Reconcile |
| `Convergence.ReachableInv` | pkg/controller/configmap.go:134-171 | every state of every run satisfies the invariant |
| `Convergence.PropagationSafety` | pkg/controller/configmap.go:134-171 | in every state of every run: stale cache implies pending event, need implies cover, and quiescence implies that all active namespaces hold the provider's current roots |
| `Convergence.QuiescentConverged` | pkg/controller/configmap.go:179-278 | with nothing pending, cache and roots agree, the lister agrees with the cluster, and the cluster is converged |
| `Convergence.NeverStuck` | pkg/controller/configmap.go:134-171 | with roots set, every state that is not quiescent has an enabled step of the system's own |
| `Convergence.QuietDecreases` | pkg/controller/configmap.go:179-278 | with a filled cache every step of the system's own decreases a lexicographic measure, conflicts and retries included |
| `Convergence.StoppedRunConverged` | pkg/controller/configmap.go:134-171 | a run without outside changes and failures that cannot go on has converged to the roots it started with |
| `Convergence.NoEndlessRun` | pkg/controller/configmap.go:212-215 | with a filled cache there is no endless run without outside changes and failing calls |
| `Convergence.FairRunsEnd` | pkg/controller/configmap.go:208-215 | from any reachable state with roots set, no run without outside changes and failing calls that is fair to the handler is endless, although workers poll an empty cache |
| `Convergence.CanConverge` | pkg/controller/configmap.go:134-171 | from every reachable state with roots set a run of the system's own steps to a converged quiescent state exists |
| `Convergence.LateSubscriberStarves` | cmd/app/app.go:134-180 | had the controller subscribed after the roots were set, then however long it runs without outside changes and failing calls its cache stays empty and no ConfigMap is written |
| `Writes.EveryWrite` | pkg/controller/configmap.go:179-278 | in every run, whenever a ConfigMap changes and nobody else changed it, the same worker had seen the namespace selected and not terminating, the object holds exactly a bundle the provider had at some earlier moment, and every other label of the object it replaces is kept, however recently it was set |
| `Writes.NeverSelectedUntouched` | pkg/controller/configmap.go:196-206 | in every run, a namespace never seen selected and not terminating has its ConfigMap changed by others only |
| `Writes.WorkerEnds` | pkg/controller/configmap.go:186-277 | a worker that ends is tried again, unless the namespace was not active or the ConfigMap was or has just been made right; a conflict and a failing call are always tried again |
| `Propagation.ListedAreRequests` | pkg/controller/configmap.go:152-170 | the names the handler enqueues are the requests its mapping function returns |
| `Pipeline.ProviderStepPropagates` | pkg/tls/tls.go:192-199 | every step of the provider is invisible to the subscribed controller, or is one change of its roots with one event for every subscription |
| `Pipeline.StepInv` | pkg/tls/tls.go:180-199 | every step of watcher, provider and cluster keeps the invariants of provider and propagation, the agreement of the roots both see, and, with a root file, that these are the last broadcast received |
| `Pipeline.ReachableInv` | pkg/tls/tls.go:180-199 | the same in every state of every joint run |
| `Pipeline.FileReachesEveryNamespace` | pkg/tls/tls.go:180-199 | in every joint run with a root file, once its broadcasts are received and the controller is quiescent, every active namespace holds the last decodable content the watcher read |
| `Pipeline.FileNeverStuck` | pkg/tls/tls.go:180-199 | before that, a hand-over to the provider or a step of the controller's own is always enabled |
| `Pipeline.RootsAreLastLoaded` | pkg/tls/tls.go:543-568 | in every joint run without a root file, roots that are set are the CA of the last fetch that loaded one |
| `Pipeline.IssuerReachesEveryNamespace` | pkg/tls/tls.go:437-568 | in every joint run without a root file, once the controller is quiescent, every active namespace holds the CA of the last fetch that loaded one, and there is such a fetch |
| `Liveness.FileConverges` | pkg/tls/tls.go:180-199 | with a root file, every fair endless run without file events, outside changes and failing calls comes to a point from which on the controller is at rest and every active namespace holds the last decodable content read, while the provider goes on fetching and renewing |
| `Liveness.SettledConverges` | pkg/controller/configmap.go:134-278 | the same for any source of roots, from the moment the provider stores no new bundle, with the roots of that moment |
| `RootFile.Dedup` | pkg/tls/rootca/rootca.go:148-151 | removing consecutive repetitions keeps the elements and the last one, and leaves no two equal neighbours |
| `RootFile.ExpectedStep` | pkg/tls/rootca/rootca.go:123-137 | an event adds a broadcast exactly if it triggers a reload of a decodable content that differs from the last one |
| `RootFile.Watcher.LoadRootCAsFile` | pkg/tls/rootca/rootca.go:142-166 | unchanged, updated with the decoded pool, or failed, each exactly when it should |
| `RootFile.Watcher.ReloadConfig` | pkg/tls/rootca/rootca.go:123-137 | only a changed, decodable content is remembered and broadcast |
| `RootFile.Watcher.Watch` | pkg/tls/rootca/rootca.go:54-119 | fails exactly on an unreadable, empty or undecodable file; otherwise broadcasts the decodable contents observed without consecutive repetitions |
| `RootFile.LastBroadcastIsLastContent` | pkg/tls/rootca/rootca.go:54-119 | every broadcast is non-empty with its own pool, neighbours differ, and the last one is the last decodable content read |
| `RootFile.ReadIsCurrent` | pkg/tls/rootca/rootca.go:91-114 | the content read last is the file's last decodable content exactly if a reading event came with its last change or after it, or that change went back to what was read last |
| `RootFile.UnchangedIsRead` | pkg/tls/rootca/rootca.go:91-114 | a file whose decodable content never changes has been read |
| `RootFile.WritesAndRemovalsAreRead` | pkg/tls/rootca/rootca.go:91-114 | after any events, new decodable content is read and broadcast exactly if it comes with a write or with a removal that is nothing else |
| `Provider.Secured` | pkg/tls/tls.go:355-363 | the minimum version is the configured one with a floor of TLS 1.2 |
| `Provider.StepInv` | pkg/tls/tls.go:401-504 | every step keeps: roots are a non-empty bundle with its pool; a configuration implies roots, TLS 1.2 and the trust of the roots it was built from; and no step unsets roots, changes roots without announcing it, or changes the configuration by a failed fetch |
| `Provider.ProviderSafe` | pkg/tls/tls.go:180-291 | the same for every step of every interleaving of fetches, file updates, subscriptions and shutdown; a successful fetch without a root file leaves roots and trust of its own response |
| `Provider.TrustFollowsRoots` | pkg/tls/tls.go:460-499 | in every state of every run that serves a configuration, its trust pool is that of the current roots exactly if no bundle was stored since the last installation or the last one stored has the pool of the roots at that installation |
| `Provider.FileUpdateStale` | pkg/tls/tls.go:192-199 | a run from the initial state in which a root file update leaves the served trust pool stale |
| `Provider.FailedFetchStale` | pkg/tls/tls.go:460-499 | a run without a root file in which a fetch that loads a new CA and cannot install its certificate does |
| `Provider.ReadyIffInstalled` | pkg/tls/tls.go:518-527 | in every state of every run the provider is ready exactly if an installation succeeded and no shutdown followed it |
| `Provider.FirstFetchReady` | pkg/tls/tls.go:437-503 | one good fetch without a root file makes the provider ready with the issuer's roots and one event per subscription |
| `Provider.CertificateProvider.ReceiveFileRoots` | pkg/tls/tls.go:192-199 | the file goroutine's critical section is the file update of the state machine |
| `Provider.CertificateProvider.LoadCAsRoot` | pkg/tls/tls.go:543-568 | fails exactly on a bundle that is new and does not decode; an unchanged one is a no-op, a new one is stored with its pool and announced to every subscription |
| `Provider.CertificateProvider.FetchCertificate` | pkg/tls/tls.go:437-503 | with any root file updates arriving before its last critical section it computes the attempt, events included, as the state machine does; a failing fetch leaves the configuration; a successful one serves its certificate, trusts the current roots and keeps the invariant |
| `Provider.CertificateProvider.MustFetchCertificate` | pkg/tls/tls.go:297-319 | the retry loop stops at the first attempt that succeeds and keeps the invariant |
| `Provider.CertificateProvider.Start` | pkg/tls/tls.go:205-291 | over any attempts, root file updates, renewals and clock readings: each wait is computed from the expiry the last series of attempts reported, the zero time after a cancelled one; the roots are those of the attempts made; and shutdown leaves the provider not ready |
| `Provider.TryMeans` | pkg/tls/tls.go:401-504 | one attempt succeeds exactly if the issuer answered, the roots at hand (the file's, or the answered CA if it decodes) give a trust pool, the key pair matches and the expiry is known; what roots it leaves in every case; and what it then serves |
| `Provider.TryIsRun` | pkg/tls/tls.go:401-504 | an attempt is a run of the state machine with the same roots and configuration, and succeeds exactly if that run ends with a successful installation |
| `Provider.TryUntilServes` | pkg/tls/tls.go:297-319 | a series is decided by the first attempt that succeeds, made with what the failed ones before it left; if none does, all are made and the configuration stays |
| `Provider.WaitEndsInTime` | pkg/tls/tls.go:260-284 | a missing certificate is fetched without a wait, a live one before it expires and after exactly two thirds of a life below 2^62 ns |
| `Renewal.Wrap` | pkg/tls/tls.go:262-262 | the 64-bit value congruent to the exact one |
| `Renewal.Third` | pkg/tls/tls.go:262-262 | division by three that truncates toward zero |
| `Renewal.RenewsBeforeExpiry` | pkg/tls/tls.go:260-284 | for every positive remaining life the wait is strictly shorter, and is two thirds exactly if the life is below 2^62 ns |
| `Renewal.ExpiredRenewsAtOnce` | pkg/tls/tls.go:260-284 | an expired certificate is renewed at once exactly outside the range where the product wraps; the zero time waits 0 |
| `RenewalRuns.StepInv` | pkg/tls/tls.go:256-291 | every step of the timed loop keeps: after an installation a certificate is served, its timer was set by the wrapped wait, and neither timer nor renewal is overdue |
| `RenewalRuns.NeverServesExpired` | pkg/tls/tls.go:205-291 | in every timed run with a punctual timer and renewals shorter than the exact last third of the life, from the first installation until cancellation a certificate is served and it has not expired, for every life below 2^63 ns |
| `RenewalRuns.StartingUntilInstalled` | pkg/tls/tls.go:205-258 | the time before that holds no successful installation |
| `RenewalRuns.RenewalContinues` | pkg/tls/tls.go:256-291 | from any state with the timer set, a timely path of timer, fetch and installation leads to the new certificate being served with the timer set again |
| `RenewalRuns.BoundIsTight` | pkg/tls/tls.go:260-284 | a run whose one renewal takes exactly the last third serves the old certificate at its expiry |
| `Issuers.HandleOriginalIssuerRef` | pkg/certmanager/certmanager.go:583-605 | a startup issuer exactly if enabled and complete; absent exactly if disabled or entirely empty |
| `Issuers.Startup` | pkg/certmanager/certmanager.go:168-205 | starts with the given issuer exactly if it is enabled and complete, without one exactly if it is disabled or empty and runtime configuration is named, and fails otherwise |
| `Issuers.ParseIssuer` | pkg/certmanager/certmanager.go:343-370 | an issuer exactly for a ConfigMap whose three values are present and non-empty, and then the one with these values |
| `Issuers.ActiveIsLastRelevant` | pkg/certmanager/certmanager.go:339-401 | after any history the active issuer is the configuration of the last relevant event, or the startup issuer if that is a deletion or there is none; every other event is without effect |
| `Issuers.Manager.SubscribeIssuerChange` | pkg/certmanager/certmanager.go:501-514 | appends a fresh open subscription |
| `Issuers.Manager.NotifyIssuerChange` | pkg/certmanager/certmanager.go:559-579 | keeps the open subscriptions in order and launches exactly one send for each, with its index in the old list |
| `Issuers.Manager.HandleRuntimeConfigIssuerChange` | pkg/certmanager/certmanager.go:339-382 | a complete configuration is installed and sent once to every open subscription, any other changes nothing at all |
| `Issuers.Manager.HandleRuntimeConfigIssuerDeletion` | pkg/certmanager/certmanager.go:384-401 | reverts to the startup issuer; sends nil to every open subscription exactly if there is one |
| `Issuers.Manager.RunWatcher` | pkg/certmanager/certmanager.go:416-493 | over any sessions and restarts the active issuer and the announcements are those of the whole event history |
| `Issuers.Provisioner.HandleNewIssuer` | pkg/istiodcert/worker.go:126-148 | nil means the initial issuer, if there is one, and then asks for no reconcile |
| `Issuers.Provisioner.Start` | pkg/istiodcert/worker.go:103-118 | the issuer held after any deliveries is what the last one means, and how many reconciles were asked for |
| `Issuers.ProvisionerAgrees` | pkg/istiodcert/worker.go:103-148 | after in-order delivery the provisioner agrees with the manager exactly if there is a startup issuer, or the configuration was not deleted last, or there never was one; with a startup issuer it is never nil |
| `Issuers.ProvisionerKeepsDeletedIssuer` | pkg/certmanager/certmanager.go:388-392 | the input on which they disagree |
| `Notifier.StepInv` | pkg/certmanager/certmanager.go:559-579 | subscribing, closing, each visit of a notification loop, its end, each lookup and each receive keep: the list is the undropped subscriptions in order, and an index counts those ahead at launch |
| `Notifier.LateLookup` | pkg/certmanager/certmanager.go:574-578 | a late lookup finds its target if and only if neither the target nor anything ahead of it was dropped since the launch, and never finds one ahead of it |
| `Notifier.LateSend` | pkg/certmanager/certmanager.go:574-575 | a send that runs blocks on its own target under that condition, on a later one while the list is long enough, and else panics; its value is kept |
| `Notifier.EveryOpenIsSent` | pkg/certmanager/certmanager.go:564-578 | in every run, a notification that has ended launched exactly one send, with its value and old position, for every listed subscription still open, whatever was interleaved |
| `Notifier.ReceiptRecorded` | pkg/certmanager/certmanager.go:574-575 | a receipt ends one send and adds its value to what that subscriber received, and to no other's |
| `Notifier.ClosedAheadPanics` | pkg/certmanager/certmanager.go:564-578 | with the first of two subscriptions closed, the send to the second indexes out of range |
| `Notifier.ClosedAheadReachable` | pkg/certmanager/certmanager.go:501-514 | the state before that is reachable |
| `Notifier.FirstSchedule` | pkg/certmanager/certmanager.go:574-575 | a send to the open first subscriber finds it without panic, no other send finds it, and none changes what is received by or on its way to it |
| `Notifier.FirstSubscriberExactlyOnce` | pkg/certmanager/certmanager.go:559-579 | in every state of every run the announcements are those received by the open first subscriber, those on their way to it and the one about to be sent |
| `Notifier.FirstReceivedAll` | pkg/certmanager/certmanager.go:559-579 | once nothing is on its way, what it received is, as a multiset, what was announced |
| `Notifier.InOrderAccount` | pkg/certmanager/certmanager.go:559-579 | in every state of every run with receipts in the order of the launches, the announcements are, in order, those received by the open first subscriber, those on their way and the one about to be sent |
| `IssuerRuns.StepInv` | pkg/certmanager/certmanager.go:339-401 | every step of watcher, notifier and provisioner keeps: active issuer and announcements, made or due, are those of the events applied, each is on its way to or received by the provisioner once, and it holds what it received last |
| `IssuerRuns.ReachableInv` | pkg/certmanager/certmanager.go:339-401 | the same in every state of every joint run |
| `IssuerRuns.InOrderAgrees` | pkg/istiodcert/worker.go:92-148 | in every joint run with receipts in the order of the launches, at rest, the provisioner has received exactly the announcements of the events applied and agrees with the manager exactly if there is a startup issuer, or the configuration was not deleted last, or there never was one |
| `IssuerRuns.AnyOrderAgrees` | pkg/istiodcert/worker.go:92-148 | in every joint run, at rest, with or without a startup issuer, it agrees with the manager exactly if nothing was announced, or the notice received last means the same as the one announced last and there is a startup issuer or the configuration was not deleted last |
| `IssuerRuns.SwappedDisagrees` | pkg/certmanager/certmanager.go:574-575 | a joint run from the initial state that applies two configurations and delivers them swapped, after which the provisioner holds the older issuer and the manager the newer |
| `Waiting.WaitForCertificateRequest` | pkg/certmanager/certmanager.go:280-331 | the first item of Get and channel that is a removal or a status with a denial, a failure or a certificate decides, in this order of precedence; without one the wait ends only with the channel |
| `Waiting.NoLostUpdate` | pkg/certmanager/certmanager.go:281-293 | with sticky verdicts the wait is blocked exactly if the server had no verdict in any version shown, and otherwise reports the server's verdict |
| `Waiting.GetBeforeWatchLoses` | pkg/certmanager/certmanager.go:281-293 | with Get before the watch a verdict can be missed for ever |
| `Signing.StepInv` | pkg/certmanager/certmanager.go:208-274 | every action of calls, issuer changes and server keeps lock, issuer, ownership, cleanup and bundle invariants |
| `Signing.IssuerStable` | pkg/certmanager/certmanager.go:208-274 | in every run, from the creation of its request until a call returns a bundle the active issuer is the one in that request, and the bundle is a signed snapshot of it |
| `Signing.CleanupConserved` | pkg/certmanager/certmanager.go:244-263 | at every moment exactly one deletion has been launched for each request whose call has returned, and none if requests are preserved |
| `Signing.ChangesWaitForCalls` | pkg/certmanager/certmanager.go:339-341 | an issuer change is applied only when no call is in flight |
| `Signing.ActiveIsFold` | pkg/certmanager/certmanager.go:339-401 | under any interleaving the active issuer is the fold of the applied events |
| `Signing.Client.Sign` | pkg/certmanager/certmanager.go:208-274 | what is sent, annotations included; a bundle exactly if all calls succeed and the first deciding item is a good status with that bundle; exactly when it is an error or still waiting; when one deletion is launched |
| `Signing.SignReturns` | pkg/certmanager/certmanager.go:265-273 | the end of a call's wait is a step of the concurrent system that returns the same bundle or error |
| `Der.ReadEncoded` | pkg/server/internal/extensions/extensions.go:142-163 | an encoded element followed by anything is read back, consuming exactly its bytes |
| `Der.EncodeRead` | pkg/server/internal/extensions/extensions.go:142-163 | whatever is read is the unique encoding of what was read, followed by the rest |
| `Der.ReadAllIffEncoded` | pkg/server/internal/extensions/extensions.go:154-169 | bytes are read as a list of elements exactly if they are its encoding |
| `Der.LongLengths` | pkg/server/internal/extensions/extensions.go:142-163 | lengths from 128 are written in one or more octets, most significant first |
| `Der.LongTags` | pkg/server/internal/extensions/extensions.go:142-163 | the identifier octets of short and long tags, bit by bit |
| `Extensions.ValidateSubjectAltName` | pkg/server/internal/extensions/extensions.go:137-172 | accepts exactly the encodings of universal sequences whose elements all have tag number 6 |
| `Extensions.EncodedSanAccepted` | pkg/server/internal/extensions/extensions.go:137-172 | an encoded list is accepted exactly if all its elements have tag number 6 |
| `Extensions.SanIsOneSequence` | pkg/server/internal/extensions/extensions.go:143-152 | an accepted value starts as a universal sequence and nothing may follow it |
| `Extensions.UniversalTagSixAccepted` | pkg/server/internal/extensions/extensions.go:165-168 | an OBJECT IDENTIFIER in the list is accepted, and the value has no reading as URI names |
| `Extensions.EmptySanAccepted` | pkg/server/internal/extensions/extensions.go:154-171 | a list without a name is accepted, though section 4.2.1.6 of RFC 5280 asks for one |
| `Extensions.NonIa5SanAccepted` | pkg/server/internal/extensions/extensions.go:165-168 | a name with a byte outside IA5 is accepted |
| `Extensions.AcceptedAreUriNames` | pkg/server/internal/extensions/extensions.go:137-172 | accepted values are URI names by their ASN.1 type in RFC 5280 exactly if there is an element, every element starts with the octet 0x86 and every content is IA5 |
| `Extensions.EmptyUriAccepted` | pkg/server/internal/extensions/extensions.go:165-168 | a name of that type with no content at all is accepted |
| `Extensions.ValidateKeyUsage` | pkg/server/internal/extensions/extensions.go:89-110 | the in-place clearing accepts exactly four bytes within the union of each column, for any table |
| `Extensions.MaskingIsExact` | pkg/server/internal/extensions/extensions.go:97-107 | a value passes exactly if every bit set is set in some row, so row order is irrelevant |
| `Extensions.KeyUsageBytes` | pkg/server/internal/extensions/extensions.go:89-110 | exactly which values each of the four bytes may have |
| `Extensions.AcceptedBitString` | pkg/server/internal/extensions/extensions.go:89-110 | an accepted value is a DER BIT STRING exactly if its first bytes are 3 and 2 and its padding is zero; its last byte never has bits but digitalSignature and keyEncipherment |
| `Extensions.AcceptedKeyUsages` | pkg/server/internal/extensions/extensions.go:52-55 | of the key usages in DER exactly three are accepted: digitalSignature, keyEncipherment and both |
| `Extensions.NotBitStringAccepted` | pkg/server/internal/extensions/extensions.go:97-107 | four zero bytes, and a BIT STRING with bits set in its padding, are accepted |
| `Extensions.ValidateExtendedKeyUsage` | pkg/server/internal/extensions/extensions.go:114-133 | accepts exactly readable lists of client and server authentication |
| `Extensions.ValidateCSRExtensions` | pkg/server/internal/extensions/extensions.go:61-85 | succeeds exactly if there is no extra extension and every extension is an accepted SAN, key usage or extended key usage |
| `Identities.SortBy` | pkg/server/auth.go:140-143 | sorted, and the same keys as a multiset |
| `Identities.SortedUnique` | pkg/server/auth.go:145-149 | sorted lists with the same elements are equal |
| `Identities.IdentitiesMatch` | pkg/server/auth.go:129-152 | true exactly if identities and rendered URIs are equal as multisets |
| `NodeAuth.BuildIndex` | pkg/server/node_auth.go:59-73 | the index holds a pod under a key exactly if the key function says so |
| `NodeAuth.IndexAgreesWithScan` | pkg/server/node_auth.go:115-128 | a lookup is non-empty exactly if node and account are non-empty and a scan of all pods finds one |
| `NodeAuth.AuthenticateImpersonation` | pkg/server/node_auth.go:83-131 | granted exactly if account, identity, caller pod, UID and account match and a scan finds the identity on the caller's non-empty node |
| `NodeAuth.ParseTrustedAccounts` | pkg/server/server.go:118-130 | an account is trusted exactly if it is listed as namespace/account; entries without a slash are ignored |
| `Server.AuthRequest` | pkg/server/auth.go:37-125 | succeeds exactly for authorised requests and returns the identities that were checked |
| `Server.AuthorisedMeans` | pkg/server/auth.go:37-125 | authorisation written out: first successful authenticator, identities, signature, no names but URIs, accepted extensions only, and the URIs that must match with and without impersonation |
| `Server.JoinSplits` | pkg/server/auth.go:78-78 | the joined identities determine the list if no identity contains a comma |
| `Server.GrantedDuration` | pkg/server/server.go:214-214 | never exceeds the maximum; below it, congruent to the requested nanoseconds modulo 2^64 |
| `Server.GrantIsCappedRequest` | pkg/server/server.go:212-214 | equals the capped request exactly if the product fits 64 bits or wraps to something the cap hides |
| `Server.WrappedGrant` | pkg/server/server.go:212-214 | a request of 2^34 seconds becomes negative |
| `Server.ParseCertificateBundle` | pkg/server/server.go:261-304 | a response exactly if the chain decodes, verifies with its intermediates against the roots and encodes; entry i is certificate i, and the last one the PEM of these roots |
| `Server.CreateCertificate` | pkg/server/server.go:202-237 | the signer is called exactly for authorised requests, with the unmodified CSR, the checked identities and a duration within the maximum; the client gets a chain, in order, exactly if the bundle was signed and verifies |
| `Server.ImpersonationRunsOnCallersNode` | pkg/server/auth.go:62-121 | an authorised impersonation means that a pod of that identity runs on the caller's node and the CSR carries that one URI |
| `Revisions.MakeDNSNamesFromRevisions` | pkg/istiodcert/worker.go:257-296 | common name and names in order, letter by letter, from which the revisions are recovered |
| `Revisions.RecoverName` | pkg/istiodcert/worker.go:268-279 | one name gives back its revision, and equals the common name exactly for the default revision |
| `Revisions.RevisionsRecoverable` | pkg/istiodcert/worker.go:257-296 | the ordered revisions are recoverable for every list and namespace |
| `Revisions.HelmRangeMeans` | deploy/charts/istio-csr/templates/certificate.yaml:25-39 | the template succeeds exactly if the revisions are distinct once default is blanked, with one name each |
| `Revisions.HelmAgrees` | deploy/charts/istio-csr/templates/certificate.yaml:24-42 | chart and provisioner agree exactly on lists without empty and repeated revisions |
| `Revisions.HelmDisagrees` | deploy/charts/istio-csr/templates/certificate.yaml:24-42 | an empty revision gets different names from the two, and a repeated one makes the chart fail |
| `Curves.TrimMeans` | pkg/tls/curves.go:39-39 | trimming removes exactly the surrounding white space |
| `Curves.ParseUint16` | pkg/tls/curves.go:54-57 | succeeds exactly on ASCII decimals up to 65535, with their value |
| `Curves.PrintedIsRead` | pkg/tls/curves.go:54-57 | every number is read back from its decimal notation, with any number of leading zeros |
| `Curves.ParseCurveID` | pkg/tls/curves.go:52-74 | a decimal is its value, anything else its alias, whatever digits there are beyond ASCII |
| `Curves.ParseCurvePreferences` | pkg/tls/curves.go:33-50 | succeeds exactly if every trimmed entry denotes a group, in order and of the same length |

## Left out

- Kubernetes, gRPC, fsnotify, metrics and logging: only their effect on the modelled state appears, as actions or inputs.
- Cryptography, PEM and X.509 decoding, SPIFFE verification: functions given as parameters; the only property assumed is that an empty bundle does not decode.
- The API server's refusal to create objects in a missing or terminating namespace: it appears as a failing call, not as a rule, so in a run without failures such a create is accepted.
- Leader election and process exit when listing namespaces fails: after `Stop` nothing is claimed.
- WaitForIssuerConfig: it waits with a subscription of its own, and a change between its check and that subscription is not seen; only the notifier it uses is modelled.
- Re-adding the file watch after a removal, and events lost if that fails: the file events are an input.
- Order of goroutine sends: unordered in the model as in the code; in-order delivery is an assumption only where it is stated.
- Provider.CertificateProvider.Start: the retry schedule of the first fetch, the 20 second ticker and key generation are not modelled; root file updates arrive at the start of an attempt there, and `ProviderSafe` covers them at every other point.
- RenewalRuns.NeverServesExpired: the renewal timer is set at the moment of the installation; the code reads the clock right after it, and that moment is not modelled.
- The Certificate written by the provisioner beyond its names, and validation of its options: straight copying of fields.
- Upkeep of the pod index by the informer: the index is taken as built from the key function.
- NodeAuth.AuthenticateImpersonation: the identity parser is a parameter, so the trust domain of an identity, which the code does not examine, plays no part.
- Server.ParseCertificateBundle: chain decoding is taken to give at least one certificate, which the code relies on when it takes the first.
- ConfigMaps.Controller.HandleRootEvent: the namespaces it lists are given; a failing list ends the process.
