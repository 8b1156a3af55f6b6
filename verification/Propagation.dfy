/**
 Root CA propagation as one concurrent system: the TLS provider's roots and its payload-free
 events (pkg/tls/tls.go), the event handler, cache and Reconcile of the ConfigMap controller
 (pkg/controller/configmap.go), controller-runtime's work queue, the informers and the API server.

 Every lock region, API call and queue operation is one action, so that any number of workers,
 the handler and the outside world interleave freely between two of them.
 */
module Propagation {
  import opened Common
  import opened ConfigMaps

  type Name = string

  /** An object in the API server with its resource version. */
  datatype Stored = Stored(cm: ConfigMap, version: nat)

  /** A namespace change travelling to the informer; None is a deletion. */
  datatype Change = Change(name: Name, to: Option<Namespace>)

  /** The single goroutine that runs the root event mapping function. */
  datatype Handler =
    | Idle
    | Polling                        // inside RootCAs, waiting for roots to be set
    | Snapshot(pem: string)          // RootCAs returned, cache not yet written
    | Cached                         // cache written, namespaces not yet listed
    | Enqueueing(todo: set<Name>)    // requests not yet added to the queue

  /** Where a Reconcile call of a namespace stands. */
  datatype Worker =
    | Started
    | Gated                                        // namespace found, selected, not terminating
    | Holding(pem: string)                         // cache read
    | Observed(pem: string, seen: Option<Stored>)  // ConfigMap read

  datatype State = State(
    roots: string,                     // "" while the provider has none
    undelivered: nat,                  // events sent by goroutines, not yet received
    handler: Handler,
    cache: string,                     // configmap.rootCAsPEM
    dirty: set<Name>,                  // queued, or to be queued again when its worker ends
    delayed: set<Name>,                // AddAfter and AddRateLimited
    workers: map<Name, Worker>,        // the queue's processing set
    namespaces: map<Name, Namespace>,
    view: map<Name, Namespace>,        // the lister's cache
    stream: seq<Change>,               // changes the informer has not seen
    nsNotes: multiset<Name>,           // informer notifications not yet handled
    configMaps: map<Name, Stored>,
    cmNotes: multiset<Name>,
    version: nat,
    running: bool)

  function ApplyChange(view: map<Name, Namespace>, c: Change): map<Name, Namespace> {
    if c.to.Some? then view[c.name := c.to.value] else view - {c.name}
  }

  function ApplyAll(view: map<Name, Namespace>, stream: seq<Change>): map<Name, Namespace>
    decreases |stream|
  {
    if stream == [] then view else ApplyAll(ApplyChange(view, stream[0]), stream[1..])
  }

  lemma {:induction false} ApplyAllAppend(view: map<Name, Namespace>, stream: seq<Change>, c: Change)
    ensures ApplyAll(view, stream + [c]) == ApplyChange(ApplyAll(view, stream), c)
    decreases |stream|
  {
    if stream == [] {
      assert [c][1..] == [];
      assert [] + [c] == [c];
    } else {
      assert (stream + [c])[1..] == stream[1..] + [c];
      ApplyAllAppend(ApplyChange(view, stream[0]), stream[1..], c);
    }
  }

  /** The world outside this process, and failures. */
  datatype WorldAction =
    | SetRoots(pem: string)
    | ChangeNamespace(change: Change)
    | ChangeConfigMap(name: Name, to: Option<ConfigMap>)
    | Resync(name: Name)
    | Stop

  /** The root event handler. */
  datatype HandlerAction = ReceiveEvent | ReadRoots | StoreRoots | ListNamespaces | EnqueueListed(name: Name) | FinishHandler

  /** Informers and work queue. */
  datatype QueueAction =
    | WatchNamespace
    | NotifyNamespace(name: Name)
    | NotifyConfigMap(name: Name)
    | TimerFires(name: Name)
    | StartWorker(name: Name)

  /** Reconcile of one namespace; a failing write may or may not have been applied by the server. */
  datatype WorkAction = CheckNamespace | ReadCache | GetConfigMap | WriteConfigMap | CallFails(applied: bool)

  datatype Action =
    | World(world: WorldAction)
    | Handle(handling: HandlerAction)
    | Queue(queueing: QueueAction)
    | Work(name: Name, work: WorkAction)

  /** Actions the system takes by itself when nothing changes around it and no call fails. */
  predicate Quiet(a: Action) {
    !a.World? && !(a.Work? && a.work.CallFails?)
  }

  /** The API server accepts a create of a missing object and an update of the version that was read. */
  predicate Accepted(s: State, n: Name, seen: Option<Stored>) {
    match seen
    case None => n !in s.configMaps
    case Some(o) => n in s.configMaps && s.configMaps[n].version == o.version
  }

  function PlanOf(w: Worker): Write
    requires w.Observed?
  {
    Plan(if w.seen.Some? then Some(w.seen.value.cm) else None, w.pem)
  }

  predicate Enabled(s: State, a: Action) {
    s.running &&
    match a
    case World(w) => w.SetRoots? ==> w.pem != ""
    case Handle(h) => HandlerEnabled(s, h)
    case Queue(q) => QueueEnabled(s, q)
    case Work(n, w) => n in s.workers && WorkEnabled(s, n, w)
  }

  predicate HandlerEnabled(s: State, h: HandlerAction) {
    match h
    case ReceiveEvent => s.undelivered > 0 && s.handler.Idle?
    case ReadRoots => s.handler.Polling? && s.roots != ""
    case StoreRoots => s.handler.Snapshot?
    case ListNamespaces => s.handler.Cached?
    case EnqueueListed(n) => s.handler.Enqueueing? && n in s.handler.todo
    case FinishHandler => s.handler == Enqueueing({})
  }

  predicate QueueEnabled(s: State, q: QueueAction) {
    match q
    case WatchNamespace => s.stream != []
    case NotifyNamespace(n) => n in s.nsNotes
    case NotifyConfigMap(n) => n in s.cmNotes
    case TimerFires(n) => n in s.delayed
    case StartWorker(n) => n in s.dirty && n !in s.workers
  }

  predicate WorkEnabled(s: State, n: Name, w: WorkAction)
    requires n in s.workers
  {
    var at := s.workers[n];
    match w
    case CheckNamespace => at.Started?
    case ReadCache => at.Gated?
    case GetConfigMap => at.Holding?
    case WriteConfigMap => at.Observed?
    case CallFails(applied) =>
      && !at.Gated?
      && (applied ==> at.Observed? && !PlanOf(at).NoWrite? && Accepted(s, n, at.seen))
  }

  /** The worker of `n` ends with a nil error. */
  function Finish(s: State, n: Name): State {
    s.(workers := s.workers - {n})
  }

  /** The worker of `n` ends with an error or RequeueAfter. */
  function Retry(s: State, n: Name): State {
    s.(workers := s.workers - {n}, delayed := s.delayed + {n})
  }

  function Advance(s: State, n: Name, w: Worker): State {
    s.(workers := s.workers[n := w])
  }

  function Put(s: State, n: Name, cm: ConfigMap): State {
    s.(configMaps := s.configMaps[n := Stored(cm, s.version)],
       version := s.version + 1,
       cmNotes := s.cmNotes + multiset{n})
  }

  /** The names the handler asks to reconcile: every selected namespace the lister knows. */
  function Listed(selector: Selector, view: map<Name, Namespace>): set<Name> {
    set n | n in view && selector(view[n].labels)
  }

  function Next(selector: Selector, s: State, a: Action): State
    requires Enabled(s, a)
  {
    match a
    case World(w) => WorldNext(s, w)
    case Handle(h) => HandlerNext(selector, s, h)
    case Queue(q) => QueueNext(s, q)
    case Work(n, w) => WorkNext(selector, s, n, w)
  }

  function WorldNext(s: State, w: WorldAction): State {
    match w
    case SetRoots(pem) => s.(roots := pem, undelivered := s.undelivered + 1)
    case ChangeNamespace(c) =>
      s.(namespaces := ApplyChange(s.namespaces, c), stream := s.stream + [c])
    case ChangeConfigMap(n, to) =>
      if to.Some? then Put(s, n, to.value)
      else s.(configMaps := s.configMaps - {n}, cmNotes := s.cmNotes + multiset{n})
    case Resync(n) => s.(dirty := s.dirty + {n})
    case Stop => s.(running := false)
  }

  function HandlerNext(selector: Selector, s: State, h: HandlerAction): State
    requires HandlerEnabled(s, h)
  {
    match h
    case ReceiveEvent => s.(undelivered := s.undelivered - 1, handler := Polling)
    case ReadRoots => s.(handler := Snapshot(s.roots))
    case StoreRoots => s.(cache := s.handler.pem, handler := Cached)
    case ListNamespaces => s.(handler := Enqueueing(Listed(selector, s.view)))
    case EnqueueListed(n) => s.(handler := Enqueueing(s.handler.todo - {n}), dirty := s.dirty + {n})
    case FinishHandler => s.(handler := Idle)
  }

  function QueueNext(s: State, q: QueueAction): State
    requires QueueEnabled(s, q)
  {
    match q
    case WatchNamespace =>
      s.(view := ApplyChange(s.view, s.stream[0]), stream := s.stream[1..],
         nsNotes := s.nsNotes + multiset{s.stream[0].name})
    case NotifyNamespace(n) => s.(nsNotes := s.nsNotes - multiset{n}, dirty := s.dirty + {n})
    case NotifyConfigMap(n) => s.(cmNotes := s.cmNotes - multiset{n}, dirty := s.dirty + {n})
    case TimerFires(n) => s.(delayed := s.delayed - {n}, dirty := s.dirty + {n})
    case StartWorker(n) => s.(dirty := s.dirty - {n}, workers := s.workers[n := Started])
  }

  function WorkNext(selector: Selector, s: State, n: Name, w: WorkAction): State
    requires n in s.workers && WorkEnabled(s, n, w)
  {
    var at := s.workers[n];
    match w
    case CheckNamespace =>
      if n in s.view && Active(selector, s.view[n]) then Advance(s, n, Gated) else Finish(s, n)
    case ReadCache =>
      if s.cache == "" then Retry(s, n) else Advance(s, n, Holding(s.cache))
    case GetConfigMap => Advance(s, n, Observed(at.pem, Lookup(s.configMaps, n)))
    case WriteConfigMap =>
      if PlanOf(at).NoWrite? then Finish(s, n)
      else if Accepted(s, n, at.seen) then Finish(Put(s, n, PlanOf(at).cm), n)
      else Retry(s, n)
    case CallFails(applied) =>
      if applied then Retry(Put(s, n, PlanOf(at).cm), n) else Retry(s, n)
  }

  /**
   The controller subscribed before the provider started (cmd/app/app.go:134-180): no roots, no
   event, nothing queued; the informers are about to replay the existing objects.
   */
  ghost predicate Init(s: State) {
    && s.running
    && s.roots == "" && s.undelivered == 0 && s.handler == Idle && s.cache == ""
    && s.dirty == {} && s.delayed == {} && s.workers == map[]
    && s.view == map[] && ApplyAll(map[], s.stream) == s.namespaces
    && s.nsNotes == multiset{}
    && forall n :: n in s.configMaps ==> s.configMaps[n].version < s.version
  }

  /** A run from an initial state: states[i + 1] is states[i] after actions[i]. */
  ghost predicate IsRun(selector: Selector, states: seq<State>, actions: seq<Action>) {
    && |states| == |actions| + 1
    && Init(states[0])
    && forall i :: 0 <= i < |actions| ==> StepsTo(selector, states[i], actions[i], states[i + 1])
  }

  ghost predicate StepsTo(selector: Selector, s: State, a: Action, t: State) {
    Enabled(s, a) && t == Next(selector, s, a)
  }

  // ----- The invariant

  /** What the cache will hold once the handler has written the snapshot it carries. */
  ghost function Effective(s: State): string {
    if s.handler.Snapshot? then s.handler.pem else s.cache
  }

  /** (a) A stale cache is always matched by an event that will be handled after it. */
  ghost predicate FreshOrPending(s: State) {
    Effective(s) != s.roots ==> s.undelivered > 0 || s.handler.Polling?
  }

  ghost predicate UpToDate(s: State, n: Name) {
    s.cache != "" && n in s.configMaps && Desired(s.configMaps[n].cm, s.cache)
  }

  /** The namespace's ConfigMap is not what it should be, as far as the controller can know. */
  ghost predicate Needs(selector: Selector, s: State, n: Name) {
    n in s.view && Active(selector, s.view[n]) && !UpToDate(s, n)
  }

  /** The worker read something that has changed since. */
  ghost predicate Stale(s: State, n: Name) {
    n in s.workers &&
    match s.workers[n]
    case Started => false
    case Gated => false
    case Holding(pem) => pem != s.cache
    case Observed(pem, seen) => pem != s.cache || seen != Lookup(s.configMaps, n)
  }

  /** Something pending will still bring `n` up to date. */
  ghost predicate Covered(s: State, n: Name) {
    || n in s.dirty
    || n in s.delayed
    || n in s.nsNotes
    || n in s.cmNotes
    || s.handler.Cached?
    || (s.handler.Enqueueing? && n in s.handler.todo)
    || (n in s.workers && !Stale(s, n))
  }

  /** (b) No namespace in need is forgotten. */
  ghost predicate NoneForgotten(selector: Selector, s: State) {
    forall n :: Needs(selector, s, n) ==> Covered(s, n)
  }

  /** Past the cache check a worker holds a non-empty bundle. */
  ghost predicate WorkersHoldRoots(s: State) {
    forall n :: n in s.workers && (s.workers[n].Holding? || s.workers[n].Observed?) ==> s.workers[n].pem != ""
  }

  /** The changes in flight are exactly what separates the lister's view from the cluster. */
  ghost predicate Streamed(s: State) {
    ApplyAll(s.view, s.stream) == s.namespaces
  }

  /** Nothing downstream is set before the provider's roots are. */
  ghost predicate RootsFirst(s: State) {
    && (s.roots == "" ==> s.cache == "")
    && (s.handler.Snapshot? ==> s.handler.pem != "" && s.roots != "")
    && (s.handler.Cached? || s.handler.Enqueueing? ==> s.cache != "")
  }

  ghost predicate Inv(selector: Selector, s: State) {
    && FreshOrPending(s)
    && NoneForgotten(selector, s)
    && Streamed(s)
    && RootsFirst(s)
    && WorkersHoldRoots(s)
  }

  lemma InitInv(selector: Selector, s: State)
    requires Init(s)
    ensures Inv(selector, s)
  {
  }

  /** What the invariant says besides (b). */
  ghost predicate Basics(s: State) {
    FreshOrPending(s) && Streamed(s) && RootsFirst(s) && WorkersHoldRoots(s)
  }

  lemma StepInv(selector: Selector, s: State, a: Action)
    requires Inv(selector, s) && Enabled(s, a)
    ensures Inv(selector, Next(selector, s, a))
  {
    var t := Next(selector, s, a);
    assert Basics(t) by {
      match a
      case World(w) => WorldBasics(s, w);
      case Handle(h) => HandlerBasics(selector, s, h);
      case Queue(q) => QueueBasics(s, q);
      case Work(m, w) => WorkBasics(selector, s, m, w);
    }
    forall n | Needs(selector, t, n)
      ensures Covered(t, n)
    {
      assert Needs(selector, s, n) ==> Covered(s, n);
      match a
      case World(w) => WorldCovers(selector, s, w, n);
      case Handle(h) => HandlerCovers(selector, s, h, n);
      case Queue(q) => QueueCovers(selector, s, q, n);
      case Work(m, w) =>
        if m == n {
          OwnWorkCovers(selector, s, w, n);
        } else {
          WorkFrame(selector, s, m, w, n);
          FrameCovers(selector, s, t, n);
        }
    }
  }

  lemma WorldBasics(s: State, w: WorldAction)
    requires Basics(s) && Enabled(s, World(w))
    ensures Basics(WorldNext(s, w))
  {
    match w
    case ChangeNamespace(c) => ChangeBasics(s, c);
    case SetRoots(_) =>
    case ChangeConfigMap(_, _) =>
    case Resync(_) =>
    case Stop =>
  }

  lemma ChangeBasics(s: State, c: Change)
    requires Basics(s)
    ensures Basics(WorldNext(s, ChangeNamespace(c)))
  {
    ApplyAllAppend(s.view, s.stream, c);
  }

  lemma HandlerBasics(selector: Selector, s: State, h: HandlerAction)
    requires Basics(s) && HandlerEnabled(s, h)
    ensures Basics(HandlerNext(selector, s, h))
  {
  }

  lemma QueueBasics(s: State, q: QueueAction)
    requires Basics(s) && QueueEnabled(s, q)
    ensures Basics(QueueNext(s, q))
  {
  }

  lemma WorkBasics(selector: Selector, s: State, m: Name, w: WorkAction)
    requires Basics(s) && m in s.workers && WorkEnabled(s, m, w)
    ensures Basics(WorkNext(selector, s, m, w))
  {
    WorkFrame(selector, s, m, w, m);
    var t := WorkNext(selector, s, m, w);
    forall n | n in t.workers && (t.workers[n].Holding? || t.workers[n].Observed?)
      ensures t.workers[n].pem != ""
    {
      if n != m {
        WorkFrame(selector, s, m, w, n);
      }
    }
  }

  /** Seen from `n`, the step from s to t only added notifications and retries. */
  ghost predicate SameFor(s: State, t: State, n: Name) {
    && Lookup(t.configMaps, n) == Lookup(s.configMaps, n)
    && Lookup(t.workers, n) == Lookup(s.workers, n)
    && (n in s.delayed ==> n in t.delayed)
    && (n in s.cmNotes ==> n in t.cmNotes)
  }

  /** A worker's step leaves everything but its own namespace alone. */
  lemma WorkFrame(selector: Selector, s: State, m: Name, w: WorkAction, n: Name)
    requires m in s.workers && WorkEnabled(s, m, w)
    ensures var t := WorkNext(selector, s, m, w);
      && SameOutside(s, t)
      && (n != m ==> SameFor(s, t, n))
  {
    WorkOutside(selector, s, m, w);
    if n != m {
      WorkOther(selector, s, m, w, n);
    }
  }

  lemma WorkOutside(selector: Selector, s: State, m: Name, w: WorkAction)
    requires m in s.workers && WorkEnabled(s, m, w)
    ensures SameOutside(s, WorkNext(selector, s, m, w))
  {
  }

  lemma WorkOther(selector: Selector, s: State, m: Name, w: WorkAction, n: Name)
    requires m in s.workers && WorkEnabled(s, m, w) && n != m
    ensures SameFor(s, WorkNext(selector, s, m, w), n)
  {
  }

  ghost predicate SameOutside(s: State, t: State) {
    && (t.roots, t.undelivered, t.handler, t.cache) == (s.roots, s.undelivered, s.handler, s.cache)
    && (t.namespaces, t.view, t.stream, t.nsNotes, t.dirty) == (s.namespaces, s.view, s.stream, s.nsNotes, s.dirty)
  }

  lemma FrameCovers(selector: Selector, s: State, t: State, n: Name)
    requires SameOutside(s, t) && SameFor(s, t, n)
    requires Needs(selector, s, n) ==> Covered(s, n)
    requires Needs(selector, t, n)
    ensures Covered(t, n)
  {
  }

  lemma WorldCovers(selector: Selector, s: State, w: WorldAction, n: Name)
    requires Needs(selector, s, n) ==> Covered(s, n)
    requires Needs(selector, WorldNext(s, w), n)
    ensures Covered(WorldNext(s, w), n)
  {
    match w
    case SetRoots(_) =>
    case ChangeNamespace(_) =>
    case ChangeConfigMap(m, to) =>
    case Resync(_) =>
    case Stop =>
  }

  lemma HandlerCovers(selector: Selector, s: State, h: HandlerAction, n: Name)
    requires HandlerEnabled(s, h)
    requires Needs(selector, s, n) ==> Covered(s, n)
    requires Needs(selector, HandlerNext(selector, s, h), n)
    ensures Covered(HandlerNext(selector, s, h), n)
  {
  }

  lemma QueueCovers(selector: Selector, s: State, q: QueueAction, n: Name)
    requires QueueEnabled(s, q)
    requires Needs(selector, s, n) ==> Covered(s, n)
    requires Needs(selector, QueueNext(s, q), n)
    ensures Covered(QueueNext(s, q), n)
  {
  }

  lemma OwnWorkCovers(selector: Selector, s: State, w: WorkAction, n: Name)
    requires n in s.workers && WorkEnabled(s, n, w) && WorkersHoldRoots(s)
    requires Needs(selector, s, n) ==> Covered(s, n)
    requires Needs(selector, WorkNext(selector, s, n, w), n)
    ensures Covered(WorkNext(selector, s, n, w), n)
  {
  }

  // ----- The names the handler enqueues are the requests of the controller's mapping function.

  /** A list of namespaces with the content of the lister's cache. */
  ghost predicate Lists(namespaces: seq<(string, Namespace)>, view: map<Name, Namespace>) {
    && (forall i :: 0 <= i < |namespaces| ==> namespaces[i].0 in view && view[namespaces[i].0] == namespaces[i].1)
    && (forall n :: n in view ==> exists i :: 0 <= i < |namespaces| && namespaces[i].0 == n)
  }

  /** `requests` is what `Controller.HandleRootEvent` promises for these namespaces. */
  lemma ListedAreRequests(selector: Selector, view: map<Name, Namespace>, namespaces: seq<(string, Namespace)>, requests: seq<Name>)
    requires Lists(namespaces, view)
    requires forall n :: n in requests <==> exists i :: 0 <= i < |namespaces| && namespaces[i].0 == n && selector(namespaces[i].1.labels)
    ensures forall n :: n in Listed(selector, view) <==> n in requests
  {
  }

  // ----- The worker's steps, taken without interruption, are one call of Reconcile.

  /** What the controller's Reconcile makes of a worker that is not interleaved with anything. */
  function ReconcileNext(selector: Selector, s: State, n: Name): State {
    var namespace := if n in s.view then Found(s.view[n]) else NotFound;
    var stored := if n in s.configMaps then Found(s.configMaps[n].cm) else NotFound;
    match Decide(selector, s.cache, namespace, stored)
    case Done(NoWrite) => Finish(s, n)
    case Done(w) => Finish(Put(s, n, w.cm), n)
    case RequeueSoon => Retry(s, n)
    case Failed => Retry(s, n)
  }

  function WorkAlone(selector: Selector, s: State, n: Name): State
    requires n in s.workers && s.workers[n].Started?
  {
    var checked := WorkNext(selector, s, n, CheckNamespace);
    if n !in checked.workers then checked
    else
      var read := WorkNext(selector, checked, n, ReadCache);
      if n !in read.workers then read
      else WorkNext(selector, WorkNext(selector, read, n, GetConfigMap), n, WriteConfigMap)
  }

  lemma UninterruptedReconcile(selector: Selector, s: State, n: Name)
    requires n in s.workers && s.workers[n].Started?
    ensures WorkAlone(selector, s, n) == ReconcileNext(selector, s, n)
  {
    if n in s.view && Active(selector, s.view[n]) {
      var checked := WorkNext(selector, s, n, CheckNamespace);
      assert checked == Advance(s, n, Gated);
      assert checked.workers - {n} == s.workers - {n};
      if s.cache != "" {
        AloneWrites(selector, s, n, checked);
      }
    }
  }

  lemma AloneWrites(selector: Selector, s: State, n: Name, checked: State)
    requires n in s.workers && s.workers[n].Started? && s.cache != ""
    requires checked == Advance(s, n, Gated)
    ensures var seen := if n in s.configMaps then Some(s.configMaps[n].cm) else None;
      WorkNext(selector, WorkNext(selector, WorkNext(selector, checked, n, ReadCache), n, GetConfigMap), n, WriteConfigMap)
      == match Plan(seen, s.cache) case NoWrite => Finish(s, n) case w => Finish(Put(s, n, w.cm), n)
  {
    var held := Advance(s, n, Holding(s.cache));
    assert WorkNext(selector, checked, n, ReadCache) == held by {
      assert checked.workers[n := Holding(s.cache)] == s.workers[n := Holding(s.cache)];
    }
    var seen := Observed(s.cache, Lookup(s.configMaps, n));
    var observed := Advance(s, n, seen);
    assert WorkNext(selector, held, n, GetConfigMap) == observed by {
      assert held.workers[n := seen] == s.workers[n := seen];
    }
    AloneWritesLast(selector, s, n, observed);
  }

  lemma AloneWritesLast(selector: Selector, s: State, n: Name, observed: State)
    requires n in s.workers && observed == Advance(s, n, Observed(s.cache, Lookup(s.configMaps, n)))
    ensures var seen := if n in s.configMaps then Some(s.configMaps[n].cm) else None;
      WorkNext(selector, observed, n, WriteConfigMap)
      == match Plan(seen, s.cache) case NoWrite => Finish(s, n) case w => Finish(Put(s, n, w.cm), n)
  {
    assert observed.workers - {n} == s.workers - {n};
  }
}
