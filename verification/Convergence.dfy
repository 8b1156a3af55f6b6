/**
 What the invariant of `Propagation` gives: in every reachable state nothing is forgotten, a
 quiescent state is a converged one, the system by itself cannot get stuck before it converges,
 and it cannot run for ever either.
 */
module Convergence {
  import opened Common
  import opened ConfigMaps
  import opened Propagation

  /** Every state of every run satisfies the invariant. */
  lemma {:induction false} ReachableInv(selector: Selector, states: seq<State>, actions: seq<Action>)
    requires IsRun(selector, states, actions)
    ensures forall i :: 0 <= i < |states| ==> Inv(selector, states[i])
    decreases |actions|
  {
    if actions == [] {
      InitInv(selector, states[0]);
    } else {
      var k := |actions| - 1;
      ReachableInv(selector, states[..k + 1], actions[..k]);
      forall i | 0 <= i < |states|
        ensures Inv(selector, states[i])
      {
        if i <= k {
          assert states[..k + 1][i] == states[i];
        } else {
          assert Inv(selector, states[..k + 1][k]) && StepsTo(selector, states[k], actions[k], states[k + 1]);
          StepInv(selector, states[k], actions[k]);
        }
      }
    }
  }

  /** No event, notification, request, retry or worker is left. */
  ghost predicate Quiescent(s: State) {
    && s.undelivered == 0 && s.handler == Idle
    && s.dirty == {} && s.delayed == {} && s.workers == map[]
    && s.stream == [] && s.nsNotes == multiset{} && s.cmNotes == multiset{}
  }

  /** Every selected, non-terminating namespace of the cluster holds the provider's current roots. */
  ghost predicate Converged(selector: Selector, s: State) {
    forall n :: n in s.namespaces && Active(selector, s.namespaces[n]) ==>
      s.roots != "" && n in s.configMaps && Desired(s.configMaps[n].cm, s.roots)
  }

  lemma QuiescentConverged(selector: Selector, s: State)
    requires Inv(selector, s) && Quiescent(s)
    ensures s.cache == s.roots && s.view == s.namespaces && Converged(selector, s)
  {
    forall n | n in s.namespaces && Active(selector, s.namespaces[n])
      ensures s.roots != "" && n in s.configMaps && Desired(s.configMaps[n].cm, s.roots)
    {
      assert !Covered(s, n);
      assert !Needs(selector, s, n);
    }
  }

  /**
   End-to-end propagation: in every state of every run (a) a stale cache has an event behind it,
   (b) every namespace in need is covered, and once nothing is pending the cluster holds the
   provider's current roots, whatever the order of the events was.
   */
  lemma PropagationSafety(selector: Selector, states: seq<State>, actions: seq<Action>, i: nat)
    requires IsRun(selector, states, actions) && i < |states|
    ensures states[i].cache != states[i].roots ==>
      states[i].undelivered > 0 || states[i].handler.Polling? || states[i].handler == Snapshot(states[i].roots)
    ensures forall n :: Needs(selector, states[i], n) ==> Covered(states[i], n)
    ensures Quiescent(states[i]) ==> Converged(selector, states[i])
  {
    ReachableInv(selector, states, actions);
    if Quiescent(states[i]) {
      QuiescentConverged(selector, states[i]);
    }
  }

  // ----- Progress: the system is never stuck before it is quiescent.

  ghost predicate HandlerCanAct(s: State) {
    exists h :: HandlerEnabled(s, h)
  }

  /** Some quiet action is enabled in every state that is not quiescent, one of the handler if it can act. */
  lemma NeverStuck(selector: Selector, s: State) returns (a: Action)
    requires Inv(selector, s) && s.running && s.roots != "" && !Quiescent(s)
    ensures Quiet(a) && Enabled(s, a)
    ensures HandlerCanAct(s) ==> a.Handle?
  {
    if s.handler.Polling? {
      a := Handle(ReadRoots);
    } else if s.handler.Snapshot? {
      a := Handle(StoreRoots);
    } else if s.handler.Cached? {
      a := Handle(ListNamespaces);
    } else if s.handler == Enqueueing({}) {
      a := Handle(FinishHandler);
    } else if s.handler.Enqueueing? {
      var n :| n in s.handler.todo;
      a := Handle(EnqueueListed(n));
    } else if s.undelivered > 0 {
      a := Handle(ReceiveEvent);
    } else if s.workers != map[] {
      var n :| n in s.workers;
      a := Work(n, match s.workers[n]
        case Started => CheckNamespace
        case Gated => ReadCache
        case Holding(_) => GetConfigMap
        case Observed(_, _) => WriteConfigMap);
    } else {
      a := QueueNotStuck(s);
    }
  }

  lemma QueueNotStuck(s: State) returns (a: Action)
    requires s.running && !Quiescent(s)
    requires s.undelivered == 0 && s.handler == Idle && s.workers == map[]
    ensures Quiet(a) && Enabled(s, a)
  {
    if s.dirty != {} {
      var n :| n in s.dirty;
      a := Queue(StartWorker(n));
    } else if s.delayed != {} {
      var n :| n in s.delayed;
      a := Queue(TimerFires(n));
    } else if s.stream != [] {
      a := Queue(WatchNamespace);
    } else if s.nsNotes != multiset{} {
      var n :| n in s.nsNotes;
      a := Queue(NotifyNamespace(n));
    } else {
      var n :| n in s.cmNotes;
      a := Queue(NotifyConfigMap(n));
    }
  }

  // ----- Termination: every quiet step decreases (Upstream, Unsettled, Tokens).

  /** Work that has not reached the queue: root events and namespace changes. */
  ghost function Upstream(s: State): nat {
    4 * s.undelivered + |s.stream| +
    match s.handler
    case Idle => 0
    case Polling => 3
    case Snapshot(_) => 2
    case Cached => 1
    case Enqueueing(_) => 0
  }

  ghost function Todo(s: State): set<Name> {
    if s.handler.Enqueueing? then s.handler.todo else {}
  }

  /** Every name a worker may still be started for. */
  ghost function Pending(s: State): set<Name> {
    s.dirty + s.delayed + s.workers.Keys + Todo(s) + (set n | n in s.nsNotes) + (set n | n in s.cmNotes)
  }

  ghost function Outdated(s: State): set<Name> {
    set n | n in Pending(s) && !UpToDate(s, n)
  }

  ghost function StaleWorkers(s: State): set<Name> {
    set n | n in s.workers && Stale(s, n)
  }

  /** Writes that may still happen: a stale worker may undo a namespace once. */
  ghost function Unsettled(s: State): nat {
    2 * |StaleWorkers(s)| + |Outdated(s)|
  }

  /** Workers that still have to pass the given stage of Reconcile. */
  ghost function Before(workers: map<Name, Worker>, stage: int): set<Name> {
    set n | n in workers && Stage(workers[n]) < stage
  }

  ghost function Stage(w: Worker): int {
    match w
    case Started => 0
    case Gated => 1
    case Holding(_) => 2
    case Observed(_, _) => 3
  }

  ghost function WorkerTokens(workers: map<Name, Worker>): nat {
    2 * |workers| + |Before(workers, 1)| + |Before(workers, 2)| + |Before(workers, 3)|
  }

  ghost function Tokens(s: State): nat {
    8 * |s.nsNotes| + 8 * |s.cmNotes| + 8 * |Todo(s)| + 7 * |s.delayed| + 6 * |s.dirty| +
    WorkerTokens(s.workers) + (if s.handler.Enqueueing? then 1 else 0)
  }

  ghost predicate Decreases(s: State, t: State) {
    || Upstream(t) < Upstream(s)
    || (Upstream(t) == Upstream(s) && Unsettled(t) < Unsettled(s))
    || (Upstream(t) == Upstream(s) && Unsettled(t) <= Unsettled(s) && Tokens(t) < Tokens(s))
  }

  /** A step that writes nothing and adds no pending name does not unsettle anything. */
  lemma StaysSettled(s: State, t: State)
    requires t.cache == s.cache && t.configMaps == s.configMaps
    requires Pending(t) <= Pending(s)
    requires forall n :: n in t.workers && Stale(t, n) ==> n in s.workers && Stale(s, n)
    ensures Unsettled(t) <= Unsettled(s)
  {
    assert StaleWorkers(t) <= StaleWorkers(s);
    SubsetSize(StaleWorkers(t), StaleWorkers(s));
    assert Outdated(t) <= Outdated(s);
    SubsetSize(Outdated(t), Outdated(s));
  }

  // Worker tokens: a start costs 5, an advance spends 1, an end at least 2.

  lemma BeforeSize(workers: map<Name, Worker>, n: Name, stage: int)
    requires n in workers
    ensures |Before(workers, stage)| == |Before(workers - {n}, stage)| + if Stage(workers[n]) < stage then 1 else 0
  {
    assert Before(workers - {n}, stage) == Before(workers, stage) - {n};
  }

  lemma TokenSplit(workers: map<Name, Worker>, n: Name)
    requires n in workers
    ensures WorkerTokens(workers) == WorkerTokens(workers - {n}) + 5 - Stage(workers[n])
  {
    BeforeSize(workers, n, 1);
    BeforeSize(workers, n, 2);
    BeforeSize(workers, n, 3);
    assert |workers.Keys| == |(workers - {n}).Keys| + 1 by {
      assert (workers - {n}).Keys == workers.Keys - {n};
    }
  }

  lemma StartTokens(workers: map<Name, Worker>, n: Name)
    requires n !in workers
    ensures WorkerTokens(workers[n := Started]) == WorkerTokens(workers) + 5
  {
    TokenSplit(workers[n := Started], n);
    assert workers[n := Started] - {n} == workers;
  }

  lemma AdvanceTokens(workers: map<Name, Worker>, n: Name, w: Worker)
    requires n in workers && Stage(w) == Stage(workers[n]) + 1
    ensures WorkerTokens(workers[n := w]) == WorkerTokens(workers) - 1
  {
    TokenSplit(workers[n := w], n);
    TokenSplit(workers, n);
    assert workers[n := w] - {n} == workers - {n};
  }

  // One lemma per component of the system.

  lemma HandlerDecreases(selector: Selector, s: State, h: HandlerAction)
    requires HandlerEnabled(s, h)
    ensures Decreases(s, HandlerNext(selector, s, h))
  {
    match h
    case ReceiveEvent =>
    case ReadRoots =>
    case StoreRoots =>
    case ListNamespaces =>
    case EnqueueListed(n) => EnqueueDecreases(selector, s, n);
    case FinishHandler => StaysSettled(s, HandlerNext(selector, s, h));
  }

  lemma EnqueueDecreases(selector: Selector, s: State, n: Name)
    requires HandlerEnabled(s, EnqueueListed(n))
    ensures Decreases(s, HandlerNext(selector, s, EnqueueListed(n)))
  {
    var t := HandlerNext(selector, s, EnqueueListed(n));
    StaysSettled(s, t);
    assert |t.dirty| <= |s.dirty| + 1;
    assert |Todo(t)| == |Todo(s)| - 1;
  }

  /** A step that leaves the workers, the cache and the ConfigMaps alone. */
  lemma SameWorkersSettled(s: State, t: State)
    requires t.workers == s.workers && t.cache == s.cache && t.configMaps == s.configMaps
    requires Pending(t) <= Pending(s)
    ensures Unsettled(t) <= Unsettled(s)
  {
    StaysSettled(s, t);
  }

  /** Moving a name between the stations of the queue, on the way to a worker. */
  lemma MoveDecreases(s: State, t: State, n: Name)
    requires t == s.(nsNotes := t.nsNotes, cmNotes := t.cmNotes, delayed := t.delayed, dirty := t.dirty)
    requires t.dirty == s.dirty + {n}
    requires Pending(t) <= Pending(s)
    requires 8 * |t.nsNotes| + 8 * |t.cmNotes| + 7 * |t.delayed| + 7 <= 8 * |s.nsNotes| + 8 * |s.cmNotes| + 7 * |s.delayed|
    ensures Decreases(s, t)
  {
    SameWorkersSettled(s, t);
    MoveCost(s, t, n);
  }

  lemma MoveCost(s: State, t: State, n: Name)
    requires t.workers == s.workers && t.handler == s.handler && t.undelivered == s.undelivered && t.stream == s.stream
    requires t.dirty == s.dirty + {n}
    requires 8 * |t.nsNotes| + 8 * |t.cmNotes| + 7 * |t.delayed| + 7 <= 8 * |s.nsNotes| + 8 * |s.cmNotes| + 7 * |s.delayed|
    ensures Upstream(t) == Upstream(s) && Tokens(t) < Tokens(s)
  {
    assert |t.dirty| <= |s.dirty| + 1;
  }

  lemma QueueDecreases(s: State, q: QueueAction)
    requires QueueEnabled(s, q)
    ensures Decreases(s, QueueNext(s, q))
  {
    match q
    case WatchNamespace =>
    case NotifyNamespace(n) => NsNoteDecreases(s, n);
    case NotifyConfigMap(n) => CmNoteDecreases(s, n);
    case TimerFires(n) => TimerDecreases(s, n);
    case StartWorker(n) => StartDecreases(s, n);
  }

  lemma NsNoteDecreases(s: State, n: Name)
    requires n in s.nsNotes
    ensures Decreases(s, QueueNext(s, NotifyNamespace(n)))
  {
    var t := QueueNext(s, NotifyNamespace(n));
    assert |t.nsNotes| == |s.nsNotes| - 1;
    MoveDecreases(s, t, n);
  }

  lemma CmNoteDecreases(s: State, n: Name)
    requires n in s.cmNotes
    ensures Decreases(s, QueueNext(s, NotifyConfigMap(n)))
  {
    var t := QueueNext(s, NotifyConfigMap(n));
    assert |t.cmNotes| == |s.cmNotes| - 1;
    MoveDecreases(s, t, n);
  }

  lemma TimerDecreases(s: State, n: Name)
    requires n in s.delayed
    ensures Decreases(s, QueueNext(s, TimerFires(n)))
  {
    var t := QueueNext(s, TimerFires(n));
    assert |t.delayed| == |s.delayed| - 1;
    MoveDecreases(s, t, n);
  }

  lemma StartDecreases(s: State, n: Name)
    requires n in s.dirty && n !in s.workers
    ensures Decreases(s, QueueNext(s, StartWorker(n)))
  {
    StartSettled(s, n);
    StartCost(s, n);
  }

  lemma StartSettled(s: State, n: Name)
    requires n in s.dirty && n !in s.workers
    ensures Unsettled(QueueNext(s, StartWorker(n))) <= Unsettled(s)
  {
    var t := QueueNext(s, StartWorker(n));
    assert t.workers.Keys == s.workers.Keys + {n};
    assert Pending(t) <= Pending(s);
    StaysSettled(s, t);
  }

  lemma StartCost(s: State, n: Name)
    requires n in s.dirty && n !in s.workers
    ensures var t := QueueNext(s, StartWorker(n)); Upstream(t) == Upstream(s) && Tokens(t) < Tokens(s)
  {
    var t := QueueNext(s, StartWorker(n));
    StartTokens(s.workers, n);
    assert |t.dirty| == |s.dirty| - 1;
  }

  /** A worker that moves on without a write, and is not stale unless it was before. */
  lemma MoveOnDecreases(s: State, n: Name, w: Worker)
    requires n in s.workers && Stage(w) == Stage(s.workers[n]) + 1
    requires Stale(Advance(s, n, w), n) ==> Stale(s, n)
    ensures Decreases(s, Advance(s, n, w))
  {
    MoveOnSettled(s, n, w);
    MoveOnCost(s, n, w);
  }

  lemma MoveOnCost(s: State, n: Name, w: Worker)
    requires n in s.workers && Stage(w) == Stage(s.workers[n]) + 1
    ensures Upstream(Advance(s, n, w)) == Upstream(s) && Tokens(Advance(s, n, w)) < Tokens(s)
  {
    AdvanceTokens(s.workers, n, w);
  }

  lemma MoveOnSettled(s: State, n: Name, w: Worker)
    requires n in s.workers
    requires Stale(Advance(s, n, w), n) ==> Stale(s, n)
    ensures Unsettled(Advance(s, n, w)) <= Unsettled(s)
  {
    var t := Advance(s, n, w);
    assert t.workers.Keys == s.workers.Keys;
    assert Pending(t) == Pending(s);
    assert forall m :: m in t.workers && m != n ==> t.workers[m] == s.workers[m];
    StaysSettled(s, t);
  }

  lemma FinishDecreases(s: State, n: Name)
    requires n in s.workers
    ensures Decreases(s, Finish(s, n))
  {
    FinishSettled(s, n);
    FinishCost(s, n);
  }

  lemma FinishCost(s: State, n: Name)
    requires n in s.workers
    ensures Upstream(Finish(s, n)) == Upstream(s) && Tokens(Finish(s, n)) < Tokens(s)
  {
    TokenSplit(s.workers, n);
  }

  lemma FinishSettled(s: State, n: Name)
    requires n in s.workers
    ensures Unsettled(Finish(s, n)) <= Unsettled(s)
  {
    var t := Finish(s, n);
    assert t.workers.Keys == s.workers.Keys - {n};
    assert Pending(t) <= Pending(s);
    assert forall m :: m in t.workers ==> t.workers[m] == s.workers[m];
    StaysSettled(s, t);
  }

  /** When the worker of `n` ends, it leaves the set of stale workers. */
  lemma StaleEnds(s: State, t: State, n: Name)
    requires n in s.workers && t.workers == s.workers - {n} && t.cache == s.cache
    requires forall m :: m != n ==> Lookup(t.configMaps, m) == Lookup(s.configMaps, m)
    ensures |StaleWorkers(t)| == |StaleWorkers(s)| - if Stale(s, n) then 1 else 0
  {
    assert forall m :: m != n ==> Stale(t, m) == Stale(s, m);
    assert StaleWorkers(t) == StaleWorkers(s) - {n};
  }

  /** A write of `n` changes the set of outdated namespaces only at `n`. */
  lemma OutdatedChanges(s: State, t: State, n: Name)
    requires Pending(t) <= Pending(s) && t.cache == s.cache
    requires forall m :: m != n ==> Lookup(t.configMaps, m) == Lookup(s.configMaps, m)
    ensures |Outdated(t)| <= |Outdated(s)| + 1
    ensures UpToDate(s, n) == UpToDate(t, n) ==> |Outdated(t)| <= |Outdated(s)|
    ensures n in Pending(s) && !UpToDate(s, n) && UpToDate(t, n) ==> |Outdated(t)| < |Outdated(s)|
  {
    forall m | m != n
      ensures UpToDate(t, m) == UpToDate(s, m)
    {
      assert Lookup(t.configMaps, m) == Lookup(s.configMaps, m);
    }
    assert Outdated(t) <= Outdated(s) + {n};
    SubsetSize(Outdated(t), Outdated(s) + {n});
    if UpToDate(s, n) == UpToDate(t, n) {
      SubsetSize(Outdated(t), Outdated(s));
    } else if n in Pending(s) && UpToDate(t, n) {
      ProperSubsetSize(Outdated(t), Outdated(s), n);
    }
  }

  /** A conflict only happens to a stale worker, which is then gone. */
  lemma ConflictDecreases(s: State, n: Name)
    requires n in s.workers && Stale(s, n)
    ensures Decreases(s, Retry(s, n))
  {
    RetryFrame(s, n);
    StaleEnds(s, Retry(s, n), n);
    OutdatedChanges(s, Retry(s, n), n);
  }

  lemma RetryFrame(s: State, n: Name)
    requires n in s.workers
    ensures var t := Retry(s, n);
      && Pending(t) <= Pending(s) && Upstream(t) == Upstream(s)
      && t.workers == s.workers - {n} && t.cache == s.cache && t.configMaps == s.configMaps
      && UpToDate(s, n) == UpToDate(t, n)
  {
  }

  lemma PutFrame(s: State, n: Name, cm: ConfigMap)
    requires n in s.workers
    ensures var t := Finish(Put(s, n, cm), n);
      && n in Pending(s) && Pending(t) <= Pending(s) && Upstream(t) == Upstream(s)
      && t.workers == s.workers - {n} && t.cache == s.cache
      && (s.cache != "" && Desired(cm, s.cache) ==> UpToDate(t, n))
      && forall m :: m != n ==> Lookup(t.configMaps, m) == Lookup(s.configMaps, m)
  {
  }

  /** A write settles its namespace, or removes a stale worker at the price of unsettling it. */
  lemma PutDecreases(s: State, n: Name, cm: ConfigMap)
    requires n in s.workers && s.cache != ""
    requires !Stale(s, n) ==> !UpToDate(s, n) && Desired(cm, s.cache)
    ensures Decreases(s, Finish(Put(s, n, cm), n))
  {
    var t := Finish(Put(s, n, cm), n);
    PutFrame(s, n, cm);
    StaleEnds(s, t, n);
    OutdatedChanges(s, t, n);
  }

  lemma WorkDecreases(selector: Selector, s: State, n: Name, w: WorkAction)
    requires n in s.workers && WorkEnabled(s, n, w) && s.cache != "" && !w.CallFails?
    ensures Decreases(s, WorkNext(selector, s, n, w))
  {
    var at := s.workers[n];
    match w
    case CheckNamespace =>
      MoveOnDecreases(s, n, Gated);
      FinishDecreases(s, n);
    case ReadCache => MoveOnDecreases(s, n, Holding(s.cache));
    case GetConfigMap => MoveOnDecreases(s, n, Observed(at.pem, Lookup(s.configMaps, n)));
    case WriteConfigMap =>
      if PlanOf(at).NoWrite? {
        FinishDecreases(s, n);
      } else if Accepted(s, n, at.seen) {
        PutDecreases(s, n, PlanOf(at).cm);
      } else {
        ConflictDecreases(s, n);
      }
  }

  /** Once the cache is filled, every quiet step decreases the measure. */
  lemma QuietDecreases(selector: Selector, s: State, a: Action)
    requires Enabled(s, a) && Quiet(a) && s.cache != ""
    ensures Decreases(s, Next(selector, s, a))
  {
    match a
    case Handle(h) => HandlerDecreases(selector, s, h);
    case Queue(q) => QueueDecreases(s, q);
    case Work(n, w) => WorkDecreases(selector, s, n, w);
  }

  // ----- Whole runs in a quiet environment

  /** A quiet step changes neither the provider nor the cluster's namespaces, and keeps the cache filled. */
  ghost predicate Undisturbed(s: State, t: State) {
    && t.running == s.running && t.roots == s.roots && t.namespaces == s.namespaces
    && (s.cache != "" ==> t.cache != "")
    && Upstream(t) <= Upstream(s)
  }

  lemma QuietKeeps(selector: Selector, s: State, a: Action)
    requires Inv(selector, s) && Enabled(s, a) && Quiet(a)
    ensures Undisturbed(s, Next(selector, s, a))
    ensures a.Handle? && s.cache == "" ==> Upstream(Next(selector, s, a)) < Upstream(s)
  {
    match a
    case Handle(h) => HandlerKeeps(selector, s, h);
    case Queue(q) => QueueKeeps(s, q);
    case Work(n, w) => WorkFrame(selector, s, n, w, n);
  }

  lemma HandlerKeeps(selector: Selector, s: State, h: HandlerAction)
    requires RootsFirst(s) && HandlerEnabled(s, h)
    ensures Undisturbed(s, HandlerNext(selector, s, h))
    ensures s.cache == "" ==> Upstream(HandlerNext(selector, s, h)) < Upstream(s)
  {
  }

  lemma QueueKeeps(s: State, q: QueueAction)
    requires QueueEnabled(s, q)
    ensures Undisturbed(s, QueueNext(s, q))
  {
    match q
    case WatchNamespace => assert |QueueNext(s, q).stream| == |s.stream| - 1;
    case NotifyNamespace(_) =>
    case NotifyConfigMap(_) =>
    case TimerFires(_) =>
    case StartWorker(_) =>
  }

  ghost predicate QuietRun(selector: Selector, states: seq<State>, actions: seq<Action>) {
    && |states| == |actions| + 1
    && forall i :: 0 <= i < |actions| ==> Quiet(actions[i]) && StepsTo(selector, states[i], actions[i], states[i + 1])
  }

  lemma {:induction false} QuietRunKeeps(selector: Selector, states: seq<State>, actions: seq<Action>)
    requires QuietRun(selector, states, actions) && Inv(selector, states[0])
    ensures var last := states[|actions|];
      && Inv(selector, last)
      && last.roots == states[0].roots && last.namespaces == states[0].namespaces
      && (states[0].running ==> last.running)
    decreases |actions|
  {
    if actions == [] {
    } else {
      assert StepsTo(selector, states[0], actions[0], states[1]);
      StepInv(selector, states[0], actions[0]);
      QuietKeeps(selector, states[0], actions[0]);
      QuietRunKeeps(selector, states[1..], actions[1..]);
    }
  }

  /**
   Left alone, the system converges wherever it stops: a quiet run that cannot be continued ends
   with every selected namespace holding the roots the provider had when the world went quiet.
   */
  lemma StoppedRunConverged(selector: Selector, states: seq<State>, actions: seq<Action>)
    requires QuietRun(selector, states, actions) && Inv(selector, states[0])
    requires states[0].running && states[0].roots != ""
    requires forall a :: Quiet(a) ==> !Enabled(states[|actions|], a)
    ensures var last := states[|actions|];
      && last.roots == states[0].roots && last.namespaces == states[0].namespaces
      && Converged(selector, last)
  {
    QuietRunKeeps(selector, states, actions);
    var last := states[|actions|];
    if !Quiescent(last) {
      var a := NeverStuck(selector, last);
    }
    QuiescentConverged(selector, last);
  }

  /** An endless execution of quiet steps. */
  ghost predicate Endless(selector: Selector, states: nat -> State, actions: nat -> Action) {
    forall i: nat :: Quiet(actions(i)) && Enabled(states(i), actions(i)) && states(i + 1) == Next(selector, states(i), actions(i))
  }

  ghost predicate HandlesAfter(actions: nat -> Action, i: nat) {
    exists j: nat :: i <= j && actions(j).Handle?
  }

  /** Whenever the handler goroutine can take a step, it takes one sooner or later. */
  ghost predicate FairToHandler(states: nat -> State, actions: nat -> Action) {
    forall i: nat :: HandlerCanAct(states(i)) ==> HandlesAfter(actions, i)
  }

  lemma {:induction false} EndlessInv(selector: Selector, states: nat -> State, actions: nat -> Action, i: nat)
    requires Endless(selector, states, actions) && Inv(selector, states(0))
    ensures Inv(selector, states(i)) && states(i).roots == states(0).roots
  {
    if i == 0 {
    } else {
      EndlessInv(selector, states, actions, i - 1);
      StepInv(selector, states(i - 1), actions(i - 1));
      QuietKeeps(selector, states(i - 1), actions(i - 1));
    }
  }

  /** With a filled cache there is no endless quiet execution. */
  lemma {:induction false} NoEndlessRun(selector: Selector, states: nat -> State, actions: nat -> Action, i: nat)
    requires Inv(selector, states(0)) && states(i).cache != ""
    ensures !Endless(selector, states, actions)
    decreases Upstream(states(i)), Unsettled(states(i)), Tokens(states(i))
  {
    if Endless(selector, states, actions) {
      EndlessInv(selector, states, actions, i);
      QuietDecreases(selector, states(i), actions(i));
      QuietKeeps(selector, states(i), actions(i));
      NoEndlessRun(selector, states, actions, i + 1);
    }
  }

  /** Until the cache is filled, quiet steps never add upstream work. */
  lemma {:induction false} UpstreamShrinks(selector: Selector, states: nat -> State, actions: nat -> Action, i: nat, j: nat)
    requires Endless(selector, states, actions) && Inv(selector, states(0)) && i <= j
    ensures Upstream(states(j)) <= Upstream(states(i))
    decreases j - i
  {
    if i == j {
    } else {
      EndlessInv(selector, states, actions, i);
      QuietKeeps(selector, states(i), actions(i));
      UpstreamShrinks(selector, states, actions, i + 1, j);
    }
  }

  /** With roots set and an empty cache, the handler has something to do. */
  lemma EmptyCacheMovesHandler(selector: Selector, s: State)
    requires Inv(selector, s) && s.roots != "" && s.cache == ""
    ensures HandlerCanAct(s)
  {
    match s.handler
    case Idle => assert HandlerEnabled(s, ReceiveEvent);
    case Polling => assert HandlerEnabled(s, ReadRoots);
    case Snapshot(_) => assert HandlerEnabled(s, StoreRoots);
  }

  lemma {:induction false} CacheFills(selector: Selector, states: nat -> State, actions: nat -> Action, i: nat) returns (k: nat)
    requires Endless(selector, states, actions) && FairToHandler(states, actions)
    requires Inv(selector, states(0)) && states(0).roots != ""
    ensures states(k).cache != ""
    decreases Upstream(states(i))
  {
    if states(i).cache != "" {
      return i;
    }
    EndlessInv(selector, states, actions, i);
    EmptyCacheMovesHandler(selector, states(i));
    assert HandlesAfter(actions, i);
    var j: nat :| i <= j && actions(j).Handle?;
    if states(j).cache != "" {
      return j;
    }
    UpstreamShrinks(selector, states, actions, i, j);
    EndlessInv(selector, states, actions, j);
    QuietKeeps(selector, states(j), actions(j));
    k := CacheFills(selector, states, actions, j + 1);
  }

  /**
   Convergence: once the world is quiet and the provider has roots, no execution that is fair to the
   handler goroutine goes on for ever; fairness is needed because workers poll an empty cache every
   100 ms. With StoppedRunConverged: every fair quiet execution ends, and it ends converged.
   */
  lemma FairRunsEnd(selector: Selector, states: nat -> State, actions: nat -> Action)
    requires Inv(selector, states(0)) && states(0).roots != "" && FairToHandler(states, actions)
    ensures !Endless(selector, states, actions)
  {
    if Endless(selector, states, actions) {
      var k := CacheFills(selector, states, actions, 0);
      NoEndlessRun(selector, states, actions, k);
    }
  }

  /**
   From every reachable state the system can reach a converged one by itself: a run of quiet steps to
   quiescence exists, and it ends with the roots and the namespaces it started with.
   */
  lemma {:induction false} CanConverge(selector: Selector, s: State) returns (states: seq<State>, actions: seq<Action>)
    requires Inv(selector, s) && s.running && s.roots != ""
    ensures QuietRun(selector, states, actions) && states[0] == s
    ensures var last := states[|actions|];
      && Quiescent(last) && Converged(selector, last)
      && last.roots == s.roots && last.namespaces == s.namespaces
    decreases Upstream(s), Unsettled(s), Tokens(s)
  {
    if Quiescent(s) {
      QuiescentConverged(selector, s);
      return [s], [];
    }
    var a := NeverStuck(selector, s);
    var t := Next(selector, s, a);
    StepInv(selector, s, a);
    QuietKeeps(selector, s, a);
    if s.cache == "" {
      EmptyCacheMovesHandler(selector, s);
    } else {
      QuietDecreases(selector, s, a);
    }
    var rest, more := CanConverge(selector, t);
    states, actions := [s] + rest, [a] + more;
    PrependRun(selector, s, a, rest, more);
  }

  lemma PrependRun(selector: Selector, s: State, a: Action, states: seq<State>, actions: seq<Action>)
    requires QuietRun(selector, states, actions) && Quiet(a) && StepsTo(selector, s, a, states[0])
    ensures QuietRun(selector, [s] + states, [a] + actions)
    ensures ([s] + states)[|actions| + 1] == states[|actions|]
  {
    forall i | 0 <= i < |actions| + 1
      ensures Quiet(([a] + actions)[i]) && StepsTo(selector, ([s] + states)[i], ([a] + actions)[i], ([s] + states)[i + 1])
    {
      if i > 0 {
        assert StepsTo(selector, states[i - 1], actions[i - 1], states[i]);
      }
    }
  }

  // ----- Why the controller must subscribe before the provider starts

  /** Roots that were set before the controller subscribed: no event will ever announce them. */
  ghost predicate Unannounced(s: State) {
    s.roots != "" && s.cache == "" && s.undelivered == 0 && s.handler == Idle
  }

  /** No worker is past the check of the cache. */
  ghost predicate NoneHolds(s: State) {
    forall n :: n in s.workers ==> s.workers[n].Started? || s.workers[n].Gated?
  }

  lemma StarvesStep(selector: Selector, s: State, a: Action)
    requires Unannounced(s) && NoneHolds(s) && Enabled(s, a) && Quiet(a)
    ensures var t := Next(selector, s, a); Unannounced(t) && NoneHolds(t) && t.configMaps == s.configMaps
  {
    match a
    case Handle(h) =>
    case Queue(q) => QueueStarves(s, q);
    case Work(n, w) => WorkStarves(selector, s, n, w);
  }

  /** Left alone, such a system never fills its cache, and never writes a ConfigMap, however long it runs. */
  lemma {:induction false} LateSubscriberStarves(selector: Selector, states: seq<State>, actions: seq<Action>, i: nat)
    requires QuietRun(selector, states, actions) && i < |states|
    requires Unannounced(states[0]) && NoneHolds(states[0])
    ensures Unannounced(states[i]) && NoneHolds(states[i]) && states[i].configMaps == states[0].configMaps
  {
    if i == 0 {
    } else {
      LateSubscriberStarves(selector, states, actions, i - 1);
      assert StepsTo(selector, states[i - 1], actions[i - 1], states[i]);
      StarvesStep(selector, states[i - 1], actions[i - 1]);
    }
  }

  lemma QueueStarves(s: State, q: QueueAction)
    requires Unannounced(s) && NoneHolds(s) && QueueEnabled(s, q)
    ensures var t := QueueNext(s, q); Unannounced(t) && NoneHolds(t) && t.configMaps == s.configMaps
  {
  }

  lemma WorkStarves(selector: Selector, s: State, n: Name, w: WorkAction)
    requires Unannounced(s) && NoneHolds(s) && n in s.workers && WorkEnabled(s, n, w) && !w.CallFails?
    ensures var t := WorkNext(selector, s, n, w); Unannounced(t) && NoneHolds(t) && t.configMaps == s.configMaps
  {
    assert w.CheckNamespace? || w.ReadCache?;
  }
}
