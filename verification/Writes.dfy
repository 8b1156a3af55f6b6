/**
 What the controller ever writes, over all runs of the propagation system: only into namespaces it has seen
 selected and not terminating, only bundles the provider has had, and never over something it has not read.
 */
module Writes {
  import opened Common
  import opened ConfigMaps
  import opened Propagation
  import V = Convergence

  /** The ConfigMap of `n` is not the same before and after. */
  ghost predicate Changed(s: State, t: State, n: Name) {
    Lookup(t.configMaps, n) != Lookup(s.configMaps, n)
  }

  /** Somebody else created, updated or deleted the ConfigMap of `n`. */
  predicate ByOthers(a: Action, n: Name) {
    a.World? && a.world.ChangeConfigMap? && a.world.name == n
  }

  /** The controller changes a ConfigMap only by the write that its worker has planned, and that is accepted. */
  lemma WriteStep(selector: Selector, s: State, a: Action, n: Name)
    requires Enabled(s, a) && Changed(s, Next(selector, s, a), n) && !ByOthers(a, n)
    ensures n in s.workers && s.workers[n].Observed? && Accepted(s, n, s.workers[n].seen)
    ensures !PlanOf(s.workers[n]).NoWrite? && n in Next(selector, s, a).configMaps
    ensures Next(selector, s, a).configMaps[n].cm == PlanOf(s.workers[n]).cm
  {
    match a
    case World(w) =>
    case Handle(h) =>
    case Queue(q) =>
    case Work(m, w) =>
      if m != n {
        WorkFrame(selector, s, m, w, n);
      }
  }

  /**
   A worker that ends is tried again, unless it found the namespace not active, found the ConfigMap as it should
   be, or has just made it so. A conflict and a failing call are always tried again.
   */
  lemma WorkerEnds(selector: Selector, s: State, n: Name, w: WorkAction)
    requires n in s.workers && WorkEnabled(s, n, w) && n !in WorkNext(selector, s, n, w).workers
    ensures var at, t := s.workers[n], WorkNext(selector, s, n, w);
      || n in t.delayed
      || (at.Started? && !(n in s.view && selector(s.view[n].labels) && !s.view[n].terminating))
      || (at.Observed? && at.seen.Some? && Desired(at.seen.value.cm, at.pem))
      || (at.Observed? && n in t.configMaps && Desired(t.configMaps[n].cm, at.pem) && t.version == s.version + 1)
    ensures w.CallFails? || (w.WriteConfigMap? && !PlanOf(s.workers[n]).NoWrite? && !Accepted(s, n, s.workers[n].seen)) ==>
      n in WorkNext(selector, s, n, w).delayed
  {
  }

  // ----- Only into namespaces seen selected

  /** The worker of `n` is past its check of the namespace. */
  ghost predicate PastCheck(s: State, n: Name) {
    n in s.workers && !s.workers[n].Started?
  }

  ghost predicate SeenActive(selector: Selector, s: State, n: Name) {
    n in s.view && selector(s.view[n].labels) && !s.view[n].terminating
  }

  /** A worker gets past the check only by the check. */
  lemma CheckStep(selector: Selector, s: State, a: Action, n: Name)
    requires Enabled(s, a) && PastCheck(Next(selector, s, a), n)
    ensures PastCheck(s, n) || (a == Work(n, CheckNamespace) && SeenActive(selector, s, n))
  {
    match a
    case World(w) =>
    case Handle(h) =>
    case Queue(q) =>
    case Work(m, w) =>
      if m != n {
        WorkFrame(selector, s, m, w, n);
      }
  }

  lemma {:induction false} WasChecked(selector: Selector, states: seq<State>, actions: seq<Action>, i: nat, n: Name) returns (j: nat)
    requires IsRun(selector, states, actions) && i < |states| && PastCheck(states[i], n)
    ensures j < i && actions[j] == Work(n, CheckNamespace) && SeenActive(selector, states[j], n)
    ensures forall k :: j < k <= i ==> PastCheck(states[k], n)
    decreases i
  {
    if i == 0 {
      assert false;
    } else {
      assert StepsTo(selector, states[i - 1], actions[i - 1], states[i]);
      CheckStep(selector, states[i - 1], actions[i - 1], n);
      if PastCheck(states[i - 1], n) {
        j := WasChecked(selector, states, actions, i - 1, n);
      } else {
        j := i - 1;
      }
    }
  }

  // ----- Only bundles the provider has had

  ghost predicate WereRoots(states: seq<State>, i: nat, pem: string) {
    exists j :: 0 <= j <= i && j < |states| && states[j].roots == pem
  }

  /** What is on its way from the provider to the cluster. */
  ghost predicate Carries(s: State, pem: string) {
    || (pem != "" && s.cache == pem)
    || (s.handler.Snapshot? && s.handler.pem == pem)
    || (exists n :: HeldBy(s, n, pem))
  }

  ghost predicate HeldBy(s: State, n: Name, pem: string) {
    n in s.workers && (s.workers[n].Holding? || s.workers[n].Observed?) && s.workers[n].pem == pem
  }

  /** A bundle gets on its way only from the provider's roots. */
  lemma CarryStep(selector: Selector, s: State, a: Action, pem: string)
    requires Enabled(s, a) && Carries(Next(selector, s, a), pem)
    ensures Carries(s, pem) || s.roots == pem
  {
    match a
    case World(w) => WorldCarries(s, w, pem);
    case Handle(h) => HandlerCarries(selector, s, h, pem);
    case Queue(q) => QueueCarries(s, q, pem);
    case Work(m, w) => WorkCarries(selector, s, m, w, pem);
  }

  lemma WorldCarries(s: State, w: WorldAction, pem: string)
    requires Carries(WorldNext(s, w), pem)
    ensures Carries(s, pem)
  {
    HoldersKept(s, WorldNext(s, w), pem);
  }

  lemma HandlerCarries(selector: Selector, s: State, h: HandlerAction, pem: string)
    requires HandlerEnabled(s, h) && Carries(HandlerNext(selector, s, h), pem)
    ensures Carries(s, pem) || s.roots == pem
  {
    HoldersKept(s, HandlerNext(selector, s, h), pem);
  }

  lemma QueueCarries(s: State, q: QueueAction, pem: string)
    requires QueueEnabled(s, q) && Carries(QueueNext(s, q), pem)
    ensures Carries(s, pem)
  {
    HoldersKept(s, QueueNext(s, q), pem);
  }

  /** Outside a worker's own steps no worker gets hold of a bundle. */
  lemma HoldersKept(s: State, t: State, pem: string)
    requires forall n :: n in t.workers && !t.workers[n].Started? ==> n in s.workers && s.workers[n] == t.workers[n]
    ensures (exists n :: HeldBy(t, n, pem)) ==> exists n :: HeldBy(s, n, pem)
  {
    if n :| HeldBy(t, n, pem) {
      assert HeldBy(s, n, pem);
    }
  }

  lemma WorkCarries(selector: Selector, s: State, m: Name, w: WorkAction, pem: string)
    requires m in s.workers && WorkEnabled(s, m, w) && Carries(WorkNext(selector, s, m, w), pem)
    ensures Carries(s, pem)
  {
    var t := WorkNext(selector, s, m, w);
    WorkFrame(selector, s, m, w, m);
    if n :| HeldBy(t, n, pem) {
      if n == m {
        OwnCarries(selector, s, n, w, pem);
      } else {
        WorkFrame(selector, s, m, w, n);
        assert HeldBy(s, n, pem);
      }
    }
  }

  lemma OwnCarries(selector: Selector, s: State, n: Name, w: WorkAction, pem: string)
    requires n in s.workers && WorkEnabled(s, n, w) && HeldBy(WorkNext(selector, s, n, w), n, pem)
    ensures (pem != "" && s.cache == pem) || HeldBy(s, n, pem)
  {
  }

  lemma {:induction false} CarriedWereRoots(selector: Selector, states: seq<State>, actions: seq<Action>, i: nat, pem: string)
    requires IsRun(selector, states, actions) && i < |states| && Carries(states[i], pem)
    ensures WereRoots(states, i, pem)
    decreases i
  {
    if i == 0 {
      assert false;
    } else {
      assert StepsTo(selector, states[i - 1], actions[i - 1], states[i]);
      CarryStep(selector, states[i - 1], actions[i - 1], pem);
      if Carries(states[i - 1], pem) {
        CarriedWereRoots(selector, states, actions, i - 1, pem);
      }
    }
  }

  // ----- Never over something that was not read

  /** Versions are not used twice, so an object of the version that was read is what was read. */
  ghost predicate VersionInv(s: State) {
    && (forall n :: n in s.configMaps ==> s.configMaps[n].version < s.version)
    && (forall n :: n in s.workers ==> ReadInv(s, n))
  }

  ghost predicate ReadInv(s: State, n: Name)
    requires n in s.workers
  {
    s.workers[n].Observed? && s.workers[n].seen.Some? ==>
      && s.workers[n].seen.value.version < s.version
      && (n in s.configMaps && s.configMaps[n].version == s.workers[n].seen.value.version ==>
            s.configMaps[n] == s.workers[n].seen.value)
  }

  lemma VersionStep(selector: Selector, s: State, a: Action)
    requires VersionInv(s) && Enabled(s, a)
    ensures VersionInv(Next(selector, s, a))
  {
    match a
    case World(w) => WorldVersions(s, w);
    case Handle(h) => SameVersions(s, HandlerNext(selector, s, h));
    case Queue(q) => QueueVersions(s, q);
    case Work(m, w) => WorkVersions(selector, s, m, w);
  }

  /** A step that leaves the ConfigMaps alone and lets no worker read keeps the versions in order. */
  lemma SameVersions(s: State, t: State)
    requires VersionInv(s) && t.configMaps == s.configMaps && t.version == s.version
    requires forall n :: n in t.workers && t.workers[n].Observed? ==> n in s.workers && t.workers[n] == s.workers[n]
    ensures VersionInv(t)
  {
    forall n | n in t.workers
      ensures ReadInv(t, n)
    {
      if t.workers[n].Observed? {
        assert ReadInv(s, n);
      }
    }
  }

  lemma QueueVersions(s: State, q: QueueAction)
    requires VersionInv(s) && QueueEnabled(s, q)
    ensures VersionInv(QueueNext(s, q))
  {
    SameVersions(s, QueueNext(s, q));
  }

  lemma WorldVersions(s: State, w: WorldAction)
    requires VersionInv(s)
    ensures VersionInv(WorldNext(s, w))
  {
    var t := WorldNext(s, w);
    forall n | n in t.workers
      ensures ReadInv(t, n)
    {
      assert ReadInv(s, n);
    }
  }

  lemma WorkVersions(selector: Selector, s: State, m: Name, w: WorkAction)
    requires VersionInv(s) && m in s.workers && WorkEnabled(s, m, w)
    ensures VersionInv(WorkNext(selector, s, m, w))
  {
    var t := WorkNext(selector, s, m, w);
    VersionGrows(selector, s, m, w);
    forall n | n in t.workers
      ensures ReadInv(t, n)
    {
      if n == m {
        OwnRead(selector, s, n, w);
      } else {
        WorkFrame(selector, s, m, w, n);
        assert ReadInv(s, n);
      }
    }
  }

  lemma VersionGrows(selector: Selector, s: State, m: Name, w: WorkAction)
    requires VersionInv(s) && m in s.workers && WorkEnabled(s, m, w)
    ensures var t := WorkNext(selector, s, m, w);
      t.version >= s.version && forall n :: n in t.configMaps ==> t.configMaps[n].version < t.version
  {
    match w
    case CheckNamespace =>
    case ReadCache =>
    case GetConfigMap =>
    case WriteConfigMap => PutVersions(s, m);
    case CallFails(_) => PutVersions(s, m);
  }

  lemma PutVersions(s: State, m: Name)
    requires VersionInv(s)
    ensures forall cm, n :: n in Put(s, m, cm).configMaps ==> Put(s, m, cm).configMaps[n].version < s.version + 1
  {
  }

  lemma OwnRead(selector: Selector, s: State, n: Name, w: WorkAction)
    requires VersionInv(s) && n in s.workers && WorkEnabled(s, n, w) && n in WorkNext(selector, s, n, w).workers
    ensures ReadInv(WorkNext(selector, s, n, w), n)
  {
  }

  lemma {:induction false} VersionsFresh(selector: Selector, states: seq<State>, actions: seq<Action>, i: nat)
    requires IsRun(selector, states, actions) && i < |states|
    ensures VersionInv(states[i])
    decreases i
  {
    if i == 0 {
    } else {
      VersionsFresh(selector, states, actions, i - 1);
      assert StepsTo(selector, states[i - 1], actions[i - 1], states[i]);
      VersionStep(selector, states[i - 1], actions[i - 1]);
    }
  }

  /** A write that is accepted replaces exactly what the worker read. */
  lemma AcceptedIsRead(s: State, n: Name)
    requires VersionInv(s) && n in s.workers && s.workers[n].Observed? && Accepted(s, n, s.workers[n].seen)
    ensures Lookup(s.configMaps, n) == s.workers[n].seen
  {
    assert ReadInv(s, n);
  }

  // ----- Every write of every run

  /** The Istio label, the other labels of the object before with their values, and no further one. */
  ghost predicate LabelsKept(before: Option<Stored>, labels: Labels) {
    && labels.Keys == (if before.Some? then before.value.cm.labels.Keys else {}) + {LABEL_KEY}
    && labels[LABEL_KEY] == "true"
    && (before.Some? ==> forall k :: k in before.value.cm.labels && k != LABEL_KEY ==> labels[k] == before.value.cm.labels[k])
  }

  /**
   Whenever the ConfigMap of a namespace changes and nobody else changed it, then at action j of the same worker
   the controller saw the namespace selected and not terminating; the new object holds exactly a bundle that
   the provider had at state r, and the Istio label; and every other label of the object it replaces is kept,
   whoever wrote it and however recently.
   */
  lemma EveryWrite(selector: Selector, states: seq<State>, actions: seq<Action>, i: nat, n: Name) returns (j: nat, r: nat)
    requires IsRun(selector, states, actions) && i < |actions|
    requires Changed(states[i], states[i + 1], n) && !ByOthers(actions[i], n)
    ensures j < i && actions[j] == Work(n, CheckNamespace) && forall k :: j < k <= i ==> PastCheck(states[k], n)
    ensures n in states[j].view && selector(states[j].view[n].labels) && !states[j].view[n].terminating
    ensures r <= i && states[r].roots != ""
    ensures n in states[i + 1].configMaps && states[i + 1].configMaps[n].cm.data == map[ROOT_KEY := states[r].roots]
    ensures LabelsKept(Lookup(states[i].configMaps, n), states[i + 1].configMaps[n].cm.labels)
  {
    var s := states[i];
    assert StepsTo(selector, s, actions[i], states[i + 1]);
    WriteStep(selector, s, actions[i], n);
    j := WasChecked(selector, states, actions, i, n);
    VersionsFresh(selector, states, actions, i);
    AcceptedIsRead(s, n);
    r := BundleWasRoots(selector, states, actions, i, n);
  }

  lemma BundleWasRoots(selector: Selector, states: seq<State>, actions: seq<Action>, i: nat, n: Name) returns (r: nat)
    requires IsRun(selector, states, actions) && i < |states| && n in states[i].workers && states[i].workers[n].Observed?
    ensures r <= i && states[r].roots == states[i].workers[n].pem != ""
  {
    var pem := states[i].workers[n].pem;
    assert HeldBy(states[i], n, pem);
    CarriedWereRoots(selector, states, actions, i, pem);
    r :| 0 <= r <= i && r < |states| && states[r].roots == pem;
    V.ReachableInv(selector, states, actions);
    assert Inv(selector, states[i]);
  }

  /** A namespace that was never seen selected and not terminating is never touched by the controller. */
  lemma NeverSelectedUntouched(selector: Selector, states: seq<State>, actions: seq<Action>, i: nat, n: Name)
    requires IsRun(selector, states, actions) && i < |actions|
    requires forall j :: 0 <= j < i ==> !(n in states[j].view && selector(states[j].view[n].labels) && !states[j].view[n].terminating)
    ensures ByOthers(actions[i], n) || Lookup(states[i + 1].configMaps, n) == Lookup(states[i].configMaps, n)
  {
    if Changed(states[i], states[i + 1], n) && !ByOthers(actions[i], n) {
      var j, r := EveryWrite(selector, states, actions, i, n);
    }
  }
}
