/**
 From the root CA file, or the issuer, to every namespace: the file watcher, the provider and the
 ConfigMap controller's cluster as one system. The watcher handles file events and hands its broadcasts
 to the provider in order; a provider step that sends events is, for the controller, new roots and one
 event; all other steps of the two are invisible to each other.
 */
module Pipeline {
  import opened ConfigMaps
  import opened RootFile
  import P = Provider
  import C = Propagation
  import opened Convergence

  /** Everything the processes run with; `initial` is the root file's content, if there is one, when its watcher starts. */
  datatype Setup = Setup(env: P.Env, selector: Selector, initial: string)

  ghost predicate ValidSetup(u: Setup) {
    IsDecoder(u.env.decode) && (u.env.rootFile ==> Decodable(u.env.decode, u.initial))
  }

  datatype State = State(
    fileEvents: seq<FsEvent>,   // handled by the watcher
    taken: nat,                 // broadcasts the provider has received
    provider: P.State,
    cluster: C.State)

  datatype Action =
    | FileEvent(event: FsEvent)
    | Provide(providing: P.Action)
    | Cluster(clustering: C.Action)

  /** What the watcher has broadcast. */
  ghost function Sent(u: Setup, s: State): seq<RootCAs>
    requires ValidSetup(u)
  {
    if u.env.rootFile then Expected(u.env.decode, u.initial, s.fileEvents) else []
  }

  ghost predicate Enabled(u: Setup, s: State, a: Action)
    requires ValidSetup(u)
  {
    s.cluster.running &&
    match a
    case FileEvent(_) => u.env.rootFile
    case Provide(x) =>
      P.Enabled(u.env, s.provider, x) && (x.FileUpdate? ==> s.taken < |Sent(u, s)| && x.roots == Sent(u, s)[s.taken])
    case Cluster(x) => C.Enabled(s.cluster, x) && !(x.World? && x.world.SetRoots?)
  }

  /** A provider step as the controller sees it: by the event it receives. */
  ghost function Announced(c: C.State, p: P.State, q: P.State): C.State {
    if q.events == p.events then c else c.(roots := P.PEM(q), undelivered := c.undelivered + 1)
  }

  ghost function Next(u: Setup, s: State, a: Action): State
    requires ValidSetup(u) && Enabled(u, s, a)
  {
    match a
    case FileEvent(e) => s.(fileEvents := s.fileEvents + [e])
    case Provide(x) =>
      var q := P.Next(u.env, s.provider, x);
      State(s.fileEvents, if x.FileUpdate? then s.taken + 1 else s.taken, q, Announced(s.cluster, s.provider, q))
    case Cluster(x) => s.(cluster := C.Next(u.selector, s.cluster, x))
  }

  /** The controller has subscribed before anything starts. */
  ghost predicate Init(s: State) {
    s.fileEvents == [] && s.taken == 0 && P.Init(s.provider) && s.provider.subscriptions > 0 && C.Init(s.cluster)
  }

  ghost predicate StepsTo(u: Setup, s: State, a: Action, t: State)
    requires ValidSetup(u)
  {
    Enabled(u, s, a) && t == Next(u, s, a)
  }

  ghost predicate IsRun(u: Setup, states: seq<State>, actions: seq<Action>)
    requires ValidSetup(u)
  {
    && |states| == |actions| + 1
    && Init(states[0])
    && forall i :: 0 <= i < |actions| ==> StepsTo(u, states[i], actions[i], states[i + 1])
  }

  // ----- What every step keeps

  /** The controller's view of the provider. */
  ghost predicate Linked(p: P.State, c: C.State) {
    c.roots == P.PEM(p) && p.subscriptions > 0
  }

  /** With a root file, the roots are the last bundle received. */
  ghost predicate FromFile(u: Setup, s: State)
    requires ValidSetup(u)
  {
    && s.taken <= |Sent(u, s)|
    && (u.env.rootFile ==> P.PEM(s.provider) == if s.taken == 0 then "" else Sent(u, s)[s.taken - 1].pem)
  }

  ghost predicate Inv(u: Setup, s: State)
    requires ValidSetup(u)
  {
    && P.Inv(u.env, s.provider)
    && C.Inv(u.selector, s.cluster)
    && Linked(s.provider, s.cluster)
    && FromFile(u, s)
  }

  /**
   A provider step either is invisible to the controller, or is one `SetRoots` of the propagation system
   and sends one event to every subscription, the controller's among them.
   */
  lemma ProviderStepPropagates(u: Setup, p: P.State, a: P.Action, c: C.State)
    requires IsDecoder(u.env.decode) && P.Inv(u.env, p) && P.Enabled(u.env, p, a)
    requires Linked(p, c) && c.running
    ensures var q := P.Next(u.env, p, a);
      var d := Announced(c, p, q);
      && Linked(q, d)
      && (|| (d == c && q.events == p.events)
          || (var change := C.World(C.SetRoots(P.PEM(q)));
              C.StepsTo(u.selector, c, change, d) && q.events == p.events + p.subscriptions))
  {
    P.StepInv(u.env, p, a);
  }

  /** Only changes of the roots by the provider change what the controller sees of it. */
  lemma ClusterKeepsRoots(selector: Selector, c: C.State, a: C.Action)
    requires C.Enabled(c, a) && !(a.World? && a.world.SetRoots?)
    ensures C.Next(selector, c, a).roots == c.roots
  {
    match a
    case World(w) =>
    case Handle(h) =>
    case Queue(q) =>
    case Work(n, w) => C.WorkFrame(selector, c, n, w, n);
  }

  /** Later file events only extend what was broadcast. */
  lemma SentGrows(u: Setup, s: State, e: FsEvent)
    requires ValidSetup(u) && u.env.rootFile
    ensures Sent(u, s) <= Sent(u, s.(fileEvents := s.fileEvents + [e]))
  {
    ExpectedStep(u.env.decode, u.initial, s.fileEvents, e);
  }

  lemma ProviderKeepsFile(u: Setup, s: State, x: P.Action)
    requires ValidSetup(u) && Enabled(u, s, Provide(x)) && FromFile(u, s)
    ensures FromFile(u, Next(u, s, Provide(x)))
  {
    P.StepTrust(u.env, s.provider, x, P.Next(u.env, s.provider, x));
  }

  lemma StepInv(u: Setup, s: State, a: Action)
    requires ValidSetup(u) && Inv(u, s) && Enabled(u, s, a)
    ensures Inv(u, Next(u, s, a))
  {
    match a
    case FileEvent(e) => SentGrows(u, s, e);
    case Provide(x) =>
      var q := P.Next(u.env, s.provider, x);
      P.StepInv(u.env, s.provider, x);
      ProviderStepPropagates(u, s.provider, x, s.cluster);
      ProviderKeepsFile(u, s, x);
      if q.events != s.provider.events {
        C.StepInv(u.selector, s.cluster, C.World(C.SetRoots(P.PEM(q))));
      }
    case Cluster(x) =>
      C.StepInv(u.selector, s.cluster, x);
      ClusterKeepsRoots(u.selector, s.cluster, x);
  }

  lemma {:induction false} ReachableInv(u: Setup, states: seq<State>, actions: seq<Action>, k: nat)
    requires ValidSetup(u) && IsRun(u, states, actions) && k < |states|
    ensures Inv(u, states[k])
    decreases k
  {
    if k == 0 {
      C.InitInv(u.selector, states[0].cluster);
    } else {
      ReachableInv(u, states, actions, k - 1);
      assert StepsTo(u, states[k - 1], actions[k - 1], states[k]);
      StepInv(u, states[k - 1], actions[k - 1]);
    }
  }

  // ----- End to end

  /** A selected, non-terminating namespace of the cluster. */
  ghost predicate Serves(u: Setup, s: State, n: C.Name) {
    n in s.cluster.namespaces && Active(u.selector, s.cluster.namespaces[n])
  }

  ghost predicate Holds(s: State, n: C.Name, pem: string) {
    n in s.cluster.configMaps && Desired(s.cluster.configMaps[n].cm, pem)
  }

  /** Once all broadcasts are received, the roots are the last decodable content the watcher read. */
  lemma RootsAreLastRead(u: Setup, s: State)
    requires ValidSetup(u) && u.env.rootFile && FromFile(u, s) && s.taken == |Sent(u, s)|
    ensures P.PEM(s.provider) == LastRead(u.env.decode, u.initial, s.fileEvents) != ""
  {
    LastBroadcastIsLastContent(u.env.decode, u.initial, s.fileEvents);
  }

  /**
   With a root file, in every state of every run: once the provider has received what was broadcast and
   nothing is pending in the controller, each selected, non-terminating namespace holds the last decodable
   content the watcher read; `RootFile.ReadIsCurrent` says when that is the content of the file.
   */
  lemma FileReachesEveryNamespace(u: Setup, states: seq<State>, actions: seq<Action>, k: nat, n: C.Name)
    requires ValidSetup(u) && u.env.rootFile && IsRun(u, states, actions) && k < |states|
    requires states[k].taken == |Sent(u, states[k])| && Quiescent(states[k].cluster)
    requires Serves(u, states[k], n)
    ensures Holds(states[k], n, LastRead(u.env.decode, u.initial, states[k].fileEvents))
  {
    ReachableInv(u, states, actions, k);
    RootsAreLastRead(u, states[k]);
    QuiescentConverged(u.selector, states[k].cluster);
  }

  /** And that state is the only one in which the system can come to rest. */
  lemma FileNeverStuck(u: Setup, states: seq<State>, actions: seq<Action>, k: nat) returns (a: Action)
    requires ValidSetup(u) && u.env.rootFile && IsRun(u, states, actions) && k < |states|
    requires states[k].cluster.running
    requires states[k].taken < |Sent(u, states[k])| || !Quiescent(states[k].cluster)
    ensures Enabled(u, states[k], a)
    ensures (a.Provide? && a.providing.FileUpdate?) || (a.Cluster? && C.Quiet(a.clustering))
  {
    var s := states[k];
    ReachableInv(u, states, actions, k);
    LastBroadcastIsLastContent(u.env.decode, u.initial, s.fileEvents);
    if s.taken < |Sent(u, s)| {
      a := Provide(P.FileUpdate(Sent(u, s)[s.taken]));
    } else {
      var x := NeverStuck(u.selector, s.cluster);
      a := Cluster(x);
    }
  }

  /** A fetch accepts the issuer's bundle as the roots, whether or not it is a new one. */
  predicate Loads(u: Setup, s: State, a: Action) {
    && a.Provide? && a.providing.LoadCAs? && s.provider.fetch.Signed?
    && P.LoadedRoots(u.env, s.provider.roots, s.provider.fetch.response.ca).Some?
  }

  /** `j` is the last action before state k that loaded an issuer's bundle. */
  ghost predicate LastLoad(u: Setup, states: seq<State>, actions: seq<Action>, j: nat, k: nat)
    requires |states| == |actions| + 1 && k < |states|
  {
    j < k && Loads(u, states[j], actions[j]) && forall i :: j < i < k ==> !Loads(u, states[i], actions[i])
  }

  lemma IssuerStep(u: Setup, s: State, a: Action)
    requires ValidSetup(u) && !u.env.rootFile && Enabled(u, s, a)
    ensures P.PEM(Next(u, s, a).provider) == if Loads(u, s, a) then s.provider.fetch.response.ca else P.PEM(s.provider)
  {
    if a.Provide? {
      P.StepTrust(u.env, s.provider, a.providing, P.Next(u.env, s.provider, a.providing));
    }
  }

  /** Without a root file, the roots are the bundle of the last fetch that loaded one. */
  lemma {:induction false} RootsAreLastLoaded(u: Setup, states: seq<State>, actions: seq<Action>, k: nat) returns (j: nat)
    requires ValidSetup(u) && !u.env.rootFile && IsRun(u, states, actions) && k < |states|
    requires P.PEM(states[k].provider) != ""
    ensures LastLoad(u, states, actions, j, k) && P.PEM(states[k].provider) == states[j].provider.fetch.response.ca
    decreases k
  {
    assert k > 0;
    assert StepsTo(u, states[k - 1], actions[k - 1], states[k]);
    IssuerStep(u, states[k - 1], actions[k - 1]);
    if Loads(u, states[k - 1], actions[k - 1]) {
      j := k - 1;
    } else {
      j := RootsAreLastLoaded(u, states, actions, k - 1);
    }
  }

  /**
   Without a root file, in every state of every run: once nothing is pending in the controller, each
   selected, non-terminating namespace holds the bundle of the last fetch that loaded one, and there
   is such a fetch.
   */
  lemma IssuerReachesEveryNamespace(u: Setup, states: seq<State>, actions: seq<Action>, k: nat, n: C.Name) returns (j: nat)
    requires ValidSetup(u) && !u.env.rootFile && IsRun(u, states, actions) && k < |states|
    requires Quiescent(states[k].cluster) && Serves(u, states[k], n)
    ensures LastLoad(u, states, actions, j, k) && Holds(states[k], n, states[j].provider.fetch.response.ca)
  {
    ReachableInv(u, states, actions, k);
    QuiescentConverged(u.selector, states[k].cluster);
    j := RootsAreLastLoaded(u, states, actions, k);
  }
}
