/**
 Convergence of the whole pipeline in time. Once the world is calm (no file event, no outside change, no
 failing call), every fair endless execution of watcher, provider and controller reaches a state from which on
 every selected namespace holds what it should, while the provider goes on renewing its certificate.
 */
module Liveness {
  import opened RootFile
  import P = Provider
  import C = Propagation
  import V = Convergence
  import opened Pipeline

  /** An endless calm execution; the provider may do anything. */
  ghost predicate Calm(u: Setup, states: nat -> State, actions: nat -> Action)
    requires ValidSetup(u)
  {
    forall i: nat ::
      && StepsTo(u, states(i), actions(i), states(i + 1))
      && !actions(i).FileEvent?
      && (actions(i).Cluster? ==> C.Quiet(actions(i).clustering))
  }

  predicate HandsOver(a: Action) {
    a.Provide? && a.providing.FileUpdate?
  }

  predicate Handles(a: Action) {
    a.Cluster? && a.clustering.Handle?
  }

  ghost predicate HandsOverAfter(actions: nat -> Action, i: nat) {
    exists j: nat :: i <= j && HandsOver(actions(j))
  }

  ghost predicate HandlesAfter(actions: nat -> Action, i: nat) {
    exists j: nat :: i <= j && Handles(actions(j))
  }

  ghost predicate ClusterAfter(actions: nat -> Action, i: nat) {
    exists j: nat :: i <= j && actions(j).Cluster?
  }

  /**
   Fairness: a broadcast that waits is received, the handler goroutine moves if it can, and the controller
   moves as long as it has something to do.
   */
  ghost predicate Fair(u: Setup, states: nat -> State, actions: nat -> Action)
    requires ValidSetup(u)
  {
    && (forall i: nat :: states(i).taken < |Sent(u, states(i))| ==> HandsOverAfter(actions, i))
    && (forall i: nat :: V.HandlerCanAct(states(i).cluster) ==> HandlesAfter(actions, i))
    && (forall i: nat :: !V.Quiescent(states(i).cluster) ==> ClusterAfter(actions, i))
  }

  /** What stays as it is in a calm world. */
  ghost predicate SameWorld(s: State, t: State) {
    t.fileEvents == s.fileEvents && t.cluster.namespaces == s.cluster.namespaces
  }

  lemma CalmStep(u: Setup, states: nat -> State, actions: nat -> Action, i: nat)
    requires ValidSetup(u) && Calm(u, states, actions) && Inv(u, states(i))
    ensures Inv(u, states(i + 1)) && SameWorld(states(i), states(i + 1))
  {
    assert StepsTo(u, states(i), actions(i), states(i + 1));
    StepInv(u, states(i), actions(i));
    if actions(i).Cluster? {
      V.QuietKeeps(u.selector, states(i).cluster, actions(i).clustering);
    }
  }

  lemma {:induction false} CalmInv(u: Setup, states: nat -> State, actions: nat -> Action, i: nat)
    requires ValidSetup(u) && Calm(u, states, actions) && Inv(u, states(0))
    ensures Inv(u, states(i)) && SameWorld(states(0), states(i))
  {
    if i == 0 {
    } else {
      CalmInv(u, states, actions, i - 1);
      CalmStep(u, states, actions, i - 1);
    }
  }

  // ----- Once no more bundles are stored, the controller comes to rest.

  /** From step `k` on the provider stores no bundle. */
  ghost predicate Settled(u: Setup, states: nat -> State, actions: nat -> Action, k: nat) {
    forall i: nat :: i >= k ==> !(actions(i).Provide? && P.Stores(u.env, states(i).provider, actions(i).providing))
  }

  /** A provider step that stores nothing is invisible. */
  lemma Invisible(u: Setup, s: State, x: P.Action)
    requires ValidSetup(u) && Enabled(u, s, Provide(x)) && !P.Stores(u.env, s.provider, x)
    ensures Next(u, s, Provide(x)).cluster == s.cluster && P.PEM(Next(u, s, Provide(x)).provider) == P.PEM(s.provider)
  {
    P.StepTrust(u.env, s.provider, x, P.Next(u.env, s.provider, x));
  }

  /** A calm step after that is a quiet step of the controller or leaves it as it is. */
  lemma SettledStep(u: Setup, states: nat -> State, actions: nat -> Action, k: nat, i: nat)
    requires ValidSetup(u) && Calm(u, states, actions) && Inv(u, states(0)) && Settled(u, states, actions, k) && k <= i
    ensures Inv(u, states(i))
    ensures P.PEM(states(i + 1).provider) == P.PEM(states(i).provider)
    ensures !actions(i).Cluster? ==> states(i + 1).cluster == states(i).cluster
    ensures actions(i).Cluster? ==>
      && C.Quiet(actions(i).clustering) && C.Inv(u.selector, states(i).cluster)
      && C.StepsTo(u.selector, states(i).cluster, actions(i).clustering, states(i + 1).cluster)
  {
    CalmInv(u, states, actions, i);
    assert StepsTo(u, states(i), actions(i), states(i + 1));
    if actions(i).Provide? {
      Invisible(u, states(i), actions(i).providing);
    }
  }

  /** Roots and upstream work from one moment to a later one. */
  lemma {:induction false} SettledKeeps(u: Setup, states: nat -> State, actions: nat -> Action, k: nat, i: nat, j: nat)
    requires ValidSetup(u) && Calm(u, states, actions) && Inv(u, states(0)) && Settled(u, states, actions, k) && k <= i <= j
    ensures P.PEM(states(j).provider) == P.PEM(states(i).provider)
    ensures V.Upstream(states(j).cluster) <= V.Upstream(states(i).cluster)
    decreases j - i
  {
    if i == j {
    } else {
      SettledStep(u, states, actions, k, i);
      if actions(i).Cluster? {
        V.QuietKeeps(u.selector, states(i).cluster, actions(i).clustering);
      }
      SettledKeeps(u, states, actions, k, i + 1, j);
    }
  }

  /** The handler fills the cache. */
  lemma {:induction false} CacheFills(u: Setup, states: nat -> State, actions: nat -> Action, k: nat, i: nat) returns (m: nat)
    requires ValidSetup(u) && Calm(u, states, actions) && Fair(u, states, actions) && Inv(u, states(0))
    requires Settled(u, states, actions, k) && k <= i && P.PEM(states(i).provider) != ""
    ensures m >= i && states(m).cluster.cache != ""
    decreases V.Upstream(states(i).cluster)
  {
    SettledStep(u, states, actions, k, i);
    if states(i).cluster.cache != "" {
      return i;
    }
    V.EmptyCacheMovesHandler(u.selector, states(i).cluster);
    assert HandlesAfter(actions, i);
    var j: nat :| i <= j && Handles(actions(j));
    SettledKeeps(u, states, actions, k, i, j);
    SettledStep(u, states, actions, k, j);
    if states(j).cluster.cache != "" {
      return j;
    }
    V.QuietKeeps(u.selector, states(j).cluster, actions(j).clustering);
    m := CacheFills(u, states, actions, k, j + 1);
  }

  /** The controller's next step. */
  lemma {:induction false} NextClusterStep(u: Setup, states: nat -> State, actions: nat -> Action, k: nat, i: nat, j: nat) returns (m: nat)
    requires ValidSetup(u) && Calm(u, states, actions) && Inv(u, states(0)) && Settled(u, states, actions, k)
    requires k <= i <= j && actions(j).Cluster?
    ensures m >= i && actions(m).Cluster? && states(m).cluster == states(i).cluster
    decreases j - i
  {
    if actions(i).Cluster? {
      m := i;
    } else {
      SettledStep(u, states, actions, k, i);
      m := NextClusterStep(u, states, actions, k, i + 1, j);
    }
  }

  /** With a filled cache the measure of the controller decreases until it is quiescent. */
  lemma {:induction false} ComesToRest(u: Setup, states: nat -> State, actions: nat -> Action, k: nat, i: nat) returns (m: nat)
    requires ValidSetup(u) && Calm(u, states, actions) && Fair(u, states, actions) && Inv(u, states(0))
    requires Settled(u, states, actions, k) && k <= i && states(i).cluster.cache != ""
    ensures m >= i && V.Quiescent(states(m).cluster)
    decreases V.Upstream(states(i).cluster), V.Unsettled(states(i).cluster), V.Tokens(states(i).cluster)
  {
    if V.Quiescent(states(i).cluster) {
      return i;
    }
    assert ClusterAfter(actions, i);
    var j: nat :| i <= j && actions(j).Cluster?;
    var next := NextClusterStep(u, states, actions, k, i, j);
    SettledStep(u, states, actions, k, next);
    V.QuietDecreases(u.selector, states(next).cluster, actions(next).clustering);
    V.QuietKeeps(u.selector, states(next).cluster, actions(next).clustering);
    m := ComesToRest(u, states, actions, k, next + 1);
  }

  /** Nothing is left to do in a quiescent state. */
  lemma QuiescentStays(s: C.State, a: C.Action)
    requires V.Quiescent(s) && C.Quiet(a)
    ensures !C.Enabled(s, a)
  {
    match a
    case World(_) =>
    case Handle(h) =>
    case Queue(q) =>
    case Work(n, w) => assert n !in s.workers;
  }

  lemma RestStep(u: Setup, states: nat -> State, actions: nat -> Action, k: nat, i: nat)
    requires ValidSetup(u) && Calm(u, states, actions) && Inv(u, states(0)) && Settled(u, states, actions, k)
    requires k <= i && V.Quiescent(states(i).cluster)
    ensures states(i + 1).cluster == states(i).cluster
  {
    SettledStep(u, states, actions, k, i);
    if actions(i).Cluster? {
      QuiescentStays(states(i).cluster, actions(i).clustering);
    }
  }

  lemma {:induction false} StaysAtRest(u: Setup, states: nat -> State, actions: nat -> Action, k: nat, m: nat, i: nat)
    requires ValidSetup(u) && Calm(u, states, actions) && Inv(u, states(0)) && Settled(u, states, actions, k)
    requires k <= m <= i && V.Quiescent(states(m).cluster)
    ensures states(i).cluster == states(m).cluster
    decreases i - m
  {
    if i == m {
    } else {
      RestStep(u, states, actions, k, m);
      StaysAtRest(u, states, actions, k, m + 1, i);
    }
  }

  /** From `m` on the controller is at rest and every namespace served at the beginning holds `pem`. */
  ghost predicate DeliveredFrom(u: Setup, states: nat -> State, m: nat, pem: string) {
    forall i: nat :: i >= m ==>
      V.Quiescent(states(i).cluster) && forall n :: Serves(u, states(0), n) ==> Holds(states(i), n, pem)
  }

  /**
   If from step `k` on no new bundle is stored (without a root file: no fetch brings a new CA), every fair calm
   execution comes to a point from which on the controller is at rest and every selected, non-terminating
   namespace holds the roots of step `k`.
   */
  lemma SettledConverges(u: Setup, states: nat -> State, actions: nat -> Action, k: nat) returns (m: nat)
    requires ValidSetup(u) && Calm(u, states, actions) && Fair(u, states, actions) && Inv(u, states(0))
    requires Settled(u, states, actions, k) && P.PEM(states(k).provider) != ""
    ensures DeliveredFrom(u, states, m, P.PEM(states(k).provider))
  {
    var filled := CacheFills(u, states, actions, k, k);
    m := ComesToRest(u, states, actions, k, filled);
    forall i: nat | i >= m
      ensures V.Quiescent(states(i).cluster) && forall n :: Serves(u, states(0), n) ==> Holds(states(i), n, P.PEM(states(k).provider))
    {
      StaysAtRest(u, states, actions, k, m, i);
      SettledKeeps(u, states, actions, k, k, i);
      CalmInv(u, states, actions, i);
      V.QuiescentConverged(u.selector, states(i).cluster);
    }
  }

  // ----- With a root file, the hand-over comes to an end.

  lemma HandOverStep(u: Setup, states: nat -> State, actions: nat -> Action, i: nat)
    requires ValidSetup(u) && Calm(u, states, actions)
    ensures states(i + 1).taken == states(i).taken + if HandsOver(actions(i)) then 1 else 0
    ensures Sent(u, states(i + 1)) == Sent(u, states(i))
    ensures HandsOver(actions(i)) ==> states(i).taken < |Sent(u, states(i))|
  {
    assert StepsTo(u, states(i), actions(i), states(i + 1));
  }

  lemma {:induction false} TakenGrows(u: Setup, states: nat -> State, actions: nat -> Action, i: nat, j: nat)
    requires ValidSetup(u) && Calm(u, states, actions) && i <= j
    ensures states(j).taken >= states(i).taken && Sent(u, states(j)) == Sent(u, states(i))
    decreases j - i
  {
    if i == j {
    } else {
      HandOverStep(u, states, actions, i);
      TakenGrows(u, states, actions, i + 1, j);
    }
  }

  lemma {:induction false} AllTaken(u: Setup, states: nat -> State, actions: nat -> Action, i: nat) returns (k: nat)
    requires ValidSetup(u) && Calm(u, states, actions) && Fair(u, states, actions) && Inv(u, states(0))
    ensures k >= i && states(k).taken == |Sent(u, states(k))|
    decreases |Sent(u, states(i))| - states(i).taken
  {
    CalmInv(u, states, actions, i);
    if states(i).taken == |Sent(u, states(i))| {
      return i;
    }
    assert HandsOverAfter(actions, i);
    var j: nat :| i <= j && HandsOver(actions(j));
    TakenGrows(u, states, actions, i, j);
    HandOverStep(u, states, actions, j);
    k := AllTaken(u, states, actions, j + 1);
  }

  /** With a root file nothing but a hand-over stores a bundle, and no broadcast is left. */
  lemma TakenSettles(u: Setup, states: nat -> State, actions: nat -> Action, k: nat)
    requires ValidSetup(u) && u.env.rootFile && Calm(u, states, actions) && Inv(u, states(0))
    requires states(k).taken == |Sent(u, states(k))|
    ensures Settled(u, states, actions, k)
  {
    forall i: nat | i >= k
      ensures !(actions(i).Provide? && P.Stores(u.env, states(i).provider, actions(i).providing))
    {
      TakenGrows(u, states, actions, k, i);
      HandOverStep(u, states, actions, i);
    }
  }

  /**
   With a root file: from any reachable state, every fair calm execution comes to a point from which on the
   controller is at rest and every selected, non-terminating namespace holds the last decodable content the
   watcher read, whatever the provider goes on doing.
   */
  lemma FileConverges(u: Setup, states: nat -> State, actions: nat -> Action) returns (m: nat)
    requires ValidSetup(u) && u.env.rootFile && Inv(u, states(0))
    requires Calm(u, states, actions) && Fair(u, states, actions)
    ensures DeliveredFrom(u, states, m, LastRead(u.env.decode, u.initial, states(0).fileEvents))
  {
    var k := AllTaken(u, states, actions, 0);
    CalmInv(u, states, actions, k);
    TakenSettles(u, states, actions, k);
    RootsAreLastRead(u, states(k));
    m := SettledConverges(u, states, actions, k);
  }
}
