/**
 Manager, notifier and provisioner as one system (pkg/certmanager/certmanager.go:339-493, 559-579 and
 pkg/istiodcert/worker.go:92-148). The watcher applies one event at a time under the issuer's write lock and
 announces the change before it releases it; the sends then race, and the provisioner, which subscribed before
 the watcher was started and never closes its subscription, takes whatever it receives.
 */
module IssuerRuns {
  import opened Common
  import opened Issuers
  import N = Notifier

  datatype State = State(
    events: seq<Event>,               // applied by the watcher
    active: Option<Issuer>,           // the manager's activeIssuerRef
    pending: Option<N.Notice>,        // applied, and to be announced under the same lock
    notifier: N.State,
    held: Option<Issuer>)             // the provisioner's issuerRef

  datatype Action = Apply(event: Event) | Announce | Deliver(step: N.Action)

  predicate Enabled(s: State, a: Action) {
    match a
    case Apply(_) => !s.notifier.panicked && s.pending.None? && s.notifier.loop.NotNotifying?
    case Announce => s.pending.Some? && N.Enabled(s.notifier, N.BeginNotify(s.pending.value))
    case Deliver(step) => N.Enabled(s.notifier, step) && !step.BeginNotify? && step != N.Close(0)
  }

  /** What one step of the notifier makes of the provisioner's issuer. */
  function HeldAfter(original: Option<Issuer>, s: State, step: N.Action): Option<Issuer>
    requires N.Enabled(s.notifier, step)
  {
    if step.Receive? && s.notifier.goroutines[step.g].to == 0 then Resolve(original, s.notifier.goroutines[step.g].value)
    else s.held
  }

  function Next(original: Option<Issuer>, s: State, a: Action): State
    requires Enabled(s, a)
  {
    match a
    case Apply(e) =>
      s.(events := s.events + [e], active := ActiveStep(original, s.active, e), pending := NoticeOf(original, e))
    case Announce => s.(pending := None, notifier := N.Next(s.notifier, N.BeginNotify(s.pending.value)))
    case Deliver(step) => s.(notifier := N.Next(s.notifier, step), held := HeldAfter(original, s, step))
  }

  /** The provisioner has just subscribed. */
  ghost predicate Init(original: Option<Issuer>, s: State) {
    && s.events == [] && s.active == original && s.pending.None? && s.held == original
    && exists n :: N.Init(n) && N.StepsTo(n, N.Subscribe, s.notifier)
  }

  ghost predicate StepsTo(original: Option<Issuer>, s: State, a: Action, t: State) {
    Enabled(s, a) && t == Next(original, s, a)
  }

  ghost predicate IsRun(original: Option<Issuer>, states: seq<State>, actions: seq<Action>) {
    && |states| == |actions| + 1
    && Init(original, states[0])
    && forall i :: 0 <= i < |actions| ==> StepsTo(original, states[i], actions[i], states[i + 1])
  }

  // ----- What every step keeps

  ghost function Due(s: State): seq<N.Notice> {
    if s.pending.Some? then [s.pending.value] else []
  }

  /**
   The active issuer and the announcements, made or due, are those of the events applied; the provisioner
   holds what the notices it received make of its initial issuer.
   */
  ghost predicate Inv(original: Option<Issuer>, s: State) {
    && N.Inv(s.notifier) && N.FirstInv(s.notifier)
    && s.notifier.count > 0 && 0 !in s.notifier.closed
    && s.active == ActiveAfter(original, s.events)
    && s.notifier.announced + Due(s) == Notices(original, s.events)
    && s.held == ProvisionerAfter(original, N.ReceivedBy(s.notifier.received, 0))
  }

  lemma ApplyInv(original: Option<Issuer>, s: State, e: Event)
    requires Inv(original, s) && Enabled(s, Apply(e))
    ensures Inv(original, Next(original, s, Apply(e)))
  {
    NextEvent(original, s.events, e);
  }

  /** Only a new notification changes the announcements, and only a receipt what has been received. */
  lemma DeliverFrame(n: N.State, step: N.Action)
    requires N.Enabled(n, step) && !step.BeginNotify? && step != N.Close(0)
    ensures var m := N.Next(n, step);
      && m.announced == n.announced && m.count >= n.count && (0 in m.closed ==> 0 in n.closed)
      && m.received == n.received + if step.Receive? then [(n.goroutines[step.g].to, n.goroutines[step.g].value)] else []
  {
  }

  lemma HeldNext(original: Option<Issuer>, s: State, step: N.Action)
    requires Enabled(s, Deliver(step)) && s.held == ProvisionerAfter(original, N.ReceivedBy(s.notifier.received, 0))
    ensures HeldAfter(original, s, step) == ProvisionerAfter(original, N.ReceivedBy(N.Next(s.notifier, step).received, 0))
  {
    DeliverFrame(s.notifier, step);
    var received := N.Next(s.notifier, step).received;
    if step.Receive? {
      HeldReceipt(original, s.notifier.received, s.notifier.goroutines[step.g].to, s.notifier.goroutines[step.g].value);
    } else {
      assert received == s.notifier.received;
    }
  }

  lemma HeldReceipt(original: Option<Issuer>, received: seq<(nat, N.Notice)>, to: nat, v: N.Notice)
    ensures ProvisionerAfter(original, N.ReceivedBy(received + [(to, v)], 0)) ==
      if to == 0 then Resolve(original, v) else ProvisionerAfter(original, N.ReceivedBy(received, 0))
  {
    N.ReceivedNext(received, to, v, 0);
  }

  lemma DeliverInv(original: Option<Issuer>, s: State, step: N.Action)
    requires Inv(original, s) && Enabled(s, Deliver(step))
    ensures Inv(original, Next(original, s, Deliver(step)))
  {
    HeldNext(original, s, step);
    DeliverFrame(s.notifier, step);
    N.StepInv(s.notifier, step);
    N.FirstStep(s.notifier, step);
  }

  lemma StepInv(original: Option<Issuer>, s: State, a: Action)
    requires Inv(original, s) && Enabled(s, a)
    ensures Inv(original, Next(original, s, a))
  {
    match a
    case Apply(e) => ApplyInv(original, s, e);
    case Announce =>
      N.StepInv(s.notifier, N.BeginNotify(s.pending.value));
      N.FirstStep(s.notifier, N.BeginNotify(s.pending.value));
    case Deliver(step) => DeliverInv(original, s, step);
  }

  lemma InitInv(original: Option<Issuer>, s: State)
    requires Init(original, s)
    ensures Inv(original, s) && N.OrderedInv(s.notifier)
  {
    var n :| N.Init(n) && N.StepsTo(n, N.Subscribe, s.notifier);
    N.StepInv(n, N.Subscribe);
  }

  lemma {:induction false} ReachableInv(original: Option<Issuer>, states: seq<State>, actions: seq<Action>, i: nat)
    requires IsRun(original, states, actions) && i < |states|
    ensures Inv(original, states[i])
  {
    if i == 0 {
      InitInv(original, states[0]);
    } else {
      ReachableInv(original, states, actions, i - 1);
      assert StepsTo(original, states[i - 1], actions[i - 1], states[i]);
      StepInv(original, states[i - 1], actions[i - 1]);
    }
  }

  // ----- When provisioner and manager agree

  /** Nothing is to be announced, and nothing is on its way to the provisioner. */
  ghost predicate AtRest(s: State) {
    s.pending.None? && N.Drained(s.notifier)
  }

  /** The provisioner receives in the order the sends to it were launched. */
  ghost predicate InOrder(states: seq<State>, actions: seq<Action>)
    requires |states| == |actions| + 1
  {
    forall i :: 0 <= i < |actions| && actions[i].Deliver? && actions[i].step.Receive? ==>
      N.NextInLine(states[i].notifier, actions[i].step.g)
  }

  lemma {:induction false} InOrderAccount(original: Option<Issuer>, states: seq<State>, actions: seq<Action>, i: nat)
    requires IsRun(original, states, actions) && InOrder(states, actions) && i < |states|
    ensures N.OrderedInv(states[i].notifier)
  {
    if i == 0 {
      InitInv(original, states[0]);
    } else {
      var s, a := states[i - 1], actions[i - 1];
      InOrderAccount(original, states, actions, i - 1);
      ReachableInv(original, states, actions, i - 1);
      ReachableInv(original, states, actions, i);
      assert StepsTo(original, s, a, states[i]);
      match a
      case Apply(_) =>
      case Announce => N.OrderedStep(s.notifier, N.BeginNotify(s.pending.value));
      case Deliver(step) => N.OrderedStep(s.notifier, step);
    }
  }

  /**
   In every state at rest of every run with receipts in order, the provisioner has received what the events
   applied announce, in that order, and holds the manager's active issuer exactly if there is a startup
   issuer, or the configuration was not deleted last, or there never was one.
   */
  lemma InOrderAgrees(original: Option<Issuer>, states: seq<State>, actions: seq<Action>, i: nat)
    requires IsRun(original, states, actions) && InOrder(states, actions) && i < |states| && AtRest(states[i])
    ensures N.ReceivedBy(states[i].notifier.received, 0) == Notices(original, states[i].events)
    ensures states[i].held == states[i].active <==>
      original.Some? || !EndsDeleted(states[i].events) || !EverConfigured(states[i].events)
  {
    ReachableInv(original, states, actions, i);
    InOrderAccount(original, states, actions, i);
    N.DrainedAccount(states[i].notifier);
    ProvisionerAgrees(original, states[i].events);
  }

  /**
   In every state at rest of every run, in whatever order it received, the provisioner holds the manager's
   active issuer exactly if nothing was announced, or the notice it received last means the same as the one
   announced last and there is a startup issuer or the configuration was not deleted last.
   */
  lemma AnyOrderAgrees(original: Option<Issuer>, states: seq<State>, actions: seq<Action>, i: nat)
    requires IsRun(original, states, actions) && i < |states| && AtRest(states[i])
    ensures var sent, received := Notices(original, states[i].events), N.ReceivedBy(states[i].notifier.received, 0);
      && multiset(received) == multiset(sent) && |received| == |sent|
      && (states[i].held == states[i].active <==>
          sent == [] ||
          (&& Resolve(original, received[|received| - 1]) == Resolve(original, sent[|sent| - 1])
           && (original.Some? || !EndsDeleted(states[i].events))))
  {
    ReachableInv(original, states, actions, i);
    N.DrainedAccount(states[i].notifier);
    DeliveryOrderMatters(original, states[i].events, N.ReceivedBy(states[i].notifier.received, 0));
  }

  // ----- A run that delivers out of order

  ghost predicate Reaches(original: Option<Issuer>, s: State, actions: seq<Action>, t: State)
    decreases |actions|
  {
    if actions == [] then s == t else Enabled(s, actions[0]) && Reaches(original, Next(original, s, actions[0]), actions[1..], t)
  }

  lemma {:induction false} ReachesThen(
    original: Option<Issuer>, s: State, first: seq<Action>, t: State, second: seq<Action>, u: State)
    requires Reaches(original, s, first, t) && Reaches(original, t, second, u)
    ensures Reaches(original, s, first + second, u)
    decreases |first|
  {
    if first == [] {
      assert first + second == second;
    } else {
      ReachesThen(original, Next(original, s, first[0]), first[1..], t, second, u);
      assert (first + second)[1..] == first[1..] + second;
    }
  }

  lemma TwoSteps(original: Option<Issuer>, s: State, a: Action, t: State, b: Action, u: State)
    requires StepsTo(original, s, a, t) && StepsTo(original, t, b, u)
    ensures Reaches(original, s, [a, b], u)
  {
    assert [a, b][1..] == [b] && [b][1..] == [];
    assert Reaches(original, t, [b], u);
  }

  /** The provisioner is the only subscriber, and nothing is being announced. */
  ghost predicate Lone(s: State) {
    && s.pending.None? && !s.notifier.panicked && s.notifier.loop.NotNotifying?
    && s.notifier.count == 1 && s.notifier.subs == [0] && s.notifier.closed == {} && s.notifier.dropped == {}
  }

  /** One event is applied and announced, and its send is launched. */
  ghost function Launched(original: Option<Issuer>, s: State, e: Event, v: N.Notice): State {
    s.(events := s.events + [e], active := ActiveStep(original, s.active, e),
       notifier := s.notifier.(
         announced := s.notifier.announced + [v], goroutines := s.notifier.goroutines + [N.Launched(0, v, 0, [])]))
  }

  function Announcing(e: Event): seq<Action> {
    [Apply(e), Announce] + [Deliver(N.Visit), Deliver(N.EndNotify)]
  }

  lemma AnnounceOne(original: Option<Issuer>, s: State, e: Event, v: N.Notice)
    requires Lone(s) && NoticeOf(original, e) == Some(v)
    ensures Reaches(original, s, Announcing(e), Launched(original, s, e, v))
  {
    var applied := Next(original, s, Apply(e));
    var begun := Next(original, applied, Announce);
    TwoSteps(original, s, Apply(e), applied, Announce, begun);
    NotifyLone(original, begun, Launched(original, s, e, v), v);
    ReachesThen(original, s, [Apply(e), Announce], begun, [Deliver(N.Visit), Deliver(N.EndNotify)], Launched(original, s, e, v));
  }

  lemma NotifyLone(original: Option<Issuer>, begun: State, t: State, v: N.Notice)
    requires Lone(t) && begun == t.(notifier := begun.notifier)
    requires begun.notifier == t.notifier.(loop := N.Notifying(v, 0, []), goroutines := begun.notifier.goroutines)
    requires t.notifier.goroutines == begun.notifier.goroutines + [N.Launched(0, v, 0, [])]
    ensures Reaches(original, begun, [Deliver(N.Visit), Deliver(N.EndNotify)], t)
  {
    var visited := begun.(notifier := t.notifier.(loop := N.Notifying(v, 1, [0])));
    assert N.VisitNext(begun.notifier) == visited.notifier by {
      assert begun.notifier.subs[..0] == [] && [] + [0] == [0];
    }
    assert N.Next(visited.notifier, N.EndNotify) == t.notifier by {
      assert Elements(visited.notifier.subs) - Elements([0]) == {};
    }
    TwoSteps(original, begun, Deliver(N.Visit), visited, Deliver(N.EndNotify), t);
  }

  lemma ScheduleBoth(original: Option<Issuer>, s: State, v: N.Notice, w: N.Notice)
    requires Lone(s) && s.notifier.goroutines == [N.Launched(0, v, 0, []), N.Launched(0, w, 0, [])]
    ensures var t := s.(notifier := s.notifier.(goroutines := [N.Sending(0, v), N.Sending(0, w)]));
      Reaches(original, s, [Deliver(N.Schedule(0)), Deliver(N.Schedule(1))], t)
  {
    var one := s.(notifier := s.notifier.(goroutines := [N.Sending(0, v), N.Launched(0, w, 0, [])]));
    var two := s.(notifier := s.notifier.(goroutines := [N.Sending(0, v), N.Sending(0, w)]));
    TwoSteps(original, s, Deliver(N.Schedule(0)), one, Deliver(N.Schedule(1)), two);
  }

  /** The later of two sends is received first. */
  lemma ReceiveSwapped(original: Option<Issuer>, s: State, v: N.Notice, w: N.Notice)
    requires Lone(s) && s.notifier.goroutines == [N.Sending(0, v), N.Sending(0, w)] && s.notifier.received == []
    ensures var t := s.(notifier := s.notifier.(goroutines := [], received := [(0, w), (0, v)]), held := Resolve(original, v));
      Reaches(original, s, [Deliver(N.Receive(1)), Deliver(N.Receive(0))], t)
  {
    var one := s.(notifier := s.notifier.(goroutines := [N.Sending(0, v)], received := [(0, w)]), held := Resolve(original, w));
    var two := s.(notifier := s.notifier.(goroutines := [], received := [(0, w), (0, v)]), held := Resolve(original, v));
    assert N.Without(s.notifier.goroutines, 1) == one.notifier.goroutines;
    assert N.Without(one.notifier.goroutines, 0) == [];
    TwoSteps(original, s, Deliver(N.Receive(1)), one, Deliver(N.Receive(0)), two);
  }

  const SWAPPED: seq<Action> := [Deliver(N.Schedule(0)), Deliver(N.Schedule(1))] + [Deliver(N.Receive(1)), Deliver(N.Receive(0))]

  /**
   The sends race: from the initial state two configurations can be applied, announced and received in the
   opposite order, and with nothing left on its way the provisioner holds the older one.
   */
  lemma SwappedDisagrees(original: Option<Issuer>, s: State, a: Issuer, b: Issuer) returns (t: State)
    requires Init(original, s) && Complete(a) && Complete(b) && a != b
    ensures Reaches(original, s, Announcing(Added(ConfigOf(a))) + (Announcing(Modified(ConfigOf(b))) + SWAPPED), t)
    ensures AtRest(t) && t.active == Some(b) && t.held == Some(a)
  {
    var first, second := Added(ConfigOf(a)), Modified(ConfigOf(b));
    assert Configured(first) == Some(a) && Configured(second) == Some(b);
    var one := Launched(original, s, first, Some(a));
    var two := Launched(original, one, second, Some(b));
    AnnounceOne(original, s, first, Some(a));
    AnnounceOne(original, one, second, Some(b));
    t := Swapped(original, two, Some(a), Some(b));
    ReachesThen(original, one, Announcing(second), two, SWAPPED, t);
    ReachesThen(original, s, Announcing(first), one, Announcing(second) + SWAPPED, t);
  }

  lemma Swapped(original: Option<Issuer>, s: State, v: N.Notice, w: N.Notice) returns (t: State)
    requires Lone(s) && s.notifier.goroutines == [N.Launched(0, v, 0, []), N.Launched(0, w, 0, [])] && s.notifier.received == []
    ensures t == s.(notifier := s.notifier.(goroutines := [], received := [(0, w), (0, v)]), held := Resolve(original, v))
    ensures Reaches(original, s, SWAPPED, t)
  {
    var sending := s.(notifier := s.notifier.(goroutines := [N.Sending(0, v), N.Sending(0, w)]));
    ScheduleBoth(original, s, v, w);
    ReceiveSwapped(original, sending, v, w);
    t := s.(notifier := s.notifier.(goroutines := [], received := [(0, w), (0, v)]), held := Resolve(original, v));
    ReachesThen(original, s, [Deliver(N.Schedule(0)), Deliver(N.Schedule(1))], sending,
      [Deliver(N.Receive(1)), Deliver(N.Receive(0))], t);
  }
}
