/**
 Issuer change notifications as they run (pkg/certmanager/certmanager.go:98-109, 501-514, 559-579).

 A send is a goroutine that holds an index, not a subscription: it reads the list of subscriptions
 only when it is scheduled, without the list's lock, and then blocks until the subscriber receives.
 Closing, subscribing, the loop of a notification and the sends interleave freely; only subscribing
 and notifying exclude each other. Subscriptions are numbered in the order they were made.
 */
module Notifier {
  import opened Common
  import opened Issuers

  /** What a notification carries; None is the nil sent on reversion. */
  type Notice = Option<Issuer>

  datatype Goroutine =
    /** Not scheduled yet. `target` and `ahead` record, for the proof, the subscription it was launched
        for and the ones listed before it at that moment. */
    | Launched(index: nat, value: Notice, target: nat, ahead: seq<nat>)
    /** Blocked on the channel of the subscription it found. */
    | Sending(to: nat, value: Notice)

  /** A notification in progress: the next position to visit and the list being rebuilt. */
  datatype Loop = NotNotifying | Notifying(value: Notice, next: nat, filtered: seq<nat>)

  datatype State = State(
    count: nat,                       // subscriptions made so far
    subs: seq<nat>,                   // issuerChangeSubscriptions
    closed: set<nat>,
    loop: Loop,
    goroutines: seq<Goroutine>,
    received: seq<(nat, Notice)>,   // who received what, in order
    panicked: bool,
    // history, for the statements below
    dropped: set<nat>,                // filtered out by a notification that has ended
    announced: seq<Notice>)            // values of the notifications started since the first subscription

  datatype Action =
    | Subscribe
    | Close(sub: nat)
    | BeginNotify(value: Notice)
    | Visit
    | EndNotify
    | Schedule(g: nat)
    | Receive(g: nat)

  predicate Enabled(s: State, a: Action) {
    !s.panicked &&
    match a
    case Subscribe => s.loop.NotNotifying?
    case Close(k) => k < s.count
    case BeginNotify(_) => s.loop.NotNotifying?
    case Visit => s.loop.Notifying? && s.loop.next < |s.subs|
    case EndNotify => s.loop.Notifying? && s.loop.next >= |s.subs|
    case Schedule(g) => g < |s.goroutines| && s.goroutines[g].Launched?
    case Receive(g) => g < |s.goroutines| && s.goroutines[g].Sending?
  }

  function Next(s: State, a: Action): State
    requires Enabled(s, a)
  {
    match a
    case Subscribe => s.(count := s.count + 1, subs := s.subs + [s.count])
    case Close(k) => s.(closed := s.closed + {k})
    case BeginNotify(v) =>
      s.(loop := Notifying(v, 0, []), announced := if s.count == 0 then [] else s.announced + [v])
    case Visit => VisitNext(s)
    case EndNotify =>
      s.(subs := s.loop.filtered, dropped := s.dropped + (Elements(s.subs) - Elements(s.loop.filtered)), loop := NotNotifying)
    case Schedule(g) =>
      var i := s.goroutines[g].index;
      if i < |s.subs| then s.(goroutines := s.goroutines[g := Sending(s.subs[i], s.goroutines[g].value)])
      else s.(panicked := true)
    case Receive(g) =>
      s.(goroutines := Without(s.goroutines, g), received := s.received + [(s.goroutines[g].to, s.goroutines[g].value)])
  }

  function VisitNext(s: State): State
    requires s.loop.Notifying? && s.loop.next < |s.subs|
  {
    var i, k := s.loop.next, s.subs[s.loop.next];
    if k in s.closed then s.(loop := s.loop.(next := i + 1))
    else s.(loop := Notifying(s.loop.value, i + 1, s.loop.filtered + [k]),
            goroutines := s.goroutines + [Launched(i, s.loop.value, k, s.subs[..i])])
  }

  function Without<T>(s: seq<T>, i: nat): seq<T>
    requires i < |s|
  {
    s[..i] + s[i + 1..]
  }

  ghost predicate Init(s: State) {
    && s.count == 0 && s.subs == [] && s.closed == {} && s.loop == NotNotifying
    && s.goroutines == [] && s.received == [] && !s.panicked
    && s.dropped == {} && s.announced == []
  }

  ghost predicate IsRun(states: seq<State>, actions: seq<Action>) {
    && |states| == |actions| + 1
    && Init(states[0])
    && forall i :: 0 <= i < |actions| ==> StepsTo(states[i], actions[i], states[i + 1])
  }

  // ----- The list is the undropped subscriptions in the order they were made.

  ghost predicate Increasing(s: seq<nat>) {
    forall i, j :: 0 <= i < j < |s| ==> s[i] < s[j]
  }

  ghost predicate ListInv(s: State) {
    && Increasing(s.subs)
    && (forall k: nat :: k in s.subs <==> k < s.count && k !in s.dropped)
    && s.dropped <= s.closed
    && (forall k :: k in s.closed ==> k < s.count)
  }

  /** The loop has kept the open ones of the positions it has visited. */
  ghost predicate LoopInv(s: State) {
    s.loop.Notifying? ==>
      && s.loop.next <= |s.subs|
      && Increasing(s.loop.filtered)
      && (forall k :: k in s.loop.filtered ==> k in s.subs[..s.loop.next])
      && (forall k :: k in s.subs[..s.loop.next] && k !in s.loop.filtered ==> k in s.closed)
  }

  /** A goroutine's index is the number of subscriptions ahead of its target when it was launched. */
  ghost predicate SendInv(s: State, g: Goroutine) {
    g.Launched? ==>
      && g.index == |g.ahead|
      && Increasing(g.ahead)
      && g.target < s.count
      && (forall k :: k in g.ahead ==> k < g.target)
      && (forall k: nat :: k < g.target && k !in g.ahead ==> k in s.dropped)
  }

  ghost predicate Inv(s: State) {
    && ListInv(s)
    && LoopInv(s)
    && forall i :: 0 <= i < |s.goroutines| ==> SendInv(s, s.goroutines[i])
  }

  lemma StepInv(s: State, a: Action)
    requires Inv(s) && Enabled(s, a)
    ensures Inv(Next(s, a))
  {
    var t := Next(s, a);
    match a {
      case Visit => VisitInv(s);
      case EndNotify => EndInv(s);
      case Receive(g) =>
        forall i | 0 <= i < |t.goroutines|
          ensures SendInv(t, t.goroutines[i])
        {
          assert t.goroutines[i] in s.goroutines;
        }
      case Subscribe =>
        AppendIncreasing(s.subs, s.count);
        assert forall k: nat :: k in t.subs <==> k in s.subs || k == s.count;
      case _ =>
    }
  }

  lemma AppendIncreasing(s: seq<nat>, x: nat)
    requires Increasing(s) && forall k :: k in s ==> k < x
    ensures Increasing(s + [x])
  {
    forall i | 0 <= i < |s|
      ensures s[i] < x
    {
      assert s[i] in s;
    }
  }

  lemma VisitInv(s: State)
    requires Inv(s) && Enabled(s, Visit)
    ensures Inv(VisitNext(s))
  {
    var t, i := VisitNext(s), s.loop.next;
    assert s.subs[..i + 1] == s.subs[..i] + [s.subs[i]];
    AppendIncreasing(s.loop.filtered, s.subs[i]);
    forall j | 0 <= j < |t.goroutines|
      ensures SendInv(t, t.goroutines[j])
    {
      if j == |s.goroutines| {
        assert t.goroutines[j].ahead == s.subs[..i];
        forall k: nat | k < s.subs[i] && k !in s.subs[..i]
          ensures k in s.dropped
        {
          assert forall l :: i <= l < |s.subs| ==> s.subs[l] != k;
        }
      } else {
        assert SendInv(s, s.goroutines[j]);
      }
    }
  }

  lemma EndInv(s: State)
    requires Inv(s) && Enabled(s, EndNotify)
    ensures Inv(Next(s, EndNotify))
  {
    var t := Next(s, EndNotify);
    assert s.subs[..s.loop.next] == s.subs;
    forall j | 0 <= j < |t.goroutines|
      ensures SendInv(t, t.goroutines[j])
    {
      assert SendInv(s, s.goroutines[j]);
    }
  }

  lemma {:induction false} ReachableInv(states: seq<State>, actions: seq<Action>)
    requires IsRun(states, actions)
    ensures forall i :: 0 <= i < |states| ==> Inv(states[i])
    decreases |actions|
  {
    if actions == [] {
      assert Inv(states[0]);
    } else {
      var k := |actions| - 1;
      ReachableInv(states[..k + 1], actions[..k]);
      forall i | 0 <= i < |states|
        ensures Inv(states[i])
      {
        if i <= k {
          assert states[..k + 1][i] == states[i];
        } else {
          assert Inv(states[..k + 1][k]) && StepsTo(states[k], actions[k], states[k + 1]);
          StepInv(states[k], actions[k]);
        }
      }
    }
  }

  // ----- When a late lookup finds the subscription it was meant for

  lemma {:induction false} IncreasingSize(s: seq<nat>)
    requires Increasing(s)
    ensures |Elements(s)| == |s|
  {
    if s == [] {
    } else {
      var m := |s| - 1;
      IncreasingSize(s[..m]);
      assert Elements(s) == Elements(s[..m]) + {s[m]};
    }
  }

  ghost function Below(s: seq<nat>, x: nat): set<nat> {
    set k | k in s && k < x
  }

  /** In an increasing list the position of an element is the number of smaller elements. */
  lemma PositionIsRank(s: seq<nat>, i: nat)
    requires Increasing(s) && i < |s|
    ensures Below(s, s[i]) == Elements(s[..i])
    ensures |Below(s, s[i])| == i
  {
    var smaller := Below(s, s[i]);
    forall k: nat
      ensures k in smaller <==> k in s[..i]
    {
      if k in smaller {
        var l :| 0 <= l < |s| && s[l] == k;
        assert l < i && s[..i][l] == k;
      }
    }
    assert smaller == Elements(s[..i]);
    IncreasingSize(s[..i]);
  }

  /**
   The lookup of a send finds the subscription the send was launched for if and only if neither that
   subscription nor any subscription ahead of it has been dropped since. Otherwise it finds a later
   subscription or runs past the end of the list.
   */
  lemma LateLookup(s: State, g: nat)
    requires Inv(s) && g < |s.goroutines| && s.goroutines[g].Launched?
    ensures var send := s.goroutines[g];
      (send.index < |s.subs| && s.subs[send.index] == send.target)
      <==> send.target !in s.dropped && forall k :: k in send.ahead ==> k !in s.dropped
    ensures var send := s.goroutines[g];
      send.index < |s.subs| ==> s.subs[send.index] >= send.target
  {
    var send := s.goroutines[g];
    assert SendInv(s, send);
    IncreasingSize(send.ahead);
    var below := Below(s.subs, send.target);
    assert below <= Elements(send.ahead);
    if |below| == |Elements(send.ahead)| {
      SameSize(below, Elements(send.ahead));
    }
    assert below == Elements(send.ahead) <==> forall k :: k in send.ahead ==> k !in s.dropped by {
      assert forall k :: k in send.ahead <==> k in Elements(send.ahead);
    }
    if send.target in s.subs {
      var i :| 0 <= i < |s.subs| && s.subs[i] == send.target;
      PositionIsRank(s.subs, i);
      assert i != send.index && send.index < |s.subs| ==> s.subs[send.index] != send.target;
    }
    if send.index < |s.subs| {
      NotBefore(s, send);
    }
  }

  /**
   So when a send runs, it blocks on its own target's channel exactly under that condition, on the channel of a
   later subscription if the list is still long enough, and else the process panics. Its value is never lost.
   */
  lemma LateSend(s: State, g: nat)
    requires Inv(s) && Enabled(s, Schedule(g))
    ensures var send, t := s.goroutines[g], Next(s, Schedule(g));
      && (t.panicked <==> |send.ahead| >= |s.subs|)
      && (!t.panicked ==> t.goroutines[g].Sending? && t.goroutines[g].value == send.value && t.goroutines[g].to >= send.target)
      && (!t.panicked && t.goroutines[g].to == send.target <==>
          send.target !in s.dropped && forall k :: k in send.ahead ==> k !in s.dropped)
  {
    assert SendInv(s, s.goroutines[g]);
    LateLookup(s, g);
  }

  /** The lookup never finds a subscription ahead of the target. */
  lemma NotBefore(s: State, send: Goroutine)
    requires ListInv(s) && send.Launched? && SendInv(s, send) && send.index < |s.subs|
    ensures s.subs[send.index] >= send.target
  {
    var found := s.subs[send.index];
    if found < send.target {
      PositionIsRank(s.subs, send.index);
      IncreasingSize(send.ahead);
      SubsetSize(Below(s.subs, found) + {found}, Elements(send.ahead));
    }
  }

  lemma SameSize(a: set<nat>, b: set<nat>)
    requires a <= b && |a| == |b|
    ensures a == b
  {
    if x :| x in b && x !in a {
      ProperSubsetSize(a, b, x);
    }
  }

  /**
   The property fails when a closed subscription stands ahead: the notification drops it, and the send
   to the one behind it indexes past the shortened list, which stops the process.
   */
  lemma ClosedAheadPanics(v: Notice, s: State)
    requires !s.panicked && s.loop.NotNotifying? && s.goroutines == []
    requires s.subs == [0, 1] && s.closed == {0} && s.count == 2
    ensures Reaches(s, [BeginNotify(v), Visit, Visit, EndNotify], AfterDrop(v, s))
    ensures Enabled(AfterDrop(v, s), Schedule(0)) && Next(AfterDrop(v, s), Schedule(0)).panicked
  {
    var s4 := s.(loop := Notifying(v, 0, []), announced := s.announced + [v]);
    var s5 := s4.(loop := Notifying(v, 1, []));
    assert Reaches(s5, [Visit, EndNotify], AfterDrop(v, s)) by {
      SecondDropped(v, s, s5);
    }
    assert Reaches(s4, [Visit, Visit, EndNotify], AfterDrop(v, s));
  }

  lemma SecondDropped(v: Notice, s: State, visited: State)
    requires !s.panicked && s.loop.NotNotifying? && s.goroutines == []
    requires s.subs == [0, 1] && s.closed == {0}
    requires visited == s.(loop := Notifying(v, 1, []), announced := s.announced + [v])
    ensures Reaches(visited, [Visit, EndNotify], AfterDrop(v, s))
  {
    assert visited.subs[..1] == [0] && visited.loop.filtered + [1] == [1];
    var t := visited.(loop := Notifying(v, 2, [1]), goroutines := s.goroutines + [Launched(1, v, 1, [0])]);
    assert Elements(t.subs) - Elements([1]) == {0};
    assert Reaches(t, [EndNotify], AfterDrop(v, s));
  }

  /** The first subscriber closed, the second one to be told `v`: its send holds index 1 of a list of one. */
  ghost function AfterDrop(v: Notice, s: State): State {
    s.(subs := [1], goroutines := [Launched(1, v, 1, [0])], dropped := s.dropped + {0}, announced := s.announced + [v])
  }

  /** The state before is reachable: two subscriptions, of which the first is closed. */
  lemma ClosedAheadReachable(s: State)
    requires Init(s)
    ensures Reaches(s, [Subscribe, Subscribe, Close(0)], s.(count := 2, subs := [0, 1], closed := {0}))
  {
    var t := s.(count := 2, subs := [0, 1], closed := {0});
    assert [Subscribe, Subscribe, Close(0)][1..] == [Subscribe, Close(0)] && [Subscribe, Close(0)][1..] == [Close(0)];
    assert Reaches(s.(count := 2, subs := [0, 1]), [Close(0)], t);
    assert Reaches(s.(count := 1, subs := [0]), [Subscribe, Close(0)], t);
  }

  ghost predicate Reaches(s: State, actions: seq<Action>, t: State)
    decreases |actions|
  {
    if actions == [] then s == t else Enabled(s, actions[0]) && Reaches(Next(s, actions[0]), actions[1..], t)
  }

  ghost predicate StepsTo(s: State, a: Action, t: State) {
    Enabled(s, a) && Next(s, a) == t
  }

  // ----- A notification launches one send for every open subscription.

  /** One send of `v` to the subscription at position q of the list is launched. */
  ghost predicate Sends(s: State, t: State, v: Notice, subs: seq<nat>, q: nat) {
    q < |subs| && t.goroutines == s.goroutines + [Launched(q, v, subs[q], subs[..q])]
  }

  ghost predicate SendsNothing(s: State, t: State) {
    |t.goroutines| <= |s.goroutines|
  }

  ghost predicate SendsOther(s: State, t: State, v: Notice, subs: seq<nat>, p: nat) {
    exists q: nat :: q != p && Sends(s, t, v, subs, q)
  }

  /** Within a notification the list and the value stay, and the position moves with the visits. */
  ghost predicate Within(s: State, v: Notice, subs: seq<nat>) {
    s.loop.Notifying? && s.loop.value == v && s.subs == subs
  }

  lemma WithinStep(s: State, a: Action, v: Notice, subs: seq<nat>)
    requires Enabled(s, a) && Within(s, v, subs) && !a.EndNotify?
    ensures Within(Next(s, a), v, subs)
    ensures Next(s, a).loop.next == s.loop.next + if a.Visit? then 1 else 0
    ensures s.closed <= Next(s, a).closed
    ensures !a.Visit? ==> SendsNothing(s, Next(s, a))
    ensures a.Visit? ==> if subs[s.loop.next] in s.closed then SendsNothing(s, Next(s, a)) else Sends(s, Next(s, a), v, subs, s.loop.next)
  {
  }

  /** From action i, which begins a notification, to state j it has not ended. */
  ghost predicate Ongoing(states: seq<State>, actions: seq<Action>, i: nat, j: nat)
    requires |states| == |actions| + 1
  {
    i < j < |states| && actions[i].BeginNotify? && forall a :: i < a < j ==> !actions[a].EndNotify?
  }

  lemma {:induction false} StaysWithin(states: seq<State>, actions: seq<Action>, i: nat, j: nat)
    requires IsRun(states, actions) && Ongoing(states, actions, i, j)
    ensures Within(states[j], actions[i].value, states[i].subs)
    ensures forall a :: i < a <= j ==> states[a].closed <= states[j].closed
    decreases j
  {
    assert StepsTo(states[j - 1], actions[j - 1], states[j]);
    if j == i + 1 {
    } else {
      StaysWithin(states, actions, i, j - 1);
      WithinStep(states[j - 1], actions[j - 1], actions[i].value, states[i].subs);
    }
  }

  /** Every position the loop has passed was passed by exactly one visit. */
  lemma {:induction false} PassedOnce(states: seq<State>, actions: seq<Action>, i: nat, j: nat, p: nat) returns (a: nat)
    requires IsRun(states, actions) && Ongoing(states, actions, i, j)
    requires states[j].loop.Notifying? && p < states[j].loop.next
    ensures i < a < j && actions[a].Visit? && states[a].loop.Notifying? && states[a].loop.next == p
    ensures forall b :: i < b < j && b != a && actions[b].Visit? ==> states[b].loop.Notifying? && states[b].loop.next != p
    decreases j
  {
    assert StepsTo(states[j - 1], actions[j - 1], states[j]);
    if j == i + 1 {
      assert false;
    } else {
      StaysWithin(states, actions, i, j - 1);
      WithinStep(states[j - 1], actions[j - 1], actions[i].value, states[i].subs);
      if actions[j - 1].Visit? && states[j - 1].loop.next == p {
        a := j - 1;
        NotPassed(states, actions, i, j - 1, p);
      } else {
        a := PassedOnce(states, actions, i, j - 1, p);
      }
    }
  }

  lemma {:induction false} NotPassed(states: seq<State>, actions: seq<Action>, i: nat, j: nat, p: nat)
    requires IsRun(states, actions) && Ongoing(states, actions, i, j)
    requires states[j].loop.Notifying? && states[j].loop.next <= p
    ensures forall b :: i < b < j && actions[b].Visit? ==> states[b].loop.Notifying? && states[b].loop.next != p
    decreases j
  {
    if j == i + 1 {
    } else {
      assert StepsTo(states[j - 1], actions[j - 1], states[j]);
      StaysWithin(states, actions, i, j - 1);
      WithinStep(states[j - 1], actions[j - 1], actions[i].value, states[i].subs);
      NotPassed(states, actions, i, j - 1, p);
    }
  }

  /**
   Whatever is interleaved with it, a notification that has ended launched, for every subscription listed at its
   beginning and still open at its end, exactly one send, with its value, and with the position the subscription
   had in the list.
   */
  lemma EveryOpenIsSent(states: seq<State>, actions: seq<Action>, i: nat, j: nat, p: nat) returns (a: nat)
    requires IsRun(states, actions) && Ongoing(states, actions, i, j) && j < |actions| && actions[j].EndNotify?
    requires p < |states[i].subs| && states[i].subs[p] !in states[j].closed
    ensures i < a < j
    ensures Sends(states[a], states[a + 1], actions[i].value, states[i].subs, p)
    ensures forall b :: i < b < j && b != a ==> SendsNothing(states[b], states[b + 1]) || SendsOther(states[b], states[b + 1], actions[i].value, states[i].subs, p)
  {
    StaysWithin(states, actions, i, j);
    assert StepsTo(states[j], actions[j], states[j + 1]);
    a := PassedOnce(states, actions, i, j, p);
    SendOf(states, actions, i, j, a);
    forall b | i < b < j && b != a
      ensures SendsNothing(states[b], states[b + 1]) || SendsOther(states[b], states[b + 1], actions[i].value, states[i].subs, p)
    {
      SendOf(states, actions, i, j, b);
    }
  }

  /** What one step of a notification launches. */
  lemma SendOf(states: seq<State>, actions: seq<Action>, i: nat, j: nat, b: nat)
    requires IsRun(states, actions) && Ongoing(states, actions, i, j) && i < b < j
    ensures states[b].loop.Notifying? && states[b].closed <= states[j].closed
    ensures !actions[b].Visit? ==> SendsNothing(states[b], states[b + 1])
    ensures actions[b].Visit? ==>
      var q := states[b].loop.next;
      && q < |states[i].subs|
      && (states[i].subs[q] in states[b].closed ==> SendsNothing(states[b], states[b + 1]))
      && (states[i].subs[q] !in states[b].closed ==> Sends(states[b], states[b + 1], actions[i].value, states[i].subs, q))
  {
    StaysWithin(states, actions, i, j);
    StaysWithin(states, actions, i, b);
    assert StepsTo(states[b], actions[b], states[b + 1]);
    WithinStep(states[b], actions[b], actions[i].value, states[i].subs);
  }

  // ----- The first subscriber, if it never closes, receives every notification exactly once.

  /** The subscription a goroutine is on its way to. */
  function Destination(g: Goroutine): nat {
    if g.Launched? then g.target else g.to
  }

  ghost function One(g: Goroutine, sub: nat): seq<Notice> {
    if Destination(g) == sub then [g.value] else []
  }

  /** What is on its way to a subscription, in the order it was launched. */
  ghost function OnItsWay(gs: seq<Goroutine>, sub: nat): seq<Notice> {
    if gs == [] then [] else One(gs[0], sub) + OnItsWay(gs[1..], sub)
  }

  /** What a subscription has received, in the order it was received. */
  ghost function ReceivedBy(received: seq<(nat, Notice)>, sub: nat): seq<Notice> {
    if received == [] then []
    else
      var (to, v) := received[|received| - 1];
      ReceivedBy(received[..|received| - 1], sub) + if to == sub then [v] else []
  }

  /** The notice of a loop that has not reached the first subscription yet. */
  ghost function Unsent(s: State): seq<Notice> {
    if s.count > 0 && s.loop.Notifying? && s.loop.next == 0 then [s.loop.value] else []
  }

  lemma {:induction false} OnItsWayConcat(a: seq<Goroutine>, b: seq<Goroutine>, sub: nat)
    ensures OnItsWay(a + b, sub) == OnItsWay(a, sub) + OnItsWay(b, sub)
    decreases |a|
  {
    if a == [] {
      assert a + b == b;
    } else {
      assert (a + b)[1..] == a[1..] + b;
      OnItsWayConcat(a[1..], b, sub);
    }
  }

  /** The place of one goroutine among those on their way. */
  lemma OnItsWayAround(gs: seq<Goroutine>, i: nat, g: Goroutine, sub: nat)
    requires i < |gs|
    ensures OnItsWay(gs[i := g], sub) == OnItsWay(gs[..i], sub) + One(g, sub) + OnItsWay(gs[i + 1..], sub)
    ensures OnItsWay(Without(gs, i), sub) == OnItsWay(gs[..i], sub) + OnItsWay(gs[i + 1..], sub)
  {
    var after := [g] + gs[i + 1..];
    assert gs[i := g] == gs[..i] + after;
    OnItsWayConcat(gs[..i], after, sub);
    assert after[1..] == gs[i + 1..];
    OnItsWayConcat(gs[..i], gs[i + 1..], sub);
  }

  lemma OnItsWayAppend(gs: seq<Goroutine>, g: Goroutine, sub: nat)
    ensures OnItsWay(gs + [g], sub) == OnItsWay(gs, sub) + One(g, sub)
  {
    OnItsWayConcat(gs, [g], sub);
    assert [g][1..] == [];
  }

  lemma ReceivedNext(received: seq<(nat, Notice)>, to: nat, v: Notice, sub: nat)
    ensures ReceivedBy(received + [(to, v)], sub) == ReceivedBy(received, sub) + if to == sub then [v] else []
  {
    assert (received + [(to, v)])[..|received|] == received;
  }

  /** A receipt is the subscriber's whose channel the send blocks on, and only its own list grows. */
  lemma ReceiptRecorded(s: State, g: nat, sub: nat)
    requires Enabled(s, Receive(g))
    ensures var t, send := Next(s, Receive(g)), s.goroutines[g];
      && ReceivedBy(t.received, sub) == ReceivedBy(s.received, sub) + (if send.to == sub then [send.value] else [])
      && |t.goroutines| == |s.goroutines| - 1
      && multiset(t.goroutines) == multiset(s.goroutines) - multiset{send}
  {
    ReceivedNext(s.received, s.goroutines[g].to, s.goroutines[g].value, sub);
    assert s.goroutines == s.goroutines[..g] + [s.goroutines[g]] + s.goroutines[g + 1..];
  }

  /** While it is open, what the first subscriber received, what is on its way to it and what is about to be sent. */
  ghost function Account(s: State): seq<Notice> {
    ReceivedBy(s.received, 0) + OnItsWay(s.goroutines, 0) + Unsent(s)
  }

  ghost predicate FirstInv(s: State) {
    && (0 !in s.closed ==> multiset(s.announced) == multiset(Account(s)))
    && (s.count == 0 ==> s.announced == [])
  }

  /** As long as it is open, the first subscription is the first in the list. */
  lemma FirstStaysFirst(s: State)
    requires ListInv(s) && 0 !in s.closed && s.count > 0
    ensures |s.subs| > 0 && s.subs[0] == 0
  {
    assert 0 in s.subs;
  }

  ghost predicate KeepsAccount(s: State, t: State) {
    || (t.announced == s.announced && Account(t) == Account(s))
    || (exists v :: t.announced == s.announced + [v] && Account(t) == Account(s) + [v])
  }

  /** Every step but a receipt extends the account exactly as it extends the announcements. */
  lemma AccountStep(s: State, a: Action)
    requires Inv(s) && Enabled(s, a) && !a.Receive? && 0 !in Next(s, a).closed && (s.count == 0 ==> s.announced == [])
    ensures KeepsAccount(s, Next(s, a))
    ensures Next(s, a).count == 0 ==> Next(s, a).announced == []
  {
    match a
    case Subscribe => assert s.subs == [] ==> s.loop.NotNotifying?;
    case Close(_) =>
    case BeginNotify(v) => BeginAccount(s, v);
    case Visit => VisitAccount(s);
    case EndNotify => EndAccount(s);
    case Schedule(g) => FirstSchedule(s, g);
  }

  lemma BeginAccount(s: State, v: Notice)
    requires Enabled(s, BeginNotify(v)) && (s.count == 0 ==> s.announced == [])
    ensures var t := Next(s, BeginNotify(v));
      if s.count == 0 then t.announced == s.announced && Account(t) == Account(s)
      else t.announced == s.announced + [v] && Account(t) == Account(s) + [v]
  {
  }

  lemma VisitAccount(s: State)
    requires Inv(s) && Enabled(s, Visit) && 0 !in s.closed
    ensures Account(VisitNext(s)) == Account(s) && VisitNext(s).announced == s.announced
  {
    var i := s.loop.next;
    assert s.subs[i] in s.subs;
    FirstStaysFirst(s);
    if s.subs[i] !in s.closed {
      OnItsWayAppend(s.goroutines, Launched(i, s.loop.value, s.subs[i], s.subs[..i]), 0);
    }
  }

  lemma EndAccount(s: State)
    requires Inv(s) && Enabled(s, EndNotify) && 0 !in s.closed
    ensures Account(Next(s, EndNotify)) == Account(s) && Next(s, EndNotify).announced == s.announced
  {
    if s.count > 0 {
      FirstStaysFirst(s);
    }
  }

  /** A send meant for the open first subscription finds it, and no other send does. */
  lemma FirstSchedule(s: State, g: nat)
    requires Inv(s) && Enabled(s, Schedule(g)) && 0 !in s.closed
    ensures var send, t := s.goroutines[g], Next(s, Schedule(g));
      && (send.target == 0 ==> !t.panicked && t.goroutines[g] == Sending(0, send.value))
      && (send.target != 0 && !t.panicked ==> t.goroutines[g].Sending? && t.goroutines[g].to != 0)
      && Account(t) == Account(s) && t.announced == s.announced
  {
    var send := s.goroutines[g];
    assert SendInv(s, send);
    LateLookup(s, g);
    if send.index < |s.subs| {
      OnItsWayAround(s.goroutines, g, Sending(s.subs[send.index], send.value), 0);
      OnItsWayAround(s.goroutines, g, send, 0);
      assert s.goroutines[g := send] == s.goroutines;
    }
  }

  /** The account of the first subscriber, with the notice of one goroutine singled out, before and after its receipt. */
  lemma ReceiptParts(s: State, g: nat, before: seq<Notice>, after: seq<Notice>)
    requires Enabled(s, Receive(g)) && s.goroutines[g].to == 0
    requires before == OnItsWay(s.goroutines[..g], 0) && after == OnItsWay(s.goroutines[g + 1..], 0)
    ensures var v := s.goroutines[g].value;
      && Account(s) == ReceivedBy(s.received, 0) + (before + [v] + after) + Unsent(s)
      && Account(Next(s, Receive(g))) == ReceivedBy(s.received, 0) + [v] + (before + after) + Unsent(s)
  {
    var send := s.goroutines[g];
    ReceivedNext(s.received, send.to, send.value, 0);
    OnItsWayAround(s.goroutines, g, send, 0);
    assert s.goroutines[g := send] == s.goroutines;
  }

  lemma OtherReceipt(s: State, g: nat)
    requires Enabled(s, Receive(g)) && s.goroutines[g].to != 0
    ensures Account(Next(s, Receive(g))) == Account(s)
  {
    var send := s.goroutines[g];
    assert ReceivedBy(s.received + [(send.to, send.value)], 0) == ReceivedBy(s.received, 0) by {
      ReceivedNext(s.received, send.to, send.value, 0);
    }
    assert OnItsWay(Without(s.goroutines, g), 0) == OnItsWay(s.goroutines, 0) by {
      OnItsWayAround(s.goroutines, g, send, 0);
      assert s.goroutines[g := send] == s.goroutines && One(send, 0) == [];
    }
  }

  /** A receipt moves one notice of the account from the goroutines to the subscriber. */
  lemma ReceiveAccount(s: State, g: nat)
    requires Enabled(s, Receive(g))
    ensures multiset(Account(Next(s, Receive(g)))) == multiset(Account(s))
    ensures NextInLine(s, g) ==> Account(Next(s, Receive(g))) == Account(s)
  {
    if s.goroutines[g].to == 0 {
      var before, after := OnItsWay(s.goroutines[..g], 0), OnItsWay(s.goroutines[g + 1..], 0);
      ReceiptParts(s, g, before, after);
      if NextInLine(s, g) {
        NoneOnItsWay(s.goroutines[..g]);
      }
      MoveOver(ReceivedBy(s.received, 0), before, s.goroutines[g].value, after, Unsent(s));
    } else {
      OtherReceipt(s, g);
    }
  }

  /** Moving one notice to the end of the received ones, in front of what was before it. */
  lemma MoveOver(received: seq<Notice>, before: seq<Notice>, v: Notice, after: seq<Notice>, unsent: seq<Notice>)
    ensures multiset(received + [v] + (before + after) + unsent) == multiset(received + (before + [v] + after) + unsent)
    ensures before == [] ==> received + [v] + (before + after) + unsent == received + (before + [v] + after) + unsent
  {
  }

  /** If the goroutine carries a notice to the first subscriber, no goroutine launched before it still does. */
  ghost predicate NextInLine(s: State, g: nat) {
    g < |s.goroutines| &&
    (Destination(s.goroutines[g]) == 0 ==> forall h :: 0 <= h < g ==> Destination(s.goroutines[h]) != 0)
  }

  lemma {:induction false} NoneOnItsWay(gs: seq<Goroutine>)
    requires forall i :: 0 <= i < |gs| ==> Destination(gs[i]) != 0
    ensures OnItsWay(gs, 0) == []
  {
    if gs == [] {
    } else {
      NoneOnItsWay(gs[1..]);
    }
  }

  lemma FirstStep(s: State, a: Action)
    requires Inv(s) && FirstInv(s) && Enabled(s, a)
    ensures FirstInv(Next(s, a))
  {
    if 0 !in Next(s, a).closed {
      StaysOpen(s, a);
      if a.Receive? {
        ReceiveAccount(s, a.g);
      } else {
        AccountStep(s, a);
        KeepsFirst(s, Next(s, a));
      }
    }
  }

  lemma KeepsFirst(s: State, t: State)
    requires KeepsAccount(s, t) && multiset(s.announced) == multiset(Account(s))
    ensures multiset(t.announced) == multiset(Account(t))
  {
  }

  /**
   Exactly once: in every state of every run in which the first subscription is still open, every
   notification announced since it was made has been received by it, is on its way to it, or is about
   to be sent to it, and nothing else has or is.
   */
  lemma {:induction false} FirstSubscriberExactlyOnce(states: seq<State>, actions: seq<Action>, i: nat)
    requires IsRun(states, actions) && i < |states|
    ensures FirstInv(states[i])
  {
    if i == 0 {
    } else {
      ReachableInv(states, actions);
      FirstSubscriberExactlyOnce(states, actions, i - 1);
      assert StepsTo(states[i - 1], actions[i - 1], states[i]);
      FirstStep(states[i - 1], actions[i - 1]);
    }
  }

  /** Nothing is on its way to the open first subscriber, and no notification is being sent. */
  ghost predicate Drained(s: State) {
    0 !in s.closed && s.loop.NotNotifying? && forall i :: 0 <= i < |s.goroutines| ==> Destination(s.goroutines[i]) != 0
  }

  lemma DrainedAccount(s: State)
    requires Drained(s)
    ensures Account(s) == ReceivedBy(s.received, 0)
  {
    NoneOnItsWay(s.goroutines);
  }

  /** Once drained, the first subscriber has received exactly the announcements, in whatever order. */
  lemma FirstReceivedAll(states: seq<State>, actions: seq<Action>, i: nat)
    requires IsRun(states, actions) && i < |states| && Drained(states[i])
    ensures multiset(ReceivedBy(states[i].received, 0)) == multiset(states[i].announced)
  {
    FirstSubscriberExactlyOnce(states, actions, i);
    DrainedAccount(states[i]);
  }

  // ----- In order of launch

  /** Receipts of the first subscriber happen in the order the sends were launched. */
  ghost predicate InOrder(states: seq<State>, actions: seq<Action>)
    requires |states| == |actions| + 1
  {
    forall i :: 0 <= i < |actions| && actions[i].Receive? ==> NextInLine(states[i], actions[i].g)
  }

  /** The announcements are the account of the first subscriber as a sequence. */
  ghost predicate OrderedInv(s: State) {
    s.announced == Account(s) && (s.count == 0 ==> s.announced == [])
  }

  lemma OrderedStep(s: State, a: Action)
    requires Inv(s) && OrderedInv(s) && Enabled(s, a) && (a.Receive? ==> NextInLine(s, a.g)) && 0 !in Next(s, a).closed
    ensures OrderedInv(Next(s, a))
  {
    if a.Receive? {
      ReceiveAccount(s, a.g);
    } else {
      AccountStep(s, a);
    }
  }

  /** With receipts in order the account of the first subscriber, while it is open, is the announcements in order. */
  lemma {:induction false} InOrderAccount(states: seq<State>, actions: seq<Action>, i: nat)
    requires IsRun(states, actions) && InOrder(states, actions) && i < |states| && 0 !in states[i].closed
    ensures OrderedInv(states[i])
  {
    if i == 0 {
    } else {
      var s, a := states[i - 1], actions[i - 1];
      assert StepsTo(s, a, states[i]) && (a.Receive? ==> NextInLine(s, a.g));
      StaysOpen(s, a);
      InOrderAccount(states, actions, i - 1);
      assert Inv(s) by {
        ReachableInv(states, actions);
      }
      OrderedStep(s, a);
    }
  }

  lemma StaysOpen(s: State, a: Action)
    requires Enabled(s, a)
    ensures s.closed <= Next(s, a).closed
  {
  }
}
