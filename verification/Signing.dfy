/**
 Sign calls against issuer changes (pkg/certmanager/certmanager.go:207-274, 339-401).

 Any number of Sign calls hold the read side of the issuer's RWMutex from their first statement until
 they return; an issuer change holds the write side. Calls, changes and the signing controller in the
 cluster interleave freely.
 */
module Signing {
  import opened Common
  import opened Issuers
  import opened Waiting

  type CallId = nat
  type Name = string

  datatype Bundle = Bundle(certificate: string, ca: string)

  /** A CertificateRequest: its immutable issuer, the call that created it and every status it has had. */
  datatype Request = Request(issuer: Issuer, owner: CallId, statuses: set<Status>)

  datatype Call =
    | Entered                                                    // read lock taken
    | Created(name: Name)                                        // request created, waiting
    | Returned(created: Option<Name>, result: Option<Bundle>)    // lock released; None is an error

  datatype State = State(
    preserve: bool,                  // PreserveCertificateRequests
    original: Option<Issuer>,
    active: Option<Issuer>,
    readers: set<CallId>,
    writer: bool,
    calls: map<CallId, Call>,
    requests: map<Name, Request>,
    deletions: multiset<Name>)       // Delete calls launched

  datatype Action =
    | Enter(call: CallId)
    | NoIssuer(call: CallId)
    | CreateFails(call: CallId)
    | Create(call: CallId, name: Name)
    | ReturnSigned(call: CallId, status: Status)
    | ReturnError(call: CallId)
    | LockWriter
    | Change(event: Event)
    | UnlockWriter
    | ServerUpdates(name: Name, status: Status)

  predicate Enabled(s: State, a: Action) {
    match a
    case Enter(c) => !s.writer && c !in s.calls
    case NoIssuer(c) => At(s, c, Entered) && s.active.None?
    case CreateFails(c) => At(s, c, Entered) && s.active.Some?
    case Create(c, n) => At(s, c, Entered) && s.active.Some? && n !in s.requests
    case ReturnSigned(c, st) =>
      && c in s.calls && s.calls[c].Created? && s.calls[c].name in s.requests
      && st in s.requests[s.calls[c].name].statuses && Judge(st).IsSigned?
    case ReturnError(c) => c in s.calls && s.calls[c].Created?
    case LockWriter => !s.writer && s.readers == {}
    case Change(_) => s.writer
    case UnlockWriter => s.writer
    case ServerUpdates(n, _) => n in s.requests
  }

  predicate At(s: State, c: CallId, phase: Call) {
    c in s.calls && s.calls[c] == phase
  }

  function Return(s: State, c: CallId, created: Option<Name>, result: Option<Bundle>): State {
    s.(readers := s.readers - {c},
       calls := s.calls[c := Returned(created, result)],
       deletions := s.deletions + if created.Some? && !s.preserve then multiset{created.value} else multiset{})
  }

  function Next(s: State, a: Action): State
    requires Enabled(s, a)
  {
    match a
    case Enter(c) => s.(readers := s.readers + {c}, calls := s.calls[c := Entered])
    case NoIssuer(c) => Return(s, c, None, None)
    case CreateFails(c) => Return(s, c, None, None)
    case Create(c, n) =>
      s.(calls := s.calls[c := Created(n)], requests := s.requests[n := Request(s.active.value, c, {})])
    case ReturnSigned(c, st) => Return(s, c, Some(s.calls[c].name), Some(Bundle(st.certificate, st.ca)))
    case ReturnError(c) => Return(s, c, Some(s.calls[c].name), None)
    case LockWriter => s.(writer := true)
    case Change(e) => s.(active := ActiveStep(s.original, s.active, e))
    case UnlockWriter => s.(writer := false)
    case ServerUpdates(n, st) =>
      s.(requests := s.requests[n := s.requests[n].(statuses := s.requests[n].statuses + {st})])
  }

  ghost predicate Init(s: State) {
    && s.active == s.original && s.readers == {} && !s.writer
    && s.calls == map[] && s.requests == map[] && s.deletions == multiset{}
  }

  ghost predicate StepsTo(s: State, a: Action, t: State) {
    Enabled(s, a) && t == Next(s, a)
  }

  ghost predicate IsRun(states: seq<State>, actions: seq<Action>) {
    && |states| == |actions| + 1
    && Init(states[0])
    && forall i :: 0 <= i < |actions| ==> StepsTo(states[i], actions[i], states[i + 1])
  }

  // ----- Invariants

  /** The readers are the calls that have not returned, and they exclude the writer. */
  ghost predicate LockInv(s: State) {
    && (forall c :: c in s.readers <==> c in s.calls && !s.calls[c].Returned?)
    && (s.writer ==> s.readers == {})
  }

  /** The request of a waiting call is its own and was made with the issuer that is still active. */
  ghost predicate IssuerInv(s: State) {
    forall c :: c in s.calls && s.calls[c].Created? ==>
      var n := s.calls[c].name;
      n in s.requests && s.requests[n].owner == c && s.active == Some(s.requests[n].issuer)
  }

  /** Every request belongs to a call that is waiting for it or has returned from it. */
  ghost predicate OwnerInv(s: State) {
    forall n :: n in s.requests ==>
      var c := s.requests[n].owner;
      c in s.calls && (s.calls[c] == Created(n) || (s.calls[c].Returned? && s.calls[c].created == Some(n)))
  }

  /** Deletions launched for `n`: one if its call has returned and requests are not preserved. */
  ghost function Owed(s: State, n: Name): nat {
    if !s.preserve && n in s.requests && s.requests[n].owner in s.calls && s.calls[s.requests[n].owner].Returned? then 1 else 0
  }

  ghost predicate CleanupInv(s: State) {
    forall n :: s.deletions[n] == Owed(s, n)
  }

  /** A call returned a bundle only after a snapshot of its own request was signed. */
  ghost predicate BundleInv(s: State) {
    forall c :: c in s.calls && s.calls[c].Returned? && s.calls[c].result.Some? ==>
      && s.calls[c].created.Some? && s.calls[c].created.value in s.requests
      && s.requests[s.calls[c].created.value].owner == c
      && |s.calls[c].result.value.certificate| > 0
      && exists st :: st in s.requests[s.calls[c].created.value].statuses && Judge(st).IsSigned?
                      && s.calls[c].result.value == Bundle(st.certificate, st.ca)
  }

  ghost predicate Inv(s: State) {
    LockInv(s) && IssuerInv(s) && OwnerInv(s) && CleanupInv(s) && BundleInv(s)
  }

  lemma StepInv(s: State, a: Action)
    requires Inv(s) && Enabled(s, a)
    ensures Inv(Next(s, a))
  {
    StepLock(s, a);
    StepIssuer(s, a);
    StepOwner(s, a);
    StepCleanup(s, a);
    StepBundle(s, a);
  }

  lemma StepLock(s: State, a: Action)
    requires LockInv(s) && Enabled(s, a)
    ensures LockInv(Next(s, a))
  {
  }

  lemma StepIssuer(s: State, a: Action)
    requires LockInv(s) && IssuerInv(s) && Enabled(s, a)
    ensures IssuerInv(Next(s, a))
  {
  }

  lemma StepOwner(s: State, a: Action)
    requires OwnerInv(s) && IssuerInv(s) && Enabled(s, a)
    ensures OwnerInv(Next(s, a))
  {
  }

  lemma StepCleanup(s: State, a: Action)
    requires OwnerInv(s) && IssuerInv(s) && CleanupInv(s) && Enabled(s, a)
    ensures CleanupInv(Next(s, a))
  {
  }

  lemma StepBundle(s: State, a: Action)
    requires BundleInv(s) && IssuerInv(s) && Enabled(s, a)
    ensures BundleInv(Next(s, a))
  {
  }

  lemma {:induction false} ReachableInv(states: seq<State>, actions: seq<Action>)
    requires IsRun(states, actions)
    ensures forall i :: 0 <= i < |states| ==> Inv(states[i])
    decreases |actions|
  {
    if actions == [] {
      assert Inv(states[0]);
    } else {
      var k := |actions| - 1;
      ReachableInv(states[..k + 1], actions[..k]);
      assert Inv(states[..k + 1][k]) && StepsTo(states[k], actions[k], states[k + 1]);
      StepInv(states[k], actions[k]);
      forall i | 0 <= i < |states|
        ensures Inv(states[i])
      {
        assert i <= k ==> Inv(states[..k + 1][i]);
      }
    }
  }

  // ----- Whole runs

  ghost function Progress(s: State, c: CallId): int {
    if c !in s.calls then 0
    else match s.calls[c]
      case Entered => 1
      case Created(_) => 2
      case Returned(_, _) => 3
  }

  /** A step takes a call forward or leaves it where it is, and never changes a request's issuer. */
  lemma StepForward(s: State, a: Action, c: CallId, n: Name)
    requires Enabled(s, a)
    ensures var t := Next(s, a);
      && (Progress(t, c) > Progress(s, c) || Lookup(t.calls, c) == Lookup(s.calls, c))
      && (n in s.requests ==> n in t.requests && t.requests[n].issuer == s.requests[n].issuer)
  {
  }

  /** Between two states of a run in which a call stands at the same point, it has not moved. */
  lemma {:induction false} StandsStill(states: seq<State>, actions: seq<Action>, i: nat, j: nat, c: CallId, n: Name)
    requires IsRun(states, actions) && i <= j < |states|
    ensures Progress(states[i], c) <= Progress(states[j], c)
    ensures Progress(states[i], c) == Progress(states[j], c) ==>
      forall k :: i <= k <= j ==> Lookup(states[k].calls, c) == Lookup(states[i].calls, c)
    ensures n in states[i].requests ==>
      n in states[j].requests && states[j].requests[n].issuer == states[i].requests[n].issuer
    decreases j - i
  {
    if i == j {
    } else {
      assert StepsTo(states[i], actions[i], states[i + 1]);
      StepForward(states[i], actions[i], c, n);
      StandsStill(states, actions, i + 1, j, c, n);
    }
  }

  /**
   Issuer stability: whatever else happens, from the creation of a call's request until the call
   returns its bundle the active issuer is the one in the request, and the bundle is a signed
   snapshot of that request.
   */
  lemma IssuerStable(states: seq<State>, actions: seq<Action>, i: nat, j: nat, c: CallId, n: Name, st: Status)
    requires IsRun(states, actions) && i < j < |actions|
    requires actions[i] == Create(c, n) && actions[j] == ReturnSigned(c, st)
    ensures n in states[j + 1].requests
    ensures forall k :: i < k <= j + 1 ==> states[k].active == Some(states[j + 1].requests[n].issuer)
    ensures At(states[j + 1], c, Returned(Some(n), Some(Bundle(st.certificate, st.ca))))
    ensures st in states[j + 1].requests[n].statuses && |st.certificate| > 0 && !st.denied && !st.failed
  {
    ReachableInv(states, actions);
    assert StepsTo(states[i], actions[i], states[i + 1]) && StepsTo(states[j], actions[j], states[j + 1]);
    StandsStill(states, actions, i + 1, j, c, n);
    StepForward(states[j], actions[j], c, n);
    forall k | i < k <= j
      ensures states[k].active == Some(states[j + 1].requests[n].issuer)
    {
      assert Lookup(states[k].calls, c) == Some(Created(n));
      StandsStill(states, actions, k, j + 1, c, n);
    }
  }

  /** The call that created request `n` has returned. */
  ghost predicate HasReturned(s: State, n: Name)
    requires n in s.requests
  {
    Progress(s, s.requests[n].owner) == 3
  }

  /**
   Cleanup conservation: at every moment of every run the deletions launched are one for each request
   whose call has returned, successfully or not, and none at all if requests are preserved.
   */
  lemma CleanupConserved(states: seq<State>, actions: seq<Action>, i: nat)
    requires IsRun(states, actions) && i < |states|
    ensures states[i].preserve ==> states[i].deletions == multiset{}
    ensures !states[i].preserve ==>
      forall n :: states[i].deletions[n] == (if n in states[i].requests && HasReturned(states[i], n) then 1 else 0)
    ensures forall c :: c in states[i].calls && states[i].calls[c].Returned? && states[i].calls[c].result.Some? ==>
      states[i].calls[c].created.Some?
  {
    ReachableInv(states, actions);
    assert Inv(states[i]);
    assert forall n :: states[i].deletions[n] == Owed(states[i], n);
  }

  /** While a call is in flight no issuer change can be applied. */
  lemma ChangesWaitForCalls(states: seq<State>, actions: seq<Action>, i: nat, c: CallId)
    requires IsRun(states, actions) && i < |actions| && actions[i].Change?
    ensures Progress(states[i], c) == 0 || Progress(states[i], c) == 3
  {
    ReachableInv(states, actions);
    assert StepsTo(states[i], actions[i], states[i + 1]);
    assert LockInv(states[i]);
  }

  /** The events applied so far by the writer. */
  ghost function Applied(actions: seq<Action>): seq<Event> {
    if actions == [] then []
    else
      var a := actions[|actions| - 1];
      if a.Change? then Applied(actions[..|actions| - 1]) + [a.event] else Applied(actions[..|actions| - 1])
  }

  /** Concurrent or not, the active issuer is the fold of the applied events. */
  lemma {:induction false} ActiveIsFold(states: seq<State>, actions: seq<Action>)
    requires IsRun(states, actions)
    ensures states[|actions|].active == ActiveAfter(states[0].original, Applied(actions))
    ensures states[|actions|].original == states[0].original
    decreases |actions|
  {
    if actions == [] {
    } else {
      var k := |actions| - 1;
      ActiveIsFold(states[..k + 1], actions[..k]);
      assert StepsTo(states[k], actions[k], states[k + 1]);
      var before := Applied(actions[..k]);
      if actions[k].Change? {
        assert (before + [actions[k].event])[..|before|] == before;
      }
    }
  }

  // ----- One call of Sign

  const IDENTITY_ANNOTATION := "istio.cert-manager.io/identities"

  datatype CertificateRequest = CertificateRequest(
    annotations: map<string, string>, duration: int, csr: string, usages: seq<string>, issuer: Issuer)

  /** The annotations of a request: the configured ones are copied over the identities. */
  function Annotated(identities: string, additional: map<string, string>): map<string, string> {
    map[IDENTITY_ANNOTATION := identities] + additional
  }

  /** A configured annotation under the same key replaces the identities of every request. */
  lemma AnnotationReplaced(identities: string, other: string)
    ensures Annotated(identities, map[IDENTITY_ANNOTATION := other]) == map[IDENTITY_ANNOTATION := other]
  {
  }

  datatype SignResult = Signed(bundle: Bundle) | SignError | StillWaiting

  class Client {
    const preserve: bool
    const additionalAnnotations: map<string, string>
    var activeIssuerRef: Option<Issuer>
    var deletions: multiset<Name>

    constructor (preserve: bool, additionalAnnotations: map<string, string>, issuer: Option<Issuer>)
      ensures this.preserve == preserve && this.additionalAnnotations == additionalAnnotations
      ensures activeIssuerRef == issuer && deletions == multiset{}
    {
      this.preserve := preserve;
      this.additionalAnnotations := additionalAnnotations;
      activeIssuerRef := issuer;
      deletions := multiset{};
    }

    /**
     `created` is the name the server gives the request, or None if the create fails; the other inputs
     are those of the wait. A call that is still waiting has deleted nothing.
     */
    method Sign(
      identities: string, csr: string, duration: int, usages: seq<string>,
      created: Option<Name>, watchOpens: bool, got: Option<Status>, channel: seq<Item>, closed: bool)
      returns (sent: Option<CertificateRequest>, result: SignResult)
      modifies this`deletions
      ensures sent.Some? <==> activeIssuerRef.Some?
      ensures sent.Some? ==>
        && Some(sent.value.issuer) == activeIssuerRef
        && sent.value.csr == csr && sent.value.duration == duration && sent.value.usages == usages
        && sent.value.annotations.Keys == additionalAnnotations.Keys + {IDENTITY_ANNOTATION}
        && (forall k :: k in additionalAnnotations ==> sent.value.annotations[k] == additionalAnnotations[k])
        && (sent.value.annotations[IDENTITY_ANNOTATION] == identities
            <==> IDENTITY_ANNOTATION !in additionalAnnotations || additionalAnnotations[IDENTITY_ANNOTATION] == identities)
      ensures deletions == old(deletions) +
        if activeIssuerRef.Some? && created.Some? && !preserve && !result.StillWaiting? then multiset{created.value} else multiset{}
      // a bundle exactly if the first status that is not open is signed, and then that status's
      ensures forall b :: result == SignResult.Signed(b) <==>
        activeIssuerRef.Some? && created.Some? && watchOpens && got.Some? && SignedFirst([Update(got.value)] + channel, b)
      ensures result.StillWaiting? <==>
        && activeIssuerRef.Some? && created.Some? && watchOpens && got.Some? && !closed
        && AllOpen([Update(got.value)] + channel)
      ensures result.SignError? <==>
        || activeIssuerRef.None? || created.None? || !watchOpens || got.None?
        || RefusedFirst([Update(got.value)] + channel)
        || (closed && AllOpen([Update(got.value)] + channel))
    {
      if activeIssuerRef.None? {
        return None, SignError;
      }
      sent := Some(CertificateRequest(Annotated(identities, additionalAnnotations), duration, csr, usages, activeIssuerRef.value));
      if created.None? {
        return sent, SignError;
      }
      var out := WaitForCertificateRequest(watchOpens, got, channel, closed);
      if watchOpens && got.Some? {
        OutcomeShown([Update(got.value)] + channel, closed, out);
      }
      if out.Blocked? {
        return sent, StillWaiting;
      }
      if !preserve {
        deletions := deletions + multiset{created.value};
      }
      if !out.Signed? {
        return sent, SignError;
      }
      return sent, SignResult.Signed(Bundle(out.status.certificate, out.status.ca));
    }
  }

  /** The first item after which a wait does not go on is a signed status with this bundle. */
  ghost predicate SignedFirst(items: seq<Item>, b: Bundle) {
    exists k :: 0 <= k < |items| && (forall j :: 0 <= j < k ==> Open(items[j])) && SignedWith(items[k], b)
  }

  predicate SignedWith(i: Item, b: Bundle) {
    && i.Update? && !i.status.denied && !i.status.failed && i.status.certificate != ""
    && b.certificate == i.status.certificate && b.ca == i.status.ca
  }

  /** It is a removal, or a status that is denied or failed. */
  ghost predicate RefusedFirst(items: seq<Item>) {
    exists k ::
      && 0 <= k < |items| && (forall j :: 0 <= j < k ==> Open(items[j]))
      && (items[k].Removal? || (items[k].Update? && (items[k].status.denied || items[k].status.failed)))
  }

  ghost predicate AllOpen(items: seq<Item>) {
    forall j :: 0 <= j < |items| ==> Open(items[j])
  }

  /** What the outcome of a wait says about the items shown. */
  lemma OutcomeShown(items: seq<Item>, closed: bool, out: Outcome)
    requires DecidedByFirst(items, closed, out)
    ensures out.Blocked? <==> !closed && AllOpen(items)
    ensures !out.Blocked? && !out.Signed? <==> RefusedFirst(items) || (closed && AllOpen(items))
    ensures forall b :: SignedFirst(items, b) <==> out.Signed? && b == Bundle(out.status.certificate, out.status.ca)
    ensures out.Signed? ==> Update(out.status) in items && Judge(out.status).IsSigned?
  {
    forall i: Item
      ensures Decisive(i) <==> !Open(i)
    {
      DecisiveIffNotOpen(i);
    }
    if k: nat :| k < |items| && Decisive(items[k]) {
      var f := SomeFirst(items, k);
      assert out == OutcomeOf(items[f]);
      FirstIs(items, f);
    }
  }

  lemma FirstIs(items: seq<Item>, f: nat)
    requires FirstDecisive(items, f)
    ensures forall b :: SignedFirst(items, b) <==> SignedWith(items[f], b)
  {
    forall i: Item
      ensures Decisive(i) <==> !Open(i)
    {
      DecisiveIffNotOpen(i);
    }
    forall b | SignedFirst(items, b)
      ensures SignedWith(items[f], b)
    {
      var k :| 0 <= k < |items| && (forall j :: 0 <= j < k ==> Open(items[j])) && SignedWith(items[k], b);
      assert k == f;
    }
  }

  /** A call of Sign and its steps among all the others: the wait ends as the state machine's call returns. */
  lemma SignReturns(s: State, c: CallId, n: Name, items: seq<Item>, closed: bool, out: Outcome)
    requires Inv(s) && At(s, c, Created(n)) && DecidedByFirst(items, closed, out) && !out.Blocked?
    requires forall i :: 0 <= i < |items| && items[i].Update? ==> items[i].status in s.requests[n].statuses
    ensures
      if out.Signed? then
        && Enabled(s, ReturnSigned(c, out.status))
        && At(Next(s, ReturnSigned(c, out.status)), c, Returned(Some(n), Some(Bundle(out.status.certificate, out.status.ca))))
      else Enabled(s, ReturnError(c)) && At(Next(s, ReturnError(c)), c, Returned(Some(n), None))
  {
    OutcomeShown(items, closed, out);
  }
}
