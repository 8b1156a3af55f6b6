/**
 The active issuer of the cert-manager client (pkg/certmanager/certmanager.go): the issuer given at
 startup, the runtime configuration watcher that replaces it, and the notifications it sends.
 */
module Issuers {
  import opened Common

  const ISSUER_NAME_KEY := "issuer-name"
  const ISSUER_KIND_KEY := "issuer-kind"
  const ISSUER_GROUP_KEY := "issuer-group"

  datatype Issuer = Issuer(name: string, kind: string, group: string)

  predicate Complete(i: Issuer) {
    i.name != "" && i.kind != "" && i.group != ""
  }

  // ----- Startup

  datatype Options = Options(
    defaultIssuerEnabled: bool,
    issuerRef: Issuer,
    configMapName: string,
    configMapNamespace: string)

  predicate HasRuntimeConfiguration(o: Options) {
    o.configMapName != "" && o.configMapNamespace != ""
  }

  datatype Original = NoOriginal | Original(ref: Issuer) | Invalid

  function HandleOriginalIssuerRef(o: Options): (r: Original)
    ensures r.Original? <==> o.defaultIssuerEnabled && Complete(o.issuerRef)
    ensures r.Original? ==> r.ref == o.issuerRef
    ensures r.NoOriginal? <==> !o.defaultIssuerEnabled || o.issuerRef == Issuer("", "", "")
  {
    if !o.defaultIssuerEnabled then NoOriginal
    else if o.issuerRef.name == "" && o.issuerRef.kind == "" && o.issuerRef.group == "" then NoOriginal
    else if o.issuerRef.name == "" then Invalid
    else if o.issuerRef.kind == "" then Invalid
    else if o.issuerRef.group == "" then Invalid
    else Original(o.issuerRef)
  }

  /** The issuer New starts with; None means that issuance waits for runtime configuration. */
  function Startup(o: Options): (r: Result<Option<Issuer>>)
    ensures r == Ok(Some(o.issuerRef)) <==> o.defaultIssuerEnabled && Complete(o.issuerRef)
    ensures r == Ok(None) <==>
      && (!o.defaultIssuerEnabled || o.issuerRef == Issuer("", "", ""))
      && o.configMapName != "" && o.configMapNamespace != ""
    ensures r.Err? <==>
      || (o.defaultIssuerEnabled && !Complete(o.issuerRef) && o.issuerRef != Issuer("", "", ""))
      || ((!o.defaultIssuerEnabled || o.issuerRef == Issuer("", "", "")) && !HasRuntimeConfiguration(o))
  {
    match HandleOriginalIssuerRef(o)
    case Invalid => Err("invalid issuerRef passed at startup")
    case Original(ref) => Ok(Some(ref))
    case NoOriginal =>
      if HasRuntimeConfiguration(o) then Ok(None)
      else Err("runtime configuration parameters are required if no issuerRef is provided on startup")
  }

  // ----- Watch events

  /** The object of an event: the data of a ConfigMap, or something else. */
  datatype Object = ConfigMapObject(data: map<string, string>) | OtherObject

  datatype Event =
    | Added(payload: Object)
    | Modified(payload: Object)
    | Deleted
    | Bookmark
    | WatchError
    | UnknownEvent

  function Value(data: map<string, string>, key: string): string {
    if key in data then data[key] else ""
  }

  /** The issuer a ConfigMap describes, when all three keys have a value. */
  function ParseIssuer(o: Object): (r: Option<Issuer>)
    ensures r.Some? <==>
      && o.ConfigMapObject?
      && forall key :: key in {"issuer-name", "issuer-kind", "issuer-group"} ==> key in o.data && o.data[key] != ""
    ensures r.Some? ==> Complete(r.value)
    ensures r.Some? ==>
      r.value.name == o.data["issuer-name"] && r.value.kind == o.data["issuer-kind"] && r.value.group == o.data["issuer-group"]
  {
    if o.ConfigMapObject? then
      var i := Issuer(Value(o.data, ISSUER_NAME_KEY), Value(o.data, ISSUER_KIND_KEY), Value(o.data, ISSUER_GROUP_KEY));
      if Complete(i) then Some(i) else None
    else None
  }

  /** The runtime configuration of an issuer. */
  function ConfigOf(i: Issuer): Object {
    ConfigMapObject(map[ISSUER_NAME_KEY := i.name, ISSUER_KIND_KEY := i.kind, ISSUER_GROUP_KEY := i.group])
  }

  /** The issuer an event configures; None for every event that does not. */
  function Configured(e: Event): (r: Option<Issuer>)
    ensures r.Some? ==> (e.Added? || e.Modified?) && e.payload.ConfigMapObject? && Complete(r.value)
  {
    if e.Added? || e.Modified? then ParseIssuer(e.payload) else None
  }

  /** Added or modified, the configuration of an issuer configures it. */
  lemma ConfigConfigures(i: Issuer)
    requires Complete(i)
    ensures Configured(Added(ConfigOf(i))) == Configured(Modified(ConfigOf(i))) == Some(i)
  {
  }

  /** Events that can change the active issuer. */
  predicate Relevant(e: Event) {
    e.Deleted? || Configured(e).Some?
  }

  /** The active issuer after a history of events, as a step-by-step account. */
  function ActiveAfter(original: Option<Issuer>, events: seq<Event>): Option<Issuer> {
    if events == [] then original
    else
      var e := events[|events| - 1];
      if e.Deleted? then original
      else if Configured(e).Some? then Configured(e)
      else ActiveAfter(original, events[..|events| - 1])
  }

  /** What subscribers are told about one event: Some(None) is the nil sent on reversion. */
  function NoticeOf(original: Option<Issuer>, e: Event): Option<Option<Issuer>> {
    if e.Deleted? then (if original.Some? then Some(None) else None)
    else if Configured(e).Some? then Some(Configured(e))
    else None
  }

  function Notices(original: Option<Issuer>, events: seq<Event>): seq<Option<Issuer>> {
    if events == [] then []
    else
      Notices(original, events[..|events| - 1]) +
      match NoticeOf(original, events[|events| - 1])
      case None => []
      case Some(n) => [n]
  }

  /** What one event makes of the active issuer. */
  function ActiveStep(original: Option<Issuer>, active: Option<Issuer>, e: Event): Option<Issuer> {
    if e.Deleted? then original else if Configured(e).Some? then Configured(e) else active
  }

  /** One more event. */
  lemma NextEvent(original: Option<Issuer>, events: seq<Event>, e: Event)
    ensures ActiveAfter(original, events + [e]) == ActiveStep(original, ActiveAfter(original, events), e)
    ensures Notices(original, events + [e]) ==
      Notices(original, events) + match NoticeOf(original, e) case None => [] case Some(n) => [n]
  {
    assert (events + [e])[..|events|] == events;
  }

  /** `k` is the last event of the history that can change the issuer. */
  ghost predicate LastRelevant(events: seq<Event>, k: nat) {
    k < |events| && Relevant(events[k]) && forall j :: k < j < |events| ==> !Relevant(events[j])
  }

  /**
   The active issuer is decided by the last relevant event alone: the configuration it carries, or
   the startup issuer if it is a deletion or if there is none; whatever came before or is incomplete,
   a bookmark, an error or unknown makes no difference.
   */
  lemma {:induction false} ActiveIsLastRelevant(original: Option<Issuer>, events: seq<Event>)
    ensures forall k: nat :: LastRelevant(events, k) ==>
      ActiveAfter(original, events) == if events[k].Deleted? then original else Configured(events[k])
    ensures (forall j :: 0 <= j < |events| ==> !Relevant(events[j])) ==> ActiveAfter(original, events) == original
    ensures original.Some? && Complete(original.value) ==>
      ActiveAfter(original, events).Some? && Complete(ActiveAfter(original, events).value)
    ensures ActiveAfter(original, events).Some? ==>
      ActiveAfter(original, events) == original || Complete(ActiveAfter(original, events).value)
    decreases |events|
  {
    if events == [] {
    } else {
      var m := |events| - 1;
      var before := events[..m];
      ActiveIsLastRelevant(original, before);
      forall k: nat | LastRelevant(events, k)
        ensures ActiveAfter(original, events) == if events[k].Deleted? then original else Configured(events[k])
      {
        if k < m {
          assert !Relevant(events[m]);
          assert LastRelevant(before, k);
        }
      }
    }
  }

  // ----- The manager

  class Subscription {
    var closed: bool

    constructor ()
      ensures !closed
    {
      closed := false;
    }

    method Close()
      modifies this
      ensures closed
    {
      closed := true;
    }
  }

  /** A goroutine launched by notifyIssuerChange: it will look its index up when it runs. */
  datatype Send = Send(index: nat, issuer: Option<Issuer>)

  /** `kept` are the open ones among the first n of `all`, in order, and `launched` holds one send for each. */
  ghost predicate OnePerOpen(all: seq<Subscription>, n: nat, kept: seq<Subscription>, launched: seq<Send>, issuer: Option<Issuer>)
    requires n <= |all|
    reads all
  {
    && |launched| == |kept|
    && (forall k :: 0 <= k < |kept| ==>
          launched[k].issuer == issuer && launched[k].index < n && all[launched[k].index] == kept[k] && !kept[k].closed)
    && (forall k, l :: 0 <= k < l < |kept| ==> launched[k].index < launched[l].index)
    && (forall i :: 0 <= i < n && !all[i].closed ==> Send(i, issuer) in launched)
  }

  class Manager {
    const originalIssuerRef: Option<Issuer>
    var activeIssuerRef: Option<Issuer>
    var subscriptions: seq<Subscription>
    var sends: seq<Send>
    /** Every value passed to notifyIssuerChange. */
    ghost var notices: seq<Option<Issuer>>

    constructor (startup: Option<Issuer>)
      ensures originalIssuerRef == startup && activeIssuerRef == startup
      ensures subscriptions == [] && sends == [] && notices == []
    {
      originalIssuerRef := startup;
      activeIssuerRef := startup;
      subscriptions := [];
      sends := [];
      notices := [];
    }

    method SubscribeIssuerChange() returns (sub: Subscription)
      modifies this`subscriptions
      ensures fresh(sub) && !sub.closed
      ensures subscriptions == old(subscriptions) + [sub]
    {
      sub := new Subscription();
      subscriptions := subscriptions + [sub];
    }

    /**
     Drops the closed subscriptions and launches one send for each of the others, in order. The
     index of a send is the position in the list before the drop.
     */
    method NotifyIssuerChange(issuer: Option<Issuer>)
      modifies this`subscriptions, this`sends, this`notices
      ensures notices == old(notices) + [issuer]
      ensures |sends| >= |old(sends)| && sends[..|old(sends)|] == old(sends)
      ensures OnePerOpen(old(subscriptions), |old(subscriptions)|, subscriptions, sends[|old(sends)|..], issuer)
    {
      var filtered: seq<Subscription> := [];
      ghost var launched: seq<Send> := [];
      for i := 0 to |subscriptions|
        invariant subscriptions == old(subscriptions) && notices == old(notices)
        invariant sends == old(sends) + launched
        invariant OnePerOpen(subscriptions, i, filtered, launched, issuer)
      {
        if subscriptions[i].closed {
          continue;
        }
        filtered := filtered + [subscriptions[i]];
        sends := sends + [Send(i, issuer)];
        launched := launched + [Send(i, issuer)];
      }
      assert sends[|old(sends)|..] == launched;
      subscriptions := filtered;
      notices := notices + [issuer];
    }

    method HandleRuntimeConfigIssuerChange(payload: Object) returns (ok: bool)
      modifies this
      ensures ok <==> ParseIssuer(payload).Some?
      ensures activeIssuerRef == if ok then ParseIssuer(payload) else old(activeIssuerRef)
      ensures notices == old(notices) + if ok then [activeIssuerRef] else []
      ensures !ok ==> subscriptions == old(subscriptions) && sends == old(sends)
      ensures |sends| >= |old(sends)| && sends[..|old(sends)|] == old(sends)
      ensures ok ==> OnePerOpen(old(subscriptions), |old(subscriptions)|, subscriptions, sends[|old(sends)|..], activeIssuerRef)
    {
      if payload.OtherObject? {
        return false;
      }
      var dataErrs := 0;
      var name := Value(payload.data, ISSUER_NAME_KEY);
      if ISSUER_NAME_KEY !in payload.data || |name| == 0 {
        dataErrs := dataErrs + 1;
      }
      var kind := Value(payload.data, ISSUER_KIND_KEY);
      if ISSUER_KIND_KEY !in payload.data || |kind| == 0 {
        dataErrs := dataErrs + 1;
      }
      var group := Value(payload.data, ISSUER_GROUP_KEY);
      if ISSUER_GROUP_KEY !in payload.data || |group| == 0 {
        dataErrs := dataErrs + 1;
      }
      if dataErrs > 0 {
        return false;
      }
      activeIssuerRef := Some(Issuer(name, kind, group));
      NotifyIssuerChange(activeIssuerRef);
      return true;
    }

    method HandleRuntimeConfigIssuerDeletion()
      modifies this
      ensures activeIssuerRef == originalIssuerRef
      ensures notices == old(notices) + if originalIssuerRef.Some? then [None] else []
      ensures originalIssuerRef.None? ==> subscriptions == old(subscriptions) && sends == old(sends)
      ensures |sends| >= |old(sends)| && sends[..|old(sends)|] == old(sends)
      ensures originalIssuerRef.Some? ==> OnePerOpen(old(subscriptions), |old(subscriptions)|, subscriptions, sends[|old(sends)|..], None)
    {
      if originalIssuerRef.None? {
        activeIssuerRef := None;
        return;
      }
      activeIssuerRef := originalIssuerRef;
      NotifyIssuerChange(None);
    }

    /** One event of the watch. */
    method HandleEvent(e: Event, ghost seen: seq<Event>)
      requires activeIssuerRef == ActiveAfter(originalIssuerRef, seen)
      requires notices == Notices(originalIssuerRef, seen)
      modifies this
      ensures activeIssuerRef == ActiveAfter(originalIssuerRef, seen + [e])
      ensures notices == Notices(originalIssuerRef, seen + [e])
    {
      assert (seen + [e])[..|seen|] == seen;
      match e {
        case Deleted => HandleRuntimeConfigIssuerDeletion();
        case Added(payload) => var _ := HandleRuntimeConfigIssuerChange(payload);
        case Modified(payload) => var _ := HandleRuntimeConfigIssuerChange(payload);
        case _ =>
      }
    }

    /** One watch session, until its channel is closed. */
    method RunSession(session: seq<Event>, ghost seen: seq<Event>)
      requires activeIssuerRef == ActiveAfter(originalIssuerRef, seen)
      requires notices == Notices(originalIssuerRef, seen)
      modifies this
      ensures activeIssuerRef == ActiveAfter(originalIssuerRef, seen + session)
      ensures notices == Notices(originalIssuerRef, seen + session)
    {
      assert seen + session[..0] == seen;
      for j := 0 to |session|
        invariant activeIssuerRef == ActiveAfter(originalIssuerRef, seen + session[..j])
        invariant notices == Notices(originalIssuerRef, seen + session[..j])
      {
        ghost var past := seen + session[..j];
        HandleEvent(session[j], past);
        assert past + [session[j]] == seen + session[..j + 1];
      }
      assert session[..|session|] == session;
    }

    /**
     The runtime configuration watcher over any number of watch sessions; a session ends when its
     channel is closed, and the watcher is recreated.
     */
    method RunWatcher(sessions: seq<seq<Event>>, ghost history: seq<Event>)
      requires activeIssuerRef == ActiveAfter(originalIssuerRef, history)
      requires notices == Notices(originalIssuerRef, history)
      modifies this
      ensures activeIssuerRef == ActiveAfter(originalIssuerRef, history + Flatten(sessions))
      ensures notices == Notices(originalIssuerRef, history + Flatten(sessions))
    {
      assert history + Flatten(sessions[..0]) == history;
      for i := 0 to |sessions|
        invariant activeIssuerRef == ActiveAfter(originalIssuerRef, history + Flatten(sessions[..i]))
        invariant notices == Notices(originalIssuerRef, history + Flatten(sessions[..i]))
      {
        RunSession(sessions[i], history + Flatten(sessions[..i]));
        FlattenNext(sessions, i);
        assert history + Flatten(sessions[..i]) + sessions[i] == history + Flatten(sessions[..i + 1]);
      }
      assert sessions[..|sessions|] == sessions;
    }
  }

  lemma FlattenNext(sessions: seq<seq<Event>>, i: nat)
    requires i < |sessions|
    ensures Flatten(sessions[..i + 1]) == Flatten(sessions[..i]) + sessions[i]
  {
    assert sessions[..i + 1][..i] == sessions[..i];
  }

  ghost function Flatten(sessions: seq<seq<Event>>): seq<Event> {
    if sessions == [] then [] else Flatten(sessions[..|sessions| - 1]) + sessions[|sessions| - 1]
  }

  // ----- The dynamic istiod certificate provisioner (pkg/istiodcert/worker.go)

  /** What the provisioner holds after one notification. */
  function Resolve(initial: Option<Issuer>, notice: Option<Issuer>): Option<Issuer> {
    if notice.None? && initial.Some? then initial else notice
  }

  function ProvisionerAfter(initial: Option<Issuer>, delivered: seq<Option<Issuer>>): Option<Issuer> {
    if delivered == [] then initial else Resolve(initial, delivered[|delivered| - 1])
  }

  /** Reconciles asked for by the deliveries: all of them, except a nil that means the initial issuer. */
  function Reconciles(initial: Option<Issuer>, delivered: seq<Option<Issuer>>): (n: nat)
    ensures initial.None? ==> n == |delivered|
    ensures (forall i :: 0 <= i < |delivered| ==> delivered[i].Some?) ==> n == |delivered|
    ensures initial.Some? && (forall i :: 0 <= i < |delivered| ==> delivered[i].None?) ==> n == 0
  {
    if delivered == [] then 0
    else
      Reconciles(initial, delivered[..|delivered| - 1]) +
      if delivered[|delivered| - 1].None? && initial.Some? then 0 else 1
  }

  class Provisioner {
    const initialIssuerRef: Option<Issuer>
    var issuerRef: Option<Issuer>
    /** Reconciles of the istiod certificate asked for so far. */
    var triggers: nat

    constructor (initial: Option<Issuer>)
      ensures initialIssuerRef == initial && issuerRef == initial && triggers == 0
    {
      initialIssuerRef := initial;
      issuerRef := initial;
      triggers := 0;
    }

    method HandleNewIssuer(notice: Option<Issuer>)
      modifies this
      ensures issuerRef == Resolve(initialIssuerRef, notice)
      ensures triggers == old(triggers) + if notice.None? && initialIssuerRef.Some? then 0 else 1
    {
      if notice.None? && initialIssuerRef.Some? {
        issuerRef := initialIssuerRef;
        return;
      }
      issuerRef := notice;
      triggers := triggers + 1;
    }

    method Start(delivered: seq<Option<Issuer>>)
      requires issuerRef == initialIssuerRef
      modifies this
      ensures issuerRef == ProvisionerAfter(initialIssuerRef, delivered)
      ensures triggers == old(triggers) + (if initialIssuerRef.Some? then 1 else 0) + Reconciles(initialIssuerRef, delivered)
    {
      if initialIssuerRef.Some? {
        HandleNewIssuer(initialIssuerRef);
      }
      for i := 0 to |delivered|
        invariant issuerRef == ProvisionerAfter(initialIssuerRef, delivered[..i])
        invariant triggers == old(triggers) + (if initialIssuerRef.Some? then 1 else 0) + Reconciles(initialIssuerRef, delivered[..i])
      {
        assert delivered[..i + 1][..i] == delivered[..i];
        HandleNewIssuer(delivered[i]);
      }
      assert delivered[..|delivered|] == delivered;
    }
  }

  /** A deletion with no later complete configuration. */
  ghost predicate EndsDeleted(events: seq<Event>) {
    exists k: nat :: LastRelevant(events, k) && events[k].Deleted?
  }

  /** Some complete configuration was ever seen. */
  ghost predicate EverConfigured(events: seq<Event>) {
    exists k :: 0 <= k < |events| && Configured(events[k]).Some?
  }

  lemma {:induction false} LastNotice(original: Option<Issuer>, events: seq<Event>)
    ensures original.Some? ==> ProvisionerAfter(original, Notices(original, events)) == ActiveAfter(original, events)
    ensures original.None? && !EndsDeleted(events) ==> ProvisionerAfter(original, Notices(original, events)) == ActiveAfter(original, events)
    ensures original.None? ==> (ProvisionerAfter(original, Notices(original, events)).Some? <==> EverConfigured(events))
    decreases |events|
  {
    if events == [] {
    } else {
      var m := |events| - 1;
      var before := events[..m];
      LastNotice(original, before);
      if !Relevant(events[m]) {
        if EndsDeleted(before) {
          var k: nat :| LastRelevant(before, k) && before[k].Deleted?;
          assert LastRelevant(events, k);
        }
      } else if events[m].Deleted? {
        assert LastRelevant(events, m);
      }
      assert EverConfigured(before) ==> EverConfigured(events) by {
        if EverConfigured(before) {
          var k :| 0 <= k < |before| && Configured(before[k]).Some?;
          assert Configured(events[k]).Some?;
        }
      }
    }
  }

  /**
   Once every notification has been delivered in order, the provisioner's issuer equals the manager's
   active issuer if and only if there is a startup issuer to revert to, or the runtime configuration
   was not deleted last, or there never was a complete one.
   */
  lemma ProvisionerAgrees(original: Option<Issuer>, events: seq<Event>)
    ensures ProvisionerAfter(original, Notices(original, events)) == ActiveAfter(original, events)
      <==> original.Some? || !EndsDeleted(events) || !EverConfigured(events)
    ensures original.Some? ==> ProvisionerAfter(original, Notices(original, events)).Some?
  {
    LastNotice(original, events);
    ActiveIsLastRelevant(original, events);
  }

  /** Without a startup issuer, the provisioner keeps using an issuer whose configuration was deleted. */
  lemma ProvisionerKeepsDeletedIssuer(i: Issuer)
    requires Complete(i)
    ensures var events := [Added(ConfigOf(i)), Deleted];
      ActiveAfter(None, events) == None && ProvisionerAfter(None, Notices(None, events)) == Some(i)
  {
    var events := [Added(ConfigOf(i)), Deleted];
    assert events[..1] == [events[0]] && [events[0]][..0] == [];
    assert Configured(events[0]) == Some(i);
  }

  /** Without a startup issuer nil is never announced, and what is announced was configured. */
  lemma {:induction false} NoticesConfigured(events: seq<Event>)
    ensures forall n :: n in Notices(None, events) ==> n.Some?
    ensures Notices(None, events) != [] ==> EverConfigured(events)
  {
    if events == [] {
    } else {
      var m := |events| - 1;
      NoticesConfigured(events[..m]);
      if Notices(None, events[..m]) != [] {
        var k :| 0 <= k < m && Configured(events[..m][k]).Some?;
        assert Configured(events[k]).Some?;
      }
    }
  }

  /**
   The sends race: whatever the order of delivery, the provisioner ends on the issuer that was delivered
   last. It agrees with the manager exactly if nothing was announced, or the one delivered last means the
   same as the one announced last and the manager did not end on an unannounced deletion.
   */
  lemma DeliveryOrderMatters(original: Option<Issuer>, events: seq<Event>, delivered: seq<Option<Issuer>>)
    requires multiset(delivered) == multiset(Notices(original, events))
    ensures var sent := Notices(original, events);
      && |sent| == |delivered|
      && (ProvisionerAfter(original, delivered) == ActiveAfter(original, events)
          <==> sent == [] ||
               (&& Resolve(original, delivered[|delivered| - 1]) == Resolve(original, sent[|sent| - 1])
                && (original.Some? || !EndsDeleted(events))))
  {
    var sent := Notices(original, events);
    assert |multiset(delivered)| == |multiset(sent)|;
    ProvisionerAgrees(original, events);
    NoticesConfigured(events);
    if original.None? && delivered != [] && EndsDeleted(events) {
      assert delivered[|delivered| - 1] in multiset(delivered);
      ActiveIsLastRelevant(original, events);
    } else if delivered == [] {
      LastNotice(original, events);
    }
  }
}
