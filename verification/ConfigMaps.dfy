/**
 The ConfigMap controller (pkg/controller/configmap.go): the handler of root CA events
 and one call of Reconcile. `Propagation` puts them into the concurrent system.
 A Go map that is nil reads as an empty one, so both are an empty `map` here.
 */
module ConfigMaps {
  import opened Common

  const ROOT_KEY := "root-cert.pem"
  const LABEL_KEY := "istio.io/config"

  type Labels = map<string, string>
  type Selector = Labels -> bool

  datatype Namespace = Namespace(labels: Labels, terminating: bool)
  datatype ConfigMap = ConfigMap(data: map<string, string>, labels: Labels)

  /** The state every selected namespace is driven to: exactly the root key, and the Istio label. */
  predicate Desired(cm: ConfigMap, pem: string) {
    && cm.data == map[ROOT_KEY := pem]
    && LABEL_KEY in cm.labels
    && cm.labels[LABEL_KEY] == "true"
  }

  /** Namespaces whose ConfigMap the controller maintains. */
  predicate Active(selector: Selector, ns: Namespace) {
    selector(ns.labels) && !ns.terminating
  }

  /** What Reconcile decides to write after it has read the ConfigMap. */
  datatype Write = NoWrite | Create(cm: ConfigMap) | Update(cm: ConfigMap)

  function Repair(cm: ConfigMap, pem: string): (r: ConfigMap)
    ensures Desired(r, pem)
    ensures r == cm <==> Desired(cm, pem)
    ensures r.labels.Keys == cm.labels.Keys + {LABEL_KEY}
    ensures forall k :: k in cm.labels && k != LABEL_KEY ==> r.labels[k] == cm.labels[k]
  {
    ConfigMap(map[ROOT_KEY := pem], cm.labels[LABEL_KEY := "true"])
  }

  function Plan(seen: Option<ConfigMap>, pem: string): (w: Write)
    ensures w.NoWrite? <==>
      seen.Some? && seen.value.data == map[ROOT_KEY := pem] && LABEL_KEY in seen.value.labels && seen.value.labels[LABEL_KEY] == "true"
    ensures w.Create? <==> seen.None?
    // what is written holds the roots and nothing else, and the label
    ensures !w.NoWrite? ==> w.cm.data == map[ROOT_KEY := pem] && LABEL_KEY in w.cm.labels && w.cm.labels[LABEL_KEY] == "true"
    // a new object has no other label, an existing one keeps its own
    ensures w.Create? ==> w.cm.labels.Keys == {LABEL_KEY}
    ensures w.Update? ==>
      && w.cm.labels.Keys == seen.value.labels.Keys + {LABEL_KEY}
      && forall k :: k in seen.value.labels && k != LABEL_KEY ==> w.cm.labels[k] == seen.value.labels[k]
  {
    match seen
    case None => Create(ConfigMap(map[ROOT_KEY := pem], map[LABEL_KEY := "true"]))
    case Some(cm) => if Desired(cm, pem) then NoWrite else Update(Repair(cm, pem))
  }

  datatype Fetched<+T> = Found(value: T) | NotFound | ApiError

  /** Done(NoWrite) is a nil error with nothing sent to the API server. */
  datatype Outcome = Done(write: Write) | RequeueSoon | Failed

  /** What one Reconcile does, given the cache and the answers of the two reads. */
  function Decide(selector: Selector, cache: string, namespace: Fetched<Namespace>, stored: Fetched<ConfigMap>): (out: Outcome)
    ensures out.Failed? <==>
      || namespace.ApiError?
      || (&& namespace.Found? && selector(namespace.value.labels) && !namespace.value.terminating
          && cache != "" && stored.ApiError?)
    ensures out.RequeueSoon? <==>
      namespace.Found? && selector(namespace.value.labels) && !namespace.value.terminating && cache == ""
    // a write, only into a namespace that is selected and not terminating, and only if something is wrong there
    ensures out.Done? && !out.write.NoWrite? <==>
      && namespace.Found? && selector(namespace.value.labels) && !namespace.value.terminating
      && cache != "" && (stored.NotFound? || (stored.Found? && !Desired(stored.value, cache)))
    ensures out.Done? && !out.write.NoWrite? ==>
      out.write == Plan(if stored.Found? then Some(stored.value) else None, cache)
  {
    match namespace
    case NotFound => Done(NoWrite)
    case ApiError => Failed
    case Found(ns) =>
      if !Active(selector, ns) then Done(NoWrite)
      else if cache == "" then RequeueSoon
      else
        match stored
        case ApiError => Failed
        case NotFound => Done(Plan(None, cache))
        case Found(cm) => Done(Plan(Some(cm), cache))
  }

  class Controller {
    var rootCAsPEM: string
    const selector: Selector

    constructor (selector: Selector)
      ensures this.selector == selector && rootCAsPEM == ""
    {
      this.selector := selector;
      rootCAsPEM := "";
    }

    /** The mapping function of the root event source; `roots` is None when the context was cancelled. */
    method HandleRootEvent(roots: Option<string>, namespaces: seq<(string, Namespace)>)
      returns (requests: seq<string>)
      modifies this
      ensures rootCAsPEM == if roots.Some? then roots.value else old(rootCAsPEM)
      ensures roots.None? ==> requests == []
      ensures roots.Some? ==>
        forall n :: n in requests <==> exists i :: 0 <= i < |namespaces| && namespaces[i].0 == n && selector(namespaces[i].1.labels)
      ensures Distinct(Firsts(namespaces)) ==> Distinct(requests)
    {
      requests := [];
      if roots.None? {
        return;
      }
      rootCAsPEM := roots.value;
      for i := 0 to |namespaces|
        invariant rootCAsPEM == roots.value
        invariant forall n :: n in requests <==> exists j :: 0 <= j < i && namespaces[j].0 == n && selector(namespaces[j].1.labels)
        invariant Distinct(Firsts(namespaces)) ==> Distinct(requests)
      {
        if !selector(namespaces[i].1.labels) {
          continue;
        }
        assert Distinct(Firsts(namespaces)) ==> namespaces[i].0 !in requests by {
          if namespaces[i].0 in requests {
            var j :| 0 <= j < i && namespaces[j].0 == namespaces[i].0;
            assert Firsts(namespaces)[j] == Firsts(namespaces)[i];
          }
        }
        requests := requests + [namespaces[i].0];
      }
    }

    /** One reconcile of a namespace; the two reads of the API are given, the write is returned. */
    method Reconcile(namespace: Fetched<Namespace>, stored: Fetched<ConfigMap>) returns (out: Outcome)
      ensures out == Decide(selector, rootCAsPEM, namespace, stored)
    {
      if namespace.NotFound? {
        return Done(NoWrite);
      }
      if namespace.ApiError? {
        return Failed;
      }
      if !selector(namespace.value.labels) {
        return Done(NoWrite);
      }
      if namespace.value.terminating {
        return Done(NoWrite);
      }
      if rootCAsPEM == "" {
        return RequeueSoon;
      }
      if stored.NotFound? {
        return Done(Create(ConfigMap(map[ROOT_KEY := rootCAsPEM], map[LABEL_KEY := "true"])));
      }
      if stored.ApiError? {
        return Failed;
      }
      var cm, updateNeeded := EditInPlace(stored.value, rootCAsPEM);
      if updateNeeded {
        return Done(Update(cm));
      }
      return Done(NoWrite);
    }

    /** The three edits of the fetched object, with the flag that decides whether to send it. */
    static method EditInPlace(stored: ConfigMap, pem: string) returns (cm: ConfigMap, updateNeeded: bool)
      ensures cm == Repair(stored, pem)
      ensures updateNeeded <==> !Desired(stored, pem)
    {
      var data, labels := stored.data, stored.labels;
      updateNeeded := false;

      var keys := data.Keys;
      while keys != {}
        invariant keys <= stored.data.Keys
        invariant !updateNeeded ==> data == stored.data && forall k :: k in stored.data && k !in keys ==> k == ROOT_KEY
        invariant updateNeeded ==> data == map[] && exists k :: k in stored.data && k != ROOT_KEY
        decreases |keys|
      {
        var k :| k in keys;
        keys := keys - {k};
        if k != ROOT_KEY {
          updateNeeded := true;
          data := map[];
          break;
        }
      }

      if ROOT_KEY !in data || data[ROOT_KEY] != pem {
        data := data[ROOT_KEY := pem];
        updateNeeded := true;
      }
      assert data == map[ROOT_KEY := pem];
      if LABEL_KEY !in labels || labels[LABEL_KEY] != "true" {
        labels := labels[LABEL_KEY := "true"];
        updateNeeded := true;
      }
      cm := ConfigMap(data, labels);
    }
  }

  ghost function Firsts(s: seq<(string, Namespace)>): (r: seq<string>)
    ensures |r| == |s|
  {
    seq(|s|, i requires 0 <= i < |s| => s[i].0)
  }
}
