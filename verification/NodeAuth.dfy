/**
 Authorisation of node proxies to impersonate identities (pkg/server/node_auth.go). The pod index is
 what the repository's key function makes of the pods; its upkeep by the informer is not modelled.
 */
module NodeAuth {
  import opened Common

  datatype NamespacedName = NamespacedName(namespace: string, name: string)
  datatype Pod = Pod(uid: string, serviceAccount: string, node: string)
  datatype SaNode = SaNode(serviceAccount: NamespacedName, node: string)
  datatype KubernetesInfo = KubernetesInfo(podName: string, podNamespace: string, podUID: string, podServiceAccount: string)
  datatype Identity = Identity(trustDomain: string, namespace: string, serviceAccount: string)

  /** Pods by namespace and name. */
  type Pods = map<NamespacedName, Pod>

  datatype Authorizer = Authorizer(trusted: set<NamespacedName>, pods: Pods, index: map<SaNode, set<NamespacedName>>)

  /** The keys a pod is indexed under: none without a node or a service account. */
  function IndexKeys(at: NamespacedName, pod: Pod): seq<SaNode> {
    if |pod.node| == 0 then []
    else if |pod.serviceAccount| == 0 then []
    else [SaNode(NamespacedName(at.namespace, pod.serviceAccount), pod.node)]
  }

  /** The index of a set of pods, built by adding one pod after the other. */
  ghost predicate IsIndexOf(index: map<SaNode, set<NamespacedName>>, pods: Pods) {
    forall k, p :: (k in index && p in index[k]) <==> (p in pods && k in IndexKeys(p, pods[p]))
  }

  method BuildIndex(pods: Pods) returns (index: map<SaNode, set<NamespacedName>>)
    ensures IsIndexOf(index, pods)
  {
    index := map[];
    var left := pods.Keys;
    while left != {}
      invariant left <= pods.Keys
      invariant forall k, p :: (k in index && p in index[k]) <==> (p in pods && p !in left && k in IndexKeys(p, pods[p]))
      decreases |left|
    {
      var p :| p in left;
      left := left - {p};
      var keys := IndexKeys(p, pods[p]);
      if keys != [] {
        var k := keys[0];
        index := index[k := (if k in index then index[k] else {}) + {p}];
      }
    }
  }

  function LookupIndex(index: map<SaNode, set<NamespacedName>>, k: SaNode): set<NamespacedName> {
    if k in index then index[k] else {}
  }

  /** Some pod of the requested account runs on the given node, found by looking at every pod. */
  ghost predicate RunsOn(pods: Pods, id: Identity, node: string) {
    exists p :: p in pods && p.namespace == id.namespace && pods[p].serviceAccount == id.serviceAccount && pods[p].node == node
  }

  /**
   A caller may impersonate an identity if and only if its account is trusted, the identity parses, the
   caller's pod exists with the claimed UID and account, and a pod of that identity runs on the caller's
   node. A caller without a node, and an identity without an account, are always refused.
   */
  function AuthenticateImpersonation(
    a: Authorizer, parseIdentity: string -> Option<Identity>, caller: KubernetesInfo, requested: string): (ok: bool)
    requires IsIndexOf(a.index, a.pods)
    ensures ok <==>
      var id, at := parseIdentity(requested), NamespacedName(caller.podNamespace, caller.podName);
      && NamespacedName(caller.podNamespace, caller.podServiceAccount) in a.trusted
      && id.Some?
      && at in a.pods && a.pods[at].uid == caller.podUID && a.pods[at].serviceAccount == caller.podServiceAccount
      && a.pods[at].node != "" && id.value.serviceAccount != ""
      && RunsOn(a.pods, id.value, a.pods[at].node)
  {
    var at := NamespacedName(caller.podNamespace, caller.podName);
    if NamespacedName(caller.podNamespace, caller.podServiceAccount) !in a.trusted then false
    else
      var id := parseIdentity(requested);
      if id.None? then false
      else if at !in a.pods then false
      else if a.pods[at].uid != caller.podUID then false
      else if a.pods[at].serviceAccount != caller.podServiceAccount then false
      else
        var k := SaNode(NamespacedName(id.value.namespace, id.value.serviceAccount), a.pods[at].node);
        IndexAgreesWithScan(a.index, a.pods, id.value, a.pods[at].node);
        |LookupIndex(a.index, k)| != 0
  }

  lemma IndexAgreesWithScan(index: map<SaNode, set<NamespacedName>>, pods: Pods, id: Identity, node: string)
    requires IsIndexOf(index, pods)
    ensures var k := SaNode(NamespacedName(id.namespace, id.serviceAccount), node);
      |LookupIndex(index, k)| != 0 <==> node != "" && id.serviceAccount != "" && RunsOn(pods, id, node)
  {
    var k := SaNode(NamespacedName(id.namespace, id.serviceAccount), node);
    var found := LookupIndex(index, k);
    if found != {} {
      var p :| p in found;
      assert k in IndexKeys(p, pods[p]);
      assert RunsOn(pods, id, node);
    }
    if node != "" && id.serviceAccount != "" && RunsOn(pods, id, node) {
      var p :| p in pods && p.namespace == id.namespace && pods[p].serviceAccount == id.serviceAccount && pods[p].node == node;
      assert IndexKeys(p, pods[p]) == [k];
      assert p in found;
    }
  }

  // ----- Trusted accounts (pkg/server/server.go:117-132)

  /** The position of the first slash. */
  function FirstSlash(s: string): (i: nat)
    ensures i <= |s| && (i < |s| ==> s[i] == '/') && forall j :: 0 <= j < i ==> s[j] != '/'
  {
    if s == [] || s[0] == '/' then 0 else 1 + FirstSlash(s[1..])
  }

  /** The accounts named as namespace/account; entries without a slash are ignored. */
  method ParseTrustedAccounts(entries: seq<string>) returns (trusted: set<NamespacedName>)
    ensures forall ns: string, sa: string :: '/' !in ns ==>
      (NamespacedName(ns, sa) in trusted <==> ns + "/" + sa in entries)
    ensures forall t :: t in trusted ==> '/' !in t.namespace
  {
    trusted := {};
    for i := 0 to |entries|
      invariant forall ns: string, sa: string :: '/' !in ns ==>
        (NamespacedName(ns, sa) in trusted <==> ns + "/" + sa in entries[..i])
      invariant forall t :: t in trusted ==> '/' !in t.namespace
    {
      var v := entries[i];
      var k := FirstSlash(v);
      forall ns: string, sa: string | '/' !in ns
        ensures v == ns + "/" + sa <==> k < |v| && ns == v[..k] && sa == v[k + 1..]
      {
        if v == ns + "/" + sa {
          assert v[|ns|] == '/';
          assert forall j :: 0 <= j < |ns| ==> v[j] == ns[j] && ns[j] in ns;
          assert k == |ns|;
        }
      }
      assert entries[..i + 1] == entries[..i] + [v];
      if k == |v| {
        continue;
      }
      trusted := trusted + {NamespacedName(v[..k], v[k + 1..])};
    }
    assert entries[..|entries|] == entries;
  }
}
