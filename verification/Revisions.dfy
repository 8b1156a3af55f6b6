/**
 DNS names of the istiod certificate (pkg/istiodcert/worker.go:250-296) and the same names as the Helm
 chart makes them (deploy/charts/istio-csr/templates/certificate.yaml:23-42).
 */
module Revisions {
  import opened Common

  const DEFAULT := "default"

  function Suffix(namespace: string): string {
    "." + namespace + ".svc"
  }

  function CommonName(namespace: string): string {
    "istiod" + Suffix(namespace)
  }

  /** The DNS name of one revision. */
  function NameOf(namespace: string, revision: string): string {
    if revision == DEFAULT then CommonName(namespace) else "istiod-" + revision + Suffix(namespace)
  }

  function NamesOf(namespace: string, revisions: seq<string>): seq<string> {
    seq(|revisions|, i requires 0 <= i < |revisions| => NameOf(namespace, revisions[i]))
  }

  /** An empty list stands for the default revision alone. */
  function Effective(revisions: seq<string>): seq<string> {
    if revisions == [] then [DEFAULT] else revisions
  }

  method MakeDNSNamesFromRevisions(namespace: string, istioRevisions: seq<string>) returns (commonName: string, dnsNames: seq<string>)
    ensures commonName == "istiod." + namespace + ".svc"
    ensures dnsNames == NamesOf(namespace, Effective(istioRevisions))
    ensures istioRevisions == [] ==> dnsNames == ["istiod." + namespace + ".svc"]
    ensures istioRevisions != [] ==> |dnsNames| == |istioRevisions| && forall i :: 0 <= i < |dnsNames| ==>
      dnsNames[i] == if istioRevisions[i] == "default" then "istiod." + namespace + ".svc" else "istiod-" + istioRevisions[i] + "." + namespace + ".svc"
    ensures Recovered(namespace, dnsNames) == Effective(istioRevisions)
  {
    var revisions := istioRevisions;
    if |revisions| == 0 {
      revisions := [DEFAULT];
    }
    dnsNames := [];
    var defaultSAN := "istiod." + namespace + ".svc";
    assert "istiod." + namespace + ".svc" == CommonName(namespace) by {
      assert "istiod." == "istiod" + ".";
    }
    for i := 0 to |revisions|
      invariant dnsNames == NamesOf(namespace, revisions[..i])
    {
      if revisions[i] == DEFAULT {
        dnsNames := dnsNames + [defaultSAN];
        continue;
      }
      assert "istiod-" + revisions[i] + "." + namespace + ".svc" == "istiod-" + revisions[i] + Suffix(namespace);
      dnsNames := dnsNames + ["istiod-" + revisions[i] + "." + namespace + ".svc"];
    }
    assert revisions[..|revisions|] == revisions;
    RevisionsRecoverable(namespace, revisions);
    return defaultSAN, dnsNames;
  }

  // ----- Round trip

  /** The revision a DNS name was made from. */
  function Recover(namespace: string, name: string): string {
    if name == CommonName(namespace) || |name| < 7 + |Suffix(namespace)| then DEFAULT
    else name[7..|name| - |Suffix(namespace)|]
  }

  function Recovered(namespace: string, names: seq<string>): seq<string> {
    seq(|names|, i requires 0 <= i < |names| => Recover(namespace, names[i]))
  }

  lemma RecoverName(namespace: string, revision: string)
    ensures Recover(namespace, NameOf(namespace, revision)) == revision
    ensures NameOf(namespace, revision) == CommonName(namespace) <==> revision == DEFAULT
  {
    if revision != DEFAULT {
      var name := NameOf(namespace, revision);
      assert name[6] == '-' && CommonName(namespace)[6] == '.';
      assert name[7..|name| - |Suffix(namespace)|] == revision;
    }
  }

  /** The ordered revisions can be read off the DNS names, for every list and namespace. */
  lemma RevisionsRecoverable(namespace: string, revisions: seq<string>)
    ensures Recovered(namespace, NamesOf(namespace, revisions)) == revisions
  {
    forall i | 0 <= i < |revisions|
      ensures Recovered(namespace, NamesOf(namespace, revisions))[i] == revisions[i]
    {
      RecoverName(namespace, revisions[i]);
    }
  }

  // ----- The Helm chart

  /** The template blanks out the default revision before anything else. */
  function Blanked(revision: string): string {
    if revision == DEFAULT then "" else revision
  }

  function HelmName(namespace: string, revision: string): string {
    "istiod" + (if Blanked(revision) != "" then "-" + Blanked(revision) else "") + "." + namespace + ".svc"
  }

  /** The range of the template, with the dictionary of revisions seen; None is `fail`. */
  function HelmRange(namespace: string, revisions: seq<string>, seen: set<string>): Option<seq<string>>
    decreases |revisions|
  {
    if revisions == [] then Some([])
    else if Blanked(revisions[0]) in seen then None
    else
      match HelmRange(namespace, revisions[1..], seen + {Blanked(revisions[0])})
      case None => None
      case Some(names) => Some([HelmName(namespace, revisions[0])] + names)
  }

  function HelmNames(namespace: string, revisions: seq<string>): Option<seq<string>> {
    if revisions == [] then Some(["istiod." + namespace + ".svc"]) else HelmRange(namespace, revisions, {})
  }

  ghost predicate BlankedDistinct(revisions: seq<string>, seen: set<string>) {
    && (forall i, j :: 0 <= i < j < |revisions| ==> Blanked(revisions[i]) != Blanked(revisions[j]))
    && (forall i :: 0 <= i < |revisions| ==> Blanked(revisions[i]) !in seen)
  }

  lemma {:induction false} HelmRangeMeans(namespace: string, revisions: seq<string>, seen: set<string>)
    ensures HelmRange(namespace, revisions, seen).Some? <==> BlankedDistinct(revisions, seen)
    ensures var r := HelmRange(namespace, revisions, seen);
      r.Some? ==> |r.value| == |revisions| && forall i :: 0 <= i < |revisions| ==> r.value[i] == HelmName(namespace, revisions[i])
    decreases |revisions|
  {
    if revisions == [] {
    } else {
      var head, tail := Blanked(revisions[0]), revisions[1..];
      HelmRangeMeans(namespace, tail, seen + {head});
      if BlankedDistinct(revisions, seen) {
        assert BlankedDistinct(tail, seen + {head});
      }
      if head !in seen && BlankedDistinct(tail, seen + {head}) {
        forall i, j | 0 <= i < j < |revisions|
          ensures Blanked(revisions[i]) != Blanked(revisions[j])
        {
          assert revisions[j] == tail[j - 1];
          assert i > 0 ==> revisions[i] == tail[i - 1];
        }
        assert forall i :: 0 < i < |revisions| ==> revisions[i] == tail[i - 1];
        assert BlankedDistinct(revisions, seen);
      }
    }
  }

  lemma SameName(namespace: string, revision: string)
    ensures HelmName(namespace, revision) == NameOf(namespace, revision) <==> revision != ""
  {
    if revision == "" {
      assert HelmName(namespace, revision)[6] == '.' && NameOf(namespace, revision)[6] == '-';
    } else if revision == DEFAULT {
      assert "istiod" + "" + "." + namespace + ".svc" == "istiod" + ("." + namespace + ".svc");
    } else {
      assert "istiod" + ("-" + revision) + "." + namespace + ".svc" == "istiod-" + revision + ("." + namespace + ".svc");
    }
  }

  /** On distinct, non-empty revisions the template succeeds with the provisioner's names. */
  lemma AgreeIfDistinct(namespace: string, revisions: seq<string>)
    requires Distinct(revisions) && "" !in revisions
    ensures HelmRange(namespace, revisions, {}) == Some(NamesOf(namespace, revisions))
  {
    HelmRangeMeans(namespace, revisions, {});
    assert BlankedDistinct(revisions, {});
    var names := HelmRange(namespace, revisions, {}).value;
    forall i | 0 <= i < |revisions|
      ensures names[i] == NamesOf(namespace, revisions)[i]
    {
      SameName(namespace, revisions[i]);
    }
    assert names == NamesOf(namespace, revisions);
  }

  /** If they agree, no revision is repeated and none is empty. */
  lemma DistinctIfAgree(namespace: string, revisions: seq<string>)
    requires HelmRange(namespace, revisions, {}) == Some(NamesOf(namespace, revisions))
    ensures Distinct(revisions) && "" !in revisions
  {
    HelmRangeMeans(namespace, revisions, {});
    forall i | 0 <= i < |revisions|
      ensures revisions[i] != ""
    {
      assert NamesOf(namespace, revisions)[i] == NameOf(namespace, revisions[i]);
      SameName(namespace, revisions[i]);
    }
  }

  /**
   The two generators agree if and only if no revision is empty and none is repeated: the template refuses
   repetitions that the provisioner passes on, and reads an empty revision as the default one.
   */
  lemma HelmAgrees(namespace: string, revisions: seq<string>)
    ensures HelmNames(namespace, revisions) == Some(NamesOf(namespace, Effective(revisions)))
      <==> Distinct(revisions) && "" !in revisions
  {
    if revisions == [] {
      assert "istiod." + namespace + ".svc" == "istiod" + ("." + namespace + ".svc");
      assert NamesOf(namespace, [DEFAULT]) == [CommonName(namespace)];
    } else if Distinct(revisions) && "" !in revisions {
      AgreeIfDistinct(namespace, revisions);
    } else if HelmRange(namespace, revisions, {}) == Some(NamesOf(namespace, revisions)) {
      DistinctIfAgree(namespace, revisions);
    }
  }

  /** An empty revision gets two different names, and a repeated one makes the template fail. */
  lemma HelmDisagrees(namespace: string)
    ensures HelmNames(namespace, [""]) == Some(["istiod." + namespace + ".svc"]) && NamesOf(namespace, [""]) == ["istiod-." + namespace + ".svc"]
    ensures forall revision :: revision != "" ==> HelmNames(namespace, [revision, revision]).None?
  {
    HelmRangeMeans(namespace, [""], {});
    assert BlankedDistinct([""], {});
    var name := HelmRange(namespace, [""], {}).value;
    assert HelmName(namespace, "") == "istiod." + namespace + ".svc";
    assert name == [name[0]] && name[0] == HelmName(namespace, [""][0]);
    assert NameOf(namespace, "") == "istiod-." + namespace + ".svc";
    forall revision | revision != ""
      ensures HelmNames(namespace, [revision, revision]).None?
    {
      HelmRangeMeans(namespace, [revision, revision], {});
      assert !BlankedDistinct([revision, revision], {}) by {
        assert Blanked([revision, revision][0]) == Blanked([revision, revision][1]);
      }
    }
  }
}
