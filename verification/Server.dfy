/**
 The certificate service (pkg/server/auth.go, pkg/server/server.go): from a request to the call of the
 signer, and from the signer's bundle to the response. Authenticators, CSR parsing, chain verification
 and encoding are given by their results.
 */
module Server {
  import opened Common
  import opened Extensions
  import opened Identities
  import opened NodeAuth
  import opened RootFile
  import Renewal

  datatype Caller = Caller(identities: seq<string>, kubernetes: KubernetesInfo)

  datatype Csr = Csr(
    signatureValid: bool,
    dnsNames: seq<string>,
    ipAddresses: seq<string>,
    emailAddresses: seq<string>,
    commonName: string,
    uris: seq<Url>,
    extraExtensions: nat,
    extensions: seq<Extension>)

  datatype Request = Request(csr: string, impersonated: string, validity: int)

  /** The functions and the configuration a server works with. */
  datatype Config = Config(
    parse: string -> Option<Csr>,
    render: Url -> string,
    readOids: OidListReader,
    parseIdentity: string -> Option<Identity>,
    authorizer: Option<Authorizer>,
    maximum: int)                       // MaximumClientCertificateDuration

  predicate WellConfigured(c: Config) {
    -Renewal.TWO63 <= c.maximum < Renewal.TWO63
  }

  ghost predicate Indexed(c: Config) {
    c.authorizer.Some? ==> IsIndexOf(c.authorizer.value.index, c.authorizer.value.pods)
  }

  // ----- What a request must satisfy

  /** `k` is the first authenticator that recognises the caller. */
  ghost predicate FirstSuccess(outcomes: seq<Result<Caller>>, k: nat) {
    k < |outcomes| && outcomes[k].Ok? && forall j :: 0 <= j < k ==> outcomes[j].Err?
  }

  /** The identities the CSR must carry. */
  function Expected(caller: Caller, r: Request): seq<string> {
    if r.impersonated != "" then [r.impersonated] else caller.identities
  }

  ghost predicate CsrMatches(c: Config, csr: Csr, expected: seq<string>) {
    && csr.signatureValid
    && csr.dnsNames == [] && csr.ipAddresses == [] && csr.emailAddresses == [] && csr.commonName == ""
    && csr.extraExtensions == 0 && (forall i :: 0 <= i < |csr.extensions| ==> Accepted(c.readOids, csr.extensions[i]))
    && multiset(expected) == multiset(Keys(c.render, csr.uris))
  }

  ghost predicate MayImpersonate(c: Config, caller: Caller, requested: string)
    requires Indexed(c)
  {
    c.authorizer.Some? && AuthenticateImpersonation(c.authorizer.value, c.parseIdentity, caller.kubernetes, requested)
  }

  ghost predicate AuthorisedAs(c: Config, caller: Caller, r: Request)
    requires Indexed(c)
  {
    && caller.identities != []
    && (r.impersonated != "" ==> MayImpersonate(c, caller, r.impersonated))
    && c.parse(r.csr).Some?
    && CsrMatches(c, c.parse(r.csr).value, Expected(caller, r))
  }

  ghost predicate Authorised(c: Config, outcomes: seq<Result<Caller>>, r: Request)
    requires Indexed(c)
  {
    exists k: nat :: FirstSuccess(outcomes, k) && AuthorisedAs(c, outcomes[k].value, r)
  }

  function Join(parts: seq<string>): string {
    if parts == [] then ""
    else if |parts| == 1 then parts[0]
    else parts[0] + "," + Join(parts[1..])
  }

  /** Reads a joined list back; the inverse of Join on names without commas. */
  function Split(s: string): (r: seq<string>)
    ensures r != []
  {
    if s == "" then [""]
    else
      var rest := Split(s[1..]);
      if s[0] == ',' then [""] + rest else [[s[0]] + rest[0]] + rest[1..]
  }

  lemma {:induction false} SplitPrefix(name: string, s: string)
    requires ',' !in name
    ensures Split(name + s) == [name + Split(s)[0]] + Split(s)[1..]
    decreases |name|
  {
    if name == "" {
      assert "" + s == s && "" + Split(s)[0] == Split(s)[0];
    } else {
      assert (name + s)[1..] == name[1..] + s;
      SplitPrefix(name[1..], s);
      assert [name[0]] + (name[1..] + Split(s)[0]) == name + Split(s)[0];
    }
  }

  /** The joined identities determine the list, provided no identity has a comma in it. */
  lemma {:induction false} JoinSplits(parts: seq<string>)
    requires parts != [] && forall i :: 0 <= i < |parts| ==> ',' !in parts[i]
    ensures Split(Join(parts)) == parts
    decreases |parts|
  {
    if |parts| == 1 {
      SplitPrefix(parts[0], "");
      assert parts[0] + "" == parts[0];
    } else {
      var tail := Join(parts[1..]);
      JoinSplits(parts[1..]);
      assert ("," + tail)[1..] == tail;
      assert Split("," + tail) == [""] + parts[1..];
      assert parts[0] + "," + tail == parts[0] + ("," + tail);
      SplitPrefix(parts[0], "," + tail);
      assert parts[0] + "" == parts[0];
    }
  }

  /**
   What authorisation asks, in full: the first authenticator that succeeds names at least one identity; the CSR
   is signed, has no name but URIs and no extension but the accepted ones; and its URIs are the caller's
   identities or, for an impersonation that the node authoriser grants, the impersonated identity alone.
   */
  lemma AuthorisedMeans(c: Config, outcomes: seq<Result<Caller>>, r: Request, k: nat)
    requires Indexed(c) && k < |outcomes| && outcomes[k].Ok? && forall j :: 0 <= j < k ==> outcomes[j].Err?
    ensures Authorised(c, outcomes, r) <==>
      var caller, parsed := outcomes[k].value, c.parse(r.csr);
      && |caller.identities| > 0 && parsed.Some? && parsed.value.signatureValid
      && |parsed.value.dnsNames| == |parsed.value.ipAddresses| == |parsed.value.emailAddresses| == |parsed.value.commonName| == 0
      && parsed.value.extraExtensions == 0
      && (forall i :: 0 <= i < |parsed.value.extensions| ==>
            var ext := parsed.value.extensions[i];
            || (ext.id == [2, 5, 29, 17] && UriSan(ext.value))
            || (ext.id == [2, 5, 29, 15] && KeyUsageAllowed(ext.value))
            || (ext.id == [2, 5, 29, 37] && ExtendedKeyUsageAllowed(c.readOids, ext.value)))
      && (if r.impersonated == "" then multiset(Keys(c.render, parsed.value.uris)) == multiset(caller.identities)
          else
            && c.authorizer.Some?
            && AuthenticateImpersonation(c.authorizer.value, c.parseIdentity, caller.kubernetes, r.impersonated)
            && |parsed.value.uris| == 1 && c.render(parsed.value.uris[0]) == r.impersonated)
  {
    assert FirstSuccess(outcomes, k) && forall j: nat :: FirstSuccess(outcomes, j) ==> j == k;
    if c.parse(r.csr).Some? {
      OneKey(Keys(c.render, c.parse(r.csr).value.uris), r.impersonated);
    }
  }

  lemma OneKey(keys: seq<string>, x: string)
    ensures multiset([x]) == multiset(keys) <==> |keys| == 1 && keys[0] == x
  {
    if multiset([x]) == multiset(keys) {
      assert |multiset(keys)| == 1;
      assert keys[0] in multiset(keys);
    }
    if |keys| == 1 && keys[0] == x {
      assert keys == [x];
    }
  }

  /** Without an authenticator that succeeds nothing is authorised. */
  lemma NobodyAuthorised(c: Config, outcomes: seq<Result<Caller>>, r: Request)
    requires Indexed(c) && forall i :: 0 <= i < |outcomes| ==> outcomes[i].Err?
    ensures !Authorised(c, outcomes, r)
  {
  }

  /** Succeeds exactly for authorised requests, and then names the identities that were checked. */
  method AuthRequest(c: Config, outcomes: seq<Result<Caller>>, r: Request) returns (identities: string, ok: bool)
    requires Indexed(c)
    ensures ok <==> Authorised(c, outcomes, r)
    ensures ok ==> forall k: nat :: FirstSuccess(outcomes, k) ==> identities == Join(Expected(outcomes[k].value, r))
  {
    var found := false;
    var i := 0;
    while i < |outcomes|
      invariant i <= |outcomes|
      invariant !found
      invariant forall j :: 0 <= j < i ==> outcomes[j].Err?
    {
      if outcomes[i].Ok? {
        found := true;
        break;
      }
      i := i + 1;
    }
    if !found {
      return "", false;
    }
    var caller := outcomes[i].value;
    assert FirstSuccess(outcomes, i);
    assert forall k: nat :: FirstSuccess(outcomes, k) ==> k == i;
    if |caller.identities| == 0 {
      return "", false;
    }
    identities := "";
    if r.impersonated != "" {
      if c.authorizer.None? {
        return "", false;
      }
      if !AuthenticateImpersonation(c.authorizer.value, c.parseIdentity, caller.kubernetes, r.impersonated) {
        return identities, false;
      }
      identities := r.impersonated;
    } else {
      identities := Join(caller.identities);
    }
    var parsed := c.parse(r.csr);
    if parsed.None? {
      return identities, false;
    }
    var csr := parsed.value;
    if !csr.signatureValid {
      return identities, false;
    }
    if |csr.dnsNames| > 0 || |csr.ipAddresses| > 0 || |csr.commonName| > 0 || |csr.emailAddresses| > 0 {
      return identities, false;
    }
    var valid := ValidateCSRExtensions(c.readOids, csr.extraExtensions, csr.extensions);
    if !valid {
      return identities, false;
    }
    var same: bool;
    if r.impersonated == "" {
      same := IdentitiesMatch(c.render, caller.identities, csr.uris);
    } else {
      same := IdentitiesMatch(c.render, [r.impersonated], csr.uris);
    }
    return identities, same;
  }

  // ----- Duration

  const NANOSECONDS := 1_000_000_000

  /** The requested seconds as a Go duration, capped at the maximum. */
  function GrantedDuration(validity: int, maximum: int): (d: int)
    ensures d <= maximum
    ensures d == maximum <==> Renewal.Wrap(validity * NANOSECONDS) >= maximum
    ensures d < maximum ==> -Renewal.TWO63 <= d && (d - validity * NANOSECONDS) % Renewal.TWO64 == 0
  {
    var requested := Renewal.Wrap(validity * NANOSECONDS);
    if requested < maximum then requested else maximum
  }

  /**
   The grant is the requested time capped at the maximum if and only if the product fits 64 bits, or it
   wraps to something the cap hides. It never exceeds the maximum, whatever was requested.
   */
  lemma GrantIsCappedRequest(validity: int, maximum: int)
    requires -Renewal.TWO63 <= maximum < Renewal.TWO63
    ensures var exact := validity * NANOSECONDS;
      GrantedDuration(validity, maximum) == (if exact < maximum then exact else maximum)
      <==> -Renewal.TWO63 <= exact < Renewal.TWO63 || (exact > 0 && Renewal.Wrap(exact) >= maximum)
  {
    var exact := validity * NANOSECONDS;
    if -Renewal.TWO63 <= exact < Renewal.TWO63 {
      assert Renewal.Wrap(exact) == exact;
    }
  }

  /** A request of 2^34 seconds wraps to a negative duration instead of being capped. */
  lemma WrappedGrant()
    ensures GrantedDuration(0x4_0000_0000, 3_600_000_000_000) < 0
  {
  }

  // ----- The response

  datatype Bundle = Bundle(certificate: string, ca: string)

  /** What chain parsing, verification and encoding make of a bundle. */
  datatype Chain = Chain(
    decode: string -> Option<seq<Cert>>,
    verify: (Cert, seq<Cert>, set<Cert>) -> bool,     // leaf, intermediates, roots
    encode: Cert -> Option<string>)

  /** The chain decodes, verifies against the roots, and each of its certificates can be encoded. */
  ghost predicate Acceptable(chain: Chain, bundle: Bundle, roots: Option<RootCAs>) {
    var certs := chain.decode(bundle.certificate);
    && certs.Some? && certs.value != [] && roots.Some?
    && chain.verify(certs.value[0], certs.value[1..], roots.value.pool)
    && forall i :: 0 <= i < |certs.value| ==> chain.encode(certs.value[i]).Some?
  }

  /** The response: each certificate of the chain in its place, and the PEM of the roots after them. */
  ghost predicate ChainThenRoots(chain: Chain, certs: seq<Cert>, pem: string, response: seq<string>) {
    && |response| == |certs| + 1
    && (forall i :: 0 <= i < |certs| ==> Some(response[i]) == chain.encode(certs[i]))
    && response[|certs|] == pem
  }

  method ParseCertificateBundle(chain: Chain, bundle: Bundle, roots: Option<RootCAs>) returns (response: Option<seq<string>>)
    requires forall s :: chain.decode(s).Some? ==> chain.decode(s).value != []
    ensures response.Some? <==> Acceptable(chain, bundle, roots)
    ensures response.Some? ==>
      var certs := chain.decode(bundle.certificate);
      && certs.Some? && roots.Some? && |response.value| == |certs.value| + 1
      && chain.verify(certs.value[0], certs.value[1..], roots.value.pool)
      && (forall i :: 0 <= i < |certs.value| ==> Some(response.value[i]) == chain.encode(certs.value[i]))
      && response.value[|certs.value|] == roots.value.pem
  {
    var certs := chain.decode(bundle.certificate);
    if certs.None? {
      return None;
    }
    var intermediates: seq<Cert> := [];
    for i := 1 to |certs.value|
      invariant intermediates == certs.value[1..i]
    {
      intermediates := intermediates + [certs.value[i]];
    }
    assert intermediates == certs.value[1..];
    if roots.None? {
      return None;
    }
    if !chain.verify(certs.value[0], intermediates, roots.value.pool) {
      return None;
    }
    var certChain: seq<string> := [];
    for i := 0 to |certs.value|
      invariant |certChain| == i
      invariant forall j :: 0 <= j < i ==> Some(certChain[j]) == chain.encode(certs.value[j])
    {
      var encoded := chain.encode(certs.value[i]);
      if encoded.None? {
        return None;
      }
      certChain := certChain + [encoded.value];
    }
    return Some(certChain + [roots.value.pem]);
  }

  // ----- The whole call

  datatype Usage = ClientAuth | ServerAuth

  datatype SignCall = SignCall(identities: string, csr: string, duration: int, usages: seq<Usage>)

  datatype Status = OK(chain: seq<string>) | Unauthenticated | Internal

  /**
   Request soundness: the signer is called if and only if the request is authorised, and then with the
   request's own CSR, the identities that were checked and a duration within the maximum. A client gets a
   chain only from a signed bundle that verified against the roots it is sent.
   */
  method CreateCertificate(
    c: Config, outcomes: seq<Result<Caller>>, r: Request,
    signed: Option<Bundle>, chain: Chain, roots: Option<RootCAs>) returns (status: Status, call: Option<SignCall>)
    requires Indexed(c) && WellConfigured(c)
    requires forall s :: chain.decode(s).Some? ==> chain.decode(s).value != []
    ensures call.Some? <==> Authorised(c, outcomes, r)
    ensures call.Some? ==>
      && call.value.csr == r.csr
      && call.value.duration == GrantedDuration(r.validity, c.maximum) <= c.maximum
      && call.value.usages == [ClientAuth, ServerAuth]
      && forall k: nat :: FirstSuccess(outcomes, k) ==> call.value.identities == Join(Expected(outcomes[k].value, r))
    ensures status.Unauthenticated? <==> call.None?
    ensures status.OK? <==> Authorised(c, outcomes, r) && signed.Some? && Acceptable(chain, signed.value, roots)
    ensures status.OK? ==> ChainThenRoots(chain, chain.decode(signed.value.certificate).value, roots.value.pem, status.chain)
  {
    var identities, ok := AuthRequest(c, outcomes, r);
    if !ok {
      return Unauthenticated, None;
    }
    var duration := GrantedDuration(r.validity, c.maximum);
    call := Some(SignCall(identities, r.csr, duration, [ClientAuth, ServerAuth]));
    if signed.None? {
      return Internal, call;
    }
    var response := ParseCertificateBundle(chain, signed.value, roots);
    if response.None? {
      return Internal, call;
    }
    return OK(response.value), call;
  }

  /** What an authorised impersonation means in terms of the cluster. */
  lemma ImpersonationRunsOnCallersNode(c: Config, outcomes: seq<Result<Caller>>, r: Request, k: nat)
    requires Indexed(c) && Authorised(c, outcomes, r) && FirstSuccess(outcomes, k) && r.impersonated != ""
    ensures c.authorizer.Some? && c.parseIdentity(r.impersonated).Some?
    ensures var a, info := c.authorizer.value, outcomes[k].value.kubernetes;
      var at := NamespacedName(info.podNamespace, info.podName);
      && at in a.pods && a.pods[at].node != ""
      && RunsOn(a.pods, c.parseIdentity(r.impersonated).value, a.pods[at].node)
    ensures c.parse(r.csr).Some? && Keys(c.render, c.parse(r.csr).value.uris) == [r.impersonated]
  {
    var j: nat :| FirstSuccess(outcomes, j) && AuthorisedAs(c, outcomes[j].value, r);
    assert j == k;
    var uris := Keys(c.render, c.parse(r.csr).value.uris);
    assert |multiset(uris)| == |multiset([r.impersonated])|;
    assert uris[0] in multiset(uris);
  }
}
