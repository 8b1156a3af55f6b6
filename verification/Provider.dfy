/**
 The serving-certificate provider (pkg/tls/tls.go): its roots, its TLS configuration and the events it
 sends, over every interleaving of certificate fetches, root file updates, subscriptions and shutdown.

 Decoding bundles, building the SPIFFE trust pool and checking key pairs are functions of the
 environment; the file watcher hands over only bundles `RootFile` can broadcast.
 */
module Provider {
  import opened Common
  import opened RootFile
  import Renewal

  const VERSION_TLS12 := 0x0303

  datatype Env = Env(
    decode: Decoder,                          // set-decoding, used for the root pool
    trust: string -> Option<set<Cert>>,       // the SPIFFE verifier's pool for a bundle
    keyPair: (string, string) -> bool,        // certificate and private key belong together
    notAfter: string -> Option<int>,          // expiry of a certificate
    rootFile: bool,                           // RootCAsCertFile is set
    minVersion: nat,                          // servingMinVersion
    cipherSuites: seq<nat>,
    curves: seq<nat>)

  datatype Response = Response(certificate: string, ca: string)

  datatype TLSConfig = TLSConfig(certificate: string, clientCAs: set<Cert>, minVersion: nat, cipherSuites: seq<nat>, curves: seq<nat>)

  /** A fetch between its two critical sections holds the issuer's response and a private key. */
  datatype Fetch = NoFetch | Signed(response: Response, key: string) | Loaded(response: Response, key: string)

  datatype State = State(
    roots: Option<RootCAs>,     // None: no PEM and no pool
    config: Option<TLSConfig>,
    configRoots: string,        // history: the roots the configuration was built from
    fetch: Fetch,
    stopped: bool,              // Start has returned
    subscriptions: nat,
    events: nat)                // events launched, over all subscriptions

  function PEM(s: State): string {
    if s.roots.Some? then s.roots.value.pem else ""
  }

  datatype Action =
    | Subscribe
    | FileUpdate(roots: RootCAs)
    | SignReturns(response: Response, key: string)
    | SignFails
    | LoadCAs
    | Install
    | Shutdown

  predicate Enabled(env: Env, s: State, a: Action) {
    match a
    case Subscribe => true
    case FileUpdate(r) => env.rootFile && r.pem != "" && env.decode(r.pem) == Some(r.pool)
    case SignReturns(_, _) => !s.stopped && s.fetch.NoFetch?
    case SignFails => !s.stopped && s.fetch.NoFetch?
    case LoadCAs => s.fetch.Signed?
    case Install => s.fetch.Loaded?
    case Shutdown => !s.stopped && s.fetch.NoFetch?
  }

  /** applyTLSSecuritySettings: the floor of TLS 1.2 is applied whatever was configured. */
  function Secured(env: Env, certificate: string, clientCAs: set<Cert>): (c: TLSConfig)
    ensures c.minVersion >= VERSION_TLS12 && c.minVersion >= env.minVersion
    ensures c.minVersion == VERSION_TLS12 || c.minVersion == env.minVersion
    ensures c.certificate == certificate && c.clientCAs == clientCAs
    ensures c.cipherSuites == env.cipherSuites && c.curves == env.curves
  {
    TLSConfig(certificate, clientCAs, if env.minVersion < VERSION_TLS12 then VERSION_TLS12 else env.minVersion, env.cipherSuites, env.curves)
  }

  /** The new roots after the issuer answered with bundle `ca`; None is a decoding error. */
  function LoadedRoots(env: Env, roots: Option<RootCAs>, ca: string): Option<Option<RootCAs>> {
    if ca == (if roots.Some? then roots.value.pem else "") then Some(roots)
    else if env.decode(ca).Some? then Some(Some(RootCAs(ca, env.decode(ca).value)))
    else None
  }

  /** Whether the second critical section of a fetch succeeds. */
  predicate Installs(env: Env, roots: Option<RootCAs>, response: Response, key: string) {
    && roots.Some?
    && env.trust(roots.value.pem).Some?
    && env.keyPair(response.certificate, key)
    && env.notAfter(response.certificate).Some?
  }

  function Next(env: Env, s: State, a: Action): State
    requires Enabled(env, s, a)
  {
    match a
    case Subscribe => s.(subscriptions := s.subscriptions + 1)
    case FileUpdate(r) => s.(roots := Some(r), events := s.events + s.subscriptions)
    case SignReturns(response, key) => s.(fetch := Signed(response, key))
    case SignFails => s
    case LoadCAs =>
      if env.rootFile then s.(fetch := Loaded(s.fetch.response, s.fetch.key))
      else
        (match LoadedRoots(env, s.roots, s.fetch.response.ca)
         case None => s.(fetch := NoFetch)
         case Some(r) =>
           s.(roots := r, fetch := Loaded(s.fetch.response, s.fetch.key),
              events := s.events + if r == s.roots then 0 else s.subscriptions))
    case Install =>
      if Installs(env, s.roots, s.fetch.response, s.fetch.key) then
        s.(config := Some(Secured(env, s.fetch.response.certificate, env.trust(s.roots.value.pem).value)),
           configRoots := s.roots.value.pem, fetch := NoFetch)
      else s.(fetch := NoFetch)
    case Shutdown => s.(config := None, stopped := true)
  }

  ghost predicate Init(s: State) {
    s.roots.None? && s.config.None? && s.fetch.NoFetch? && !s.stopped && s.events == 0
  }

  ghost predicate StepsTo(env: Env, s: State, a: Action, t: State) {
    Enabled(env, s, a) && t == Next(env, s, a)
  }

  ghost predicate IsRun(env: Env, states: seq<State>, actions: seq<Action>) {
    && |states| == |actions| + 1
    && Init(states[0])
    && forall i :: 0 <= i < |actions| ==> StepsTo(env, states[i], actions[i], states[i + 1])
  }

  /** The roots, if set, are a non-empty bundle with the pool that bundle decodes to. */
  ghost predicate RootsInv(env: Env, s: State) {
    s.roots.Some? ==> s.roots.value.pem != "" && env.decode(s.roots.value.pem) == Some(s.roots.value.pool)
  }

  /** A served configuration has a floor of TLS 1.2 and trusts the roots it was built from. */
  ghost predicate ConfigInv(env: Env, s: State) {
    s.config.Some? ==>
      && s.roots.Some?
      && s.config.value.minVersion >= VERSION_TLS12
      && env.trust(s.configRoots) == Some(s.config.value.clientCAs)
  }

  /** Without a root file a fetch that passed its first section left the issuer's bundle as the roots. */
  ghost predicate FetchInv(env: Env, s: State) {
    && (s.fetch.Loaded? && !env.rootFile ==> PEM(s) == s.fetch.response.ca)
    && (s.stopped ==> s.config.None? && s.fetch.NoFetch?)
  }

  ghost predicate Inv(env: Env, s: State) {
    RootsInv(env, s) && ConfigInv(env, s) && FetchInv(env, s)
  }

  /** What no step undoes or forgets, from s to t. */
  ghost predicate StepProperty(env: Env, s: State, a: Action, t: State) {
    && t.subscriptions == s.subscriptions + (if a.Subscribe? then 1 else 0)
    && (t.stopped <==> s.stopped || a.Shutdown?)
    // roots never become unset
    && (s.roots.Some? ==> t.roots.Some?)
    // every change of the roots is announced to every subscription, at once
    && ((PEM(t) == PEM(s) && t.events == s.events) || (PEM(t) != "" && t.events == s.events + s.subscriptions))
    // a fetch that does not succeed leaves the served configuration alone
    && (t.config != s.config ==> a.Install? || a.Shutdown?)
    // one that does serves its own certificate and trusts the current roots
    && (a.Install? && s.fetch.Loaded? && Installs(env, s.roots, s.fetch.response, s.fetch.key) ==>
          && t.config.Some?
          && t.config.value.certificate == s.fetch.response.certificate
          && env.trust(PEM(t)) == Some(t.config.value.clientCAs)
          && (!env.rootFile ==> PEM(t) == s.fetch.response.ca))
  }

  lemma StepInv(env: Env, s: State, a: Action)
    requires IsDecoder(env.decode) && Inv(env, s) && Enabled(env, s, a)
    ensures Inv(env, Next(env, s, a)) && StepProperty(env, s, a, Next(env, s, a))
  {
  }

  lemma {:induction false} ReachableInv(env: Env, states: seq<State>, actions: seq<Action>)
    requires IsDecoder(env.decode) && IsRun(env, states, actions)
    ensures forall i :: 0 <= i < |states| ==> Inv(env, states[i])
    decreases |actions|
  {
    if actions == [] {
      assert Inv(env, states[0]);
    } else {
      var k := |actions| - 1;
      ReachableInv(env, states[..k + 1], actions[..k]);
      assert Inv(env, states[..k + 1][k]) && StepsTo(env, states[k], actions[k], states[k + 1]);
      StepInv(env, states[k], actions[k]);
      forall i | 0 <= i < |states|
        ensures Inv(env, states[i])
      {
        assert i <= k ==> Inv(env, states[..k + 1][i]);
      }
    }
  }

  /** Provider safety over every run: the invariant in every state, and what no step undoes. */
  lemma ProviderSafe(env: Env, states: seq<State>, actions: seq<Action>, i: nat)
    requires IsDecoder(env.decode) && IsRun(env, states, actions) && i < |actions|
    ensures Inv(env, states[i]) && Inv(env, states[i + 1])
    ensures StepProperty(env, states[i], actions[i], states[i + 1])
  {
    ReachableInv(env, states, actions);
    assert StepsTo(env, states[i], actions[i], states[i + 1]);
    StepInv(env, states[i], actions[i]);
  }

  // ----- When the served trust pool is that of the current roots

  /** A second critical section that succeeds. */
  predicate InstallsAt(env: Env, s: State, a: Action) {
    a.Install? && s.fetch.Loaded? && Installs(env, s.roots, s.fetch.response, s.fetch.key)
  }

  /** An action that stores a bundle as the roots: a file update, or an issuer's bundle that is new and decodes. */
  predicate Stores(env: Env, s: State, a: Action) {
    a.FileUpdate? ||
    (a.LoadCAs? && s.fetch.Signed? && !env.rootFile && s.fetch.response.ca != PEM(s) && env.decode(s.fetch.response.ca).Some?)
  }

  function StoredBundle(env: Env, s: State, a: Action): string
    requires Stores(env, s, a)
  {
    if a.FileUpdate? then a.roots.pem else s.fetch.response.ca
  }

  lemma StepTrust(env: Env, s: State, a: Action, t: State)
    requires StepsTo(env, s, a, t)
    ensures PEM(t) == if Stores(env, s, a) then StoredBundle(env, s, a) else PEM(s)
    ensures t.config.Some? && !InstallsAt(env, s, a) ==> t.config == s.config
    ensures InstallsAt(env, s, a) ==> t.config.Some? && Some(t.config.value.clientCAs) == env.trust(PEM(s))
    ensures t.config.None? ==> a.Shutdown? || s.config.None?
  {
  }

  /** `j` is the last successful installation before state k. */
  ghost predicate LastInstall(env: Env, states: seq<State>, actions: seq<Action>, j: nat, k: nat)
    requires |states| == |actions| + 1 && k < |states|
  {
    j < k && InstallsAt(env, states[j], actions[j]) && forall i :: j < i < k ==> !InstallsAt(env, states[i], actions[i])
  }

  ghost predicate NothingStored(env: Env, states: seq<State>, actions: seq<Action>, j: nat, k: nat)
    requires |states| == |actions| + 1 && k < |states|
  {
    forall i :: j < i < k ==> !Stores(env, states[i], actions[i])
  }

  /** `m` is the last action between j and state k that stored a bundle. */
  ghost predicate LastStore(env: Env, states: seq<State>, actions: seq<Action>, j: nat, m: nat, k: nat)
    requires |states| == |actions| + 1 && k < |states|
  {
    j < m < k && Stores(env, states[m], actions[m]) && NothingStored(env, states, actions, m, k)
  }

  /** Since the last installation the configuration trusts the roots of that moment. */
  lemma {:induction false} ConfigSince(env: Env, states: seq<State>, actions: seq<Action>, j: nat, k: nat)
    requires IsRun(env, states, actions) && k < |states| && LastInstall(env, states, actions, j, k) && states[k].config.Some?
    ensures Some(states[k].config.value.clientCAs) == env.trust(PEM(states[j]))
    decreases k
  {
    assert StepsTo(env, states[k - 1], actions[k - 1], states[k]);
    StepTrust(env, states[k - 1], actions[k - 1], states[k]);
    if j < k - 1 {
      ConfigSince(env, states, actions, j, k - 1);
    }
  }

  /** From an installation to a later state the roots change only if a bundle is stored. */
  lemma {:induction false} RootsSince(env: Env, states: seq<State>, actions: seq<Action>, j: nat, k: nat)
    requires IsRun(env, states, actions) && j < k < |states| && actions[j].Install?
    ensures NothingStored(env, states, actions, j, k) ==> PEM(states[k]) == PEM(states[j])
    decreases k
  {
    assert StepsTo(env, states[k - 1], actions[k - 1], states[k]);
    StepTrust(env, states[k - 1], actions[k - 1], states[k]);
    if j == k - 1 {
    } else {
      RootsSince(env, states, actions, j, k - 1);
    }
  }

  lemma {:induction false} RootsSinceStore(env: Env, states: seq<State>, actions: seq<Action>, j: nat, m: nat, k: nat)
    requires IsRun(env, states, actions) && k < |states| && LastStore(env, states, actions, j, m, k)
    ensures PEM(states[k]) == StoredBundle(env, states[m], actions[m])
    decreases k
  {
    assert StepsTo(env, states[k - 1], actions[k - 1], states[k]);
    StepTrust(env, states[k - 1], actions[k - 1], states[k]);
    if m == k - 1 {
    } else {
      assert LastStore(env, states, actions, j, m, k - 1);
      RootsSinceStore(env, states, actions, j, m, k - 1);
    }
  }

  lemma {:induction false} FindLastStore(env: Env, states: seq<State>, actions: seq<Action>, j: nat, k: nat) returns (m: nat)
    requires |states| == |actions| + 1 && k < |states| && j < k && !NothingStored(env, states, actions, j, k)
    ensures LastStore(env, states, actions, j, m, k)
    decreases k
  {
    if Stores(env, states[k - 1], actions[k - 1]) && j < k - 1 {
      m := k - 1;
    } else {
      m := FindLastStore(env, states, actions, j, k - 1);
    }
  }

  /**
   In every state of every run that serves a configuration, its client trust pool is the one of the current
   roots if and only if no bundle was stored since the last successful installation, or the last one stored
   has the pool of the roots at that installation.
   */
  lemma TrustFollowsRoots(env: Env, states: seq<State>, actions: seq<Action>, j: nat, k: nat)
    requires IsRun(env, states, actions) && k < |states| && LastInstall(env, states, actions, j, k) && states[k].config.Some?
    ensures Some(states[k].config.value.clientCAs) == env.trust(PEM(states[k])) <==>
      || NothingStored(env, states, actions, j, k)
      || exists m: nat :: LastStore(env, states, actions, j, m, k) && env.trust(StoredBundle(env, states[m], actions[m])) == env.trust(PEM(states[j]))
  {
    ConfigSince(env, states, actions, j, k);
    if NothingStored(env, states, actions, j, k) {
      RootsSince(env, states, actions, j, k);
    } else {
      forall m: nat | LastStore(env, states, actions, j, m, k)
        ensures PEM(states[k]) == StoredBundle(env, states[m], actions[m])
      {
        RootsSinceStore(env, states, actions, j, m, k);
      }
      var m := FindLastStore(env, states, actions, j, k);
    }
  }

  /** A run in which a root file update leaves the served trust pool behind the roots. */
  lemma FileUpdateStale(env: Env, s: State, r1: RootCAs, r2: RootCAs, response: Response, key: string)
    returns (states: seq<State>, actions: seq<Action>)
    requires Init(s) && env.rootFile
    requires r1.pem != "" && env.decode(r1.pem) == Some(r1.pool) && r2.pem != "" && env.decode(r2.pem) == Some(r2.pool)
    requires env.trust(r1.pem).Some? && env.trust(r2.pem) != env.trust(r1.pem)
    requires env.keyPair(response.certificate, key) && env.notAfter(response.certificate).Some?
    ensures IsRun(env, states, actions)
    ensures actions == [FileUpdate(r1), SignReturns(response, key), LoadCAs, Install, FileUpdate(r2)]
    ensures var last := states[5]; last.config.Some? && Some(last.config.value.clientCAs) != env.trust(PEM(last))
  {
    actions := [FileUpdate(r1), SignReturns(response, key), LoadCAs, Install, FileUpdate(r2)];
    var s1 := Next(env, s, actions[0]);
    var s2 := Next(env, s1, actions[1]);
    var s3 := Next(env, s2, actions[2]);
    var s4 := Next(env, s3, actions[3]);
    states := [s, s1, s2, s3, s4, Next(env, s4, actions[4])];
  }

  /** And one without a root file: the second fetch loads its CA but cannot install its certificate. */
  lemma FailedFetchStale(env: Env, s: State, a: Response, b: Response, key: string, other: string)
    returns (states: seq<State>, actions: seq<Action>)
    requires IsDecoder(env.decode) && Init(s) && !env.rootFile
    requires env.decode(a.ca).Some? && env.decode(b.ca).Some?
    requires env.trust(a.ca).Some? && env.trust(b.ca) != env.trust(a.ca)
    requires env.keyPair(a.certificate, key) && env.notAfter(a.certificate).Some? && !env.keyPair(b.certificate, other)
    ensures IsRun(env, states, actions)
    ensures actions == [SignReturns(a, key), LoadCAs, Install, SignReturns(b, other), LoadCAs, Install]
    ensures var last := states[6]; last.config.Some? && Some(last.config.value.clientCAs) != env.trust(PEM(last))
  {
    actions := [SignReturns(a, key), LoadCAs, Install, SignReturns(b, other), LoadCAs, Install];
    assert a.ca != "" && b.ca != a.ca;
    var s1 := Next(env, s, actions[0]);
    var s2 := Next(env, s1, actions[1]);
    var s3 := Next(env, s2, actions[2]);
    var s4 := Next(env, s3, actions[3]);
    var s5 := Next(env, s4, actions[4]);
    states := [s, s1, s2, s3, s4, s5, Next(env, s5, actions[5])];
  }

  /** Ready, in every run: some installation succeeded and there was no shutdown after it. */
  lemma {:induction false} ReadyIffInstalled(env: Env, states: seq<State>, actions: seq<Action>, k: nat)
    requires IsRun(env, states, actions) && k < |states|
    ensures states[k].config.Some? <==>
      exists j :: 0 <= j < k && InstallsAt(env, states[j], actions[j]) && forall i :: j < i < k ==> !actions[i].Shutdown?
  {
    if k == 0 {
    } else {
      ReadyIffInstalled(env, states, actions, k - 1);
      var s, a := states[k - 1], actions[k - 1];
      assert StepsTo(env, s, a, states[k]);
      StepTrust(env, s, a, states[k]);
    }
  }

  /** A provider that starts without a root file and fetches once ends up ready, with the issuer's roots. */
  lemma FirstFetchReady(env: Env, s: State, response: Response, key: string)
    requires IsDecoder(env.decode) && Init(s) && !env.rootFile
    requires env.decode(response.ca).Some? && env.trust(response.ca).Some?
    requires env.keyPair(response.certificate, key) && env.notAfter(response.certificate).Some?
    ensures var s1 := Next(env, s, SignReturns(response, key));
      var s2 := Next(env, s1, LoadCAs);
      var s3 := Next(env, s2, Install);
      && Enabled(env, s, SignReturns(response, key)) && Enabled(env, s1, LoadCAs) && Enabled(env, s2, Install)
      && PEM(s3) == response.ca && s3.config.Some? && s3.events == s.subscriptions
      && Some(s3.config.value.clientCAs) == env.trust(response.ca)
  {
    assert response.ca != "";
  }

  // ----- Sequences of attempts

  /** The issuer's answer with the private key made for it, or a failure before that. */
  datatype Answer = NotSigned | Answered(response: Response, key: string)

  /** One attempt to fetch, with the root file bundles that arrive before its last critical section. */
  datatype Attempt = Attempt(updates: seq<RootCAs>, answer: Answer)

  predicate ValidAttempt(env: Env, a: Attempt) {
    && (a.updates != [] ==> env.rootFile)
    && forall i :: 0 <= i < |a.updates| ==> a.updates[i].pem != "" && env.decode(a.updates[i].pem) == Some(a.updates[i].pool)
  }

  predicate AllValid(env: Env, attempts: seq<Attempt>) {
    forall i :: 0 <= i < |attempts| ==> ValidAttempt(env, attempts[i])
  }

  function AfterUpdates(roots: Option<RootCAs>, updates: seq<RootCAs>): Option<RootCAs> {
    if updates == [] then roots else Some(updates[|updates| - 1])
  }

  /** What the provider holds. */
  datatype Held = Held(roots: Option<RootCAs>, config: Option<TLSConfig>)

  /** The effect of one attempt, and the expiry of the certificate if it succeeded. */
  function Try(env: Env, h: Held, a: Attempt): (r: (Held, Option<int>))
    ensures r.1.None? ==> r.0.config == h.config
    ensures r.1.Some? ==> Won(env, r, a)
  {
    var roots := AfterUpdates(h.roots, a.updates);
    if a.answer.NotSigned? then (Held(roots, h.config), None)
    else
      var response := a.answer.response;
      var loaded := if env.rootFile then Some(roots) else LoadedRoots(env, roots, response.ca);
      if loaded.None? then (Held(roots, h.config), None)
      else if !Installs(env, loaded.value, response, a.answer.key) then (Held(loaded.value, h.config), None)
      else
        (Held(loaded.value, Some(Secured(env, response.certificate, env.trust(loaded.value.value.pem).value))),
         env.notAfter(response.certificate))
  }

  /** The configuration serves the certificate of this attempt, which expires at the given time. */
  predicate Won(env: Env, r: (Held, Option<int>), a: Attempt) {
    && a.answer.Answered? && r.0.config.Some?
    && r.0.config.value.certificate == a.answer.response.certificate
    && r.1 == env.notAfter(a.answer.response.certificate)
  }

  /** Attempts up to the first that succeeds. */
  function TryUntil(env: Env, h: Held, attempts: seq<Attempt>): (Held, Option<int>)
    decreases |attempts|
  {
    if attempts == [] then (h, None)
    else
      var r := Try(env, h, attempts[0]);
      if r.1.Some? then r else TryUntil(env, r.0, attempts[1..])
  }

  /** When an attempt succeeds, and what it leaves behind, in terms of the answer and the roots at hand. */
  lemma TryMeans(env: Env, h: Held, a: Attempt)
    requires IsDecoder(env.decode) && ValidAttempt(env, a)
    requires h.roots.Some? ==> h.roots.value.pem != "" && env.decode(h.roots.value.pem) == Some(h.roots.value.pool)
    ensures env.rootFile ==>
      var roots, r := (if a.updates == [] then h.roots else Some(a.updates[|a.updates| - 1])), Try(env, h, a);
      && r.0.roots == roots
      && (r.1.Some? <==>
          && a.answer.Answered? && roots.Some? && env.trust(roots.value.pem).Some?
          && env.keyPair(a.answer.response.certificate, a.answer.key) && env.notAfter(a.answer.response.certificate).Some?)
    ensures !env.rootFile ==>
      var r := Try(env, h, a);
      && r.0.roots == (if a.answer.Answered? && env.decode(a.answer.response.ca).Some?
                       then Some(RootCAs(a.answer.response.ca, env.decode(a.answer.response.ca).value)) else h.roots)
      && (r.1.Some? <==>
          && a.answer.Answered? && env.decode(a.answer.response.ca).Some? && env.trust(a.answer.response.ca).Some?
          && env.keyPair(a.answer.response.certificate, a.answer.key) && env.notAfter(a.answer.response.certificate).Some?)
    ensures var r := Try(env, h, a);
      r.1.Some? ==>
        && r.1 == env.notAfter(a.answer.response.certificate)
        && r.0.roots.Some? && env.trust(r.0.roots.value.pem).Some?
        && r.0.config == Some(Secured(env, a.answer.response.certificate, env.trust(r.0.roots.value.pem).value))
  {
  }

  // The same attempt as steps of the state machine

  function WithUpdates(env: Env, s: State, updates: seq<RootCAs>): (t: State)
    requires ValidAttempt(env, Attempt(updates, NotSigned))
    ensures t == s.(roots := AfterUpdates(s.roots, updates), events := s.events + |updates| * s.subscriptions)
    decreases |updates|
  {
    if updates == [] then s
    else
      var before := WithUpdates(env, s, updates[..|updates| - 1]);
      Counted(|updates|, s.subscriptions);
      Next(env, before, FileUpdate(updates[|updates| - 1]))
  }

  lemma Counted(n: nat, k: nat)
    requires n > 0
    ensures n * k == (n - 1) * k + k
  {
  }

  /** File updates, then the steps of a fetch as far as they go. */
  function Attempted(env: Env, s: State, a: Attempt): State
    requires ValidAttempt(env, a) && s.fetch.NoFetch? && !s.stopped
  {
    var updated := WithUpdates(env, s, a.updates);
    if a.answer.NotSigned? then Next(env, updated, SignFails)
    else
      var loaded := AfterLoad(env, updated, a.answer);
      if loaded.fetch.Loaded? then Next(env, loaded, Install) else loaded
  }

  function AfterLoad(env: Env, s: State, answer: Answer): State
    requires answer.Answered? && s.fetch.NoFetch? && !s.stopped
  {
    Next(env, Next(env, s, SignReturns(answer.response, answer.key)), LoadCAs)
  }

  /**
   An attempt is a run of the state machine: it ends with the same roots and configuration, and succeeds
   exactly if that run ends with a successful installation.
   */
  lemma TryIsRun(env: Env, s: State, a: Attempt)
    requires ValidAttempt(env, a) && s.fetch.NoFetch? && !s.stopped
    ensures var r, t := Try(env, Held(s.roots, s.config), a), Attempted(env, s, a);
      && r.0 == Held(t.roots, t.config)
      && (r.1.Some? <==>
          && a.answer.Answered?
          && var loaded := AfterLoad(env, WithUpdates(env, s, a.updates), a.answer); InstallsAt(env, loaded, Install))
      && t.fetch.NoFetch? && !t.stopped && t.subscriptions == s.subscriptions
      && t.configRoots == if r.1.Some? then t.roots.value.pem else s.configRoots
  {
  }

  lemma EventsGrow(env: Env, s: State, a: Attempt)
    requires ValidAttempt(env, a) && s.fetch.NoFetch? && !s.stopped
    ensures var t := Attempted(env, s, a); t.events >= s.events && t.subscriptions == s.subscriptions
  {
  }

  // ----- Series of attempts

  /** What is held after attempts of which none succeeded. */
  function AfterFailures(env: Env, h: Held, attempts: seq<Attempt>): Held
    decreases |attempts|
  {
    if attempts == [] then h
    else Try(env, AfterFailures(env, h, attempts[..|attempts| - 1]), attempts[|attempts| - 1]).0
  }

  /** The outcome of attempt `i` if it is made after those before it. */
  function TryAt(env: Env, h: Held, attempts: seq<Attempt>, i: nat): (Held, Option<int>)
    requires i < |attempts|
  {
    Try(env, AfterFailures(env, h, attempts[..i]), attempts[i])
  }

  ghost predicate FirstWin(env: Env, h: Held, attempts: seq<Attempt>, k: nat) {
    && k < |attempts| && TryAt(env, h, attempts, k).1.Some?
    && forall i :: 0 <= i < k ==> TryAt(env, h, attempts, i).1.None?
  }

  /**
   A series of attempts ends with the first that succeeds, made with what the failed ones before it left; if
   none succeeds, all are made and the configuration is the one before.
   */
  lemma TryUntilServes(env: Env, h: Held, attempts: seq<Attempt>)
    ensures forall k: nat :: FirstWin(env, h, attempts, k) ==> TryUntil(env, h, attempts) == TryAt(env, h, attempts, k)
    ensures (forall i :: 0 <= i < |attempts| ==> TryAt(env, h, attempts, i).1.None?) ==>
      TryUntil(env, h, attempts) == (AfterFailures(env, h, attempts), None) && TryUntil(env, h, attempts).0.config == h.config
  {
    forall k: nat | FirstWin(env, h, attempts, k)
      ensures TryUntil(env, h, attempts) == TryAt(env, h, attempts, k)
    {
      WinnerServes(env, h, attempts, k);
    }
    if forall i :: 0 <= i < |attempts| ==> TryAt(env, h, attempts, i).1.None? {
      NoneServes(env, h, attempts);
    }
  }

  /** The attempts after the first, made with what the first left. */
  lemma TryAtRest(env: Env, h: Held, attempts: seq<Attempt>, i: nat)
    requires i + 1 < |attempts|
    ensures TryAt(env, Try(env, h, attempts[0]).0, attempts[1..], i) == TryAt(env, h, attempts, i + 1)
    ensures TryAt(env, h, attempts, 0) == Try(env, h, attempts[0])
  {
    AfterFirst(env, h, attempts, i);
    assert attempts[..0] == [];
  }

  lemma {:induction false} WinnerServes(env: Env, h: Held, attempts: seq<Attempt>, k: nat)
    requires FirstWin(env, h, attempts, k)
    ensures TryUntil(env, h, attempts) == TryAt(env, h, attempts, k)
    decreases k
  {
    assert attempts[..0] == [];
    if k == 0 {
    } else {
      var first, rest := Try(env, h, attempts[0]), attempts[1..];
      assert TryAt(env, h, attempts, 0) == first;
      forall i | 0 <= i < k
        ensures TryAt(env, first.0, rest, i) == TryAt(env, h, attempts, i + 1)
      {
        TryAtRest(env, h, attempts, i);
      }
      WinnerServes(env, first.0, rest, k - 1);
    }
  }

  lemma {:induction false} NoneServes(env: Env, h: Held, attempts: seq<Attempt>)
    requires forall i :: 0 <= i < |attempts| ==> TryAt(env, h, attempts, i).1.None?
    ensures TryUntil(env, h, attempts) == (AfterFailures(env, h, attempts), None)
    ensures TryUntil(env, h, attempts).0.config == h.config
    decreases |attempts|
  {
    if attempts == [] {
    } else {
      var first, rest := Try(env, h, attempts[0]), attempts[1..];
      assert attempts[..0] == [] && TryAt(env, h, attempts, 0) == first;
      forall i | 0 <= i < |rest|
        ensures TryAt(env, first.0, rest, i).1.None?
      {
        TryAtRest(env, h, attempts, i);
      }
      NoneServes(env, first.0, rest);
      AfterFirst(env, h, attempts, |rest|);
      assert rest[..|rest|] == rest && attempts[..|attempts|] == attempts;
    }
  }

  lemma {:induction false} AfterFirst(env: Env, h: Held, attempts: seq<Attempt>, i: nat)
    requires attempts != [] && i <= |attempts| - 1
    ensures AfterFailures(env, Try(env, h, attempts[0]).0, attempts[1..][..i]) == AfterFailures(env, h, attempts[..i + 1])
  {
    var rest := attempts[1..];
    assert attempts[..i + 1][..i] == attempts[..i];
    if i == 0 {
      assert attempts[..1][..0] == [];
    } else {
      AfterFirst(env, h, attempts, i - 1);
      assert rest[..i][..i - 1] == rest[..i - 1];
    }
  }

  /** Go's zero time, in nanoseconds since 1970. */
  const ZERO_TIME := -62_135_596_800_000_000_000

  function Expiry(notAfter: Option<int>): int {
    if notAfter.Some? then notAfter.value else ZERO_TIME
  }

  /** The wait before a renewal, computed at time `now`. */
  function WaitAt(now: int, notAfter: Option<int>): int {
    Renewal.RenewalTime(Renewal.Until(now, Expiry(notAfter)))
  }

  /** At any time since 1970, a missing certificate is fetched without a wait and a live one before it expires. */
  lemma WaitEndsInTime(now: int, notAfter: Option<int>)
    requires now >= 0
    ensures notAfter.None? ==> WaitAt(now, notAfter) == 0
    ensures notAfter.Some? && now < notAfter.value < now + Renewal.TWO63 ==> now + WaitAt(now, notAfter) < notAfter.value
    ensures notAfter.Some? && now < notAfter.value < now + Renewal.TWO62 ==> WaitAt(now, notAfter) == 2 * (notAfter.value - now) / 3
    ensures notAfter.Some? && now - Renewal.TWO62 <= notAfter.value <= now ==> WaitAt(now, notAfter) <= 0
  {
    if notAfter.None? {
      Renewal.ExpiredRenewsAtOnce(-Renewal.TWO63);
    } else if now < notAfter.value < now + Renewal.TWO63 {
      Renewal.RenewsBeforeExpiry(notAfter.value - now);
    } else if now - Renewal.TWO62 <= notAfter.value <= now {
      Renewal.ExpiredRenewsAtOnce(notAfter.value - now);
    }
  }

  // ----- The provider's methods

  class CertificateProvider {
    const env: Env
    var rootCAs: Option<RootCAs>
    var tlsConfig: Option<TLSConfig>
    var subscriptions: nat
    var events: nat

    /** The state between two critical sections of a fetch. */
    ghost function View(fetch: Fetch, configRoots: string, stopped: bool): State
      reads this
    {
      State(rootCAs, tlsConfig, configRoots, fetch, stopped, subscriptions, events)
    }

    constructor (env: Env)
      ensures this.env == env && Init(View(NoFetch, "", false))
    {
      this.env := env;
      rootCAs, tlsConfig, subscriptions, events := None, None, 0, 0;
    }

    /** The controller subscribes, at any point of the provider's life. */
    method SubscribeRootCAsEvent(ghost fetch: Fetch, ghost configRoots: string, ghost stopped: bool)
      modifies this
      ensures View(fetch, configRoots, stopped) == Next(env, old(View(fetch, configRoots, stopped)), Subscribe)
    {
      subscriptions := subscriptions + 1;
    }

    /** The root file goroutine receives a bundle. */
    method ReceiveFileRoots(roots: RootCAs, ghost fetch: Fetch, ghost configRoots: string)
      requires Enabled(env, View(fetch, configRoots, false), FileUpdate(roots))
      modifies this
      ensures View(fetch, configRoots, false) == Next(env, old(View(fetch, configRoots, false)), FileUpdate(roots))
    {
      rootCAs := Some(roots);
      for i := 0 to subscriptions
        invariant rootCAs == Some(roots) && tlsConfig == old(tlsConfig) && subscriptions == old(subscriptions)
        invariant events == old(events) + i
      {
        events := events + 1;
      }
    }

    method LoadCAsRoot(ca: string) returns (ok: bool)
      modifies this
      ensures ok <==> LoadedRoots(env, old(rootCAs), ca).Some?
      ensures rootCAs == if ok then LoadedRoots(env, old(rootCAs), ca).value else old(rootCAs)
      ensures ok <==> ca == (if old(rootCAs).Some? then old(rootCAs).value.pem else "") || env.decode(ca).Some?
      ensures rootCAs != old(rootCAs) ==> rootCAs.Some? && rootCAs.value.pem == ca && Some(rootCAs.value.pool) == env.decode(ca)
      ensures ok && rootCAs == old(rootCAs) && rootCAs.Some? ==> rootCAs.value.pem == ca
      ensures tlsConfig == old(tlsConfig) && subscriptions == old(subscriptions)
      ensures events == old(events) + if rootCAs == old(rootCAs) then 0 else subscriptions
    {
      var current := if rootCAs.Some? then rootCAs.value.pem else "";
      if current == ca {
        return true;
      }
      var certs := env.decode(ca);
      if certs.None? {
        return false;
      }
      rootCAs := Some(RootCAs(ca, certs.value));
      for i := 0 to subscriptions
        invariant rootCAs == Some(RootCAs(ca, certs.value)) && tlsConfig == old(tlsConfig) && subscriptions == old(subscriptions)
        invariant events == old(events) + i
      {
        events := events + 1;
      }
      return true;
    }

    ghost function Holds(): Held
      reads this
    {
      Held(rootCAs, tlsConfig)
    }

    /** The root file goroutine receives some bundles, one after the other. */
    method ReceiveUpdates(updates: seq<RootCAs>, ghost configRoots: string)
      requires IsDecoder(env.decode) && Inv(env, View(NoFetch, configRoots, false)) && ValidAttempt(env, Attempt(updates, NotSigned))
      modifies this
      ensures View(NoFetch, configRoots, false) == WithUpdates(env, old(View(NoFetch, configRoots, false)), updates)
      ensures Inv(env, View(NoFetch, configRoots, false))
    {
      for i := 0 to |updates|
        invariant View(NoFetch, configRoots, false) == WithUpdates(env, old(View(NoFetch, configRoots, false)), updates[..i])
        invariant Inv(env, View(NoFetch, configRoots, false))
      {
        ReceiveFileRoots(updates[i], NoFetch, configRoots);
        assert updates[..i + 1][..i] == updates[..i];
      }
      assert updates[..|updates|] == updates;
    }

    /** fetchCertificate, with the root file goroutine running beside it. */
    method FetchCertificate(a: Attempt, ghost configRoots: string) returns (expiry: Option<int>)
      requires IsDecoder(env.decode) && Inv(env, View(NoFetch, configRoots, false)) && ValidAttempt(env, a)
      modifies this
      ensures (Holds(), expiry) == Try(env, old(Holds()), a)
      ensures View(NoFetch, if expiry.Some? && rootCAs.Some? then rootCAs.value.pem else configRoots, false)
        == Attempted(env, old(View(NoFetch, configRoots, false)), a)
      ensures expiry.None? ==> tlsConfig == old(tlsConfig) && Inv(env, View(NoFetch, configRoots, false))
      ensures expiry.Some? ==> rootCAs.Some? && Inv(env, View(NoFetch, rootCAs.value.pem, false))
      ensures expiry.Some? ==>
        && tlsConfig.Some? && Some(tlsConfig.value.clientCAs) == env.trust(rootCAs.value.pem)
        && (!env.rootFile ==> rootCAs.value.pem == a.answer.response.ca)
    {
      ReceiveUpdates(a.updates, configRoots);
      if a.answer.NotSigned? {
        return None;
      }
      var response := a.answer.response;
      if !env.rootFile {
        var ok := LoadCAsRoot(response.ca);
        if !ok {
          return None;
        }
      }
      if rootCAs.None? {
        return None;
      }
      var pool := env.trust(rootCAs.value.pem);
      if pool.None? || !env.keyPair(response.certificate, a.answer.key) {
        return None;
      }
      expiry := env.notAfter(response.certificate);
      if expiry.None? {
        return None;
      }
      tlsConfig := Some(Secured(env, response.certificate, pool.value));
    }

    /** Fetches until one attempt succeeds; None if the context is cancelled after the given attempts. */
    method MustFetchCertificate(attempts: seq<Attempt>, ghost configRoots: string)
      returns (notAfter: Option<int>, ghost newRoots: string)
      requires IsDecoder(env.decode) && Inv(env, View(NoFetch, configRoots, false)) && AllValid(env, attempts)
      modifies this
      ensures (Holds(), notAfter) == TryUntil(env, old(Holds()), attempts)
      ensures subscriptions == old(subscriptions) && events >= old(events)
      ensures Inv(env, View(NoFetch, newRoots, false))
    {
      newRoots := configRoots;
      notAfter := None;
      assert attempts[0..] == attempts;
      for i := 0 to |attempts|
        invariant notAfter.None? && Inv(env, View(NoFetch, newRoots, false))
        invariant subscriptions == old(subscriptions) && events >= old(events)
        invariant TryUntil(env, Holds(), attempts[i..]) == TryUntil(env, old(Holds()), attempts)
      {
        assert attempts[i..][0] == attempts[i] && attempts[i..][1..] == attempts[i + 1..];
        EventsGrow(env, View(NoFetch, newRoots, false), attempts[i]);
        notAfter := FetchCertificate(attempts[i], newRoots);
        if notAfter.Some? {
          newRoots := rootCAs.value.pem;
          return;
        }
      }
    }

    /**
     Start over a script: the attempts before the first success, one list of attempts for each time the
     renewal timer fires, and the clock at each computation of the timer; then the context is cancelled.
     `held` is what the provider holds, and the expiry it knows of, before each wait.
     */
    method Start(initial: seq<Attempt>, rounds: seq<seq<Attempt>>, clock: seq<int>)
      returns (waits: seq<int>, ghost held: seq<(Held, Option<int>)>)
      requires IsDecoder(env.decode) && Inv(env, View(NoFetch, "", false)) && tlsConfig.None?
      requires |clock| == |rounds| + 1
      requires AllValid(env, initial) && forall i :: 0 <= i < |rounds| ==> AllValid(env, rounds[i])
      modifies this
      ensures tlsConfig.None? && subscriptions == old(subscriptions)
      ensures |waits| == |held| == |clock|
      ensures held[0] == TryUntil(env, old(Holds()), initial)
      ensures forall i :: 0 <= i < |rounds| ==> held[i + 1] == TryUntil(env, held[i].0, rounds[i])
      ensures forall i :: 0 <= i < |waits| ==> waits[i] == WaitAt(clock[i], held[i].1)
      ensures rootCAs == held[|rounds|].0.roots
    {
      var notAfter, roots := MustFetchCertificate(initial, "");
      waits := [];
      held := [(Holds(), notAfter)];
      for i := 0 to |rounds|
        invariant Inv(env, View(NoFetch, roots, false)) && subscriptions == old(subscriptions)
        invariant |waits| == i && |held| == i + 1 && held[i] == (Holds(), notAfter)
        invariant held[0] == TryUntil(env, old(Holds()), initial)
        invariant forall j :: 0 <= j < i ==> held[j + 1] == TryUntil(env, held[j].0, rounds[j])
        invariant forall j :: 0 <= j < i ==> waits[j] == WaitAt(clock[j], held[j].1)
      {
        waits := waits + [WaitAt(clock[i], notAfter)];
        notAfter, roots := MustFetchCertificate(rounds[i], roots);
        held := held + [(Holds(), notAfter)];
      }
      waits := waits + [WaitAt(clock[|rounds|], notAfter)];
      tlsConfig := None;
    }
  }
}
