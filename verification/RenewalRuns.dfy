/**
 The provider's Start loop against a clock (pkg/tls/tls.go:205-319): fetches, the renewal timer and the
 passing of time are actions, interleaved with everything else the provider does. The renewal timer is
 set from the wrapped 64-bit wait of `Renewal`.
 */
module RenewalRuns {
  import opened Common
  import opened RootFile
  import P = Provider
  import Renewal

  datatype Phase =
    /** No certificate has been installed yet. */
    | Starting
    /** The timer is set; the served certificate was installed with `life` nanoseconds to live. */
    | Waiting(deadline: int, installed: int, life: int)
    /** The timer has fired, and attempts are made until one succeeds. */
    | Renewing(since: int, installed: int, life: int)
    /** The context has been cancelled. */
    | Cancelled

  datatype State = State(provider: P.State, now: int, phase: Phase)

  datatype Action = Tick(d: nat) | Fire | Cancel | Provide(step: P.Action)

  /** The steps of a fetch, which Start takes only while it is fetching. */
  predicate OfFetch(a: P.Action) {
    a.SignReturns? || a.SignFails? || a.LoadCAs? || a.Install?
  }

  predicate Enabled(env: P.Env, s: State, a: Action) {
    match a
    case Tick(_) => true
    case Fire => s.phase.Waiting? && s.now >= s.phase.deadline
    case Cancel => true
    case Provide(step) =>
      && P.Enabled(env, s.provider, step)
      && (OfFetch(step) ==> !s.phase.Waiting?)
      && (step.Shutdown? ==> s.phase.Cancelled?)
  }

  function Max0(x: int): nat {
    if x > 0 then x else 0
  }

  /** The timer set right after an installation at time `now`. */
  function Armed(now: int, expiry: int): Phase {
    Waiting(now + Max0(P.WaitAt(now, Some(expiry))), now, expiry - now)
  }

  function Next(env: P.Env, s: State, a: Action): State
    requires Enabled(env, s, a)
  {
    match a
    case Tick(d) => s.(now := s.now + d)
    case Fire => s.(phase := Renewing(s.now, s.phase.installed, s.phase.life))
    case Cancel => s.(phase := Cancelled)
    case Provide(step) =>
      var p := P.Next(env, s.provider, step);
      if P.InstallsAt(env, s.provider, step) && !s.phase.Cancelled? then
        State(p, s.now, Armed(s.now, env.notAfter(s.provider.fetch.response.certificate).value))
      else s.(provider := p)
  }

  ghost predicate Init(s: State) {
    P.Init(s.provider) && s.phase == Starting
  }

  ghost predicate StepsTo(env: P.Env, s: State, a: Action, t: State) {
    Enabled(env, s, a) && t == Next(env, s, a)
  }

  ghost predicate IsRun(env: P.Env, states: seq<State>, actions: seq<Action>) {
    && |states| == |actions| + 1
    && Init(states[0])
    && forall i :: 0 <= i < |actions| ==> StepsTo(env, states[i], actions[i], states[i + 1])
  }

  /**
   What is expected of timer and issuer: the timer fires no later than its deadline; a renewal, from the
   timer to the attempt that succeeds, takes less than the last third of the life the certificate had when
   it was installed; and a certificate that is installed is alive and lives less than 2^63 ns, some 292 years.
   */
  ghost predicate OnTime(env: P.Env, s: State, a: Action) {
    match a
    case Tick(d) =>
      && (s.phase.Waiting? ==> s.now + d <= s.phase.deadline)
      && (s.phase.Renewing? ==> s.now + d - s.phase.since < s.phase.life - 2 * s.phase.life / 3)
    case Provide(step) =>
      P.InstallsAt(env, s.provider, step) ==>
        0 < env.notAfter(s.provider.fetch.response.certificate).value - s.now < Renewal.TWO63
    case _ => true
  }

  ghost predicate Timely(env: P.Env, states: seq<State>, actions: seq<Action>)
    requires |states| == |actions| + 1
  {
    forall i :: 0 <= i < |actions| ==> OnTime(env, states[i], actions[i])
  }

  /** A certificate is served that expires at the given time. */
  ghost predicate Serves(env: P.Env, p: P.State, expiry: int) {
    p.config.Some? && env.notAfter(p.config.value.certificate) == Some(expiry)
  }

  ghost predicate Inv(env: P.Env, s: State) {
    match s.phase
    case Starting => true
    case Cancelled => true
    case Waiting(deadline, installed, life) =>
      && Serves(env, s.provider, installed + life) && 0 < life < Renewal.TWO63
      && deadline == installed + Max0(Renewal.RenewalTime(life)) && s.now <= deadline
    case Renewing(since, installed, life) =>
      && Serves(env, s.provider, installed + life) && 0 < life < Renewal.TWO63
      && since == installed + Max0(Renewal.RenewalTime(life)) && s.now - since < life - 2 * life / 3
  }

  /** Only an installation or the shutdown changes what is served. */
  lemma ServesStill(env: P.Env, p: P.State, step: P.Action, expiry: int)
    requires Serves(env, p, expiry) && P.Enabled(env, p, step) && !step.Shutdown? && !P.InstallsAt(env, p, step)
    ensures Serves(env, P.Next(env, p, step), expiry)
  {
  }

  lemma ArmedInv(env: P.Env, s: State, step: P.Action)
    requires Enabled(env, s, Provide(step)) && OnTime(env, s, Provide(step))
    requires P.InstallsAt(env, s.provider, step) && !s.phase.Cancelled?
    ensures Inv(env, Next(env, s, Provide(step)))
  {
  }

  lemma StepInv(env: P.Env, s: State, a: Action)
    requires Inv(env, s) && Enabled(env, s, a) && OnTime(env, s, a)
    ensures Inv(env, Next(env, s, a))
  {
    match a
    case Tick(_) =>
    case Fire =>
    case Cancel =>
    case Provide(step) =>
      if P.InstallsAt(env, s.provider, step) && !s.phase.Cancelled? {
        ArmedInv(env, s, step);
      } else if s.phase.Waiting? || s.phase.Renewing? {
        ServesStill(env, s.provider, step, s.phase.installed + s.phase.life);
      }
  }

  lemma {:induction false} ReachableInv(env: P.Env, states: seq<State>, actions: seq<Action>, i: nat)
    requires IsRun(env, states, actions) && Timely(env, states, actions) && i < |states|
    ensures Inv(env, states[i])
  {
    if i == 0 {
    } else {
      ReachableInv(env, states, actions, i - 1);
      assert StepsTo(env, states[i - 1], actions[i - 1], states[i]) && OnTime(env, states[i - 1], actions[i - 1]);
      StepInv(env, states[i - 1], actions[i - 1]);
    }
  }

  /** Within the invariant the served certificate is alive, whether or not twice its life fits 64 bits. */
  lemma Alive(env: P.Env, s: State)
    requires Inv(env, s) && (s.phase.Waiting? || s.phase.Renewing?)
    ensures s.now < s.phase.installed + s.phase.life
  {
    Renewal.RenewsBeforeExpiry(s.phase.life);
  }

  /**
   At every moment of every timely run, from the first installation until the context is cancelled, the
   provider serves a certificate and that certificate has not expired: whatever attempts fail, whatever
   root files arrive, and for every life below 2^63 ns, wrapped waits included.
   */
  lemma NeverServesExpired(env: P.Env, states: seq<State>, actions: seq<Action>, i: nat)
    requires IsRun(env, states, actions) && Timely(env, states, actions) && i < |states|
    requires !states[i].phase.Starting? && !states[i].phase.Cancelled?
    ensures states[i].provider.config.Some?
    ensures var expiry := env.notAfter(states[i].provider.config.value.certificate);
      expiry.Some? && states[i].now < expiry.value
  {
    ReachableInv(env, states, actions, i);
    Alive(env, states[i]);
  }

  /** `Starting` ends with the first successful installation. */
  lemma {:induction false} StartingUntilInstalled(env: P.Env, states: seq<State>, actions: seq<Action>, i: nat)
    requires IsRun(env, states, actions) && i < |states| && states[i].phase.Starting?
    ensures forall j :: 0 <= j < i ==> !(actions[j].Provide? && P.InstallsAt(env, states[j].provider, actions[j].step))
  {
    if i == 0 {
    } else {
      assert StepsTo(env, states[i - 1], actions[i - 1], states[i]);
      StartingUntilInstalled(env, states, actions, i - 1);
    }
  }

  /**
   Renewal goes on: from any state in which the timer is set, letting it run out, firing it and fetching an
   answer that can be installed is a timely path to a state that serves the new certificate, with the timer
   set again.
   */
  lemma RenewalContinues(env: P.Env, s: State, r: P.Response, key: string)
    returns (states: seq<State>, actions: seq<Action>)
    requires IsDecoder(env.decode) && Inv(env, s) && s.phase.Waiting? && s.provider.fetch.NoFetch? && !s.provider.stopped
    requires P.Inv(env, s.provider)
    requires if env.rootFile then env.trust(P.PEM(s.provider)).Some? else env.decode(r.ca).Some? && env.trust(r.ca).Some?
    requires env.keyPair(r.certificate, key) && env.notAfter(r.certificate).Some?
    requires 0 < env.notAfter(r.certificate).value - s.phase.deadline < Renewal.TWO63
    ensures |states| == 6 && |actions| == 5 && states[0] == s
    ensures forall i :: 0 <= i < 5 ==> StepsTo(env, states[i], actions[i], states[i + 1]) && OnTime(env, states[i], actions[i])
    ensures var t := states[5];
      && t.now == s.phase.deadline && t.phase.Waiting? && t.provider.fetch.NoFetch? && !t.provider.stopped
      && t.provider.config.Some? && t.provider.config.value.certificate == r.certificate
      && t.phase.installed == t.now && t.phase.installed + t.phase.life == env.notAfter(r.certificate).value
  {
    actions := [Tick(s.phase.deadline - s.now), Fire,
                Provide(P.SignReturns(r, key)), Provide(P.LoadCAs), Provide(P.Install)];
    var s1 := Next(env, s, actions[0]);
    var s2 := Next(env, s1, actions[1]);
    var s3 := Next(env, s2, actions[2]);
    var s4 := Next(env, s3, actions[3]);
    states := [s, s1, s2, s3, s4, Next(env, s4, actions[4])];
  }

  /**
   The bound on a renewal cannot be relaxed: here is a run in which the timer is on time and the renewal
   takes exactly the last third, at the end of which the old certificate is served at its expiry.
   */
  lemma BoundIsTight(env: P.Env, s: State, r: P.Response, key: string) returns (states: seq<State>, actions: seq<Action>)
    requires IsDecoder(env.decode) && !env.rootFile && Init(s)
    requires env.decode(r.ca).Some? && env.trust(r.ca).Some? && env.keyPair(r.certificate, key)
    requires env.notAfter(r.certificate).Some? && 0 < env.notAfter(r.certificate).value - s.now < Renewal.TWO62
    ensures IsRun(env, states, actions) && |actions| == 6
    ensures forall i :: 0 <= i < 5 ==> OnTime(env, states[i], actions[i])
    ensures var life := env.notAfter(r.certificate).value - s.now;
      states[5].phase.Renewing? && states[5].phase.life == life && actions[5] == Tick(life - 2 * life / 3)
    ensures states[6].phase.Renewing? && Serves(env, states[6].provider, states[6].now)
  {
    var life := env.notAfter(r.certificate).value - s.now;
    Renewal.RenewsBeforeExpiry(life);
    var fetch := [Provide(P.SignReturns(r, key)), Provide(P.LoadCAs), Provide(P.Install)];
    var s1 := Next(env, s, fetch[0]);
    var s2 := Next(env, s1, fetch[1]);
    var s3 := Next(env, s2, fetch[2]);
    var s4 := Next(env, s3, Tick(2 * life / 3));
    var s5 := Next(env, s4, Fire);
    var last := Tick(life - 2 * life / 3);
    actions := fetch + [Tick(2 * life / 3), Fire, last];
    states := [s, s1, s2, s3, s4, s5, Next(env, s5, last)];
  }
}
