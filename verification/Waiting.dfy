/**
 Waiting for a CertificateRequest to reach a terminal state
 (pkg/certmanager/certmanager.go:276-331).
 */
module Waiting {
  import opened Common

  /** The parts of a CertificateRequest's status that decide the wait. */
  datatype Status = Status(denied: bool, failed: bool, certificate: string, ca: string)

  datatype Verdict = Undecided | IsDenied | HasFailed | IsSigned

  function Judge(s: Status): Verdict {
    if s.denied then IsDenied
    else if s.failed then HasFailed
    else if |s.certificate| > 0 then IsSigned
    else Undecided
  }

  /** What the watch channel delivers. An event of type Deleted ends the wait whatever it carries. */
  datatype Item = Update(status: Status) | Foreign | Removal

  datatype Outcome =
    | Signed(status: Status)
    | Denied(status: Status)
    | Failed(status: Status)
    | Removed
    | ChannelClosed
    | WatchFailed
    | GetFailed
    | Blocked             // still waiting for the channel

  predicate Decisive(i: Item) {
    i.Removal? || (i.Update? && !Judge(i.status).Undecided?)
  }

  /** The wait goes on after such an item: no removal, and no denial, failure or certificate. */
  predicate Open(i: Item) {
    !i.Removal? && (i.Update? ==> !i.status.denied && !i.status.failed && i.status.certificate == "")
  }

  lemma DecisiveIffNotOpen(i: Item)
    ensures Decisive(i) <==> !Open(i)
  {
  }

  function OutcomeOf(i: Item): Outcome
    requires Decisive(i)
  {
    if i.Removal? then Removed
    else match Judge(i.status)
      case IsDenied => Denied(i.status)
      case HasFailed => Failed(i.status)
      case IsSigned => Signed(i.status)
  }

  function Exhausted(closed: bool): Outcome {
    if closed then ChannelClosed else Blocked
  }

  /** `k` is the first item that decides. */
  ghost predicate FirstDecisive(items: seq<Item>, k: nat) {
    k < |items| && Decisive(items[k]) && forall j :: 0 <= j < k ==> !Decisive(items[j])
  }

  /** The outcome of Get followed by the channel is the one of the first item that decides. */
  ghost predicate DecidedByFirst(items: seq<Item>, closed: bool, out: Outcome) {
    && (forall k: nat :: FirstDecisive(items, k) ==> out == OutcomeOf(items[k]))
    && ((forall j :: 0 <= j < |items| ==> !Decisive(items[j])) ==> out == Exhausted(closed))
  }

  method WaitForCertificateRequest(watchOpens: bool, got: Option<Status>, channel: seq<Item>, closed: bool)
    returns (out: Outcome)
    ensures !watchOpens ==> out == WatchFailed
    ensures watchOpens && got.None? ==> out == GetFailed
    ensures watchOpens && got.Some? ==> DecidedByFirst([Update(got.value)] + channel, closed, out)
    // in terms of the fields: the first item that is not open decides, a denial before a failure before a certificate
    ensures watchOpens && got.Some? ==>
      var items := [Update(got.value)] + channel;
      forall k :: 0 <= k < |items| && (forall j :: 0 <= j < k ==> Open(items[j])) ==>
        && (items[k].Removal? ==> out == Removed)
        && (items[k].Update? && items[k].status.denied ==> out == Denied(items[k].status))
        && (items[k].Update? && !items[k].status.denied && items[k].status.failed ==> out == Failed(items[k].status))
        && (items[k].Update? && !items[k].status.denied && !items[k].status.failed && items[k].status.certificate != "" ==>
              out == Signed(items[k].status))
    ensures watchOpens && got.Some? ==>
      var items := [Update(got.value)] + channel;
      (forall j :: 0 <= j < |items| ==> Open(items[j])) ==> out == if closed then ChannelClosed else Blocked
  {
    if !watchOpens {
      return WatchFailed;
    }
    if got.None? {
      return GetFailed;
    }
    var cr := got.value;
    ghost var items := [Update(got.value)] + channel;
    var i := 0;
    while true
      invariant 0 <= i <= |channel|
      invariant items[i] == Update(cr)
      invariant forall j :: 0 <= j < i ==> !Decisive(items[j])
      decreases |channel| - i
    {
      if cr.denied {
        assert FirstDecisive(items, i);
        return Denied(cr);
      }
      if cr.failed {
        assert FirstDecisive(items, i);
        return Failed(cr);
      }
      if |cr.certificate| > 0 {
        assert FirstDecisive(items, i);
        return Signed(cr);
      }
      ghost var start := i;
      while true
        invariant start <= i <= |channel|
        invariant forall j :: 0 <= j <= i ==> !Decisive(items[j])
        decreases |channel| - i
      {
        if i == |channel| {
          return Exhausted(closed);
        }
        var w := channel[i];
        i := i + 1;
        assert items[i] == w;
        if w.Removal? {
          assert FirstDecisive(items, i);
          return Removed;
        }
        if w.Foreign? {
          continue;
        }
        cr := w.status;
        break;
      }
    }
  }

  // ----- No lost update

  /** The request's snapshots among the delivered items, in order. */
  ghost function Updates(channel: seq<Item>): seq<Status> {
    if channel == [] then []
    else Updates(channel[..|channel| - 1]) + if channel[|channel| - 1].Update? then [channel[|channel| - 1].status] else []
  }

  lemma {:induction false} UpdatesDelivered(channel: seq<Item>, st: Status)
    ensures st in Updates(channel) <==> Update(st) in channel
  {
    if channel == [] {
    } else {
      UpdatesDelivered(channel[..|channel| - 1], st);
    }
  }

  /** Terminal states are final: cert-manager never takes a verdict back. */
  ghost predicate Sticky(versions: seq<Status>) {
    forall i, j :: 0 <= i <= j < |versions| && !Judge(versions[i]).Undecided? ==> Judge(versions[j]) == Judge(versions[i])
  }

  /** The server has had a verdict up to version t. */
  ghost predicate DecidedBy(versions: seq<Status>, t: int) {
    exists i :: 0 <= i <= t && i < |versions| && !Judge(versions[i]).Undecided?
  }

  function Max(a: int, b: int): int {
    if a < b then b else a
  }

  lemma {:induction false} SomeFirst(items: seq<Item>, k: nat) returns (f: nat)
    requires k < |items| && Decisive(items[k])
    ensures FirstDecisive(items, f)
  {
    if j :| 0 <= j < k && Decisive(items[j]) {
      f := SomeFirst(items, j);
    } else {
      f := k;
    }
  }

  /**
   The watch opens at version `w` of the object, Get returns version `g`, and the channel has delivered
   the versions after w up to `d`, with foreign objects in between. Because w <= g, the wait is still
   blocked if and only if the server had no verdict in any version it was shown, and otherwise it
   reports the server's verdict.
   */
  lemma NoLostUpdate(versions: seq<Status>, w: nat, g: nat, d: nat, channel: seq<Item>, out: Outcome)
    requires Sticky(versions) && w <= g < |versions| && w <= d < |versions|
    requires Updates(channel) == versions[w + 1..d + 1] && Removal !in channel
    requires DecidedByFirst([Update(versions[g])] + channel, false, out)
    ensures out.Blocked? <==> !DecidedBy(versions, Max(g, d))
    ensures !out.Blocked? ==> (out.Signed? || out.Denied? || out.Failed?) && Judge(out.status) == Judge(versions[Max(g, d)])
  {
    var items := [Update(versions[g])] + channel;
    forall i | 0 <= i < |items| && Decisive(items[i])
      ensures items[i].Update? && items[i].status in versions[..Max(g, d) + 1]
    {
      if i == 0 {
        assert versions[..Max(g, d) + 1][g] == versions[g];
      } else {
        ShownVersion(versions, w, d, channel, i - 1);
      }
    }
    if DecidedBy(versions, Max(g, d)) {
      var k := ShownVerdict(versions, w, g, d, channel);
      var f := SomeFirst(items, k);
      assert out == OutcomeOf(items[f]);
      var v :| 0 <= v <= Max(g, d) && versions[v] == items[f].status;
      assert Judge(versions[Max(g, d)]) == Judge(versions[v]);
    } else {
      forall i | 0 <= i < |items|
        ensures !Decisive(items[i])
      {
      }
    }
  }

  lemma ShownVersion(versions: seq<Status>, w: nat, d: nat, channel: seq<Item>, i: nat)
    requires w <= d < |versions| && Updates(channel) == versions[w + 1..d + 1] && Removal !in channel
    requires i < |channel| && Decisive(channel[i])
    ensures channel[i].Update? && channel[i].status in versions[..d + 1]
  {
    assert channel[i] in channel;
    UpdatesDelivered(channel, channel[i].status);
    var j :| 0 <= j < |Updates(channel)| && Updates(channel)[j] == channel[i].status;
    assert versions[..d + 1][w + 1 + j] == channel[i].status;
  }

  /** Some item shown to the wait carries the server's verdict. */
  lemma ShownVerdict(versions: seq<Status>, w: nat, g: nat, d: nat, channel: seq<Item>) returns (k: nat)
    requires Sticky(versions) && w <= g < |versions| && w <= d < |versions|
    requires Updates(channel) == versions[w + 1..d + 1] && DecidedBy(versions, Max(g, d))
    ensures var items := [Update(versions[g])] + channel; k < |items| && Decisive(items[k])
  {
    if !Judge(versions[g]).Undecided? {
      return 0;
    }
    var t :| 0 <= t <= Max(g, d) && !Judge(versions[t]).Undecided?;
    assert t > g;
    assert versions[w + 1..d + 1][t - w - 1] == versions[t];
    UpdatesDelivered(channel, versions[t]);
    var i :| 0 <= i < |channel| && channel[i] == Update(versions[t]);
    k := i + 1;
  }

  /** The order matters: a Get before the watch can miss the verdict for ever. */
  lemma GetBeforeWatchLoses(pending: Status, signed: Status, out: Outcome)
    requires Judge(pending).Undecided? && Judge(signed).IsSigned?
    requires DecidedByFirst([Update(pending)] + [], false, out)
    ensures var versions := [pending, signed]; var g, w, d := 0, 1, 1;
      && Sticky(versions) && Updates([]) == versions[w + 1..d + 1] && DecidedBy(versions, d)
      && out.Blocked?
  {
    var versions := [pending, signed];
    assert !Judge(versions[1]).Undecided?;
  }
}
