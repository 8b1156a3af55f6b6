/**
 The root CA file watcher (pkg/tls/rootca/rootca.go). Decoding a PEM bundle into its certificates is
 the function `decode`; an empty bundle does not decode.
 */
module RootFile {
  import opened Common

  type Cert = string
  type Decoder = string -> Option<set<Cert>>

  /** A PEM bundle and the pool of its certificates. */
  datatype RootCAs = RootCAs(pem: string, pool: set<Cert>)

  predicate Decodable(decode: Decoder, pem: string) {
    decode(pem).Some?
  }

  /** What set-decoding of certificates guarantees. */
  predicate IsDecoder(decode: Decoder) {
    decode("").None?
  }

  function Bundled(decode: Decoder, pem: string): RootCAs
    requires Decodable(decode, pem)
  {
    RootCAs(pem, decode(pem).value)
  }

  datatype Op = CreateOp | WriteOp | RemoveOp | RenameOp | ChmodOp

  /** A file system event, and what reading the file gives while it is handled (None: unreadable). */
  datatype FsEvent = FsEvent(ops: set<Op>, content: Option<string>)

  /** Events on which the file is read again. */
  predicate Triggers(e: FsEvent) {
    e.ops == {RemoveOp} || WriteOp in e.ops
  }

  /** While the event is handled, the file has a decodable content. */
  predicate Shows(decode: Decoder, e: FsEvent) {
    e.content.Some? && Decodable(decode, e.content.value)
  }

  /** The event makes the watcher read a decodable content. */
  predicate Reads(decode: Decoder, e: FsEvent) {
    Triggers(e) && Shows(decode, e)
  }

  /** The decodable contents read, in order. */
  function Observed(decode: Decoder, initial: string, events: seq<FsEvent>): (r: seq<string>)
    requires Decodable(decode, initial)
    ensures r != [] && forall x :: x in r ==> Decodable(decode, x)
  {
    if events == [] then [initial]
    else
      var e := events[|events| - 1];
      Observed(decode, initial, events[..|events| - 1]) +
      if Reads(decode, e) then [e.content.value] else []
  }

  /** A sequence without its consecutive repetitions. */
  function Dedup(s: seq<string>): (r: seq<string>)
    ensures s != [] ==> r != [] && r[|r| - 1] == s[|s| - 1]
    ensures forall x :: x in r <==> x in s
    ensures forall i :: 0 < i < |r| ==> r[i - 1] != r[i]
  {
    if |s| <= 1 then s
    else
      var m := |s| - 1;
      assert forall x :: x in s <==> x in s[..m] || x == s[m];
      if s[m] == s[m - 1] then Dedup(s[..m]) else Dedup(s[..m]) + [s[m]]
  }

  function BundleAll(decode: Decoder, pems: seq<string>): seq<RootCAs>
    requires forall x :: x in pems ==> Decodable(decode, x)
  {
    seq(|pems|, i requires 0 <= i < |pems| => Bundled(decode, pems[i]))
  }

  /** What Watch should broadcast. */
  function Expected(decode: Decoder, initial: string, events: seq<FsEvent>): seq<RootCAs>
    requires Decodable(decode, initial)
  {
    BundleAll(decode, Dedup(Observed(decode, initial, events)))
  }

  /** One more event adds its content if that is decodable and not the last one seen. */
  lemma ExpectedStep(decode: Decoder, initial: string, events: seq<FsEvent>, e: FsEvent)
    requires Decodable(decode, initial)
    ensures var seen, next := Observed(decode, initial, events), Observed(decode, initial, events + [e]);
      var last := seen[|seen| - 1];
      if Reads(decode, e) && e.content.value != last then
        && next[|next| - 1] == e.content.value
        && Expected(decode, initial, events + [e]) == Expected(decode, initial, events) + [Bundled(decode, e.content.value)]
      else
        && next[|next| - 1] == last
        && Expected(decode, initial, events + [e]) == Expected(decode, initial, events)
  {
    assert (events + [e])[..|events|] == events;
    var seen, next := Observed(decode, initial, events), Observed(decode, initial, events + [e]);
    if |next| > |seen| {
      assert next[..|seen|] == seen;
    } else {
      assert next == seen;
    }
  }

  datatype Loaded = Unchanged | Updated(roots: RootCAs) | LoadFailed

  class Watcher {
    const decode: Decoder
    var rootCAsPEM: string
    /** Everything sent on the channel. */
    var broadcasts: seq<RootCAs>

    constructor (decode: Decoder)
      ensures this.decode == decode && rootCAsPEM == "" && broadcasts == []
    {
      this.decode := decode;
      rootCAsPEM := "";
      broadcasts := [];
    }

    method LoadRootCAsFile(content: Option<string>) returns (r: Loaded)
      ensures r.Unchanged? <==> content == Some(rootCAsPEM)
      ensures r.Updated? <==> content.Some? && content.value != rootCAsPEM && Decodable(decode, content.value)
      ensures r.Updated? ==> r.roots == Bundled(decode, content.value)
    {
      if content.None? {
        return LoadFailed;
      }
      if content.value == rootCAsPEM {
        return Unchanged;
      }
      var certs := decode(content.value);
      if certs.None? {
        return LoadFailed;
      }
      return Updated(RootCAs(content.value, certs.value));
    }

    method ReloadConfig(content: Option<string>)
      modifies this
      ensures
        if content.Some? && content.value != old(rootCAsPEM) && Decodable(decode, content.value) then
          rootCAsPEM == content.value && broadcasts == old(broadcasts) + [Bundled(decode, content.value)]
        else
          rootCAsPEM == old(rootCAsPEM) && broadcasts == old(broadcasts)
    {
      var r := LoadRootCAsFile(content);
      if r.Updated? {
        rootCAsPEM := r.roots.pem;
        broadcasts := broadcasts + [r.roots];
      }
    }

    /** One round of the watch loop. */
    method HandleEvent(e: FsEvent)
      modifies this
      ensures
        if Reads(decode, e) && e.content.value != old(rootCAsPEM) then
          rootCAsPEM == e.content.value && broadcasts == old(broadcasts) + [Bundled(decode, e.content.value)]
        else
          rootCAsPEM == old(rootCAsPEM) && broadcasts == old(broadcasts)
    {
      if e.ops == {RemoveOp} {
        ReloadConfig(e.content);
      }
      if WriteOp in e.ops {
        ReloadConfig(e.content);
      }
    }

    /**
     Watch fails if the file cannot be loaded or is empty. Otherwise it broadcasts exactly the decodable
     contents it observed, without consecutive repetitions, each with its own pool.
     */
    method Watch(initial: Option<string>, events: seq<FsEvent>) returns (ok: bool)
      requires IsDecoder(decode) && rootCAsPEM == "" && broadcasts == []
      modifies this
      ensures ok <==> initial.Some? && Decodable(decode, initial.value)
      ensures !ok ==> broadcasts == []
      ensures ok ==> broadcasts == Expected(decode, initial.value, events)
    {
      var r := LoadRootCAsFile(initial);
      if !r.Updated? {
        return false;
      }
      broadcasts := broadcasts + [r.roots];
      rootCAsPEM := r.roots.pem;
      assert broadcasts == Expected(decode, initial.value, []);
      for i := 0 to |events|
        invariant broadcasts == Expected(decode, initial.value, events[..i])
        invariant var seen := Observed(decode, initial.value, events[..i]); rootCAsPEM == seen[|seen| - 1]
      {
        HandleEvent(events[i]);
        ExpectedStep(decode, initial.value, events[..i], events[i]);
        assert events[..i + 1] == events[..i] + [events[i]];
      }
      assert events[..|events|] == events;
      return true;
    }
  }

  /** What the provider holds after everything was received: the last decodable content read, with its pool. */
  lemma LastBroadcastIsLastContent(decode: Decoder, initial: string, events: seq<FsEvent>)
    requires IsDecoder(decode) && Decodable(decode, initial)
    ensures var seen, sent := Observed(decode, initial, events), Expected(decode, initial, events);
      && sent != []
      && sent[|sent| - 1] == Bundled(decode, seen[|seen| - 1])
      && (forall i :: 0 <= i < |sent| ==> sent[i].pem != "" && decode(sent[i].pem) == Some(sent[i].pool))
      && (forall i :: 0 < i < |sent| ==> sent[i - 1].pem != sent[i].pem)
  {
    var kept := Dedup(Observed(decode, initial, events));
    forall i | 0 <= i < |kept|
      ensures Decodable(decode, kept[i])
    {
      assert kept[i] in kept;
    }
  }

  // ----- When the content read last is the content of the file

  function LastRead(decode: Decoder, initial: string, events: seq<FsEvent>): string
    requires Decodable(decode, initial)
  {
    var seen := Observed(decode, initial, events);
    seen[|seen| - 1]
  }

  /** The last decodable content of the file, read or not. */
  function Current(decode: Decoder, initial: string, events: seq<FsEvent>): string {
    if events == [] then initial
    else
      var e := events[|events| - 1];
      if Shows(decode, e) then e.content.value else Current(decode, initial, events[..|events| - 1])
  }

  /** By event `i` the file has got another decodable content. */
  ghost predicate Changes(decode: Decoder, initial: string, events: seq<FsEvent>, i: nat) {
    i < |events| && Shows(decode, events[i]) && events[i].content.value != Current(decode, initial, events[..i])
  }

  ghost predicate LastChange(decode: Decoder, initial: string, events: seq<FsEvent>, m: nat) {
    Changes(decode, initial, events, m) && forall i: nat :: i > m ==> !Changes(decode, initial, events, i)
  }

  ghost predicate ReadSince(decode: Decoder, events: seq<FsEvent>, m: nat) {
    exists i :: m <= i < |events| && Reads(decode, events[i])
  }

  lemma ChangesPrefix(decode: Decoder, initial: string, events: seq<FsEvent>, k: nat)
    requires k <= |events|
    ensures forall i: nat :: i < k ==> (Changes(decode, initial, events[..k], i) <==> Changes(decode, initial, events, i))
  {
    forall i: nat | i < k
      ensures Changes(decode, initial, events[..k], i) <==> Changes(decode, initial, events, i)
    {
      assert events[..k][..i] == events[..i];
    }
  }

  /** A file that never changes has been read. */
  lemma {:induction false} UnchangedIsRead(decode: Decoder, initial: string, events: seq<FsEvent>)
    requires Decodable(decode, initial) && forall i: nat :: !Changes(decode, initial, events, i)
    ensures LastRead(decode, initial, events) == Current(decode, initial, events) == initial
    decreases |events|
  {
    if events == [] {
    } else {
      var k := |events| - 1;
      ChangesPrefix(decode, initial, events, k);
      UnchangedIsRead(decode, initial, events[..k]);
      assert !Changes(decode, initial, events, k);
    }
  }

  /**
   The watcher's last content is the file's last decodable content if and only if an event that makes it read
   came with the last change of the file or after it, or that change went back to what was read last.
   */
  lemma {:induction false} ReadIsCurrent(decode: Decoder, initial: string, events: seq<FsEvent>, m: nat)
    requires Decodable(decode, initial) && LastChange(decode, initial, events, m)
    ensures Current(decode, initial, events) == events[m].content.value
    ensures LastRead(decode, initial, events) == Current(decode, initial, events) <==>
      ReadSince(decode, events, m) || LastRead(decode, initial, events[..m]) == events[m].content.value
    decreases |events|
  {
    var k := |events| - 1;
    var before, e := events[..k], events[k];
    if m == k {
      assert ReadSince(decode, events, m) <==> Reads(decode, e);
    } else {
      ChangesPrefix(decode, initial, events, k);
      ReadIsCurrent(decode, initial, before, m);
      assert !Changes(decode, initial, events, k);
      assert before[..m] == events[..m];
      assert ReadSince(decode, events, m) <==> ReadSince(decode, before, m) || Reads(decode, e) by {
        if i :| m <= i < |before| && Reads(decode, before[i]) {
          assert Reads(decode, events[i]);
        }
        if i :| m <= i < |events| && Reads(decode, events[i]) && i < k {
          assert Reads(decode, before[i]);
        }
      }
    }
  }

  /**
   New content is read and broadcast if it comes with a write, or with a removal that is nothing else, and not
   otherwise: a file replaced by a rename is not read again.
   */
  lemma WritesAndRemovalsAreRead(decode: Decoder, initial: string, events: seq<FsEvent>, ops: set<Op>, b: string)
    requires Decodable(decode, initial) && Decodable(decode, b) && b != LastRead(decode, initial, events)
    ensures var next := events + [FsEvent(ops, Some(b))];
      && Current(decode, initial, next) == b
      && if WriteOp in ops || ops == {RemoveOp} then
           && LastRead(decode, initial, next) == b
           && Expected(decode, initial, next) == Expected(decode, initial, events) + [RootCAs(b, decode(b).value)]
         else
           && LastRead(decode, initial, next) == LastRead(decode, initial, events)
           && Expected(decode, initial, next) == Expected(decode, initial, events)
  {
    ExpectedStep(decode, initial, events, FsEvent(ops, Some(b)));
  }
}
