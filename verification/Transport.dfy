/** The conditional PUT over directly configured peers; clocks and peers' answers are inputs. */
module Transport {
  import opened Prelude
  import opened Identity
  import opened RotationAdapter
  import Kt = KotlinVerifier
  import KotlinHistory

  const MAX_REGISTRY_PEERS: nat := 16

  /** Peers are told apart by their addresses; the read-back peer is pinned to another one. */
  datatype Config = Config(registryPeers: seq<string>, readbackPeer: Option<string>, enableOwnerKeyRotation: bool)
  {
    ghost predicate Valid()
    {
      && 1 <= |registryPeers| <= MAX_REGISTRY_PEERS
      && (forall i, j | 0 <= i < j < |registryPeers| :: registryPeers[i] != registryPeers[j])
      && (readbackPeer.Some? ==> readbackPeer.value !in registryPeers)
    }

    function HistoryPeers(): (peers: seq<string>)
      requires Valid()
      ensures peers != [] && forall i, j | 0 <= i < j < |peers| :: peers[i] != peers[j]
    {
      registryPeers + if readbackPeer.Some? then [readbackPeer.value] else []
    }
  }

  // ----------------------------------------------------------------- history

  datatype Answer = Value(bytes: Bytes) | Miss | Broken

  /** Found, known to be absent, or not known because some peer could not be asked. */
  datatype HistoryRead = Present(bytes: Bytes) | Absent | Unavailable

  /** Asks the peers in turn; a miss counts only when every peer answered. */
  method GetEnvelopeByHash(peers: seq<string>, ask: string -> Answer) returns (r: HistoryRead)
    ensures r.Absent? <==> forall p | p in peers :: ask(p).Miss?
    ensures r.Unavailable? <==> (forall p | p in peers :: !ask(p).Value?) && exists p | p in peers :: ask(p).Broken?
    ensures r.Present? ==>
              exists i | 0 <= i < |peers| :: ask(peers[i]) == Value(r.bytes) && forall j | 0 <= j < i ::
                !ask(peers[j]).Value?
  {
    var failed := false;
    for i := 0 to |peers|
      invariant forall j | 0 <= j < i :: !ask(peers[j]).Value?
      invariant failed <==> exists j | 0 <= j < i :: ask(peers[j]).Broken?
    {
      var answer := ask(peers[i]);
      if answer.Value? { assert peers[i] in peers; return Present(answer.bytes); }
      if answer.Broken? { failed := true; }
    }
    return if failed then Unavailable else Absent;
  }

  // --------------------------------------------------------------------- put

  datatype Ack = Acked | Refused | Lost

  /** The reads before the write, the clock at each look, and each peer's reply to its PUT. */
  datatype Network = Network(
    current: Option<Bytes>,
    currentLookup: Lookup,
    candidateLookup: Lookup,
    reread: Option<Bytes>,
    rereadLookup: Lookup,
    clock: nat -> int,
    reply: nat -> Ack)

  datatype Sent = Sent(peer: string, envelope: Bytes)

  class DhtClient {
    var puts: seq<Sent>

    constructor ()
      ensures puts == []
    {
      puts := [];
    }

    method PutValue(peer: string, envelope: Bytes, reply: Ack) returns (r: Ack)
      modifies this
      ensures puts == old(puts) + [Sent(peer, envelope)] && r == reply
    {
      puts := puts + [Sent(peer, envelope)];
      r := reply;
    }
  }

  ghost predicate ReadsHash(c: Crypto, owner: Bytes, envelope: Option<Bytes>, lookup: Lookup, hash: Bytes)
  {
    envelope.Some? && Kt.Resolve(c, owner, envelope.value, lookup).Some?
      && Kt.Resolve(c, owner, envelope.value, lookup).value.state.stateHash == hash
  }

  /** The candidate verifies and moves the owner key over the expected state. */
  ghost predicate MovesKey(c: Crypto, owner: Bytes, candidate: Bytes, lookup: Lookup, hash: Bytes)
  {
    var r := Kt.Resolve(c, owner, candidate, lookup);
    && r.Some? && r.value.state.predecessorStateHash == Some(hash) && r.value.state.predecessorOwnerKey.Some?
    && r.value.state.predecessorOwnerKey.value != r.value.state.ownerKey
  }

  /** Two verified reads of the expected state, around a candidate that moves the key over it. */
  ghost predicate Checked(c: Crypto, owner: Bytes, envelope: Bytes, expected: Bytes, n: Network)
  {
    && ReadsHash(c, owner, n.current, n.currentLookup, expected)
    && MovesKey(c, owner, envelope, n.candidateLookup, expected)
    && ReadsHash(c, owner, n.reread, n.rereadLookup, expected)
  }

  /** A verified read gave another hash than expected. */
  ghost predicate ReadsOther(c: Crypto, owner: Bytes, envelope: Option<Bytes>, lookup: Lookup, expected: Bytes)
  {
    exists hash :: hash != expected && ReadsHash(c, owner, envelope, lookup, hash)
  }

  /** The candidate verifies over some predecessor, but over another state or without moving the key. */
  ghost predicate StepsOtherwise(c: Crypto, owner: Bytes, candidate: Bytes, lookup: Lookup, expected: Bytes)
  {
    var r := Kt.Resolve(c, owner, candidate, lookup);
    && r.Some? && r.value.state.predecessorStateHash.Some? && r.value.state.predecessorOwnerKey.Some?
    && (r.value.state.predecessorStateHash.value != expected
        || r.value.state.predecessorOwnerKey.value == r.value.state.ownerKey)
  }

  /** The first of the three checks that does not hold was refuted, and not merely unanswered. */
  ghost predicate Refuted(c: Crypto, owner: Bytes, envelope: Bytes, expected: Bytes, n: Network)
  {
    || ReadsOther(c, owner, n.current, n.currentLookup, expected)
    || (&& ReadsHash(c, owner, n.current, n.currentLookup, expected)
        && StepsOtherwise(c, owner, envelope, n.candidateLookup, expected))
    || (&& ReadsHash(c, owner, n.current, n.currentLookup, expected)
        && MovesKey(c, owner, envelope, n.candidateLookup, expected)
        && ReadsOther(c, owner, n.reread, n.rereadLookup, expected))
  }

  /** Rotation is enabled and the arguments have their sizes. */
  predicate Ready(config: Config, owner: Bytes, envelope: Bytes, expected: Bytes)
  {
    config.enableOwnerKeyRotation && owner != [] && envelope != [] && |expected| == KEY_BYTES
  }

  /** The deadline has not passed at the first k looks at the clock. */
  ghost predicate OnTime(expiresAt: int, n: Network, k: nat)
  {
    forall i: nat | i < k :: n.clock(i) < expiresAt
  }

  ghost predicate AllAcked(n: Network, k: nat)
  {
    forall i: nat | i < k :: n.reply(i).Acked?
  }

  /** Peer i gets its PUT: it is in time, and every peer before it acknowledged. */
  ghost predicate Reached(expiresAt: int, n: Network, i: nat)
  {
    OnTime(expiresAt, n, i + 2) && AllAcked(n, i)
  }

  /** Exactly the first sent of the peers are reached. */
  ghost predicate ReachedAre(expiresAt: int, n: Network, peers: nat, sent: nat)
  {
    sent <= peers && forall i: nat | i < peers :: Reached(expiresAt, n, i) <==> i < sent
  }

  lemma ReachedUpTo(expiresAt: int, n: Network, peers: nat, sent: nat)
    requires sent <= peers && (sent > 0 ==> Reached(expiresAt, n, sent - 1))
    requires sent == peers || !Reached(expiresAt, n, sent)
    ensures ReachedAre(expiresAt, n, peers, sent)
  {
  }

  /** Rotation is enabled, the arguments have their sizes, and all checks hold. */
  ghost predicate Cleared(config: Config, c: Crypto, owner: Bytes, envelope: Bytes, expected: Bytes, n: Network)
  {
    Ready(config, owner, envelope, expected) && Checked(c, owner, envelope, expected, n)
  }

  /**
   * How many PUTs are sent and what is reported. Nothing is sent unless all checks hold; then each
   * peer that is reached gets one. A failed precondition is reported exactly when a check was
   * refuted, expiry exactly when the deadline passed before the first PUT, and an acknowledgement
   * exactly when every peer was reached in time and acknowledged; everything else is ambiguous.
   */
  ghost predicate ReportIs(
    config: Config, c: Crypto, owner: Bytes, envelope: Bytes, expected: Bytes, expiresAt: int, n: Network, sent: nat,
    r: PutReport)
    requires config.Valid()
  {
    var cleared, peers := Cleared(config, c, owner, envelope, expected, n), |config.HistoryPeers()|;
    && (if cleared then ReachedAre(expiresAt, n, peers, sent) else sent == 0)
    && (r.PreconditionFailed? <==>
         Ready(config, owner, envelope, expected) && Refuted(c, owner, envelope, expected, n))
    && (r.Expired? <==> cleared && !OnTime(expiresAt, n, 2))
    && (r.Acknowledged? <==> cleared && OnTime(expiresAt, n, peers + 1) && AllAcked(n, peers))
  }

  function Puts(peers: seq<string>, envelope: Bytes): (r: seq<Sent>)
    ensures |r| == |peers| && forall i | 0 <= i < |peers| :: r[i] == Sent(peers[i], envelope)
  {
    if peers == [] then [] else [Sent(peers[0], envelope)] + Puts(peers[1..], envelope)
  }

  lemma NoPuts(envelope: Bytes)
    ensures Puts([], envelope) == []
  {
  }

  lemma PutsExtend(peers: seq<string>, envelope: Bytes, n: nat)
    requires n < |peers|
    ensures Puts(peers[..n + 1], envelope) == Puts(peers[..n], envelope) + [Sent(peers[n], envelope)]
  {
    hide Puts;
    var longer := Puts(peers[..n], envelope) + [Sent(peers[n], envelope)];
    forall j | 0 <= j <= n ensures Puts(peers[..n + 1], envelope)[j] == longer[j] {
      assert peers[..n + 1][j] == peers[j];
    }
  }

  method ReadCurrentHash(c: Crypto, owner: Bytes, envelope: Option<Bytes>, lookup: Lookup) returns (r: Option<Bytes>)
    ensures r.Some? ==> ReadsHash(c, owner, envelope, lookup, r.value)
    ensures r.None? ==> forall hash :: !ReadsHash(c, owner, envelope, lookup, hash)
  {
    hide Kt.Resolve;
    if envelope.None? { return None; }
    var resolved := KotlinHistory.ResolveHead(c, owner, envelope.value, lookup);
    return if resolved.Some? then Some(resolved.value.state.stateHash) else None;
  }

  /** Everything checked before the first PUT; None when all of it holds. */
  method CheckPreconditions(c: Crypto, owner: Bytes, envelope: Bytes, expected: Bytes, n: Network)
    returns (failure: Option<PutReport>)
    ensures failure.None? <==> Checked(c, owner, envelope, expected, n)
    ensures failure == Some(PreconditionFailed) <==> Refuted(c, owner, envelope, expected, n)
    ensures failure.Some? ==> failure.value.PreconditionFailed? || failure.value.Ambiguous?
  {
    hide Kt.Resolve;
    var currentHash := ReadCurrentHash(c, owner, n.current, n.currentLookup);
    if currentHash.None? { return Some(Ambiguous); }
    if currentHash.value != expected { return Some(PreconditionFailed); }
    var candidate := KotlinHistory.ResolveHead(c, owner, envelope, n.candidateLookup);
    if candidate.None? { return Some(Ambiguous); }
    var state := candidate.value.state;
    if state.predecessorStateHash.None? || state.predecessorOwnerKey.None? { return Some(Ambiguous); }
    if state.predecessorStateHash.value != expected || state.predecessorOwnerKey.value == state.ownerKey {
      return Some(PreconditionFailed);
    }
    var freshHash := ReadCurrentHash(c, owner, n.reread, n.rereadLookup);
    if freshHash.None? { return Some(Ambiguous); }
    return if freshHash.value != expected then Some(PreconditionFailed) else None;
  }

  /**
   * The write contract: a report of failed precondition or expiry means nothing was sent; what
   * is sent is the candidate, once to each of the first peers in order, and only after two
   * verified reads of the expected state; an acknowledged report means every peer acknowledged.
   * How many are sent, and what is reported, are told exactly.
   */
  method PutIfCurrent(client: DhtClient, config: Config, c: Crypto, owner: Bytes, envelope: Bytes, expected: Bytes,
          expiresAt: int, n: Network)
    returns (r: PutReport)
    requires config.Valid()
    modifies client
    ensures r.PreconditionFailed? || r.Expired? ==> client.puts == old(client.puts)
    ensures exists k: nat | k <= |config.HistoryPeers()| ::
              Fanout(client.puts, old(client.puts), config.HistoryPeers(), envelope, k, r, n)
    ensures client.puts != old(client.puts) ==>
              Checked(c, owner, envelope, expected, n) && expiresAt > n.clock(0)
    ensures |client.puts| >= |old(client.puts)|
    ensures ReportIs(config, c, owner, envelope, expected, expiresAt, n, |client.puts| - |old(client.puts)|, r)
  {
    hide Checked, Refuted, ReachedAre, AllAcked;
    var peers := config.HistoryPeers();
    NothingSent(client.puts, peers, envelope, n);
    if !Ready(config, owner, envelope, expected) {
      assert Fanout(client.puts, client.puts, peers, envelope, 0, Ambiguous, n);
      return Ambiguous;
    }
    var failure := CheckPreconditions(c, owner, envelope, expected, n);
    if failure.Some? {
      assert Fanout(client.puts, client.puts, peers, envelope, 0, failure.value, n);
      return failure.value;
    }
    if expiresAt <= n.clock(0) {
      ReachedUpTo(expiresAt, n, |peers|, 0);
      assert Fanout(client.puts, client.puts, peers, envelope, 0, Expired, n);
      return Expired;
    }
    r := SendToPeers(client, peers, envelope, expiresAt, n);
  }

  /** The loop over the peers, with the clock looked at before each PUT. */
  method SendToPeers(client: DhtClient, peers: seq<string>, envelope: Bytes, expiresAt: int, n: Network)
    returns (r: PutReport)
    requires peers != [] && n.clock(0) < expiresAt
    modifies client
    ensures exists k: nat | k <= |peers| :: Fanout(client.puts, old(client.puts), peers, envelope, k, r, n)
    ensures |client.puts| >= |old(client.puts)|
    ensures ReachedAre(expiresAt, n, |peers|, |client.puts| - |old(client.puts)|)
    ensures r.Expired? <==> !OnTime(expiresAt, n, 2)
    ensures !r.PreconditionFailed?
    ensures r.Acknowledged? <==> OnTime(expiresAt, n, |peers| + 1) && AllAcked(n, |peers|)
  {
    hide ReachedAre, Puts;
    NoPuts(envelope);
    assert peers[..0] == [] && client.puts + [] == client.puts && peers[..|peers|] == peers;
    var dispatchStarted := false;
    var acknowledgedByAnyPeer := false;
    for i := 0 to |peers|
      invariant client.puts == old(client.puts) + Puts(peers[..i], envelope)
      invariant dispatchStarted == acknowledgedByAnyPeer == (i > 0)
      invariant AllAcked(n, i) && OnTime(expiresAt, n, i + 1)
    {
      assert i == 0 ==> client.puts == old(client.puts);
      if expiresAt <= n.clock(i + 1) {
        ReachedUpTo(expiresAt, n, |peers|, i);
        assert Fanout(client.puts, old(client.puts), peers, envelope, i, if dispatchStarted then Ambiguous
                 else Expired, n);
        return if dispatchStarted then Ambiguous else Expired;
      }
      dispatchStarted := true;
      PutsExtend(peers, envelope, i);
      assert (old(client.puts) + Puts(peers[..i], envelope)) + [Sent(peers[i], envelope)]
               == old(client.puts) + Puts(peers[..i + 1], envelope);
      var reply := client.PutValue(peers[i], envelope, n.reply(i));
      if !reply.Acked? {
        ReachedUpTo(expiresAt, n, |peers|, i + 1);
        assert Fanout(client.puts, old(client.puts), peers, envelope, i + 1, Ambiguous, n);
        return Ambiguous;
      }
      acknowledgedByAnyPeer := true;
    }
    assert acknowledgedByAnyPeer;
    ReachedUpTo(expiresAt, n, |peers|, |peers|);
    assert Fanout(client.puts, old(client.puts), peers, envelope, |peers|, Acknowledged, n);
    return Acknowledged;
  }

  /** The first k peers were sent the candidate, once each; all but perhaps the last acknowledged. */
  ghost predicate Fanout(after: seq<Sent>, before: seq<Sent>, peers: seq<string>, envelope: Bytes, k: nat, r: PutReport,
          n: Network)
  {
    && k <= |peers|
    && after == before + Puts(peers[..k], envelope)
    && (forall j: nat | j + 1 < k :: n.reply(j).Acked?)
    && (r.Acknowledged? <==> k == |peers| && forall j: nat | j < k :: n.reply(j).Acked?)
    && (r.PreconditionFailed? || r.Expired? ==> k == 0)
  }

  lemma NothingSent(puts: seq<Sent>, peers: seq<string>, envelope: Bytes, n: Network)
    requires peers != []
    ensures forall r: PutReport | !r.Acknowledged? :: Fanout(puts, puts, peers, envelope, 0, r, n)
  {
    assert puts + [] == puts;
  }

  /** A report after anything was sent is an acknowledgement or ambiguous: never precondition failed, never expired. */
  lemma SentIsReported(after: seq<Sent>, before: seq<Sent>, peers: seq<string>, envelope: Bytes, k: nat, r: PutReport,
          n: Network)
    requires Fanout(after, before, peers, envelope, k, r, n) && after != before
    ensures r.Acknowledged? || r.Ambiguous?
  {
    assert before + [] == before;
  }

  /** The contract speaks only of what this call added to the log. */
  lemma FanoutAlone(after: seq<Sent>, before: seq<Sent>, peers: seq<string>, envelope: Bytes, k: nat, r: PutReport,
          n: Network)
    requires Fanout(after, before, peers, envelope, k, r, n)
    ensures before <= after && after == before + after[|before|..] && |after| == |before| + k
    ensures Fanout(after[|before|..], [], peers, envelope, k, r, n)
    ensures forall s | s in after[|before|..] :: s.envelope == envelope
  {
    var mine := Puts(peers[..k], envelope);
    assert after[|before|..] == mine == [] + mine;
  }

  /** So no peer ever gets two PUTs from one call, and none gets other bytes. */
  lemma EachPeerOnce(config: Config, envelope: Bytes, k: nat, i: nat, j: nat)
    requires config.Valid() && k <= |config.HistoryPeers()| && i < j < k
    ensures var sent := Puts(config.HistoryPeers()[..k], envelope);
            sent[i].peer != sent[j].peer && sent[i].envelope == envelope && sent[j].envelope == envelope
  {
    var peers := config.HistoryPeers();
    assert peers[i] != peers[j];
  }

  /** The peers a PUT goes to: the registry's in their order, then the read-back peer, so that it can confirm. */
  lemma ReadbackIsWritten(config: Config, envelope: Bytes)
    requires config.Valid()
    ensures var sent := Puts(config.HistoryPeers(), envelope);
            && (forall i | 0 <= i < |config.registryPeers| ::
                  i < |sent| && sent[i] == Sent(config.registryPeers[i], envelope))
            && (config.readbackPeer.Some? ==> Sent(config.readbackPeer.value, envelope) in sent)
            && forall s | s in sent :: s.peer in config.registryPeers || config.readbackPeer == Some(s.peer)
  {
    var peers := config.HistoryPeers();
    var sent := Puts(peers, envelope);
    if config.readbackPeer.Some? { assert sent[|config.registryPeers|] == Sent(config.readbackPeer.value, envelope); }
    forall s | s in sent ensures s.peer in config.registryPeers || config.readbackPeer == Some(s.peer) {
      var i :| 0 <= i < |sent| && sent[i] == s;
      if i < |config.registryPeers| { assert peers[i] == config.registryPeers[i]; }
    }
  }
}
