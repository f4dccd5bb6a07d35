/** The Kotlin verifier, as a function of the bytes it is given and the lookups it makes. */
module KotlinVerifier {
  import opened Prelude
  import opened CborSpec
  import opened CborDecoder
  import opened Identity

  const MAX_PROOFS: nat := 3
  const MAX_HISTORY_TOTAL_BYTES: nat := 4 * 1024 * 1024

  datatype VerifiedState = VerifiedState(
    envelope: Bytes,
    ownerKey: Bytes,
    sequence: nat,
    stateHash: Bytes,
    predecessorOwnerKey: Option<Bytes>,
    predecessorStateHash: Option<Bytes>,
    generation: Option<nat>,
    threshold: Option<nat>,
    signers: seq<Signer>)

  // ---------------------------------------------------------------- reading

  ghost function ReadSigners(v: Value): (r: Option<seq<Signer>>)
  {
    var items :- AsList(v);
    if |items| != 3 then None else
    var signers :- SignerEntries(items);
    if SignersDistinct(signers) then Some(signers) else None
  }

  ghost function ReadProofs(v: Value): (r: Option<seq<Proof>>)
  {
    var items :- AsList(v);
    if |items| > MAX_PROOFS then None else
    var proofs :- ProofEntries(items);
    if ProofsOrdered(proofs) && ProofIdsFit(proofs) then Some(proofs) else None
  }

  ghost function ReadAuthorization(v: Value): (r: Option<Authorization>)
  {
    var auth :- Fields(v, 7);
    if auth[1] != Int(1) || auth[2] != Int(1) then None else
    var operation :- AsUint(auth[3]);
    if operation !in {1, 2, 3, 4, 5} then None else
    var generation :- AsUint(auth[4]);
    var threshold :- AsUint(auth[5]);
    var predecessor :- AsBytesOf(auth[7], KEY_BYTES);
    var signers :- ReadSigners(auth[6]);
    Some(Authorization(operation, generation, threshold, signers, predecessor))
  }

  /** Owner key and sequence of an update for this owner, whose payload must be empty. */
  ghost function ReadRecord(owner: Bytes, update: seq<Value>): (r: Option<(Bytes, nat)>)
    requires |update| >= 4
  {
    var record :- Fields(update[1], 2);
    var name :- AsBytes(record[1]);
    var key :- AsBytesOf(record[2], KEY_BYTES);
    var sequence :- AsUint(update[3]);
    if name == owner && Utf8Valid(name) && update[2] == Map(map[]) then Some((key, sequence)) else None
  }

  ghost function ReadLegacy(owner: Bytes, outer: seq<Value>): (r: Option<Parts>)
    requires |outer| == 3
    ensures r.Some? ==> r.value.Legacy?
  {
    var updateBytes :- AsBytes(outer[1]);
    var signature :- AsBytesOf(outer[2], SIGNATURE_BYTES);
    var decoded :- Decoded(updateBytes);
    var update :- Fields(decoded, 3);
    var record :- ReadRecord(owner, update);
    Some(Legacy(updateBytes, record.0, record.1, signature))
  }

  ghost function ReadVersioned(owner: Bytes, outer: seq<Value>): (r: Option<Parts>)
    requires |outer| == 4
    ensures r.Some? ==> r.value.Versioned?
  {
    if outer[1] != Int(1) then None else
    var updateBytes :- AsBytes(outer[2]);
    var decoded :- Decoded(updateBytes);
    var update :- Fields(decoded, 4);
    var record :- ReadRecord(owner, update);
    var auth :- ReadAuthorization(update[4]);
    var proofs :- ReadProofs(outer[3]);
    Some(Versioned(updateBytes, record.0, record.1, auth, proofs))
  }

  ghost function Read(owner: Bytes, envelope: Bytes): (r: Option<Parts>)
  {
    var value :- Decoded(envelope);
    if Fields(value, 2).Some? then ReadLegacy(owner, Fields(value, 2).value)
    else if Fields(value, 3).Some? then ReadVersioned(owner, Fields(value, 3).value)
    else None
  }

  /** Reading also checks a legacy envelope's own signature. */
  ghost function Parse(c: Crypto, owner: Bytes, envelope: Bytes): (r: Option<Parts>)
  {
    var parts :- Read(owner, envelope);
    if parts.Legacy? && !c.verify(parts.key, c.sha(parts.update), parts.signature) then None else Some(parts)
  }

  // ------------------------------------------------------------ transitions

  predicate GenesisAllowed(c: Crypto, p: Parts)
    requires p.Versioned?
  {
    p.sequence == 1 && p.auth.generation == 1 && p.auth.threshold == 2 && p.auth.predecessor == ZERO_HASH
    && QuorumVerifies(c, p.update, p.proofs, p.auth.signers, 2)
  }

  predicate Successive(p: Parts, prev: VerifiedState)
    requires p.Versioned?
  {
    p.sequence == prev.sequence + 1 && p.auth.predecessor == prev.stateHash
  }

  predicate UpdateAllowed(c: Crypto, p: Parts, prev: VerifiedState)
    requires p.Versioned?
  {
    prev.signers != [] && p.key == prev.ownerKey
    && Some(p.auth.generation) == prev.generation && Some(p.auth.threshold) == prev.threshold
    && p.auth.signers == prev.signers
    && QuorumVerifies(c, p.update, p.proofs, prev.signers, p.auth.threshold)
  }

  predicate ReplaceAllowed(c: Crypto, p: Parts, prev: VerifiedState)
    requires p.Versioned?
  {
    prev.signers != [] && p.key == prev.ownerKey
    && prev.generation.Some? && p.auth.generation > prev.generation.value && p.auth.threshold == 2
    && p.auth.signers != prev.signers
    && QuorumVerifies(c, p.update, p.proofs, prev.signers, 2)
  }

  predicate UpgradeAllowed(c: Crypto, p: Parts, prev: VerifiedState)
    requires p.Versioned?
  {
    prev.signers == [] && p.key == prev.ownerKey && p.auth.generation == 1 && p.auth.threshold == 2
    && HasKey(p.auth.signers, p.key)
    && |p.proofs| == 1 && p.proofs[0].id.Some?
    && KeyFor(p.auth.signers, p.proofs[0].id.value) == Some(p.key)
    && c.verify(p.key, c.sha(p.update), p.proofs[0].signature)
  }

  predicate RotationAllowed(c: Crypto, p: Parts, prev: VerifiedState)
    requires p.Versioned?
  {
    p.key != prev.ownerKey &&
    if prev.signers == [] then
      p.auth.generation == 1 && p.auth.threshold == 2 && HasKey(p.auth.signers, p.key)
      && |p.proofs| == 1 && p.proofs[0].id.None?
      && c.verify(prev.ownerKey, c.sha(p.update), p.proofs[0].signature)
    else
      Some(p.auth.generation) == prev.generation && Some(p.auth.threshold) == prev.threshold
      && p.auth.signers == prev.signers
      && QuorumVerifies(c, p.update, p.proofs, prev.signers, p.auth.threshold)
  }

  predicate TransitionAllowed(c: Crypto, p: Parts, prev: Option<VerifiedState>)
  {
    if p.Legacy? then prev.None?
    else if p.auth.operation == 1 then prev.None? && GenesisAllowed(c, p)
    else
      prev.Some? && Successive(p, prev.value) &&
      match p.auth.operation
      case 2 => UpdateAllowed(c, p, prev.value)
      case 3 => ReplaceAllowed(c, p, prev.value)
      case 4 => UpgradeAllowed(c, p, prev.value)
      case 5 => RotationAllowed(c, p, prev.value)
      case _ => false
  }

  function StateOf(c: Crypto, envelope: Bytes, p: Parts, prev: Option<VerifiedState>): VerifiedState
  {
    VerifiedState(
      envelope, p.key, p.sequence, c.sha(p.update),
      if prev.Some? then Some(prev.value.ownerKey) else None,
      if p.Versioned? then Some(p.auth.predecessor) else None,
      if p.Versioned? then Some(p.auth.generation) else None,
      if p.Versioned? then Some(p.auth.threshold) else None,
      if p.Versioned? then p.auth.signers else [])
  }

  function VerifyTransition(c: Crypto, envelope: Bytes, p: Parts,
          prev: Option<VerifiedState>): (r: Option<VerifiedState>)
  {
    if TransitionAllowed(c, p, prev) then Some(StateOf(c, envelope, p, prev)) else None
  }

  // ---------------------------------------------------------------- history

  predicate IsAnchor(p: Parts)
  {
    p.Legacy? || p.auth.operation == 1
  }

  predicate WithinBudget(size: nat, already: nat)
  {
    0 < size <= MAX_ENCODED_BYTES && already + size <= MAX_HISTORY_TOTAL_BYTES
  }

  /** An envelope with its content. */
  datatype Link = Link(envelope: Bytes, parts: Parts)

  /** The envelopes from the head back to its anchor, newest first. */
  ghost function Walk(c: Crypto, owner: Bytes, lookup: Lookup, envelope: Bytes, lookups: nat, visited: set<Bytes>,
          total: nat): (r: Option<seq<Link>>)
    requires lookups <= MAX_PREDECESSOR_DEPTH
    ensures r.Some? ==> r.value != [] && r.value[0].envelope == envelope
    decreases MAX_PREDECESSOR_DEPTH - lookups, |envelope|
  {
    var parts :- Parse(c, owner, envelope);
    var hash := c.sha(parts.update);
    if hash in visited then None
    else if IsAnchor(parts) then Some([Link(envelope, parts)])
    else if lookups >= MAX_PREDECESSOR_DEPTH then None
    else
      var predecessor :- lookup(parts.auth.predecessor);
      if !WithinBudget(|predecessor|, total) then None else
      var older :- Walk(c, owner, lookup, predecessor, lookups + 1, visited + {hash}, total + |predecessor|);
      Some([Link(envelope, parts)] + older)
  }

  /** Oldest first, each state verified over the one before. */
  function Replay(c: Crypto, links: seq<Link>): (r: Option<VerifiedState>)
    ensures r.Some? ==> links != [] && r.value.envelope == links[0].envelope
  {
    if links == [] then None
    else if |links| == 1 then VerifyTransition(c, links[0].envelope, links[0].parts, None)
    else
      var prev :- Replay(c, links[1..]);
      VerifyTransition(c, links[0].envelope, links[0].parts, Some(prev))
  }

  datatype Resolution = Resolution(state: VerifiedState, predecessors: seq<Bytes>)

  function Envelopes(links: seq<Link>): (r: seq<Bytes>)
    ensures |r| == |links|
  {
    if links == [] then [] else [links[0].envelope] + Envelopes(links[1..])
  }

  ghost function Resolve(c: Crypto, owner: Bytes, head: Bytes, lookup: Lookup): (r: Option<Resolution>)
  {
    if owner == [] || !Utf8Valid(owner) || !WithinBudget(|head|, 0) then None else
    var links :- Walk(c, owner, lookup, head, 0, {}, |head|);
    var state :- Replay(c, links);
    Some(Resolution(state, Envelopes(links[1..])))
  }

  /** A lookup that knows one envelope already. */
  function PredecessorFirst(hash: Bytes, envelope: Bytes, lookup: Lookup): Lookup
  {
    h => if h == hash then Some(envelope) else lookup(h)
  }
}
