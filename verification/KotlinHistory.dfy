/** The loops of the Kotlin history verifier, each proved to compute its specification. */
module KotlinHistory {
  import opened Prelude
  import opened CborSpec
  import opened CborDecoder
  import opened Identity
  import opened KotlinVerifier

  // ---------------------------------------------------------------- signers

  lemma SignerClash(signers: seq<Signer>, i: nat, j: nat)
    requires i < j < |signers| && SignersDistinct(signers)
    ensures signers[i].id != signers[j].id && signers[i].key != signers[j].key && LexLess(signers[i].id, signers[j].id)
  {
    hide LexLess;
    LexIrreflexive(signers[i].id);
  }

  lemma SignersExtend(signers: seq<Signer>, s: Signer)
    requires SignersDistinct(signers)
    requires forall t | t in signers :: t.key != s.key
    requires signers != [] ==> LexLess(signers[|signers| - 1].id, s.id)
    ensures SignersDistinct(signers + [s])
  {
    hide LexLess;
    var n := |signers|;
    forall i | 0 <= i < n ensures LexLess(signers[i].id, s.id) {
      if i < n - 1 { LexTransitive(signers[i].id, signers[n - 1].id, s.id); }
    }
  }

  lemma SignerRefused(items: seq<Value>, i: nat, done: seq<Signer>, s: Signer)
    requires |done| == i < |items| && SignerEntry(items[i]) == Some(s)
    requires forall j | 0 <= j < i :: SignerEntry(items[j]) == Some(done[j])
    requires Duplicates(done, s) || (i > 0 && !LexLess(done[i - 1].id, s.id))
    ensures SignerEntries(items).Some? ==> !SignersDistinct(SignerEntries(items).value)
  {
    hide SignerEntry, LexLess, SignersDistinct;
    if SignerEntries(items).Some? && SignersDistinct(SignerEntries(items).value) {
      var all := SignerEntries(items).value;
      assert forall j | 0 <= j < i :: all[j] == done[j];
      forall j: nat | j < i ensures all[j].id != s.id && all[j].key != s.key && LexLess(all[j].id, s.id) {
        SignerClash(all, j, i);
      }
    }
  }

  /** Three entries, each checked against the ones before it. */
  method ParseSignerSet(value: Value) returns (r: Option<seq<Signer>>)
    ensures r == ReadSigners(value)
  {
    hide SignerEntry, LexLess, SignersDistinct, Duplicates;
    if !value.List? { return None; }
    var raw := value.items;
    if |raw| != 3 { return None; }
    var result: seq<Signer> := [];
    var previousId: Option<Bytes> := None;
    assert SignersDistinct(result) by { NoSigners(); }
    for i := 0 to |raw|
      invariant |result| == i && SignersDistinct(result)
      invariant forall j | 0 <= j < i :: SignerEntry(raw[j]) == Some(result[j])
      invariant previousId == if i == 0 then None else Some(result[i - 1].id)
    {
      var entry := SignerEntry(raw[i]);
      if entry.None? { return None; }
      var signer := entry.value;
      if Duplicates(result, signer) || (previousId.Some? && !LexLess(previousId.value, signer.id)) {
        SignerRefused(raw, i, result, signer);
        return None;
      }
      NoDuplicate(result, signer);
      SignersExtend(result, signer);
      previousId := Some(signer.id);
      result := result + [signer];
    }
    SignerEntriesAre(raw, result);
    return Some(result);
  }

  lemma NoSigners()
    ensures SignersDistinct([])
  {
  }

  lemma NoDuplicate(signers: seq<Signer>, s: Signer)
    requires !Duplicates(signers, s)
    ensures forall t | t in signers :: t.key != s.key
  {
    forall t | t in signers ensures t.key != s.key {
      var i :| 0 <= i < |signers| && signers[i] == t;
    }
  }

  // ----------------------------------------------------------------- proofs

  lemma ProofsExtend(proofs: seq<Proof>, p: Proof)
    requires ProofsOrdered(proofs)
    requires proofs != [] ==> LexLess(ProofOrder(proofs[|proofs| - 1]), ProofOrder(p))
    ensures ProofsOrdered(proofs + [p])
  {
    hide LexLess, ProofOrder;
    var n := |proofs|;
    forall i | 0 <= i < n ensures LexLess(ProofOrder(proofs[i]), ProofOrder(p)) {
      if i < n - 1 { LexTransitive(ProofOrder(proofs[i]), ProofOrder(proofs[n - 1]), ProofOrder(p)); }
    }
  }

  lemma ProofRefused(items: seq<Value>, i: nat, done: seq<Proof>, p: Proof)
    requires |done| == i < |items| && ProofEntry(items[i]) == Some(p)
    requires forall j | 0 <= j < i :: ProofEntry(items[j]) == Some(done[j])
    requires p.id in ProofIds(done) || (i > 0 && !LexLess(ProofOrder(done[i - 1]), ProofOrder(p)))
    ensures ProofEntries(items).Some? ==> !ProofsOrdered(ProofEntries(items).value)
  {
    hide ProofEntry, LexLess, ProofsOrdered, ProofOrder;
    if ProofEntries(items).Some? && ProofsOrdered(ProofEntries(items).value) {
      var all := ProofEntries(items).value;
      assert forall j | 0 <= j < i :: all[j] == done[j];
      forall j: nat | j < i ensures all[j].id != p.id && LexLess(ProofOrder(all[j]), ProofOrder(p)) {
        ProofClash(all, j, i);
      }
    }
  }

  /** At most three proofs, in strict id order; a missing id comes first. */
  method ParseProofs(value: Value) returns (r: Option<seq<Proof>>)
    ensures r == ReadProofs(value)
  {
    hide ProofEntry, LexLess, ProofsOrdered, ProofOrder;
    if !value.List? { return None; }
    var raw := value.items;
    if |raw| > MAX_PROOFS { return None; }
    var proofs: seq<Proof> := [];
    var previousId: Bytes := [];
    var first := true;
    var seen: set<Option<Bytes>> := {};
    assert ProofsOrdered(proofs) by { NoProofs(); }
    for i := 0 to |raw|
      invariant |proofs| == i && ProofsOrdered(proofs) && ProofIdsFit(proofs)
      invariant forall j | 0 <= j < i :: ProofEntry(raw[j]) == Some(proofs[j])
      invariant first == (i == 0) && seen == ProofIds(proofs)
      invariant i > 0 ==> previousId == ProofOrder(proofs[i - 1])
    {
      var entry := ProofEntry(raw[i]);
      if entry.None? { return None; }
      var proof := entry.value;
      if proof.id in seen {
        ProofRefused(raw, i, proofs, proof);
        return None;
      }
      seen := seen + {proof.id};
      if proof.id.Some? && !SignerIdFits(proof.id.value) { return None; }
      var idBytes := ProofOrder(proof);
      if !first && !LexLess(previousId, idBytes) {
        ProofRefused(raw, i, proofs, proof);
        return None;
      }
      first := false;
      previousId := idBytes;
      ProofsExtend(proofs, proof);
      proofs := proofs + [proof];
    }
    ProofEntriesAre(raw, proofs);
    return Some(proofs);
  }

  lemma NoProofs()
    ensures ProofsOrdered([])
  {
  }

  /** Counts the signers whose proofs verify; one bad proof fails them all. */
  method VerifyThresholdProofs(c: Crypto, update: Bytes, proofs: seq<Proof>, authorized: seq<Signer>, threshold: nat)
    returns (ok: bool)
    ensures ok == QuorumVerifies(c, update, proofs, authorized, threshold)
  {
    hide KeyFor;
    var validSigners: set<Option<Bytes>> := {};
    for i := 0 to |proofs|
      invariant forall j | 0 <= j < i :: ProofVerifies(c, update, proofs[j], authorized)
      invariant validSigners == ProofIds(proofs[..i])
    {
      var proof := proofs[i];
      assert proof in proofs;
      if proof.id.None? || KeyFor(authorized, proof.id.value).None? { return false; }
      var publicKey := KeyFor(authorized, proof.id.value).value;
      if !c.verify(publicKey, c.sha(update), proof.signature) { return false; }
      assert proofs[..i + 1] == proofs[..i] + [proof];
      validSigners := validSigners + {proof.id};
    }
    assert proofs[..|proofs|] == proofs;
    return |validSigners| >= threshold;
  }

  // -------------------------------------------------------------- envelopes

  method ParseRecord(owner: Bytes, update: seq<Value>) returns (r: Option<(Bytes, nat)>)
    requires |update| >= 4
    ensures r == ReadRecord(owner, update)
  {
    hide Fields, Utf8Valid;
    var record :- Fields(update[1], 2);
    var name :- AsBytes(record[1]);
    var key :- AsBytesOf(record[2], KEY_BYTES);
    if name != owner || !Utf8Valid(name) || update[2] != Map(map[]) { return None; }
    var sequence :- AsUint(update[3]);
    return Some((key, sequence));
  }

  method ParseAuthorization(value: Value) returns (r: Option<Authorization>)
    ensures r == ReadAuthorization(value)
  {
    hide Fields, ReadSigners;
    var auth :- Fields(value, 7);
    if auth[1] != Int(1) || auth[2] != Int(1) { return None; }
    var operation :- AsUint(auth[3]);
    if operation !in {1, 2, 3, 4, 5} { return None; }
    var generation :- AsUint(auth[4]);
    var threshold :- AsUint(auth[5]);
    var predecessor :- AsBytesOf(auth[7], KEY_BYTES);
    var signers :- ParseSignerSet(auth[6]);
    return Some(Authorization(operation, generation, threshold, signers, predecessor));
  }

  method ParseLegacy(c: Crypto, owner: Bytes, outer: seq<Value>) returns (r: Option<Parts>)
    requires |outer| == 3
    ensures var p := ReadLegacy(owner, outer);
            r == if p.Some? && c.verify(p.value.key, c.sha(p.value.update), p.value.signature) then p else None
  {
    hide Fields, ReadRecord, Decoded;
    var updateBytes :- AsBytes(outer[1]);
    var signature :- AsBytesOf(outer[2], SIGNATURE_BYTES);
    var decoded :- DecodeCanonical(updateBytes);
    var update :- Fields(decoded, 3);
    var record :- ParseRecord(owner, update);
    if !c.verify(record.0, c.sha(updateBytes), signature) { return None; }
    return Some(Legacy(updateBytes, record.0, record.1, signature));
  }

  method ParseVersionOne(owner: Bytes, outer: seq<Value>) returns (r: Option<Parts>)
    requires |outer| == 4 && outer[1] == Int(1)
    ensures r == ReadVersioned(owner, outer)
  {
    hide Fields, ReadRecord, Decoded, ReadAuthorization, ReadProofs;
    var updateBytes :- AsBytes(outer[2]);
    var decoded :- DecodeCanonical(updateBytes);
    var update :- Fields(decoded, 4);
    var record :- ParseRecord(owner, update);
    var auth :- ParseAuthorization(update[4]);
    var proofs :- ParseProofs(outer[3]);
    return Some(Versioned(updateBytes, record.0, record.1, auth, proofs));
  }

  method ParseEnvelope(c: Crypto, owner: Bytes, envelope: Bytes) returns (r: Option<Parts>)
    ensures r == Parse(c, owner, envelope)
  {
    hide Fields, Decoded, ReadLegacy, ReadVersioned;
    var value :- DecodeCanonical(envelope);
    if Fields(value, 2).Some? {
      r := ParseLegacy(c, owner, Fields(value, 2).value);
    } else if Fields(value, 3).Some? {
      var outer := Fields(value, 3).value;
      if outer[1] != Int(1) {
        WrongVersion(owner, outer);
        return None;
      }
      r := ParseVersionOne(owner, outer);
    } else {
      r := None;
    }
  }

  lemma WrongVersion(owner: Bytes, outer: seq<Value>)
    requires |outer| == 4 && outer[1] != Int(1)
    ensures ReadVersioned(owner, outer) == None
  {
  }

  // ------------------------------------------------------------ transitions

  method VerifyCandidate(c: Crypto, envelope: Bytes, p: Parts, previous: Option<VerifiedState>)
    returns (r: Option<VerifiedState>)
    ensures r == VerifyTransition(c, envelope, p, previous)
  {
    hide QuorumVerifies, HasKey, KeyFor, StateOf;
    if p.Legacy? {
      if previous.Some? { return None; }
      return Some(StateOf(c, envelope, p, None));
    }
    if p.auth.operation == 1 {
      if previous.Some? || p.sequence != 1 || p.auth.generation != 1 || p.auth.threshold != 2
        || p.auth.predecessor != ZERO_HASH {
        return None;
      }
      var ok := VerifyThresholdProofs(c, p.update, p.proofs, p.auth.signers, 2);
      return if ok then Some(StateOf(c, envelope, p, None)) else None;
    }
    var predecessor :- previous;
    if p.sequence != predecessor.sequence + 1 || p.auth.predecessor != predecessor.stateHash { return None; }
    var ok;
    match p.auth.operation {
      case 2 => ok := VerifyUpdate(c, p, predecessor);
      case 3 => ok := VerifyReplace(c, p, predecessor);
      case 4 => ok := UpgradeAllowed(c, p, predecessor);
      case 5 => ok := VerifyRotation(c, p, predecessor);
      case _ => ok := false;
    }
    return if ok then Some(StateOf(c, envelope, p, previous)) else None;
  }

  method VerifyUpdate(c: Crypto, p: Parts, prev: VerifiedState) returns (ok: bool)
    requires p.Versioned?
    ensures ok == UpdateAllowed(c, p, prev)
  {
    hide QuorumVerifies;
    if prev.signers == [] || p.key != prev.ownerKey || Some(p.auth.generation) != prev.generation
       || Some(p.auth.threshold) != prev.threshold || p.auth.signers != prev.signers
    {
      return false;
    }
    ok := VerifyThresholdProofs(c, p.update, p.proofs, prev.signers, prev.threshold.value);
  }

  method VerifyReplace(c: Crypto, p: Parts, prev: VerifiedState) returns (ok: bool)
    requires p.Versioned?
    ensures ok == ReplaceAllowed(c, p, prev)
  {
    hide QuorumVerifies;
    if prev.signers == [] || p.key != prev.ownerKey || prev.generation.None?
      || p.auth.generation <= prev.generation.value
       || p.auth.threshold != 2 || p.auth.signers == prev.signers
    {
      return false;
    }
    ok := VerifyThresholdProofs(c, p.update, p.proofs, prev.signers, 2);
  }

  method VerifyRotation(c: Crypto, p: Parts, prev: VerifiedState) returns (ok: bool)
    requires p.Versioned?
    ensures ok == RotationAllowed(c, p, prev)
  {
    hide QuorumVerifies, HasKey;
    if p.key == prev.ownerKey { return false; }
    if prev.signers == [] {
      if p.auth.generation != 1 || p.auth.threshold != 2 || !HasKey(p.auth.signers, p.key) || |p.proofs| != 1 {
        return false;
      }
      var proof := p.proofs[0];
      return proof.id.None? && c.verify(prev.ownerKey, c.sha(p.update), proof.signature);
    }
    if Some(p.auth.generation) != prev.generation || Some(p.auth.threshold) != prev.threshold
      || p.auth.signers != prev.signers {
      return false;
    }
    ok := VerifyThresholdProofs(c, p.update, p.proofs, prev.signers, prev.threshold.value);
  }

  // ---------------------------------------------------------------- history

  /** Collects the chain from the head back to its anchor. */
  method FollowPredecessors(c: Crypto, owner: Bytes, head: Bytes, lookup: Lookup) returns (r: Option<seq<Link>>)
    ensures r == Walk(c, owner, lookup, head, 0, {}, |head|)
  {
    hide Parse, WithinBudget, After;
    var newestFirst: seq<Link> := [];
    var visitedHashes: set<Bytes> := {};
    var total: nat, current: Bytes, lookups: nat := |head|, head, 0;
    AfterNothing(Walk(c, owner, lookup, head, 0, {}, |head|));
    while true
      invariant lookups <= MAX_PREDECESSOR_DEPTH
      invariant Walk(c, owner, lookup, head, 0, {}, |head|)
                  == After(newestFirst, Walk(c, owner, lookup, current, lookups, visitedHashes, total))
      decreases MAX_PREDECESSOR_DEPTH - lookups
    {
      AfterEnds<Link>(newestFirst, []);
      var parsed := ParseEnvelope(c, owner, current);
      if parsed.None? { return None; }
      var hash := c.sha(parsed.value.update);
      if hash in visitedHashes { return None; }
      var link := Link(current, parsed.value);
      AfterEnds(newestFirst, [link]);
      if IsAnchor(parsed.value) { return Some(newestFirst + [link]); }
      if lookups >= MAX_PREDECESSOR_DEPTH { return None; }
      var predecessor := lookup(parsed.value.auth.predecessor);
      if predecessor.None? || !WithinBudget(|predecessor.value|, total) { return None; }
      AfterStep(newestFirst, link,
        Walk(c, owner, lookup, predecessor.value, lookups + 1, visitedHashes + {hash}, total + |predecessor.value|));
      newestFirst := newestFirst + [link];
      visitedHashes := visitedHashes + {hash};
      total := total + |predecessor.value|;
      current := predecessor.value;
      lookups := lookups + 1;
    }
  }

  lemma {:induction false} ReplayFails(c: Crypto, links: seq<Link>, i: nat)
    requires i < |links| && Replay(c, links[i..]).None?
    ensures Replay(c, links).None?
  {
    hide VerifyTransition;
    if i == 0 {
      assert links[0..] == links;
    } else {
      assert links[1..][i - 1..] == links[i..];
      ReplayFails(c, links[1..], i - 1);
    }
  }

  /** Verifies the chain oldest first, then reports the head over its predecessors. */
  method ResolveHead(c: Crypto, owner: Bytes, head: Bytes, lookup: Lookup) returns (r: Option<Resolution>)
    ensures r == Resolve(c, owner, head, lookup)
  {
    hide Walk, VerifyTransition, Utf8Valid, WithinBudget;
    if owner == [] || !Utf8Valid(owner) || !WithinBudget(|head|, 0) { return None; }
    var newestFirst :- FollowPredecessors(c, owner, head, lookup);
    var n := |newestFirst|;
    var verified: Option<VerifiedState> := None;
    for i := n downto 0
      invariant i < n ==> verified.Some? && Replay(c, newestFirst[i..]) == verified
      invariant i == n ==> verified.None?
    {
      assert newestFirst[i..][1..] == newestFirst[i + 1..];
      verified := VerifyCandidate(c, newestFirst[i].envelope, newestFirst[i].parts, verified);
      if verified.None? {
        ReplayFails(c, newestFirst, i);
        return None;
      }
    }
    assert newestFirst[0..] == newestFirst;
    return Some(Resolution(verified.value, Envelopes(newestFirst[1..])));
  }
}
