/** Rotation from a legacy state: its builder, its own candidate check, and the verifier agree. */
module LegacyRotation {
  import opened Prelude
  import opened CborSpec
  import opened CborDecoder
  import opened CborWriter
  import opened Identity
  import opened IdentityEncoding
  import opened ChainInvariants
  import opened VerifierAgreement
  import opened ChainExtension
  import opened Rotation
  import opened RotationAdapter
  import opened KotlinBuilders
  import opened Sorting
  import KotlinHistory
  import ReadingAgreement
  import Kt = KotlinVerifier
  import Py = PythonVerifier

  // -------------------------------------------------------------- predecessor

  datatype Predecessor = Predecessor(owner: Bytes, key: Bytes, sequence: nat, stateHash: Bytes)

  /** Reads a legacy envelope on its own terms: the owner is whatever it says. */
  ghost function LegacyPredecessor(c: Crypto, envelope: Bytes): (r: Option<Predecessor>)
  {
    var value :- Decoded(envelope);
    if Fields(value, 3).Some? then None else
    var outer :- Fields(value, 2);
    var updateBytes :- AsBytes(outer[1]);
    var signature :- AsBytesOf(outer[2], SIGNATURE_BYTES);
    var decoded :- Decoded(updateBytes);
    var update :- Fields(decoded, 3);
    var record :- Fields(update[1], 2);
    var owner :- AsBytes(record[1]);
    var key :- AsBytesOf(record[2], KEY_BYTES);
    var sequence :- AsUint(update[3]);
    if Utf8Valid(owner) && update[2] == Map(map[]) && c.verify(key, c.sha(updateBytes), signature)
    then Some(Predecessor(owner, key, sequence, c.sha(updateBytes))) else None
  }

  method ParseLegacyPredecessor(c: Crypto, envelope: Bytes) returns (r: Option<Predecessor>)
    ensures r == LegacyPredecessor(c, envelope)
  {
    hide Decoded, Fields, Utf8Valid;
    var value :- DecodeCanonical(envelope);
    if Fields(value, 3).Some? { return None; }
    var outer :- Fields(value, 2);
    var updateBytes :- AsBytes(outer[1]);
    var signature :- AsBytesOf(outer[2], SIGNATURE_BYTES);
    var decoded :- DecodeCanonical(updateBytes);
    var update :- Fields(decoded, 3);
    var record :- Fields(update[1], 2);
    var owner :- AsBytes(record[1]);
    var key :- AsBytesOf(record[2], KEY_BYTES);
    if !Utf8Valid(owner) || update[2] != Map(map[]) { return None; }
    var sequence :- AsUint(update[3]);
    if !c.verify(key, c.sha(updateBytes), signature) { return None; }
    return Some(Predecessor(owner, key, sequence, c.sha(updateBytes)));
  }

  /** The builder's parser and the verifier's see the same legacy envelopes. */
  lemma LegacyParsersAgree(c: Crypto, owner: Bytes, envelope: Bytes)
    ensures var l, p := LegacyPredecessor(c, envelope), Kt.Parse(c, owner, envelope);
            && (l.Some? && l.value.owner == owner <==> p.Some? && p.value.Legacy?)
            && (l.Some? && l.value.owner == owner ==>
                l.value.key == p.value.key && l.value.sequence == p.value.sequence
                  && l.value.stateHash == c.sha(p.value.update))
  {
    hide Decoded, Utf8Valid, Kt.ReadVersioned, Fields;
    if Decoded(envelope).Some? { OneShape(Decoded(envelope).value); }
  }

  lemma OneShape(v: Value)
    ensures !(Fields(v, 2).Some? && Fields(v, 3).Some?)
  {
    if Fields(v, 2).Some? { assert 3 !in KeysUpTo(2) && 3 in KeysUpTo(3); }
  }

  /** A legacy envelope resolves by itself, whatever the lookups would say. */
  lemma LegacyResolves(c: Crypto, owner: Bytes, envelope: Bytes, lookup: Lookup)
    requires owner != [] && Utf8Valid(owner) && Kt.Parse(c, owner, envelope).Some?
    requires Kt.Parse(c, owner, envelope).value.Legacy?
    ensures Kt.Resolve(c, owner, envelope, lookup)
              == Some(Kt.Resolution(Kt.StateOf(c, envelope, Kt.Parse(c, owner, envelope).value, None), []))
  {
    hide Kt.Parse, Utf8Valid, Kt.StateOf, Kt.Walk;
    ParsedFits(c, owner, envelope);
    KotlinAnchored(c, owner, lookup, envelope, 0, {}, |envelope|);
    var link := Kt.Link(envelope, Kt.Parse(c, owner, envelope).value);
    assert [link][1..] == [];
  }

  lemma ParsedFits(c: Crypto, owner: Bytes, envelope: Bytes)
    requires Kt.Parse(c, owner, envelope).Some?
    ensures 0 < |envelope| <= MAX_ENCODED_BYTES
  {
    hide Fields, Kt.ReadLegacy, Kt.ReadVersioned, DepthFits, Items, TextsValid;
    var v := Decoded(envelope).value;
    assert Decodes(envelope, v);
    if envelope == [] { DecodedNotEmpty(v); }
  }

  lemma DecodedNotEmpty(v: Value)
    ensures Enc(v) != []
  {
    hide SortedKeys, EncItems, EncEntries;
  }

  // ------------------------------------------------------------------ builder

  function SignerOrder(s: Signer): Bytes
  {
    s.id
  }

  /** Three signers with different ids and keys, one of them the new owner key. */
  predicate SuccessorsValid(signers: seq<Signer>, successorKey: Bytes)
  {
    && |signers| == 3
    && (forall i | 0 <= i < 3 :: SignerIdFits(signers[i].id) && |signers[i].key| == KEY_BYTES)
    && (forall i, j | 0 <= i < j < 3 :: signers[i].id != signers[j].id && signers[i].key != signers[j].key)
    && HasKey(signers, successorKey)
  }

  function LegacyRotationOf(pred: Predecessor, signers: seq<Signer>): Authorization
  {
    Authorization(5, 1, 2, SortBy(SignerOrder, signers), pred.stateHash)
  }

  function LegacyUpdate(owner: Bytes, pred: Predecessor, pendingKey: Bytes, signers: seq<Signer>): Value
  {
    UpdateValue(owner, pendingKey, pred.sequence + 1, Some(LegacyRotationOf(pred, signers)))
  }

  function LegacyParts(update: Bytes, pred: Predecessor, pendingKey: Bytes, signers: seq<Signer>,
          signature: Bytes): Parts
  {
    Versioned(update, pendingKey, pred.sequence + 1, LegacyRotationOf(pred, signers), [Proof(None, signature)])
  }

  ghost predicate LegacyDraftAllowed(
    c: Crypto, sign: Sign, owner: Bytes, predecessorEnvelope: Bytes, activeKey: Bytes, pendingSeed: Bytes,
    pendingKey: Bytes, signers: seq<Signer>)
  {
    var pred := LegacyPredecessor(c, predecessorEnvelope);
    && owner != [] && Utf8Valid(owner) && pred.Some? && pred.value.owner == owner && pred.value.key == activeKey
    && activeKey != pendingKey
    && SuccessorsValid(signers, pendingKey) && Encodes(LegacyUpdate(owner, pred.value, pendingKey, signers))
    && var digest := c.sha(Enc(LegacyUpdate(owner, pred.value, pendingKey, signers)));
       c.verify(pendingKey, digest, sign(pendingSeed, digest))
  }

  method CreateLegacyDraft(
    c: Crypto, sign: Sign, owner: Bytes, predecessorEnvelope: Bytes, activeSeed: Bytes, activeKey: Bytes,
    pendingSeed: Bytes, pendingKey: Bytes, signers: seq<Signer>) returns (envelope: Option<Bytes>)
    ensures envelope.Some? ==>
              && LegacyDraftAllowed(c, sign, owner, predecessorEnvelope, activeKey, pendingSeed, pendingKey, signers)
              && (var pred := LegacyPredecessor(c, predecessorEnvelope).value;
                  var update := Enc(LegacyUpdate(owner, pred, pendingKey, signers));
                  var v := EnvelopeValue(LegacyParts(update, pred, pendingKey, signers,
                    sign(activeSeed, c.sha(update))));
                  Encodes(v) && envelope.value == Enc(v))
    ensures envelope.Some? ==>
              && LegacyPredecessor(c, predecessorEnvelope).Some? && activeKey != pendingKey
              && (var pred := LegacyPredecessor(c, predecessorEnvelope).value;
                  var digest := c.sha(Enc(LegacyUpdate(owner, pred, pendingKey, signers)));
                  && pred.owner == owner && pred.key == activeKey
                  && c.verify(pendingKey, digest, sign(pendingSeed, digest)))
    ensures envelope.None? ==>
              LegacyDraftAllowed(c, sign, owner, predecessorEnvelope, activeKey, pendingSeed, pendingKey, signers) ==>
              (var pred := LegacyPredecessor(c, predecessorEnvelope).value;
               var update := Enc(LegacyUpdate(owner, pred, pendingKey, signers));
               !Encodes(EnvelopeValue(LegacyParts(update, pred, pendingKey, signers, sign(activeSeed, c.sha(update))))))
  {
    hide LegacyPredecessor, Utf8Valid, Writable, Enc, UpdateValue, Entry, SuccessorsValid;
    if owner == [] || !Utf8Valid(owner) { return None; }
    var predecessor :- ParseLegacyPredecessor(c, predecessorEnvelope);
    if predecessor.owner != owner || predecessor.key != activeKey || activeKey == pendingKey
      || !SuccessorsValid(signers, pendingKey) {
      return None;
    }
    var update :- EncodeCanonical(LegacyUpdate(owner, predecessor, pendingKey, signers));
    var digest := c.sha(update);
    if !c.verify(pendingKey, digest, sign(pendingSeed, digest)) { return None; }
    var predecessorProof := sign(activeSeed, digest);
    envelope := EncodeCanonical(EnvelopeValue(LegacyParts(update, predecessor, pendingKey, signers, predecessorProof)));
  }

  lemma SuccessorsSorted(signers: seq<Signer>, successorKey: Bytes)
    requires SuccessorsValid(signers, successorKey)
    ensures var sorted := SortBy(SignerOrder, signers);
            SignersWellFormed(sorted) && |sorted| == 3 && HasKey(sorted, successorKey)
  {
    hide LexLess, SortBy;
    var sorted := SortBy(SignerOrder, signers);
    SortIsOrdered(SignerOrder, signers);
    SameElements(sorted, signers);
    forall i | 0 <= i < 3 ensures SignerIdFits(sorted[i].id) && |sorted[i].key| == KEY_BYTES {
      assert sorted[i] in signers;
    }
    forall i, j | 0 <= i < j < 3 ensures sorted[i].id != sorted[j].id && sorted[i].key != sorted[j].key {
      StayDistinct(signers, sorted, i, j);
    }
    DistinctAscends(SignerOrder, sorted);
    var k :| 0 <= k < 3 && signers[k].key == successorKey;
    assert signers[k] in sorted;
  }

  lemma StayDistinct(signers: seq<Signer>, sorted: seq<Signer>, i: nat, j: nat)
    requires multiset(sorted) == multiset(signers) && i < j < |sorted| == |signers| == 3
    requires forall a, b | 0 <= a < b < 3 :: signers[a].id != signers[b].id && signers[a].key != signers[b].key
    ensures sorted[i].id != sorted[j].id && sorted[i].key != sorted[j].key
  {
    var x, y := sorted[i], sorted[j];
    assert x in multiset(signers) && y in multiset(signers);
    var a :| 0 <= a < 3 && signers[a] == x;
    var b :| 0 <= b < 3 && signers[b] == y;
    if a == b { CountTwice(sorted, i, j); CountOnce(signers, a); }
  }

  lemma LegacyDraftBuildable(owner: Bytes, pred: Predecessor, pendingKey: Bytes, signers: seq<Signer>, signature: Bytes)
    requires Encodes(LegacyUpdate(owner, pred, pendingKey, signers)) && SuccessorsValid(signers, pendingKey)
    requires |pred.stateHash| == KEY_BYTES && |pendingKey| == KEY_BYTES && |signature| == SIGNATURE_BYTES
    requires Encodes(EnvelopeValue(LegacyParts(Enc(LegacyUpdate(owner, pred, pendingKey, signers)), pred, pendingKey,
               signers, signature)))
    ensures Buildable(owner,
              LegacyParts(Enc(LegacyUpdate(owner, pred, pendingKey, signers)), pred, pendingKey, signers, signature))
  {
    hide SortBy, Enc, Writable, TextsValid, SignersWellFormed, Utf8Valid, UpdateValue, Entry, SuccessorsValid,
         ProofValues;
    SuccessorsSorted(signers, pendingKey);
    EncodesTexts(LegacyUpdate(owner, pred, pendingKey, signers));
    UpdateSignerTexts(owner, pendingKey, pred.sequence + 1, LegacyRotationOf(pred, signers));
    assert AuthorizationBuildable(LegacyRotationOf(pred, signers));
    assert ProofsBuildable([Proof(None, signature)]);
  }

  /**
   * Whenever the legacy builder returns, the verifier resolves its envelope over the legacy one,
   * given that the active seed signs for the active key, unless the two updates collide.
   */
  lemma LegacyBuilderMeetsVerifier(
    c: Crypto, sign: Sign, owner: Bytes, head: Bytes, activeSeed: Bytes, activeKey: Bytes, pendingSeed: Bytes,
    pendingKey: Bytes, signers: seq<Signer>, lookup: Lookup)
    requires HashSized(c) && SignsFor(c, sign, activeSeed, activeKey) && |pendingKey| == KEY_BYTES
    requires LegacyDraftAllowed(c, sign, owner, head, activeKey, pendingSeed, pendingKey, signers)
    requires var pred := LegacyPredecessor(c, head).value;
             var update := Enc(LegacyUpdate(owner, pred, pendingKey, signers));
             Encodes(EnvelopeValue(LegacyParts(update, pred, pendingKey, signers, sign(activeSeed, c.sha(update)))))
    ensures var pred := LegacyPredecessor(c, head).value;
            var update := Enc(LegacyUpdate(owner, pred, pendingKey, signers));
            var envelope := Enc(EnvelopeValue(LegacyParts(update, pred, pendingKey, signers,
              sign(activeSeed, c.sha(update)))));
            var after := Kt.Resolve(c, owner, envelope, Kt.PredecessorFirst(pred.stateHash, head, lookup));
            && (after.Some? <==> !Collision(c, owner, [envelope, head]))
            && (after.Some? ==>
                && after.value.state.ownerKey == pendingKey && after.value.state.predecessorOwnerKey == Some(activeKey)
                && after.value.state.predecessorStateHash == Some(pred.stateHash)
                && after.value.state.sequence == pred.sequence + 1)
  {
    hide Kt.Resolve, Kt.Parse, LegacyPredecessor, SortBy, Enc, Writable, Collision, Buildable, UpdateValue,
      EnvelopeValue, Utf8Valid, HasKey, HashSized, SignsFor,
      SuccessorsValid, LegacyUpdate;
    var pred := LegacyPredecessor(c, head).value;
    var update := Enc(LegacyUpdate(owner, pred, pendingKey, signers));
    var signature := sign(activeSeed, c.sha(update));
    var p := LegacyParts(update, pred, pendingKey, signers, signature);
    LegacyHead(c, owner, head, lookup);
    Signed(c, sign, activeSeed, activeKey, c.sha(update));
    LegacyDraftBuildable(owner, pred, pendingKey, signers, signature);
    SuccessorsSorted(signers, pendingKey);
    BuiltParses(c, owner, p);
    ParsedFits(c, owner, Enc(EnvelopeValue(p)));
    ResolvesOver(c, owner, Enc(EnvelopeValue(p)), head, lookup);
    TwoFit(Enc(EnvelopeValue(p)), head);
    assert [Enc(EnvelopeValue(p)), head] + [] == [Enc(EnvelopeValue(p)), head];
  }

  lemma Signed(c: Crypto, sign: Sign, seed: Bytes, key: Bytes, m: Bytes)
    requires SignsFor(c, sign, seed, key)
    ensures |sign(seed, m)| == SIGNATURE_BYTES && c.verify(key, m, sign(seed, m))
  {
  }

  /** The legacy predecessor, as the verifier resolves it. */
  lemma LegacyHead(c: Crypto, owner: Bytes, head: Bytes, lookup: Lookup)
    requires HashSized(c) && owner != [] && Utf8Valid(owner) && LegacyPredecessor(c, head).Some?
    requires LegacyPredecessor(c, head).value.owner == owner
    ensures var r, pred := Kt.Resolve(c, owner, head, lookup), LegacyPredecessor(c, head).value;
            && r.Some? && r.value.predecessors == [] && 0 < |head| <= MAX_ENCODED_BYTES && |pred.stateHash| == KEY_BYTES
            && r.value.state.ownerKey == pred.key && r.value.state.sequence == pred.sequence
            && r.value.state.stateHash == pred.stateHash
            && r.value.state.signers == []
  {
    hide Kt.Resolve, Kt.Parse, LegacyPredecessor, Utf8Valid;
    LegacyParsersAgree(c, owner, head);
    LegacyResolves(c, owner, head, lookup);
    ParsedFits(c, owner, head);
  }

  lemma TwoFit(a: Bytes, b: Bytes)
    requires 0 < |a| <= MAX_ENCODED_BYTES && 0 < |b| <= MAX_ENCODED_BYTES
    ensures BudgetHolds([a, b] + [], 0)
  {
    assert ([a, b] + [])[1..] == [b] && [b][1..] == [];
  }

  // ---------------------------------------------------------- candidate check

  /** The signed part of a candidate, as the legacy check reads it. */
  datatype Candidate = Candidate(owner: Bytes, key: Bytes, sequence: int, predecessor: Bytes, signers: seq<Signer>)

  ghost function CandidateUpdate(updateBytes: Bytes): (r: Option<Candidate>)
  {
    var decoded :- Decoded(updateBytes);
    var update :- Fields(decoded, 4);
    var record :- Fields(update[1], 2);
    var owner :- AsBytes(record[1]);
    var key :- AsBytesOf(record[2], KEY_BYTES);
    if !Utf8Valid(owner) || update[2] != Map(map[]) || !update[3].Int? then None else
    var auth :- Fields(update[4], 7);
    if auth[1] != Int(1) || auth[2] != Int(1) || auth[3] != Int(5) || auth[4] != Int(1) || auth[5] != Int(2)
    then None else
    var predecessor :- AsBytes(auth[7]);
    var signers :- Kt.ReadSigners(auth[6]);
    if HasKey(signers, key) then Some(Candidate(owner, key, update[3].n, predecessor, signers)) else None
  }

  /** The update bytes and the one unnamed signature of a candidate envelope. */
  ghost function CandidateEnvelope(envelope: Bytes): (r: Option<(Bytes, Bytes)>)
  {
    var value :- Decoded(envelope);
    var outer :- Fields(value, 3);
    if outer[1] != Int(1) then None else
    var updateBytes :- AsBytes(outer[2]);
    var proofs :- AsList(outer[3]);
    if |proofs| != 1 then None else
    var proof :- ProofEntry(proofs[0]);
    if proof.id.None? then Some((updateBytes, proof.signature)) else None
  }

  ghost function LegacyCandidate(c: Crypto, intent: Intent, predecessorEnvelope: Bytes,
          candidateEnvelope: Bytes): (r: Option<Bytes>)
  {
    var pred :- LegacyPredecessor(c, predecessorEnvelope);
    var outer :- CandidateEnvelope(candidateEnvelope);
    var update :- CandidateUpdate(outer.0);
    if && update.owner == intent.owner && update.key == intent.successorKey
       && pred.owner == intent.owner && pred.key == intent.predecessorKey && pred.stateHash == intent.predecessorHash
       && update.predecessor == intent.predecessorHash && update.sequence == intent.sequence == pred.sequence + 1
       && c.sha(candidateEnvelope) == intent.envelopeHash && c.verify(pred.key, c.sha(outer.0), outer.1)
    then Some(c.sha(outer.0)) else None
  }

  method ReadCandidateUpdate(updateBytes: Bytes) returns (r: Option<Candidate>)
    ensures r == CandidateUpdate(updateBytes)
  {
    hide Decoded, Fields, Utf8Valid, Kt.ReadSigners;
    var decoded :- DecodeCanonical(updateBytes);
    var update :- Fields(decoded, 4);
    var record :- Fields(update[1], 2);
    var owner :- AsBytes(record[1]);
    var key :- AsBytesOf(record[2], KEY_BYTES);
    if !Utf8Valid(owner) || update[2] != Map(map[]) || !update[3].Int? { return None; }
    var auth :- Fields(update[4], 7);
    if auth[1] != Int(1) || auth[2] != Int(1) || auth[3] != Int(5) || auth[4] != Int(1) || auth[5] != Int(2) {
      return None;
    }
    var predecessor :- AsBytes(auth[7]);
    var signers :- KotlinHistory.ParseSignerSet(auth[6]);
    if !HasKey(signers, key) { return None; }
    return Some(Candidate(owner, key, update[3].n, predecessor, signers));
  }

  method VerifyLegacyCandidate(c: Crypto, intent: Intent, predecessorEnvelope: Bytes, candidateEnvelope: Bytes)
    returns (r: Option<Bytes>)
    ensures r == LegacyCandidate(c, intent, predecessorEnvelope, candidateEnvelope)
  {
    hide Decoded, Fields, LegacyPredecessor, CandidateUpdate;
    var pred :- ParseLegacyPredecessor(c, predecessorEnvelope);
    var value :- DecodeCanonical(candidateEnvelope);
    var outer :- Fields(value, 3);
    if outer[1] != Int(1) { return None; }
    var updateBytes :- AsBytes(outer[2]);
    var proofs :- AsList(outer[3]);
    if |proofs| != 1 { return None; }
    var proof :- ProofEntry(proofs[0]);
    if proof.id.Some? { return None; }
    var update :- ReadCandidateUpdate(updateBytes);
    if || update.owner != intent.owner || update.key != intent.successorKey
       || pred.owner != intent.owner || pred.key != intent.predecessorKey || pred.stateHash != intent.predecessorHash
       || update.predecessor != intent.predecessorHash || update.sequence != intent.sequence
          || update.sequence != pred.sequence + 1
       || c.sha(candidateEnvelope) != intent.envelopeHash || !c.verify(pred.key, c.sha(updateBytes), proof.signature)
    {
      return None;
    }
    return Some(c.sha(updateBytes));
  }

  /** A first rotation by the predecessor's single unnamed signature. */
  ghost predicate FirstRotation(p: Parts)
  {
    && p.Versioned? && p.auth.operation == 5 && p.auth.generation == 1 && p.auth.threshold == 2
    && HasKey(p.auth.signers, p.key)
    && |p.proofs| == 1 && p.proofs[0].id.None?
  }

  /** The legacy check and the verifier read the same candidates. */
  lemma CandidateReads(c: Crypto, owner: Bytes, envelope: Bytes)
    requires Utf8Valid(owner)
    ensures var e, p := CandidateEnvelope(envelope), Kt.Parse(c, owner, envelope);
            var u := if e.Some? then CandidateUpdate(e.value.0) else None;
            && (u.Some? && u.value.owner == owner && u.value.sequence >= 0 && |u.value.predecessor| == KEY_BYTES <==>
                 p.Some? && FirstRotation(p.value))
            && (p.Some? && FirstRotation(p.value) ==>
                p.value == Versioned(e.value.0, u.value.key, u.value.sequence,
                                     Authorization(5, 1, 2, u.value.signers, u.value.predecessor),
                                       [Proof(None, e.value.1)]))
  {
    hide Decoded, Fields, Utf8Valid, Kt.ReadLegacy, CandidateUpdate, Kt.ReadVersioned;
    if Decoded(envelope).Some? {
      var v := Decoded(envelope).value;
      OneShape(v);
      if Fields(v, 3).Some? { OuterReads(owner, Fields(v, 3).value); }
    }
  }

  lemma OuterReads(owner: Bytes, outer: seq<Value>)
    requires |outer| == 4 && Utf8Valid(owner)
    ensures var p := Kt.ReadVersioned(owner, outer);
            var plain := outer[1] == Int(1) && outer[2].Bstr? && outer[3].List? && |outer[3].items| == 1
                         && ProofEntry(outer[3].items[0]).Some? && ProofEntry(outer[3].items[0]).value.id.None?;
            var u := if plain then CandidateUpdate(outer[2].bytes) else None;
            && (u.Some? && u.value.owner == owner && u.value.sequence >= 0 && |u.value.predecessor| == KEY_BYTES <==>
                 p.Some? && FirstRotation(p.value))
            && (p.Some? && FirstRotation(p.value) ==>
                p.value == Versioned(outer[2].bytes, u.value.key, u.value.sequence,
                                     Authorization(5, 1, 2, u.value.signers, u.value.predecessor),
                                       [ProofEntry(outer[3].items[0]).value]))
  {
    hide Decoded, Fields, Utf8Valid, Kt.ReadSigners, Kt.ReadProofs, HasKey, ProofEntry;
    OneProofReads(outer[3]);
  }

  lemma OneProofReads(v: Value)
    ensures var r := Kt.ReadProofs(v);
            var plain := v.List? && |v.items| == 1 && ProofEntry(v.items[0]).Some?
              && ProofEntry(v.items[0]).value.id.None?;
            && (plain <==> r.Some? && |r.value| == 1 && r.value[0].id.None?)
            && (plain ==> r == Some([ProofEntry(v.items[0]).value]))
  {
    hide ProofEntry;
    if v.List? && |v.items| == 1 && ProofEntry(v.items[0]).Some? {
      ProofEntriesAre(v.items, [ProofEntry(v.items[0]).value]);
    }
  }

  // --------------------------------------------------------------- agreement

  /** What the intent's constructor guarantees; it may name one key twice. */
  ghost predicate IntentSound(intent: Intent)
  {
    intent.owner != [] && Utf8Valid(intent.owner) && |intent.predecessorHash| == KEY_BYTES
  }

  /** The hash the check through the verifier would report. */
  ghost function VerifiedHash(c: Crypto, intent: Intent, pred: Bytes, candidate: Bytes, lookup: Lookup,
          again: Lookup): Option<Bytes>
  {
    var v :- VerifyCandidate(c, intent, pred, candidate, lookup, again);
    Some(v.stateHash)
  }

  /** The candidate is the latched one, and names what the intent names over that predecessor. */
  ghost predicate Named(c: Crypto, intent: Intent, pred: Predecessor, candidate: Bytes, p: Parts)
  {
    && c.sha(candidate) == intent.envelopeHash
    && pred.owner == intent.owner && pred.key == intent.predecessorKey && pred.stateHash == intent.predecessorHash
    && p.Versioned? && p.key == intent.successorKey && p.auth.predecessor == intent.predecessorHash
    && p.sequence == intent.sequence == pred.sequence + 1
  }

  /** The candidate's update has the predecessor's own hash. */
  ghost predicate Repeats(c: Crypto, intent: Intent, p: Parts)
  {
    c.sha(p.update) == intent.predecessorHash
  }

  /** A first rotation, signed by the predecessor's key. */
  ghost predicate Rotates(c: Crypto, pred: Predecessor, p: Parts)
  {
    FirstRotation(p) && c.verify(pred.key, c.sha(p.update), p.proofs[0].signature)
  }

  /** An upgrade to a signer list that holds the key, signed by it under its own id. */
  ghost predicate Upgrades(c: Crypto, p: Parts)
  {
    && p.Versioned? && p.auth.operation == 4 && p.auth.generation == 1 && p.auth.threshold == 2
    && HasKey(p.auth.signers, p.key) && |p.proofs| == 1 && p.proofs[0].id.Some?
    && KeyFor(p.auth.signers, p.proofs[0].id.value) == Some(p.key)
    && c.verify(p.key, c.sha(p.update), p.proofs[0].signature)
  }

  /** The stand-alone check by what the verifier reads from the candidate: it asks for a rotation. */
  lemma LegacyExactly(c: Crypto, intent: Intent, pred: Bytes, candidate: Bytes)
    requires IntentSound(intent) && LegacyPredecessor(c, pred).Some?
    ensures var was, p := LegacyPredecessor(c, pred).value, Kt.Parse(c, intent.owner, candidate);
            LegacyCandidate(c, intent, pred, candidate)
              == if p.Some? && Named(c, intent, was, candidate, p.value) && Rotates(c, was, p.value)
                 then Some(c.sha(p.value.update)) else None
  {
    hide LegacyPredecessor, Kt.Parse, Utf8Valid, CandidateUpdate, CandidateEnvelope, FirstRotation;
    CandidateReads(c, intent.owner, candidate);
    if Kt.Parse(c, intent.owner, candidate).Some? { FirstRotates(Kt.Parse(c, intent.owner, candidate).value); }
  }

  /**
   * The check through resolve, likewise: the hash must not repeat, and over a legacy predecessor
   * only a rotation to another key and an upgrade of the same key are steps.
   */
  lemma VerifiedExactly(c: Crypto, intent: Intent, pred: Bytes, candidate: Bytes, lookup: Lookup, again: Lookup)
    requires HashSized(c) && IntentSound(intent) && LegacyPredecessor(c, pred).Some?
    ensures var was, p := LegacyPredecessor(c, pred).value, Kt.Parse(c, intent.owner, candidate);
            VerifiedHash(c, intent, pred, candidate, lookup, again)
              == if p.Some? && Named(c, intent, was, candidate, p.value) && !Repeats(c, intent, p.value)
                    && (if intent.predecessorKey != intent.successorKey then Rotates(c, was, p.value)
                        else Upgrades(c, p.value))
                 then Some(c.sha(p.value.update)) else None
  {
    hide LegacyPredecessor, Kt.Parse, VerifyCandidate, Utf8Valid, HashSized, IntentSound, Named, Repeats, Rotates,
         Upgrades;
    var was, p := LegacyPredecessor(c, pred).value, Kt.Parse(c, intent.owner, candidate);
    if VerifyCandidate(c, intent, pred, candidate, lookup, again).Some? {
      VerifiedMeans(c, intent, pred, candidate, lookup, again);
    }
    if p.Some? && Named(c, intent, was, candidate, p.value) && !Repeats(c, intent, p.value)
      && (if intent.predecessorKey != intent.successorKey then Rotates(c, was, p.value) else Upgrades(c, p.value)) {
      StepVerifies(c, intent, pred, candidate, lookup, again);
    }
  }

  lemma VerifiedMeans(c: Crypto, intent: Intent, pred: Bytes, candidate: Bytes, lookup: Lookup, again: Lookup)
    requires HashSized(c) && IntentSound(intent) && LegacyPredecessor(c, pred).Some?
    requires VerifyCandidate(c, intent, pred, candidate, lookup, again).Some?
    ensures var was, p := LegacyPredecessor(c, pred).value, Kt.Parse(c, intent.owner, candidate);
            && p.Some? && Named(c, intent, was, candidate, p.value) && !Repeats(c, intent, p.value)
            && (if intent.predecessorKey != intent.successorKey then Rotates(c, was, p.value)
                else Upgrades(c, p.value))
            && VerifyCandidate(c, intent, pred, candidate, lookup, again).value.stateHash == c.sha(p.value.update)
  {
    hide LegacyPredecessor, Kt.Resolve, Kt.Parse, Utf8Valid, HashSized, FirstRotation, Collision, BudgetHolds,
         Kt.PredecessorFirst, Kt.TransitionAllowed, Rotates, Upgrades;
    LegacyOwner(c, intent.owner, pred, lookup);
    LegacyHead(c, intent.owner, pred, lookup);
    LegacyHead(c, intent.owner, pred, again);
    StepBehind(c, intent, candidate, Kt.PredecessorFirst(intent.predecessorHash, pred, again));
    var p, before := Kt.Parse(c, intent.owner, candidate).value, Kt.Resolve(c, intent.owner, pred, again).value;
    ResolvesOver(c, intent.owner, candidate, pred, again);
    LegacySteps(c, LegacyPredecessor(c, pred).value, p, before.state);
    HashesDiffer(c, intent.owner, candidate, pred, again);
    StepThreshold(c, LegacyPredecessor(c, pred).value, p);
    TwoCollide(c, intent.owner, candidate, pred);
  }

  lemma StepVerifies(c: Crypto, intent: Intent, pred: Bytes, candidate: Bytes, lookup: Lookup, again: Lookup)
    requires HashSized(c) && IntentSound(intent) && LegacyPredecessor(c, pred).Some?
    requires Kt.Parse(c, intent.owner, candidate).Some?
    requires var was, p := LegacyPredecessor(c, pred).value, Kt.Parse(c, intent.owner, candidate).value;
             && Named(c, intent, was, candidate, p) && !Repeats(c, intent, p)
             && if intent.predecessorKey != intent.successorKey then Rotates(c, was, p) else Upgrades(c, p)
    ensures var v := VerifyCandidate(c, intent, pred, candidate, lookup, again);
            v.Some? && v.value.stateHash == c.sha(Kt.Parse(c, intent.owner, candidate).value.update)
  {
    hide LegacyPredecessor, Kt.Resolve, Kt.Parse, Utf8Valid, HashSized, FirstRotation, Collision, BudgetHolds,
         Kt.PredecessorFirst, Kt.TransitionAllowed, Rotates, Upgrades;
    LegacyHead(c, intent.owner, pred, lookup);
    LegacyHead(c, intent.owner, pred, again);
    var p, before := Kt.Parse(c, intent.owner, candidate).value, Kt.Resolve(c, intent.owner, pred, again).value;
    StepThreshold(c, LegacyPredecessor(c, pred).value, p);
    LegacySteps(c, LegacyPredecessor(c, pred).value, p, before.state);
    ParsedFits(c, intent.owner, candidate);
    TwoFit(candidate, pred);
    TwoCollide(c, intent.owner, candidate, pred);
    ResolvesOver(c, intent.owner, candidate, pred, again);
    assert [candidate, pred] + [] == [candidate, pred];
    Sized(c, p.update);
  }

  lemma StepThreshold(c: Crypto, was: Predecessor, p: Parts)
    ensures Rotates(c, was, p) || Upgrades(c, p) ==>
              p.Versioned? && p.auth.threshold == 2 && (p.auth.operation == 4 || p.auth.operation == 5)
  {
    hide HasKey, KeyFor;
  }

  /** The transition rule over a legacy state: a rotation to another key or an upgrade of the same one. */
  lemma LegacySteps(c: Crypto, was: Predecessor, p: Parts, prev: Kt.VerifiedState)
    requires p.Versioned? && p.auth.operation != 1 && prev.signers == [] && prev.ownerKey == was.key
    ensures Kt.TransitionAllowed(c, p, Some(prev)) <==>
            (&& p.sequence == prev.sequence + 1 && p.auth.predecessor == prev.stateHash
             && if p.key != was.key then Rotates(c, was, p) else Upgrades(c, p))
  {
    hide HasKey, QuorumVerifies, KeyFor;
  }

  /**
   * What parts the two checks, on the candidate alone. With two keys: a rotation whose update has
   * the predecessor's hash. With one: any rotation to the same key, and any upgrade whose hash does
   * not repeat.
   */
  ghost predicate Parted(c: Crypto, intent: Intent, was: Predecessor, candidate: Bytes, p: Parts)
  {
    && Named(c, intent, was, candidate, p)
    && if intent.predecessorKey != intent.successorKey then Rotates(c, was, p) && Repeats(c, intent, p)
       else Rotates(c, was, p) || (Upgrades(c, p) && !Repeats(c, intent, p))
  }

  /**
   * Over a legacy predecessor, for every intent and candidate: the two checks give the same answer
   * unless the candidate is one that parts them. With two keys the repeated hash decides: without
   * it they agree, with it the check through resolve refuses.
   */
  lemma LegacyCheckAgrees(c: Crypto, intent: Intent, pred: Bytes, candidate: Bytes, lookup: Lookup, again: Lookup)
    requires HashSized(c) && IntentSound(intent) && LegacyPredecessor(c, pred).Some?
    ensures var l, v := LegacyCandidate(c, intent, pred, candidate),
              VerifiedHash(c, intent, pred, candidate, lookup, again);
            var was, p := LegacyPredecessor(c, pred).value, Kt.Parse(c, intent.owner, candidate);
            && (l == v <==> !(p.Some? && Parted(c, intent, was, candidate, p.value)))
            && (intent.predecessorKey != intent.successorKey ==>
                if p.Some? && Repeats(c, intent, p.value) then v.None? else l == v)
  {
    hide LegacyCandidate, VerifiedHash, LegacyPredecessor, Kt.Parse, HashSized, IntentSound, Named, Rotates, Upgrades;
    LegacyExactly(c, intent, pred, candidate);
    VerifiedExactly(c, intent, pred, candidate, lookup, again);
    var was, p := LegacyPredecessor(c, pred).value, Kt.Parse(c, intent.owner, candidate);
    if p.Some? { OperationTells(c, was, p.value); }
  }

  lemma OperationTells(c: Crypto, was: Predecessor, p: Parts)
    ensures Rotates(c, was, p) ==> p.Versioned? && p.auth.operation == 5
    ensures Upgrades(c, p) ==> p.Versioned? && p.auth.operation == 4
  {
    hide HasKey, KeyFor;
  }

  /**
   * An intent naming one key twice: the operation read from the candidate tells the checks apart.
   * The stand-alone check accepts only a rotation to the same key, which resolve refuses; resolve
   * accepts only an upgrade, which the stand-alone check refuses; and both refuse anything else.
   */
  lemma OneKeyParts(c: Crypto, intent: Intent, pred: Bytes, candidate: Bytes, lookup: Lookup, again: Lookup)
    requires HashSized(c) && IntentSound(intent) && LegacyPredecessor(c, pred).Some?
    requires intent.predecessorKey == intent.successorKey
    ensures var l, v := LegacyCandidate(c, intent, pred, candidate),
              VerifiedHash(c, intent, pred, candidate, lookup, again);
            var p := Kt.Parse(c, intent.owner, candidate);
            && (l.Some? ==> p.Some? && p.value.Versioned? && p.value.auth.operation == 5)
            && (v.Some? ==> p.Some? && p.value.Versioned? && p.value.auth.operation == 4)
            && (l.Some? ==> l.value == c.sha(p.value.update) && v.None?)
            && (v.Some? ==> v.value == c.sha(p.value.update) && l.None?)
  {
    hide LegacyCandidate, VerifiedHash, LegacyPredecessor, Kt.Parse, HashSized, IntentSound, Named, Rotates, Upgrades;
    LegacyExactly(c, intent, pred, candidate);
    VerifiedExactly(c, intent, pred, candidate, lookup, again);
    var was, p := LegacyPredecessor(c, pred).value, Kt.Parse(c, intent.owner, candidate);
    if p.Some? { OperationTells(c, was, p.value); }
  }

  lemma FirstRotates(p: Parts)
    ensures FirstRotation(p) ==> p.Versioned? && p.auth.operation == 5
  {
  }

  /** A resolved state that names a predecessor key and hash took a version-1 step other than genesis. */
  lemma StepBehind(c: Crypto, intent: Intent, candidate: Bytes, lookup: Lookup)
    requires Kt.Resolve(c, intent.owner, candidate, lookup).Some?
    requires StateIs(Kt.Resolve(c, intent.owner, candidate, lookup).value.state, intent)
    ensures var p := Kt.Parse(c, intent.owner, candidate);
            && p.Some? && p.value.Versioned? && p.value.auth.operation != 1
            && p.value.auth.predecessor == intent.predecessorHash && p.value.key == intent.successorKey
  {
    hide Kt.Resolve, Kt.Parse, QuorumVerifies, HasKey, KeyFor;
    ResolvedHead(c, intent.owner, candidate, lookup);
    var p, s := Kt.Parse(c, intent.owner, candidate).value, Kt.Resolve(c, intent.owner, candidate, lookup).value.state;
    var prev :| Kt.TransitionAllowed(c, p, Some(prev)) && s == Kt.StateOf(c, candidate, p, Some(prev));
  }

  lemma Sized(c: Crypto, b: Bytes)
    requires HashSized(c)
    ensures |c.sha(b)| == KEY_BYTES
  {
  }

  /** Two envelopes collide only if their update hashes are equal. */
  lemma TwoCollide(c: Crypto, owner: Bytes, candidate: Bytes, pred: Bytes)
    requires Utf8Valid(owner) && Kt.Parse(c, owner, candidate).Some?
    requires var p := Kt.Parse(c, owner, candidate).value; p.Versioned? && p.auth.threshold == 2
    requires LegacyPredecessor(c, pred).Some? && LegacyPredecessor(c, pred).value.owner == owner
    ensures Collision(c, owner, [candidate, pred]) ==>
              c.sha(Kt.Parse(c, owner, candidate).value.update) == LegacyPredecessor(c, pred).value.stateHash
    ensures UpdateHash(c, owner, candidate) == c.sha(Kt.Parse(c, owner, candidate).value.update)
    ensures UpdateHash(c, owner, pred) == LegacyPredecessor(c, pred).value.stateHash
  {
    hide Kt.Read, Py.Read, LegacyPredecessor, Utf8Valid, HasKey;
    LegacyParsersAgree(c, owner, pred);
    ReadingAgreement.KotlinReadIsPython(owner, candidate);
    ReadingAgreement.KotlinReadIsPython(owner, pred);
  }

  /** A two-field envelope that resolves for this owner names this owner. */
  lemma LegacyOwner(c: Crypto, owner: Bytes, pred: Bytes, lookup: Lookup)
    requires LegacyPredecessor(c, pred).Some? && Kt.Resolve(c, owner, pred, lookup).Some?
    ensures LegacyPredecessor(c, pred).value.owner == owner
  {
    hide Kt.Resolve, Utf8Valid, Decoded, Fields, Kt.ReadVersioned;
    ResolvedHead(c, owner, pred, lookup);
    OneShape(Decoded(pred).value);
  }

  lemma HashesDiffer(c: Crypto, owner: Bytes, candidate: Bytes, pred: Bytes, lookup: Lookup)
    requires Kt.Resolve(c, owner, pred, lookup).Some? && Kt.Resolve(c, owner, pred, lookup).value.predecessors == []
    requires var other := Kt.PredecessorFirst(Kt.Resolve(c, owner, pred, lookup).value.state.stateHash, pred, lookup);
             Kt.Resolve(c, owner, candidate, other).Some?
               && Kt.Resolve(c, owner, candidate, other).value.predecessors == [pred]
    ensures UpdateHash(c, owner, candidate) != UpdateHash(c, owner, pred)
  {
    hide Kt.Resolve, Py.ReadState, Collision, Kt.PredecessorFirst, UpdateHash, StepsRespected, Linked, Governed,
         Py.Replay, BudgetHolds, Utf8Valid, Py.Read;
    var other := Kt.PredecessorFirst(Kt.Resolve(c, owner, pred, lookup).value.state.stateHash, pred, lookup);
    HeadMatches(c, owner, candidate, other);
    HeadReplays(c, owner, candidate, other);
    ReadStateInvariant(c, owner, candidate, other);
    var chain := [candidate] + [pred];
    RepeatIsCollision(c, owner, chain);
    FreshMeansDistinct(c, owner, chain, {});
    assert chain[0] == candidate && chain[1] == pred;
  }
}
