/** The Kotlin rotation builders, and that the verifier accepts what they build. */
module KotlinBuilders {
  import opened Prelude
  import opened CborSpec
  import opened CborDecoder
  import opened CborWriter
  import opened Identity
  import opened IdentityEncoding
  import opened ChainInvariants
  import opened VerifierAgreement
  import opened ChainExtension
  import opened Sorting
  import ReadingAgreement
  import Kt = KotlinVerifier
  import Py = PythonVerifier

  /** Seed and digest to signature. */
  type Sign = (Bytes, Bytes) -> Bytes

  ghost predicate HashSized(c: Crypto)
  {
    forall b :: |c.sha(b)| == KEY_BYTES
  }

  /** The seed signs for this key: what it signs verifies. */
  ghost predicate SignsFor(c: Crypto, sign: Sign, seed: Bytes, key: Bytes)
  {
    forall m :: |sign(seed, m)| == SIGNATURE_BYTES && c.verify(key, m, sign(seed, m))
  }

  // ------------------------------------------------------------------ sorting

  function SortProofs(proofs: seq<Proof>): (r: seq<Proof>)
    ensures multiset(r) == multiset(proofs)
  {
    SortBy(ProofOrder, proofs)
  }

  lemma SameIds(a: seq<Proof>, b: seq<Proof>)
    requires multiset(a) == multiset(b)
    ensures ProofIds(a) == ProofIds(b) && |a| == |b| && forall p :: p in a <==> p in b
  {
    assert |multiset(a)| == |multiset(b)|;
    SameElements(a, b);
  }

  /** Sorted, all named and no id twice: strictly ordered. */
  lemma SortedStrict(proofs: seq<Proof>)
    requires NonDescending(ProofOrder, proofs) && |ProofIds(proofs)| == |proofs| && forall p | p in proofs :: p.id.Some?
    ensures ProofsOrdered(proofs)
  {
    forall i, j | 0 <= i < j < |proofs| ensures ProofOrder(proofs[i]) != ProofOrder(proofs[j]) {
      if proofs[i].id == proofs[j].id { RepeatedId(proofs, i, j); }
    }
    DistinctAscends(ProofOrder, proofs);
  }

  lemma RepeatedId(proofs: seq<Proof>, i: nat, j: nat)
    requires i < j < |proofs| && proofs[i].id == proofs[j].id
    ensures |ProofIds(proofs)| < |proofs|
  {
    var fewer := proofs[..j] + proofs[j + 1..];
    assert ProofIds(fewer) == ProofIds(proofs) by {
      forall p | p in proofs ensures p.id in ProofIds(fewer) {
        var k :| 0 <= k < |proofs| && proofs[k] == p;
        if k == j { assert fewer[i] == proofs[i]; } else { assert fewer[if k < j then k else k - 1] == p; }
      }
    }
    IdsAtMost(fewer);
  }

  lemma {:induction false} IdsAtMost(proofs: seq<Proof>)
    ensures |ProofIds(proofs)| <= |proofs|
  {
    if proofs != [] {
      IdsAtMost(proofs[1..]);
      assert proofs == [proofs[0]] + proofs[1..];
      assert ProofIds(proofs) == ProofIds(proofs[1..]) + {proofs[0].id};
    }
  }

  // -------------------------------------------------- rotation of signed states

  datatype VersionedDraft = VersionedDraft(
    owner: Bytes,
    predecessorKey: Bytes,
    successorKey: Bytes,
    predecessorHash: Bytes,
    sequence: nat,
    update: Bytes,
    signers: seq<Signer>,
    threshold: nat)

  function RotationOf(prev: Kt.VerifiedState): Authorization
    requires prev.generation.Some? && prev.threshold.Some?
  {
    Authorization(5, prev.generation.value, prev.threshold.value, prev.signers, prev.stateHash)
  }

  predicate DraftAllowed(owner: Bytes, verifiedOwner: Bytes, prev: Kt.VerifiedState, activeKey: Bytes,
          pendingKey: Bytes)
  {
    && prev.signers != [] && prev.generation.Some? && prev.threshold.Some?
    && 1 <= prev.threshold.value <= |prev.signers|
    && owner == verifiedOwner && activeKey == prev.ownerKey && activeKey != pendingKey
  }

  function DraftUpdate(owner: Bytes, prev: Kt.VerifiedState, pendingKey: Bytes): Value
    requires prev.generation.Some? && prev.threshold.Some?
  {
    UpdateValue(owner, pendingKey, prev.sequence + 1, Some(RotationOf(prev)))
  }

  ghost predicate Encodes(v: Value)
  {
    Writable(v, 0) && |Enc(v)| <= MAX_ENCODED_BYTES
  }

  method CreateVersionedDraft(
    c: Crypto, sign: Sign, owner: Bytes, verifiedOwner: Bytes, prev: Kt.VerifiedState, activeKey: Bytes,
    pendingSeed: Bytes, pendingKey: Bytes)
    returns (r: Option<VersionedDraft>)
    ensures r.Some? <==>
            (&& DraftAllowed(owner, verifiedOwner, prev, activeKey, pendingKey)
              && Encodes(DraftUpdate(owner, prev, pendingKey))
             && (var digest := c.sha(Enc(DraftUpdate(owner, prev, pendingKey)));
                c.verify(pendingKey, digest, sign(pendingSeed, digest))))
    ensures r.Some? ==>
              r.value == VersionedDraft(owner, prev.ownerKey, pendingKey, prev.stateHash, prev.sequence + 1,
                                        Enc(DraftUpdate(owner, prev, pendingKey)), prev.signers, prev.threshold.value)
  {
    hide Writable, Enc, UpdateValue;
    if !DraftAllowed(owner, verifiedOwner, prev, activeKey, pendingKey) { return None; }
    var update :- EncodeCanonical(DraftUpdate(owner, prev, pendingKey));
    var digest := c.sha(update);
    var proofOfPossession := sign(pendingSeed, digest);
    if !c.verify(pendingKey, digest, proofOfPossession) { return None; }
    return Some(VersionedDraft(owner, prev.ownerKey, pendingKey, prev.stateHash, prev.sequence + 1, update,
             prev.signers, prev.threshold.value));
  }

  /** What a detached proof object guarantees about itself. */
  predicate ProofGiven(p: Proof)
  {
    p.id.Some? && SignerIdFits(p.id.value) && |p.signature| == SIGNATURE_BYTES
  }

  ghost predicate FinalizeAllowed(c: Crypto, d: VersionedDraft, proofs: seq<Proof>)
  {
    && proofs != [] && |proofs| <= |d.signers| && 1 <= d.threshold <= |d.signers|
    && |ProofIds(proofs)| == |proofs| && QuorumVerifies(c, d.update, proofs, d.signers, d.threshold)
  }

  function Finalized(d: VersionedDraft, proofs: seq<Proof>): Value
  {
    Entry([Int(1), Bstr(d.update), List(ProofValues(SortProofs(proofs)))])
  }

  /** Each proof is by a signer not seen before, and verifies; counts the signers seen. */
  method CheckProofs(c: Crypto, update: Bytes, ordered: seq<Proof>, signers: seq<Signer>) returns (seen: Option<nat>)
    ensures seen.Some? <==>
              |ProofIds(ordered)| == |ordered| && forall p | p in ordered :: ProofVerifies(c, update, p, signers)
    ensures seen.Some? ==> seen.value == |ordered|
  {
    hide ProofVerifies, ProofIds;
    var ids: set<Option<Bytes>> := {};
    NoIds();
    assert ordered[..0] == [];
    for i := 0 to |ordered|
      invariant ids == ProofIds(ordered[..i]) && |ids| == i
      invariant forall j | 0 <= j < i :: ProofVerifies(c, update, ordered[j], signers)
    {
      var proof := ordered[i];
      MoreIds(ordered, i);
      if proof.id in ids {
        SeenBefore(ordered, i);
        return None;
      }
      ids := ids + {proof.id};
      if !ProofVerifies(c, update, proof, signers) {
        assert proof in ordered;
        return None;
      }
    }
    assert ordered[..|ordered|] == ordered;
    return Some(|ids|);
  }

  lemma NoIds()
    ensures ProofIds([]) == {}
  {
  }

  lemma MoreIds(proofs: seq<Proof>, i: nat)
    requires i < |proofs|
    ensures ProofIds(proofs[..i + 1]) == ProofIds(proofs[..i]) + {proofs[i].id}
  {
    assert proofs[..i + 1] == proofs[..i] + [proofs[i]];
  }

  lemma SeenBefore(proofs: seq<Proof>, i: nat)
    requires i < |proofs| && proofs[i].id in ProofIds(proofs[..i])
    ensures |ProofIds(proofs)| < |proofs|
  {
    var j: nat :| j < i && proofs[j].id == proofs[i].id;
    RepeatedId(proofs, j, i);
  }

  lemma QuorumMoves(c: Crypto, update: Bytes, a: seq<Proof>, b: seq<Proof>, signers: seq<Signer>, threshold: nat)
    requires multiset(a) == multiset(b)
    ensures QuorumVerifies(c, update, a, signers, threshold) == QuorumVerifies(c, update, b, signers, threshold)
  {
    hide ProofVerifies;
    SameIds(a, b);
  }

  /** Sorts the proofs, checks each against its signer, and encodes the envelope. */
  method FinalizeWithProofs(c: Crypto, d: VersionedDraft, proofs: seq<Proof>) returns (r: Option<Bytes>)
    requires forall p | p in proofs :: ProofGiven(p)
    ensures r == if FinalizeAllowed(c, d, proofs) && Encodes(Finalized(d, proofs)) then Some(Enc(Finalized(d, proofs)))
              else None
  {
    hide Writable, Enc, Entry, ProofVerifies, SortProofs, ProofIds;
    if proofs == [] || |proofs| > |d.signers| || !(1 <= d.threshold <= |d.signers|) { return None; }
    var ordered := SortProofs(proofs);
    SameIds(ordered, proofs);
    QuorumMoves(c, d.update, ordered, proofs, d.signers, d.threshold);
    var seen := CheckProofs(c, d.update, ordered, d.signers);
    if seen.None? || seen.value < d.threshold { return None; }
    r := EncodeCanonical(Entry([Int(1), Bstr(d.update), List(ProofValues(ordered))]));
  }

  // ------------------------------------------------ the verifier accepts them

  lemma EncodesTexts(v: Value)
    requires Encodes(v)
    ensures TextsValid(v)
  {
    hide Writable, TextsValid;
    WritableTexts(v, 0);
  }

  lemma UpdateSignerTexts(owner: Bytes, key: Bytes, sequence: nat, a: Authorization)
    requires TextsValid(UpdateValue(owner, key, sequence, Some(a)))
    ensures forall i | 0 <= i < |a.signers| :: Utf8Valid(a.signers[i].id)
  {
    hide Entry, TextsValid, Utf8Valid;
    var f := RecordFields(owner, key, sequence) + [AuthorizationValue(a)];
    EntryTexts(f);
    assert TextsValid(f[3]);
    var g := [Int(1), Int(1), Int(a.operation), Int(a.generation), Int(a.threshold), List(SignerValues(a.signers)),
      Bstr(a.predecessor)];
    EntryTexts(g);
    assert TextsValid(g[5]);
    SignerTexts(a.signers);
  }

  lemma ProofText(p: Proof)
    requires TextsValid(ProofValue(p)) && p.id.Some?
    ensures Utf8Valid(p.id.value)
  {
    hide Entry, Utf8Valid;
    var g := [Text(p.id.value), Bstr(p.signature)];
    EntryTexts(g);
    assert TextsValid(g[0]);
  }

  lemma ProofTexts(proofs: seq<Proof>)
    requires TextsValid(List(ProofValues(proofs)))
    ensures forall i | 0 <= i < |proofs| :: proofs[i].id.Some? ==> Utf8Valid(proofs[i].id.value)
  {
    hide *;
    forall i | 0 <= i < |proofs| && proofs[i].id.Some? ensures Utf8Valid(proofs[i].id.value) {
      ItemText(ProofValues(proofs), i);
      ProofText(proofs[i]);
    }
  }

  lemma ThirdText(a: Value, b: Value, v: Value)
    requires TextsValid(Entry([a, b, v]))
    ensures TextsValid(v)
  {
    hide Entry, TextsValid;
    EntryTexts([a, b, v]);
    assert TextsValid([a, b, v][2]);
  }

  lemma ItemText(items: seq<Value>, i: nat)
    requires TextsValid(List(items)) && i < |items|
    ensures TextsValid(items[i])
  {
    assert items[i] in items;
  }

  /** An envelope built within the writer's limits is read back by both verifiers. */
  lemma BuiltParses(c: Crypto, owner: Bytes, p: Parts)
    requires Buildable(owner, p) && p.Versioned? && |p.auth.signers| == 3 && |p.proofs| <= 3 && ProofIdsFit(p.proofs)
    requires Utf8Valid(owner) && |Enc(EnvelopeValue(p))| <= MAX_ENCODED_BYTES
    ensures Kt.Parse(c, owner, Enc(EnvelopeValue(p))) == Some(p)
  {
    hide Buildable, Kt.Read, Py.Read, EnvelopeValue, Enc, Utf8Valid, ProofIdsFit;
    ReadBuilt(owner, p);
    ReadingAgreement.PythonReadIsKotlin(owner, Enc(EnvelopeValue(p)));
  }

  /** What a finalized versioned draft contains. */
  function DraftParts(prev: Kt.VerifiedState, d: VersionedDraft, proofs: seq<Proof>): Parts
    requires prev.generation.Some? && prev.threshold.Some?
  {
    Versioned(d.update, d.successorKey, d.sequence, RotationOf(prev), SortProofs(proofs))
  }

  ghost predicate DraftOf(owner: Bytes, prev: Kt.VerifiedState, d: VersionedDraft)
  {
    && DraftAllowed(owner, owner, prev, prev.ownerKey, d.successorKey)
    && Encodes(DraftUpdate(owner, prev, d.successorKey))
    && d == VersionedDraft(owner, prev.ownerKey, d.successorKey, prev.stateHash, prev.sequence + 1,
                           Enc(DraftUpdate(owner, prev, d.successorKey)), prev.signers, prev.threshold.value)
  }

  lemma SortedBy(proofs: seq<Proof>)
    ensures NonDescending(ProofOrder, SortProofs(proofs))
  {
    hide NonDescending, SortBy;
    SortIsOrdered(ProofOrder, proofs);
  }

  lemma SortedProofs(c: Crypto, d: VersionedDraft, proofs: seq<Proof>)
    requires FinalizeAllowed(c, d, proofs) && forall p | p in proofs :: ProofGiven(p)
    ensures var sorted := SortProofs(proofs);
            && ProofsOrdered(sorted) && |sorted| == |proofs| && ProofIdsFit(sorted)
            && (forall i | 0 <= i < |sorted| :: ProofGiven(sorted[i]))
            && QuorumVerifies(c, d.update, sorted, d.signers, d.threshold)
  {
    hide SortProofs, ProofVerifies, NonDescending, ProofsOrdered;
    var sorted := SortProofs(proofs);
    SameIds(sorted, proofs);
    SortedBy(proofs);
    forall i | 0 <= i < |sorted| ensures ProofGiven(sorted[i]) { assert sorted[i] in proofs; }
    assert forall p | p in sorted :: p.id.Some? by { forall p | p in sorted ensures p.id.Some? { assert p in proofs; } }
    SortedStrict(sorted);
    QuorumMoves(c, d.update, sorted, proofs, d.signers, d.threshold);
  }

  /** Over a governed state a draft is made exactly for the verified owner, by its current key, to another key. */
  lemma DraftExactly(owner: Bytes, verifiedOwner: Bytes, prev: Kt.VerifiedState, activeKey: Bytes, pendingKey: Bytes)
    requires prev.signers != [] ==> |prev.signers| == 3 && prev.threshold == Some(2) && prev.generation.Some?
    ensures DraftAllowed(owner, verifiedOwner, prev, activeKey, pendingKey) <==>
            prev.signers != [] && owner == verifiedOwner && activeKey == prev.ownerKey && pendingKey != prev.ownerKey
  {
  }

  /**
   * Finalize is exact: over a draft of this state, proofs pass its checks if and only if no signer
   * is named twice and the verifier's transition rule accepts them, sorted.
   */
  lemma FinalizeIsExact(c: Crypto, owner: Bytes, prev: Kt.VerifiedState, d: VersionedDraft, proofs: seq<Proof>)
    requires DraftOf(owner, prev, d) && (forall p | p in proofs :: ProofGiven(p)) && SignersWellFormed(prev.signers)
    ensures FinalizeAllowed(c, d, proofs) <==>
            |ProofIds(proofs)| == |proofs| && Kt.TransitionAllowed(c, DraftParts(prev, d, proofs), Some(prev))
  {
    hide SortProofs, Enc, Writable, UpdateValue, ProofVerifies, ProofIds, SignersWellFormed;
    QuorumMoves(c, d.update, SortProofs(proofs), proofs, d.signers, d.threshold);
    if |ProofIds(proofs)| == |proofs| && Kt.TransitionAllowed(c, DraftParts(prev, d, proofs), Some(prev)) {
      NoIds();
      SignersBound(c, d.update, proofs, d.signers);
    }
  }

  /** Verified proofs of different signers are at most as many as the signers. */
  lemma SignersBound(c: Crypto, update: Bytes, proofs: seq<Proof>, signers: seq<Signer>)
    requires forall p | p in proofs :: ProofVerifies(c, update, p, signers)
    ensures |ProofIds(proofs)| <= |signers|
  {
    hide KeyFor;
    SignerIdsFew(signers);
    forall id | id in ProofIds(proofs) ensures id in SignerIds(signers) {
      var p :| p in proofs && p.id == id;
      assert ProofVerifies(c, update, p, signers);
      var s := Signer(p.id.value, KeyFor(signers, p.id.value).value);
      var i :| 0 <= i < |signers| && signers[i] == s;
    }
    SubsetSize(ProofIds(proofs), SignerIds(signers));
  }

  lemma DraftBuildable(c: Crypto, owner: Bytes, prev: Kt.VerifiedState, d: VersionedDraft, proofs: seq<Proof>)
    requires DraftOf(owner, prev, d) && FinalizeAllowed(c, d, proofs) && (forall p | p in proofs :: ProofGiven(p))
    requires Encodes(Finalized(d, proofs))
    requires SignersWellFormed(prev.signers) && |prev.stateHash| == KEY_BYTES && |d.successorKey| == KEY_BYTES
    ensures Buildable(owner, DraftParts(prev, d, proofs))
  {
    hide SortProofs, Enc, Writable, TextsValid, SignersWellFormed, ProofsOrdered, Utf8Valid, UpdateValue, Entry,
         QuorumVerifies;
    SortedProofs(c, d, proofs);
    EncodesTexts(DraftUpdate(owner, prev, d.successorKey));
    UpdateSignerTexts(owner, d.successorKey, d.sequence, RotationOf(prev));
    EncodesTexts(Finalized(d, proofs));
    ThirdText(Int(1), Bstr(d.update), List(ProofValues(SortProofs(proofs))));
    ProofTexts(SortProofs(proofs));
    assert AuthorizationBuildable(RotationOf(prev));
    assert ProofsBuildable(SortProofs(proofs));
  }

  /**
   * Whenever the versioned builder and its finalize return, the verifier resolves the envelope
   * over the state it was drafted from, unless the 1024 lookups or the byte budget are used up
   * or two updates of the chain collide; and it resolves to the drafted keys, hash and sequence.
   */
  lemma VersionedBuilderMeetsVerifier(c: Crypto, owner: Bytes, head: Bytes, lookup: Lookup, d: VersionedDraft,
          proofs: seq<Proof>)
    requires HashSized(c) && Kt.Resolve(c, owner, head, lookup).Some? && |d.successorKey| == KEY_BYTES
    requires DraftOf(owner, Kt.Resolve(c, owner, head, lookup).value.state, d)
    requires (forall p | p in proofs :: ProofGiven(p)) && FinalizeAllowed(c, d, proofs) && Encodes(Finalized(d, proofs))
    ensures var before, envelope := Kt.Resolve(c, owner, head, lookup).value, Enc(Finalized(d, proofs));
            var after := Kt.Resolve(c, owner, envelope, Kt.PredecessorFirst(d.predecessorHash, head, lookup));
            var chain := [envelope, head] + before.predecessors;
            && (after.Some? <==>
                 |before.predecessors| < MAX_PREDECESSOR_DEPTH && BudgetHolds(chain, 0) && !Collision(c, owner, chain))
            && (after.Some? ==>
                && after.value.state.ownerKey == d.successorKey
                && after.value.state.predecessorOwnerKey == Some(d.predecessorKey)
                && after.value.state.predecessorStateHash == Some(d.predecessorHash)
                && after.value.state.sequence == d.sequence)
  {
    hide Kt.Resolve, SortProofs, Enc, Writable, BudgetHolds, Collision, Kt.PredecessorFirst, Buildable, ProofIdsFit,
      UpdateValue, QuorumVerifies,
      Governed, SignersWellFormed, Utf8Valid, Entry, ProofsOrdered, Kt.Parse, Py.ReadState, DraftUpdate, HashSized;
    var before := Kt.Resolve(c, owner, head, lookup).value;
    HeadMatches(c, owner, head, lookup);
    HeadFacts(c, owner, head, lookup);
    var p := DraftParts(before.state, d, proofs);
    DraftBuildable(c, owner, before.state, d, proofs);
    SortedProofs(c, d, proofs);
    BuiltParses(c, owner, p);
    ResolvesOver(c, owner, Enc(Finalized(d, proofs)), head, lookup);
  }

  lemma HeadFacts(c: Crypto, owner: Bytes, head: Bytes, lookup: Lookup)
    requires HashSized(c) && Kt.Resolve(c, owner, head, lookup).Some?
    ensures var s := Kt.Resolve(c, owner, head, lookup).value.state;
            |s.stateHash| == KEY_BYTES && (s.signers != [] ==> SignersWellFormed(s.signers) && |s.signers| == 3)
  {
    hide Kt.Resolve, Py.ReadState, SignersWellFormed, Collision, Utf8Valid;
    HeadMatches(c, owner, head, lookup);
    StateHashed(c, owner, head, lookup);
  }

  lemma StateHashed(c: Crypto, owner: Bytes, head: Bytes, lookup: Lookup)
    requires Py.ReadState(c, owner, head, lookup).Some?
    ensures exists update :: Py.ReadState(c, owner, head, lookup).value.stateHash == c.sha(update)
  {
    hide Py.Read, Py.Walk, Utf8Valid, Py.Accepts;
    var envelopes := Py.Walk(lookup, head, 0).value;
    assert Py.Replay(c, owner, envelopes).value.stateHash == c.sha(Py.Read(owner, envelopes[0]).value.update);
  }
}
