/** The Python draft gate, bundles and submission, against the verifier they feed. */
module PythonDrafts {
  import opened Prelude
  import opened CborSpec
  import opened Identity
  import opened IdentityEncoding
  import opened ChainInvariants
  import opened PythonVerifier

  // --------------------------------------------------------------------- gate

  /** Which updates a draft may carry over a previous state. */
  predicate Gate(owner: Bytes, key: Bytes, sequence: nat, auth: Option<Authorization>, prev: Option<IdentityState>)
  {
    if prev.None? then
      && sequence == 1
      && (auth.Some? ==>
           auth.value.operation == 1 && auth.value.generation == 1 && auth.value.predecessor == ZERO_HASH
             && TwoOfThree(auth.value))
    else
      && owner == prev.value.ownerName && sequence == prev.value.sequence + 1
      && if auth.None? then prev.value.signers == [] && key == prev.value.ownerKey
         else auth.value.predecessor == prev.value.stateHash && SuccessorGate(key, auth.value, prev.value)
  }

  predicate SuccessorGate(key: Bytes, auth: Authorization, prev: IdentityState)
  {
    if auth.operation == 5 then
      && key != prev.ownerKey
      && if prev.signers == [] then auth.generation == 1 && TwoOfThree(auth) && HasKey(auth.signers, key)
           else SameGovernance(auth, prev)
    else
      && key == prev.ownerKey
      && if prev.signers == [] then
           auth.operation == 4 && auth.generation == 1 && TwoOfThree(auth) && HasKey(auth.signers, prev.ownerKey)
         else if auth.operation == 2 then SameGovernance(auth, prev)
         else
           && auth.operation == 3 && auth.generation > (if prev.generation.Some? then prev.generation.value else 0)
           && TwoOfThree(auth) && auth.signers != prev.signers
  }

  /**
   * What a draft over a state can do: take the next number, and move the key only as operation 5.
   * Where there are signers it must be authorized, and only operation 3 puts others in their place.
   */
  lemma DraftKeepsGovernance(owner: Bytes, key: Bytes, sequence: nat, auth: Option<Authorization>, prev: IdentityState)
    requires Gate(owner, key, sequence, auth, Some(prev))
    ensures owner == prev.ownerName && sequence == prev.sequence + 1
    ensures key != prev.ownerKey <==> auth.Some? && auth.value.operation == 5
    ensures auth.Some? ==> auth.value.predecessor == prev.stateHash
    ensures prev.signers != [] ==> auth.Some? && (auth.value.operation != 3 ==> auth.value.signers == prev.signers)
    ensures prev.signers == [] && auth.Some? ==> auth.value.operation == 4 || auth.value.operation == 5
  {
  }

  predicate SameGovernance(auth: Authorization, prev: IdentityState)
  {
    Some(auth.generation) == prev.generation && Some(auth.threshold) == prev.threshold && auth.signers == prev.signers
  }

  /** Some 64-byte signature of the message verifies under the key. */
  ghost predicate CanSign(c: Crypto, key: Bytes, m: Bytes)
  {
    exists s :: |s| == SIGNATURE_BYTES && c.verify(key, m, s)
  }

  ghost function SomeSignature(c: Crypto, key: Bytes, m: Bytes): (s: Bytes)
    requires CanSign(c, key, m)
    ensures |s| == SIGNATURE_BYTES && c.verify(key, m, s)
  {
    var s :| |s| == SIGNATURE_BYTES && c.verify(key, m, s);
    s
  }

  /** Governed, for this owner, and with ids that encode: what every parsed state is. */
  ghost predicate Previous(owner: Bytes, prev: Option<IdentityState>)
  {
    prev.Some? ==>
      Governed(prev.value) && prev.value.ownerName == owner && forall i | 0 <= i < |prev.value.signers| ::
        Utf8Valid(prev.value.signers[i].id)
  }

  /** Every state parsed from a carried history qualifies, linked or not. */
  lemma {:induction false} CarriedIsPrevious(c: Crypto, owner: Bytes, envelopes: seq<Bytes>)
    ensures Previous(owner, Replay(c, owner, envelopes))
  {
    hide Governed, Read, Utf8Valid, Accepts;
    if Replay(c, owner, envelopes).Some? {
      if |envelopes| > 1 { CarriedIsPrevious(c, owner, envelopes[1..]); }
      var prev := if |envelopes| == 1 then None else Replay(c, owner, envelopes[1..]);
      GovernedKept(c, owner, envelopes[0], prev);
      BuiltTexts(owner, envelopes[0]);
    }
  }

  lemma BuiltTexts(owner: Bytes, envelope: Bytes)
    requires Read(owner, envelope).Some?
    ensures var p := Read(owner, envelope).value;
            p.Versioned? ==> forall i | 0 <= i < |p.auth.signers| :: Utf8Valid(p.auth.signers[i].id)
  {
    hide Read, Utf8Valid, Enc, UpdateValue, EnvelopeValue;
    BuiltRead(owner, envelope);
  }

  /** Which signers must sign an update, by name. */
  ghost function Deciding(auth: Authorization, prev: Option<IdentityState>): seq<Signer>
  {
    if auth.operation == 1 || prev.None? then auth.signers else prev.value.signers
  }

  predicate FromLegacy(auth: Authorization, prev: Option<IdentityState>)
  {
    auth.operation == 5 && prev.Some? && prev.value.signers == []
  }

  /** Two of the signers, told by their places, can sign. */
  ghost predicate PairCanSign(c: Crypto, m: Bytes, signers: seq<Signer>, i: nat, j: nat)
  {
    i < j < |signers| && CanSign(c, signers[i].key, m) && CanSign(c, signers[j].key, m)
  }

  /**
   * The keys an update needs can sign it: the owner's own for an upgrade or out of a legacy state,
   * else two signers'.
   */
  ghost predicate CanDecide(c: Crypto, key: Bytes, update: Bytes, auth: Authorization, prev: Option<IdentityState>)
  {
    if auth.operation == 4 then CanSign(c, key, c.sha(update))
    else if FromLegacy(auth, prev) then CanSign(c, prev.value.ownerKey, c.sha(update))
    else exists i: nat, j: nat :: PairCanSign(c, c.sha(update), Deciding(auth, prev), i, j)
  }

  // --------------------------------------------- from the gate to a proof list

  /** Proofs by two signers. */
  ghost function TwoProofs(c: Crypto, update: Bytes, s: Signer, t: Signer): (r: seq<Proof>)
    requires CanSign(c, s.key, c.sha(update)) && CanSign(c, t.key, c.sha(update))
  {
    [Proof(Some(s.id), SomeSignature(c, s.key, c.sha(update))),
      Proof(Some(t.id), SomeSignature(c, t.key, c.sha(update)))]
  }

  lemma KeyForMember(signers: seq<Signer>, i: nat)
    requires SignersDistinct(signers) && i < |signers|
    ensures KeyFor(signers, signers[i].id) == Some(signers[i].key)
  {
    hide KeyFor, LexLess;
    var found := KeyFor(signers, signers[i].id);
    assert signers[i] in signers;
    var j :| 0 <= j < |signers| && signers[j] == Signer(signers[i].id, found.value);
    LexIrreflexive(signers[i].id);
  }

  lemma TwoProofsWork(c: Crypto, update: Bytes, signers: seq<Signer>, i: nat, j: nat)
    requires PairCanSign(c, c.sha(update), signers, i, j) && SignersWellFormed(signers)
    requires forall k | 0 <= k < |signers| :: Utf8Valid(signers[k].id)
    ensures var proofs := TwoProofs(c, update, signers[i], signers[j]);
            ProofsBuildable(proofs) && QuorumVerifies(c, update, proofs, signers, 2)
  {
    hide Utf8Valid, KeyFor, LexLess, CanSign;
    var proofs := TwoProofs(c, update, signers[i], signers[j]);
    KeyForMember(signers, i);
    KeyForMember(signers, j);
    LexIrreflexive(signers[i].id);
    assert ProofIds(proofs) == {proofs[0].id, proofs[1].id} && proofs[0].id != proofs[1].id;
  }

  /** An allowed update whose deciding keys can sign has a proof list that gets it accepted. */
  lemma GateGivesProofs(
    c: Crypto, owner: Bytes, key: Bytes, sequence: nat, update: Bytes, auth: Authorization, prev: Option<IdentityState>)
    returns (proofs: seq<Proof>)
    requires AuthorizationBuildable(auth) && Previous(owner, prev) && Gate(owner, key, sequence, Some(auth), prev)
    requires CanDecide(c, key, update, auth, prev)
    ensures ProofsBuildable(proofs) && Accepts(c, owner, Versioned(update, key, sequence, auth, proofs), prev)
  {
    hide CanSign, Utf8Valid, SignersWellFormed, KeyFor, QuorumVerifies, ProofVerifies, TwoProofs, LexLess, HasKey,
         PairCanSign;
    if auth.operation == 4 {
      proofs := UpgradeProof(c, key, update, auth);
    } else if FromLegacy(auth, prev) {
      proofs := [Proof(None, SomeSignature(c, prev.value.ownerKey, c.sha(update)))];
      assert ProofsBuildable(proofs);
    } else {
      proofs := QuorumProofs(c, update, Deciding(auth, prev));
    }
  }

  lemma QuorumProofs(c: Crypto, update: Bytes, signers: seq<Signer>) returns (proofs: seq<Proof>)
    requires SignersWellFormed(signers) && forall k | 0 <= k < |signers| :: Utf8Valid(signers[k].id)
    requires exists i: nat, j: nat :: PairCanSign(c, c.sha(update), signers, i, j)
    ensures ProofsBuildable(proofs) && QuorumVerifies(c, update, proofs, signers, 2)
  {
    hide Utf8Valid, SignersWellFormed, QuorumVerifies, ProofsBuildable;
    var i: nat, j: nat :| PairCanSign(c, c.sha(update), signers, i, j);
    TwoProofsWork(c, update, signers, i, j);
    proofs := TwoProofs(c, update, signers[i], signers[j]);
  }

  lemma UpgradeProof(c: Crypto, key: Bytes, update: Bytes, auth: Authorization) returns (proofs: seq<Proof>)
    requires AuthorizationBuildable(auth) && HasKey(auth.signers, key) && CanSign(c, key, c.sha(update))
    ensures ProofsBuildable(proofs) && |proofs| == 1 && proofs[0].id.Some?
    ensures KeyFor(auth.signers, proofs[0].id.value) == Some(key)
    ensures (forall q | q in proofs :: ProofVerifies(c, update, q, auth.signers)) && |ProofIds(proofs)| == 1
  {
    hide CanSign, Utf8Valid, KeyFor, LexLess;
    var i :| 0 <= i < |auth.signers| && auth.signers[i].key == key;
    proofs := [Proof(Some(auth.signers[i].id), SomeSignature(c, key, c.sha(update)))];
    KeyForMember(auth.signers, i);
    assert ProofIds(proofs) == {proofs[0].id};
  }

  // ----------------------------------------------- from a proof list to the gate

  lemma AcceptedPassesGate(
    c: Crypto, owner: Bytes, key: Bytes, sequence: nat, update: Bytes, auth: Authorization, prev: Option<IdentityState>,
    proofs: seq<Proof>)
    requires Previous(owner, prev) && Accepts(c, owner, Versioned(update, key, sequence, auth, proofs), prev)
    ensures Gate(owner, key, sequence, Some(auth), prev)
  {
    hide Utf8Valid, SignersWellFormed, ProofVerifies, QuorumVerifies;
    if auth.operation == 4 {
      var s := Signer(proofs[0].id.value, key);
      assert s in auth.signers;
      var i :| 0 <= i < |auth.signers| && auth.signers[i] == s;
    }
  }

  /** A quorum of two verifying proofs shows two signers that can sign. */
  lemma QuorumCanSign(c: Crypto, update: Bytes, proofs: seq<Proof>, signers: seq<Signer>)
    requires QuorumVerifies(c, update, proofs, signers, 2) && forall p | p in proofs :: |p.signature| == SIGNATURE_BYTES
    ensures exists i: nat, j: nat :: PairCanSign(c, c.sha(update), signers, i, j)
  {
    hide KeyFor;
    var a, b := TwoIds(proofs);
    var i := SignerOf(c, update, proofs[a], signers);
    var j := SignerOf(c, update, proofs[b], signers);
    assert i != j;
    assert PairCanSign(c, c.sha(update), signers, if i < j then i else j, if i < j then j else i);
  }

  lemma TwoIds(proofs: seq<Proof>) returns (a: nat, b: nat)
    requires |ProofIds(proofs)| >= 2
    ensures a < |proofs| && b < |proofs| && proofs[a].id != proofs[b].id
  {
    var ids := ProofIds(proofs);
    assert ids != {};
    var x :| x in ids;
    assert |ids - {x}| >= 1;
    var y :| y in ids - {x};
    a :| 0 <= a < |proofs| && proofs[a].id == x;
    b :| 0 <= b < |proofs| && proofs[b].id == y;
  }

  lemma SignerOf(c: Crypto, update: Bytes, p: Proof, signers: seq<Signer>) returns (i: nat)
    requires ProofVerifies(c, update, p, signers) && |p.signature| == SIGNATURE_BYTES
    ensures i < |signers| && signers[i].id == p.id.value && CanSign(c, signers[i].key, c.sha(update))
  {
    hide KeyFor;
    var s := Signer(p.id.value, KeyFor(signers, p.id.value).value);
    assert s in signers;
    i :| 0 <= i < |signers| && signers[i] == s;
  }

  lemma AcceptedCanDecide(
    c: Crypto, owner: Bytes, key: Bytes, sequence: nat, update: Bytes, auth: Authorization, prev: Option<IdentityState>,
    proofs: seq<Proof>)
    requires Previous(owner, prev) && ProofsBuildable(proofs) && 1 <= auth.operation <= 5
    requires Accepts(c, owner, Versioned(update, key, sequence, auth, proofs), prev)
    ensures CanDecide(c, key, update, auth, prev)
  {
    hide Utf8Valid, SignersWellFormed, QuorumVerifies, HasKey, ProofsOrdered, KeyFor;
    assert forall p | p in proofs :: |p.signature| == SIGNATURE_BYTES by {
      forall p | p in proofs ensures |p.signature| == SIGNATURE_BYTES {
        var i :| 0 <= i < |proofs| && proofs[i] == p;
        assert ProofBuildable(proofs[i]);
      }
    }
    if auth.operation == 4 {
      assert proofs[0] in proofs && ProofVerifies(c, update, proofs[0], auth.signers);
    } else if FromLegacy(auth, prev) {
      assert ProofBuildable(proofs[0]);
    } else {
      ThresholdIsTwo(owner, Versioned(update, key, sequence, auth, proofs), prev);
      QuorumCanSign(c, update, proofs, Deciding(auth, prev));
    }
  }

  lemma ThresholdIsTwo(owner: Bytes, p: Parts, prev: Option<IdentityState>)
    requires p.Versioned? && ShapeAllowed(owner, p, prev) && Previous(owner, prev)
    ensures p.auth.threshold == 2
  {
    hide Utf8Valid, ShapeAllowed, Governed;
    ShapeIsTwoOfThree(owner, p, prev);
  }

  // ------------------------------------------------------------ the gate is exact

  /**
   * For every update, state and verification function: some proof list makes the verifier
   * accept a version-1 update if and only if the gate passes it and the keys it needs can sign.
   */
  lemma ProofsExistExactly(
    c: Crypto, owner: Bytes, key: Bytes, sequence: nat, update: Bytes, auth: Authorization, prev: Option<IdentityState>)
    requires AuthorizationBuildable(auth) && Previous(owner, prev)
    ensures (exists proofs ::
              ProofsBuildable(proofs) && Accepts(c, owner, Versioned(update, key, sequence, auth, proofs), prev)) <==>
            Gate(owner, key, sequence, Some(auth), prev) && CanDecide(c, key, update, auth, prev)
  {
    hide *;
    OperationInRange(auth);
    if Gate(owner, key, sequence, Some(auth), prev) && CanDecide(c, key, update, auth, prev) {
      var proofs := GateGivesProofs(c, owner, key, sequence, update, auth, prev);
    }
    forall proofs | ProofsBuildable(proofs) && Accepts(c, owner, Versioned(update, key, sequence, auth, proofs), prev)
      ensures Gate(owner, key, sequence, Some(auth), prev) && CanDecide(c, key, update, auth, prev)
    {
      AcceptedPassesGate(c, owner, key, sequence, update, auth, prev, proofs);
      AcceptedCanDecide(c, owner, key, sequence, update, auth, prev, proofs);
    }
  }

  lemma OperationInRange(auth: Authorization)
    requires AuthorizationBuildable(auth)
    ensures 1 <= auth.operation <= 5
  {
  }

  /** Every signer in play, and the previous owner, can sign the update. */
  ghost predicate KeysCanSign(c: Crypto, update: Bytes, auth: Authorization, prev: Option<IdentityState>)
  {
    && (forall s | s in auth.signers :: CanSign(c, s.key, c.sha(update)))
    && (prev.Some? ==>
         CanSign(c, prev.value.ownerKey, c.sha(update)) && forall s | s in prev.value.signers ::
           CanSign(c, s.key, c.sha(update)))
  }

  lemma AllowedCanDecide(c: Crypto, owner: Bytes, key: Bytes, sequence: nat, update: Bytes, auth: Authorization,
          prev: Option<IdentityState>)
    requires KeysCanSign(c, update, auth, prev) && Previous(owner, prev) && Gate(owner, key, sequence, Some(auth), prev)
    ensures CanDecide(c, key, update, auth, prev)
  {
    hide CanSign, Utf8Valid, SignersWellFormed, HasKey;
    if auth.operation != 4 && !FromLegacy(auth, prev) {
      var signers := Deciding(auth, prev);
      assert signers[0] in signers && signers[1] in signers;
      assert PairCanSign(c, c.sha(update), signers, 0, 1);
    }
  }

  /** Where every signer can sign, the gate passes exactly the updates some proof list makes the verifier accept. */
  lemma GateIsExact(c: Crypto, owner: Bytes, key: Bytes, sequence: nat, update: Bytes, auth: Authorization,
          prev: Option<IdentityState>)
    requires AuthorizationBuildable(auth) && Previous(owner, prev) && KeysCanSign(c, update, auth, prev)
    ensures Gate(owner, key, sequence, Some(auth), prev) <==>
            exists proofs ::
              ProofsBuildable(proofs) && Accepts(c, owner, Versioned(update, key, sequence, auth, proofs), prev)
  {
    hide *;
    ProofsExistExactly(c, owner, key, sequence, update, auth, prev);
    if Gate(owner, key, sequence, Some(auth), prev) { AllowedCanDecide(c, owner, key, sequence, update, auth, prev); }
  }
}
