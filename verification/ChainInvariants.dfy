/** What every state the Python verifier accepts keeps, along the whole chain behind it. */
module ChainInvariants {
  import opened Prelude
  import opened CborSpec
  import opened Identity
  import opened PythonVerifier

  /** No signers at all, or exactly three of whom two must sign. */
  ghost predicate Governed(s: IdentityState)
  {
    if s.signers == [] then s.generation.None? && s.threshold.None?
    else |s.signers| == 3 && s.threshold == Some(2) && s.generation.Some? && SignersWellFormed(s.signers)
  }

  ghost predicate SignersWellFormed(signers: seq<Signer>)
  {
    SignersDistinct(signers) && forall i | 0 <= i < |signers| ::
      SignerIdFits(signers[i].id) && |signers[i].key| == KEY_BYTES
  }

  // ------------------------------------------------ what reading guarantees

  lemma SignersRead(v: Value)
    requires ReadSigners(v).Some?
    ensures SignersWellFormed(ReadSigners(v).value)
  {
    hide SignersDistinct, Fields;
    var signers := SignerEntries(v.items).value;
    forall i | 0 <= i < |signers| ensures SignerIdFits(signers[i].id) && |signers[i].key| == KEY_BYTES {
      assert SignerEntry(v.items[i]) == Some(signers[i]);
    }
  }

  lemma AuthorizationRead(v: Value)
    requires ReadAuthorization(v).Some?
    ensures var a := ReadAuthorization(v).value;
            SignersWellFormed(a.signers) && 1 <= a.threshold <= |a.signers| && 1 <= a.operation <= 5
              && |a.predecessor| == KEY_BYTES
  {
    hide ReadSigners, SignersWellFormed, Fields;
    SignersRead(Fields(v, 7).value[6]);
  }

  lemma UpdateRead(bytes: Bytes)
    requires DecodeUpdate(bytes).Some?
    ensures var u := DecodeUpdate(bytes).value;
            u.auth.Some? ==> var a := u.auth.value;
            SignersWellFormed(a.signers) && 1 <= a.threshold <= |a.signers| && 1 <= a.operation <= 5
              && |a.predecessor| == KEY_BYTES
  {
    hide Loaded, Fields, UpdateFields, ReadAuthorization, SignersWellFormed;
    var v := Loaded(bytes).value;
    if Fields(v, 3).Some? { FieldsHaveNoAuthorization(Fields(v, 3).value); }
    else { AuthorizationRead(Fields(v, 4).value[4]); }
  }

  lemma FieldsHaveNoAuthorization(f: seq<Value>)
    requires |f| >= 4
    ensures UpdateFields(f).Some? ==> UpdateFields(f).value.auth.None?
  {
    hide Fields;
  }

  /** The content read from an envelope, field by field. */
  lemma PartsRead(owner: Bytes, envelope: Bytes)
    requires Read(owner, envelope).Some?
    ensures var p := Read(owner, envelope).value;
            && DecodeUpdate(p.update).Some? && DecodeUpdate(p.update).value.sequence == p.sequence
            && |p.key| == KEY_BYTES
            && DecodeUpdate(p.update).value.auth == (if p.Versioned? then Some(p.auth) else None)
            && (p.Versioned? ==>
                && ProofsOrdered(p.proofs)
                && SignersWellFormed(p.auth.signers) && 1 <= p.auth.threshold <= |p.auth.signers|
                && 1 <= p.auth.operation <= 5 && |p.auth.predecessor| == KEY_BYTES)
  {
    hide Loaded, Fields, DecodeUpdate, SignersWellFormed, ProofsOrdered;
    var p := Read(owner, envelope).value;
    UpdateRead(p.update);
  }

  // --------------------------------------------------------- one transition

  /** Acceptance over a governed state gives a governed state. */
  lemma GovernedKept(c: Crypto, owner: Bytes, envelope: Bytes, prev: Option<IdentityState>)
    requires ParseEnvelope(c, owner, envelope, prev).Some?
    requires prev.Some? ==> Governed(prev.value)
    ensures Governed(ParseEnvelope(c, owner, envelope, prev).value)
  {
    hide Read, ProofsAllowed, SignersWellFormed, ShapeAllowed, DecodeUpdate, ProofsOrdered;
    PartsRead(owner, envelope);
    var p := Read(owner, envelope).value;
    if p.Versioned? { ShapeIsTwoOfThree(owner, p, prev); }
  }

  lemma ShapeIsTwoOfThree(owner: Bytes, p: Parts, prev: Option<IdentityState>)
    requires p.Versioned? && ShapeAllowed(owner, p, prev) && (prev.Some? ==> Governed(prev.value))
    ensures TwoOfThree(p.auth)
  {
    hide SignersWellFormed, Follows, HasKey;
  }

  /** What one accepted step may change, and on whose authority. */
  ghost predicate StepRespects(c: Crypto, p: Parts, older: IdentityState, newer: IdentityState)
  {
    && p.Versioned? && 2 <= p.auth.operation <= 5
    && newer.sequence == older.sequence + 1
    && p.auth.predecessor == older.stateHash
    && (older.generation.Some? ==>
         && newer.generation.Some? && older.generation.value <= newer.generation.value
         && (older.generation.value < newer.generation.value <==> p.auth.operation == 3))
    && (newer.ownerKey != older.ownerKey <==> p.auth.operation == 5)
    && (older.signers != [] && newer.signers != older.signers <==> p.auth.operation == 3)
    && (older.signers != [] ==> newer.signers != [] && QuorumVerifies(c, p.update, p.proofs, older.signers, 2))
    && (older.signers == [] ==> LegacyLeft(c, p, older, newer))
  }

  /** A state without signers is left for one that lists the new owner key, on the old owner key's signature. */
  ghost predicate LegacyLeft(c: Crypto, p: Parts, older: IdentityState, newer: IdentityState)
    requires p.Versioned?
  {
    && (p.auth.operation == 4 || p.auth.operation == 5) && newer.generation == Some(1) && newer.threshold == Some(2)
    && HasKey(newer.signers, newer.ownerKey)
    && |p.proofs| == 1 && c.verify(older.ownerKey, c.sha(p.update), p.proofs[0].signature)
  }

  /** A proof in a listed signer's name that verifies under that signer's key. */
  ghost predicate SignedByListed(c: Crypto, update: Bytes, p: Proof, signers: seq<Signer>)
  {
    exists s | s in signers :: p.id == Some(s.id) && c.verify(s.key, c.sha(update), p.signature)
  }

  /** Two such proofs, by different signers. */
  ghost predicate TwoSigned(c: Crypto, update: Bytes, proofs: seq<Proof>, signers: seq<Signer>)
  {
    exists p, q | p in proofs && q in proofs ::
      p.id != q.id && SignedByListed(c, update, p, signers) && SignedByListed(c, update, q, signers)
  }

  lemma VerifiedIsSigned(c: Crypto, update: Bytes, p: Proof, signers: seq<Signer>)
    requires ProofVerifies(c, update, p, signers)
    ensures SignedByListed(c, update, p, signers)
  {
    hide KeyFor;
    var s := Signer(p.id.value, KeyFor(signers, p.id.value).value);
    assert s in signers && p.id == Some(s.id);
  }

  /** A quorum of two is just that: two different signers signed the update. */
  lemma QuorumIsTwo(c: Crypto, update: Bytes, proofs: seq<Proof>, signers: seq<Signer>)
    requires QuorumVerifies(c, update, proofs, signers, 2)
    ensures TwoSigned(c, update, proofs, signers)
  {
    hide ProofVerifies, SignedByListed;
    var a := AnyOf(ProofIds(proofs));
    assert |ProofIds(proofs) - {a}| >= 1;
    var b := AnyOf(ProofIds(proofs) - {a});
    var p :| p in proofs && p.id == a;
    var q :| q in proofs && q.id == b;
    VerifiedIsSigned(c, update, p, signers);
    VerifiedIsSigned(c, update, q, signers);
  }

  /** A version-1 anchor: the first of its owner, with its own two of three signing it. */
  lemma GenesisMeans(c: Crypto, owner: Bytes, p: Parts, prev: Option<IdentityState>)
    requires p.Versioned? && p.auth.operation == 1 && Accepts(c, owner, p, prev)
    ensures prev.None? && p.sequence == 1 && p.auth.generation == 1 && p.auth.predecessor == ZERO_HASH
    ensures p.auth.threshold == 2 && |p.auth.signers| == 3 && TwoSigned(c, p.update, p.proofs, p.auth.signers)
  {
    hide KeyFor, ProofVerifies, SignedByListed;
    QuorumIsTwo(c, p.update, p.proofs, p.auth.signers);
  }

  lemma AcceptedStep(c: Crypto, owner: Bytes, envelope: Bytes, p: Parts, older: IdentityState)
    requires Read(owner, envelope) == Some(p) && p.Versioned? && p.auth.operation != 1
    requires Governed(older) && Accepts(c, owner, p, Some(older))
    ensures StepRespects(c, p, older, StateOf(c, owner, envelope, p, Some(older)))
  {
    hide Read, SignersWellFormed, QuorumVerifies, HasKey, LegacyLeft, KeyFor, ProofVerifies, ProofIds;
    PartsRead(owner, envelope);
    if older.signers == [] { LegacyStep(c, owner, p, older, StateOf(c, owner, envelope, p, Some(older))); }
  }

  lemma LegacyStep(c: Crypto, owner: Bytes, p: Parts, older: IdentityState, newer: IdentityState)
    requires p.Versioned? && 2 <= p.auth.operation <= 5 && older.signers == [] && Accepts(c, owner, p, Some(older))
    requires newer.signers == p.auth.signers && newer.ownerKey == p.key
    requires newer.generation == Some(p.auth.generation) && newer.threshold == Some(p.auth.threshold)
    ensures LegacyLeft(c, p, older, newer)
  {
    hide QuorumVerifies, KeyFor;
    if p.auth.operation == 4 {
      assert ProofVerifies(c, p.update, p.proofs[0], p.auth.signers);
      var s := Signer(p.proofs[0].id.value, p.key);
      var i :| 0 <= i < |p.auth.signers| && p.auth.signers[i] == s;
    }
  }

  // ------------------------------------------------------------ whole chains

  /** Every envelope but the oldest names a predecessor. */
  ghost predicate Linked(owner: Bytes, envelopes: seq<Bytes>)
  {
    forall i | 0 <= i < |envelopes| - 1 ::
      Read(owner, envelopes[i]).Some? ==>
        Read(owner, envelopes[i]).value.Versioned? && Read(owner, envelopes[i]).value.auth.operation != 1
  }

  /** Step i of the chain, from the state behind it to its own. */
  ghost predicate StepAt(c: Crypto, owner: Bytes, envelopes: seq<Bytes>, i: nat)
    requires i + 1 < |envelopes|
  {
    var p, newer, older := Read(owner, envelopes[i]), Replay(c, owner, envelopes[i..]),
      Replay(c, owner, envelopes[i + 1..]);
    p.Some? && newer.Some? && older.Some? && StepRespects(c, p.value, older.value, newer.value)
  }

  ghost predicate StepsRespected(c: Crypto, owner: Bytes, envelopes: seq<Bytes>)
  {
    forall i: nat | i + 1 < |envelopes| :: StepAt(c, owner, envelopes, i)
  }

  lemma StepShift(c: Crypto, owner: Bytes, envelopes: seq<Bytes>, i: nat)
    requires 0 < i && i + 1 < |envelopes|
    ensures StepAt(c, owner, envelopes, i) == StepAt(c, owner, envelopes[1..], i - 1)
  {
    hide Read, Replay, StepRespects;
    var older := envelopes[1..];
    assert older[i - 1..] == envelopes[i..] && older[i..] == envelopes[i + 1..] && older[i - 1] == envelopes[i];
  }

  /**
   * For every accepted chain: the head is governed, its sequence is the anchor's plus the
   * number of predecessors, its predecessor list is the chain behind it, and every step
   * changes owner key and signer set only by the operation and the quorum meant for it.
   */
  lemma {:induction false} ChainInvariant(c: Crypto, owner: Bytes, envelopes: seq<Bytes>)
    requires Replay(c, owner, envelopes).Some? && Linked(owner, envelopes)
    ensures var s := Replay(c, owner, envelopes).value;
            && Governed(s) && s.ownerName == owner
            && s.predecessors == envelopes[1..]
            && Replay(c, owner, envelopes[|envelopes| - 1..]).Some?
            && s.sequence == Replay(c, owner, envelopes[|envelopes| - 1..]).value.sequence + |envelopes| - 1
            && StepsRespected(c, owner, envelopes)
  {
    hide Read, StepRespects, Governed, ParseEnvelope;
    var n := |envelopes|;
    if n == 1 {
      AnchorInvariant(c, owner, envelopes[0]);
      assert envelopes[0..] == envelopes;
    } else {
      var older := envelopes[1..];
      assert forall i | 0 <= i < |older| - 1 :: older[i] == envelopes[i + 1];
      ChainInvariant(c, owner, older);
      assert older[|older| - 1..] == envelopes[n - 1..];
      LinkInvariant(c, owner, envelopes[0], Replay(c, owner, older).value);
      assert StepAt(c, owner, envelopes, 0) by { assert envelopes[0..] == envelopes; }
      forall i: nat | i + 1 < n ensures StepAt(c, owner, envelopes, i) {
        if i > 0 { StepShift(c, owner, envelopes, i); }
      }
    }
  }

  lemma AnchorInvariant(c: Crypto, owner: Bytes, envelope: Bytes)
    requires ParseEnvelope(c, owner, envelope, None).Some?
    ensures var s := ParseEnvelope(c, owner, envelope, None).value;
            Governed(s) && s.ownerName == owner && s.predecessors == []
  {
    hide Governed, Read;
    GovernedKept(c, owner, envelope, None);
  }

  lemma LinkInvariant(c: Crypto, owner: Bytes, envelope: Bytes, older: IdentityState)
    requires ParseEnvelope(c, owner, envelope, Some(older)).Some? && Governed(older)
    requires Read(owner, envelope).Some? ==>
               Read(owner, envelope).value.Versioned? && Read(owner, envelope).value.auth.operation != 1
    ensures var s := ParseEnvelope(c, owner, envelope, Some(older)).value;
            && Governed(s) && s.ownerName == owner && s.predecessors == [older.envelope] + older.predecessors
            && s.sequence == older.sequence + 1
            && Read(owner, envelope).Some? && StepRespects(c, Read(owner, envelope).value, older, s)
  {
    hide Read, Governed, Accepts;
    GovernedKept(c, owner, envelope, Some(older));
    AcceptedStep(c, owner, envelope, Read(owner, envelope).value, older);
  }

  // -------------------------------------------------- the walk builds chains

  lemma PeekRead(owner: Bytes, envelope: Bytes)
    requires Read(owner, envelope).Some?
    ensures var p := Read(owner, envelope).value; Peek(envelope) == Some(if p.Versioned? then Some(p.auth) else None)
  {
    hide Loaded, DecodeUpdate, ReadProofs, KeysUpTo;
    PartsRead(owner, envelope);
    assert 1 in KeysUpTo(2) && 2 in KeysUpTo(2) && 1 in KeysUpTo(3) && 2 in KeysUpTo(3);
  }

  lemma {:induction false} WalkLinked(owner: Bytes, lookup: Lookup, envelope: Bytes, lookups: nat)
    requires lookups <= MAX_PREDECESSOR_DEPTH && Walk(lookup, envelope, lookups).Some?
    ensures Linked(owner, Walk(lookup, envelope, lookups).value)
    ensures |Walk(lookup, envelope, lookups).value| <= MAX_PREDECESSOR_DEPTH - lookups + 1
    decreases MAX_PREDECESSOR_DEPTH - lookups
  {
    hide Read, Peek;
    if Read(owner, envelope).Some? { PeekRead(owner, envelope); }
    var chain := Walk(lookup, envelope, lookups).value;
    if |chain| > 1 {
      var auth := Peek(envelope).value.value;
      var predecessor := lookup(auth.predecessor).value;
      WalkLinked(owner, lookup, predecessor, lookups + 1);
      var older := Walk(lookup, predecessor, lookups + 1).value;
      assert chain == [envelope] + older;
      assert forall i | 0 < i < |chain| - 1 :: chain[i] == older[i - 1];
    }
  }

  /** The state read from a head and its history satisfies the chain invariant. */
  lemma ReadStateInvariant(c: Crypto, owner: Bytes, head: Bytes, lookup: Lookup)
    requires ReadState(c, owner, head, lookup).Some?
    ensures var s := ReadState(c, owner, head, lookup).value;
            var chain := [head] + s.predecessors;
            && Walk(lookup, head, 0) == Some(chain) && |s.predecessors| <= MAX_PREDECESSOR_DEPTH
            && s.envelope == head && Linked(owner, chain)
            && Governed(s) && s.ownerName == owner
            && Replay(c, owner, chain[|chain| - 1..]).Some?
            && s.sequence == Replay(c, owner, chain[|chain| - 1..]).value.sequence + |s.predecessors|
            && StepsRespected(c, owner, chain)
  {
    hide Walk, Replay, Linked, Governed, StepsRespected;
    var chain := Walk(lookup, head, 0).value;
    WalkLinked(owner, lookup, head, 0);
    ChainInvariant(c, owner, chain);
    assert chain == [head] + chain[1..];
  }

  /** Walking the history and re-parsing it as carried by a draft give the same state. */
  lemma WalkEqualsCarried(c: Crypto, owner: Bytes, head: Bytes, lookup: Lookup)
    requires ReadState(c, owner, head, lookup).Some?
    ensures var s := ReadState(c, owner, head, lookup).value;
            ParseCarried(c, owner, s.envelope, s.predecessors) == Some(s)
  {
    hide Walk, Replay, Linked, Governed, StepsRespected;
    ReadStateInvariant(c, owner, head, lookup);
  }
}
