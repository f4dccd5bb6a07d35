/** The Python and Kotlin verifiers accept the same heads, up to Kotlin's byte budget. */
module VerifierAgreement {
  import opened Prelude
  import opened CborSpec
  import opened CborDecoder
  import opened Identity
  import opened ChainInvariants
  import opened ReadingAgreement
  import Kt = KotlinVerifier
  import Py = PythonVerifier

  // ------------------------------------------------- a quorum is never large

  lemma SubsetSize<T>(a: set<T>, b: set<T>)
    requires a <= b
    ensures |a| <= |b|
  {
    assert b == a + (b - a);
  }

  lemma {:induction false} OrderedIdsDistinct(proofs: seq<Proof>)
    requires ProofsOrdered(proofs)
    ensures |ProofIds(proofs)| == |proofs|
  {
    hide LexLess;
    if proofs != [] {
      var n := |proofs| - 1;
      var fewer := proofs[..n];
      OrderedIdsDistinct(fewer);
      LastIdNew(proofs);
      assert ProofIds(proofs) == ProofIds(fewer) + {proofs[n].id} by { assert proofs == fewer + [proofs[n]]; }
    }
  }

  lemma LastIdNew(proofs: seq<Proof>)
    requires ProofsOrdered(proofs) && proofs != []
    ensures proofs[|proofs| - 1].id !in ProofIds(proofs[..|proofs| - 1])
  {
    hide LexLess;
    var n := |proofs| - 1;
    forall i | 0 <= i < n ensures proofs[i].id != proofs[n].id { LexIrreflexive(ProofOrder(proofs[i])); }
  }

  function SignerIds(signers: seq<Signer>): set<Option<Bytes>>
  {
    set s | s in signers :: Some(s.id)
  }

  lemma {:induction false} SignerIdsFew(signers: seq<Signer>)
    ensures |SignerIds(signers)| <= |signers|
  {
    if signers != [] {
      SignerIdsFew(signers[1..]);
      assert signers == [signers[0]] + signers[1..];
      assert SignerIds(signers) == {Some(signers[0].id)} + SignerIds(signers[1..]);
    }
  }

  /** Proofs that all name signers of a list number at most its length, and their ids fit. */
  lemma ProofsFew(c: Crypto, update: Bytes, proofs: seq<Proof>, signers: seq<Signer>)
    requires ProofsOrdered(proofs) && SignersWellFormed(signers)
    requires forall p | p in proofs :: ProofVerifies(c, update, p, signers)
    ensures |proofs| <= |signers| && ProofIdsFit(proofs)
  {
    OrderedIdsDistinct(proofs);
    SignerIdsFew(signers);
    forall p | p in proofs ensures p.id in SignerIds(signers) && p.id.Some? && SignerIdFits(p.id.value) {
      assert ProofVerifies(c, update, p, signers);
      var s := Signer(p.id.value, KeyFor(signers, p.id.value).value);
      assert s in signers;
      var i :| 0 <= i < |signers| && signers[i] == s;
    }
    SubsetSize(ProofIds(proofs), SignerIds(signers));
  }

  // ------------------------------------------------------ transitions agree

  ghost predicate Matches(k: Kt.VerifiedState, s: Py.IdentityState)
  {
    k.envelope == s.envelope && k.ownerKey == s.ownerKey && k.sequence == s.sequence && k.stateHash == s.stateHash
    && k.generation == s.generation && k.threshold == s.threshold && k.signers == s.signers
  }

  ghost predicate PrevMatches(k: Option<Kt.VerifiedState>, s: Option<Py.IdentityState>, owner: Bytes)
  {
    if k.None? then s.None? else s.Some? && Matches(k.value, s.value) && Governed(s.value) && s.value.ownerName == owner
  }

  lemma SingleProof(c: Crypto, p: Parts)
    requires p.Versioned? && |p.proofs| == 1 && p.proofs[0].id.Some?
    requires KeyFor(p.auth.signers, p.proofs[0].id.value) == Some(p.key)
    ensures HasKey(p.auth.signers, p.key) && |ProofIds(p.proofs)| == 1
    ensures (forall q | q in p.proofs :: ProofVerifies(c, p.update, q, p.auth.signers)) <==>
              c.verify(p.key, c.sha(p.update), p.proofs[0].signature)
  {
    assert p.proofs == [p.proofs[0]];
    assert ProofIds(p.proofs) == {p.proofs[0].id};
    var s := Signer(p.proofs[0].id.value, p.key);
    assert s in p.auth.signers;
    var i :| 0 <= i < |p.auth.signers| && p.auth.signers[i] == s;
  }

  /** Over matching governed states, the two transition rules are the same rule. */
  lemma TransitionsAgree(c: Crypto, owner: Bytes, p: Parts, k: Option<Kt.VerifiedState>, s: Option<Py.IdentityState>)
    requires PrevMatches(k, s, owner)
    requires p.Versioned? ==> |p.auth.signers| == 3 && 1 <= p.auth.operation <= 5
    requires p.Legacy? ==> k.None?
    ensures (Kt.TransitionAllowed(c, p, k) && (p.Legacy? ==> c.verify(p.key, c.sha(p.update), p.signature))) <==>
              Py.Accepts(c, owner, p, s)
  {
    hide QuorumVerifies, ProofVerifies, HasKey, KeyFor, SignersWellFormed;
    if p.Versioned? && |p.proofs| == 1 && p.proofs[0].id.Some?
      && KeyFor(p.auth.signers, p.proofs[0].id.value) == Some(p.key) {
      SingleProof(c, p);
    }
  }

  lemma StatesMatch(c: Crypto, owner: Bytes, envelope: Bytes, p: Parts, k: Option<Kt.VerifiedState>,
          s: Option<Py.IdentityState>)
    ensures Matches(Kt.StateOf(c, envelope, p, k), Py.StateOf(c, owner, envelope, p, s))
  {
  }

  /** Kotlin acceptance fixes the threshold, so Python can read what Kotlin read. */
  lemma KotlinThreshold(c: Crypto, p: Parts, k: Option<Kt.VerifiedState>, s: Option<Py.IdentityState>, owner: Bytes)
    requires Kt.TransitionAllowed(c, p, k) && PrevMatches(k, s, owner) && p.Versioned?
    ensures p.auth.threshold == 2
  {
    hide QuorumVerifies, ProofVerifies, HasKey, KeyFor, SignersWellFormed;
  }

  /** Python acceptance fixes the sizes, so Kotlin can read what Python read. */
  lemma PythonSizes(c: Crypto, owner: Bytes, envelope: Bytes, p: Parts, s: Option<Py.IdentityState>)
    requires Py.Read(owner, envelope) == Some(p) && p.Versioned? && Py.Accepts(c, owner, p, s)
    requires s.Some? ==> Governed(s.value)
    ensures |p.auth.signers| == 3 && |p.proofs| <= 3 && ProofIdsFit(p.proofs)
  {
    hide Py.Read, SignersWellFormed, ProofsOrdered, Py.ProofsAllowed, ProofIdsFit, Py.ShapeAllowed, Py.DecodeUpdate,
         Governed;
    PartsRead(owner, envelope);
    ShapeIsTwoOfThree(owner, p, s);
    ProofSizes(c, p, s);
  }

  lemma ProofSizes(c: Crypto, p: Parts, s: Option<Py.IdentityState>)
    requires p.Versioned? && Py.ProofsAllowed(c, p, s) && ProofsOrdered(p.proofs) && SignersWellFormed(p.auth.signers)
    requires s.Some? ==> Governed(s.value)
    ensures |p.auth.signers| == 3 ==> |p.proofs| <= 3
    ensures ProofIdsFit(p.proofs)
  {
    hide SignersWellFormed, KeyFor, ProofsOrdered, ProofVerifies, SignersDistinct;
    if p.auth.operation == 4 {
      ProofsFew(c, p.update, p.proofs, p.auth.signers);
    } else if p.auth.operation == 5 && s.Some? && s.value.signers == [] {
    } else if p.auth.operation == 1 {
      ProofsFew(c, p.update, p.proofs, p.auth.signers);
    } else if s.Some? && s.value.signers != [] {
      ProofsFew(c, p.update, p.proofs, s.value.signers);
    } else {
      NoSignersNoProofs(c, p.update, p.proofs);
    }
  }

  lemma NoSignersNoProofs(c: Crypto, update: Bytes, proofs: seq<Proof>)
    requires forall p | p in proofs :: ProofVerifies(c, update, p, [])
    ensures proofs == []
  {
    hide ProofVerifies;
    if proofs != [] { VerifiesForSomeone(c, update, proofs[0], []); }
  }

  lemma VerifiesForSomeone(c: Crypto, update: Bytes, p: Proof, signers: seq<Signer>)
    ensures ProofVerifies(c, update, p, signers) ==> signers != []
  {
  }

  // ----------------------------------------------------------- one envelope

  /** Reading and transition rule together, from the Kotlin side. */
  lemma KotlinStep(c: Crypto, owner: Bytes, envelope: Bytes, k: Option<Kt.VerifiedState>, s: Option<Py.IdentityState>)
    requires Utf8Valid(owner) && PrevMatches(k, s, owner)
    requires Kt.Parse(c, owner, envelope).Some? && Kt.TransitionAllowed(c, Kt.Parse(c, owner, envelope).value, k)
    ensures Py.Read(owner, envelope) == Kt.Parse(c, owner, envelope)
    ensures Py.ParseEnvelope(c, owner, envelope, s).Some?
    ensures Matches(Kt.StateOf(c, envelope, Kt.Parse(c, owner, envelope).value, k),
              Py.ParseEnvelope(c, owner, envelope, s).value)
  {
    hide Kt.Read, Py.Read, Kt.TransitionAllowed, Py.Accepts, Kt.StateOf, Py.StateOf, PrevMatches, Matches, Utf8Valid;
    var p := Kt.Read(owner, envelope).value;
    if p.Versioned? { KotlinThreshold(c, p, k, s, owner); }
    KotlinReadIsPython(owner, envelope);
    PartsRead(owner, envelope);
    KotlinSignerCount(owner, envelope);
    LegacyHasNoPrevious(c, p, k);
    TransitionsAgree(c, owner, p, k, s);
    StatesMatch(c, owner, envelope, p, k, s);
  }

  lemma LegacyHasNoPrevious(c: Crypto, p: Parts, k: Option<Kt.VerifiedState>)
    requires Kt.TransitionAllowed(c, p, k)
    ensures p.Legacy? ==> k.None?
  {
  }

  lemma KotlinSignerCount(owner: Bytes, envelope: Bytes)
    requires Kt.Read(owner, envelope).Some?
    ensures var p := Kt.Read(owner, envelope).value; p.Versioned? ==> |p.auth.signers| == 3
  {
    hide Decoded, Fields, Kt.ReadRecord, Kt.ReadProofs, Kt.ReadLegacy;
  }

  /** And from the Python side, for an envelope within Kotlin's size limit. */
  lemma PythonStep(c: Crypto, owner: Bytes, envelope: Bytes, k: Option<Kt.VerifiedState>, s: Option<Py.IdentityState>)
    requires Utf8Valid(owner) && PrevMatches(k, s, owner) && |envelope| <= MAX_ENCODED_BYTES
    requires Py.ParseEnvelope(c, owner, envelope, s).Some?
    requires Py.Read(owner, envelope).Some? && Py.Read(owner, envelope).value.Legacy? ==> k.None?
    ensures Kt.Parse(c, owner, envelope) == Py.Read(owner, envelope)
    ensures Kt.Parse(c, owner, envelope).Some? && Kt.TransitionAllowed(c, Kt.Parse(c, owner, envelope).value, k)
    ensures Matches(Kt.StateOf(c, envelope, Kt.Parse(c, owner, envelope).value, k),
              Py.ParseEnvelope(c, owner, envelope, s).value)
  {
    hide Kt.Read, Py.Read, Kt.TransitionAllowed, Py.Accepts, Kt.StateOf, Py.StateOf, Matches, Utf8Valid, Governed,
         ProofIdsFit, SignersWellFormed, ProofsOrdered;
    var p := Py.Read(owner, envelope).value;
    PartsRead(owner, envelope);
    if p.Versioned? { PythonSizes(c, owner, envelope, p, s); }
    PythonReadIsKotlin(owner, envelope);
    TransitionsAgree(c, owner, p, k, s);
    StatesMatch(c, owner, envelope, p, k, s);
  }

  // ------------------------------------------------------------ whole chains

  /** Kotlin's byte budget, for the envelopes behind one already counted. */
  ghost predicate BudgetHolds(envelopes: seq<Bytes>, total: nat)
  {
    envelopes == [] || (Kt.WithinBudget(|envelopes[0]|, total) && BudgetHolds(envelopes[1..], total + |envelopes[0]|))
  }

  function TotalBytes(envelopes: seq<Bytes>): nat
  {
    if envelopes == [] then 0 else |envelopes[0]| + TotalBytes(envelopes[1..])
  }

  /** A chain within the budget holds at most four mebibytes in all, and no envelope more than one. */
  lemma {:induction false} BudgetBounds(envelopes: seq<Bytes>, total: nat)
    requires BudgetHolds(envelopes, total)
    ensures envelopes != [] ==> total + TotalBytes(envelopes) <= Kt.MAX_HISTORY_TOTAL_BYTES
    ensures forall i | 0 <= i < |envelopes| :: 0 < |envelopes[i]| <= MAX_ENCODED_BYTES
  {
    if envelopes != [] {
      BudgetBounds(envelopes[1..], total + |envelopes[0]|);
      assert forall i | 0 < i < |envelopes| :: envelopes[i] == envelopes[1..][i - 1];
    }
  }

  ghost function UpdateHash(c: Crypto, owner: Bytes, envelope: Bytes): Bytes
  {
    if Py.Read(owner, envelope).Some? then c.sha(Py.Read(owner, envelope).value.update) else []
  }

  /** No state hash on the chain repeats, nor is one of those already visited. */
  ghost predicate HashesFresh(c: Crypto, owner: Bytes, envelopes: seq<Bytes>, visited: set<Bytes>)
  {
    envelopes == [] ||
    (UpdateHash(c, owner, envelopes[0]) !in visited
     && HashesFresh(c, owner, envelopes[1..], visited + {UpdateHash(c, owner, envelopes[0])}))
  }

  // One step of each walk and each replay.

  lemma KotlinWalked(c: Crypto, owner: Bytes, lookup: Lookup, envelope: Bytes, lookups: nat, visited: set<Bytes>,
          total: nat)
    requires lookups <= MAX_PREDECESSOR_DEPTH && Kt.Walk(c, owner, lookup, envelope, lookups, visited, total).Some?
    ensures var p, links := Kt.Parse(c, owner, envelope),
              Kt.Walk(c, owner, lookup, envelope, lookups, visited, total).value;
            && p.Some? && c.sha(p.value.update) !in visited
            && if Kt.IsAnchor(p.value) then links == [Kt.Link(envelope, p.value)]
               else
                 && lookups < MAX_PREDECESSOR_DEPTH && lookup(p.value.auth.predecessor).Some?
                 && var predecessor := lookup(p.value.auth.predecessor).value;
                 var older := Kt.Walk(c, owner, lookup, predecessor, lookups + 1, visited + {c.sha(p.value.update)},
                   total + |predecessor|);
                 Kt.WithinBudget(|predecessor|, total) && older.Some?
                   && links == [Kt.Link(envelope, p.value)] + older.value
  {
    hide Kt.Parse, Kt.WithinBudget;
  }

  lemma KotlinReplayed(c: Crypto, link: Kt.Link, older: seq<Kt.Link>)
    requires older != []
    ensures var prev := Kt.Replay(c, older);
            Kt.Replay(c, [link] + older) ==
            if prev.Some? && Kt.TransitionAllowed(c, link.parts, prev) then
              Some(Kt.StateOf(c, link.envelope, link.parts, prev)) else None
  {
    hide Kt.TransitionAllowed, Kt.StateOf;
    assert ([link] + older)[1..] == older;
  }

  lemma PythonWalked(lookup: Lookup, envelope: Bytes, lookups: nat)
    requires lookups <= MAX_PREDECESSOR_DEPTH && Py.Peek(envelope).Some?
    ensures var auth := Py.Peek(envelope).value;
            Py.Walk(lookup, envelope, lookups) ==
            if auth.None? || auth.value.operation == 1 then Some([envelope])
            else if lookups >= MAX_PREDECESSOR_DEPTH || lookup(auth.value.predecessor).None? then None
            else
              var older := Py.Walk(lookup, lookup(auth.value.predecessor).value, lookups + 1);
              if older.Some? then Some([envelope] + older.value) else None
  {
    hide Py.Peek;
  }

  lemma PythonReplayed(c: Crypto, owner: Bytes, envelope: Bytes, older: seq<Bytes>)
    requires older != []
    ensures var prev := Py.Replay(c, owner, older);
            Py.Replay(c, owner, [envelope] + older) == if prev.Some? then Py.ParseEnvelope(c, owner, envelope, prev)
              else None
  {
    hide Py.ParseEnvelope;
    assert ([envelope] + older)[1..] == older;
  }

  lemma Alone(c: Crypto, owner: Bytes, link: Kt.Link)
    ensures Kt.Replay(c, [link]) == if Kt.TransitionAllowed(c, link.parts, None) then
              Some(Kt.StateOf(c, link.envelope, link.parts, None)) else None
    ensures Py.Replay(c, owner, [link.envelope]) == Py.ParseEnvelope(c, owner, link.envelope, None)
    ensures Kt.Envelopes([link]) == [link.envelope]
  {
    hide Kt.TransitionAllowed, Kt.StateOf, Py.ParseEnvelope;
    assert [link][1..] == [];
  }

  lemma FreshFirst(c: Crypto, owner: Bytes, envelope: Bytes, older: seq<Bytes>, visited: set<Bytes>)
    ensures var h := UpdateHash(c, owner, envelope);
            HashesFresh(c, owner, [envelope] + older, visited) <==>
              h !in visited && HashesFresh(c, owner, older, visited + {h})
    ensures ([envelope] + older)[1..] == older && [envelope][1..] == []
  {
    hide UpdateHash;
    assert ([envelope] + older)[1..] == older;
  }

  lemma FreshAlone(c: Crypto, owner: Bytes, envelope: Bytes, visited: set<Bytes>)
    ensures HashesFresh(c, owner, [envelope], visited) <==> UpdateHash(c, owner, envelope) !in visited
  {
    hide UpdateHash;
    assert [envelope][1..] == [];
  }

  /** From Kotlin to Python, with the budget and the fresh hashes Kotlin insisted on. */
  lemma {:induction false} KotlinChain(c: Crypto, owner: Bytes, lookup: Lookup, envelope: Bytes, lookups: nat,
          visited: set<Bytes>, total: nat)
    requires Utf8Valid(owner) && lookups <= MAX_PREDECESSOR_DEPTH
    requires Kt.Walk(c, owner, lookup, envelope, lookups, visited, total).Some?
    requires Kt.Replay(c, Kt.Walk(c, owner, lookup, envelope, lookups, visited, total).value).Some?
    ensures var links := Kt.Walk(c, owner, lookup, envelope, lookups, visited, total).value;
            var envelopes := Kt.Envelopes(links);
            && Py.Walk(lookup, envelope, lookups) == Some(envelopes)
            && Py.Replay(c, owner, envelopes).Some?
            && PrevMatches(Kt.Replay(c, links), Py.Replay(c, owner, envelopes), owner)
            && BudgetHolds(envelopes[1..], total) && HashesFresh(c, owner, envelopes, visited)
    decreases MAX_PREDECESSOR_DEPTH - lookups
  {
    hide Kt.Parse, Kt.TransitionAllowed, Kt.StateOf, Py.Read, Py.Peek, Py.ParseEnvelope, Governed, Matches,
      Kt.WithinBudget, Utf8Valid,
      Kt.Walk, Kt.Replay, Py.Walk, Py.Replay, HashesFresh, Kt.Envelopes;
    KotlinWalked(c, owner, lookup, envelope, lookups, visited, total);
    var p := Kt.Parse(c, owner, envelope).value;
    var link := Kt.Link(envelope, p);
    if Kt.IsAnchor(p) {
      Alone(c, owner, link);
      KotlinStep(c, owner, envelope, None, None);
      PeekRead(owner, envelope);
      PythonWalked(lookup, envelope, lookups);
      AnchorInvariant(c, owner, envelope);
      FreshAlone(c, owner, envelope, visited);
    } else {
      var predecessor := lookup(p.auth.predecessor).value;
      var older := Kt.Walk(c, owner, lookup, predecessor, lookups + 1, visited + {c.sha(p.update)},
        total + |predecessor|).value;
      KotlinReplayed(c, link, older);
      KotlinChain(c, owner, lookup, predecessor, lookups + 1, visited + {c.sha(p.update)}, total + |predecessor|);
      var k, s := Kt.Replay(c, older), Py.Replay(c, owner, Kt.Envelopes(older));
      KotlinStep(c, owner, envelope, k, s);
      PeekRead(owner, envelope);
      PythonWalked(lookup, envelope, lookups);
      LinkInvariant(c, owner, envelope, s.value);
      EnvelopesFirst(link, older);
      PythonReplayed(c, owner, envelope, Kt.Envelopes(older));
      FreshFirst(c, owner, envelope, Kt.Envelopes(older), visited);
      assert Kt.Envelopes(older)[0] == predecessor;
    }
  }

  lemma EnvelopesFirst(link: Kt.Link, older: seq<Kt.Link>)
    requires older != []
    ensures Kt.Envelopes([link] + older) == [link.envelope] + Kt.Envelopes(older)
    ensures Kt.Envelopes(older)[0] == older[0].envelope
  {
    assert ([link] + older)[1..] == older;
  }

  /** From Python to Kotlin, given that budget and those hashes. */
  lemma {:induction false} PythonChain(c: Crypto, owner: Bytes, lookup: Lookup, envelope: Bytes, lookups: nat,
          visited: set<Bytes>, total: nat)
    requires Utf8Valid(owner) && lookups <= MAX_PREDECESSOR_DEPTH && |envelope| <= MAX_ENCODED_BYTES
    requires Py.Walk(lookup, envelope, lookups).Some?
    requires Py.Replay(c, owner, Py.Walk(lookup, envelope, lookups).value).Some?
    requires BudgetHolds(Py.Walk(lookup, envelope, lookups).value[1..], total)
    requires HashesFresh(c, owner, Py.Walk(lookup, envelope, lookups).value, visited)
    ensures var envelopes := Py.Walk(lookup, envelope, lookups).value;
            var r := Kt.Walk(c, owner, lookup, envelope, lookups, visited, total);
            && r.Some? && Kt.Envelopes(r.value) == envelopes
            && Kt.Replay(c, r.value).Some?
            && PrevMatches(Kt.Replay(c, r.value), Py.Replay(c, owner, envelopes), owner)
    decreases MAX_PREDECESSOR_DEPTH - lookups
  {
    hide Kt.Parse, Kt.TransitionAllowed, Kt.StateOf, Py.Read, Py.Peek, Py.ParseEnvelope, Governed, Matches, Utf8Valid,
      Linked, StepRespects,
      Kt.Walk, Kt.Replay, Py.Walk, Py.Replay, HashesFresh, Kt.Envelopes;
    var envelopes := Py.Walk(lookup, envelope, lookups).value;
    ParsedIsRead(c, owner, envelopes);
    PeekRead(owner, envelope);
    PythonWalked(lookup, envelope, lookups);
    var p := Py.Read(owner, envelope).value;
    var link := Kt.Link(envelope, p);
    if Kt.IsAnchor(p) {
      Alone(c, owner, link);
      PythonStep(c, owner, envelope, None, None);
      AnchorInvariant(c, owner, envelope);
      FreshAlone(c, owner, envelope, visited);
      KotlinAnchored(c, owner, lookup, envelope, lookups, visited, total);
    } else {
      var predecessor := lookup(p.auth.predecessor).value;
      var older := Py.Walk(lookup, predecessor, lookups + 1).value;
      FreshFirst(c, owner, envelope, older, visited);
      PythonReplayed(c, owner, envelope, older);
      PythonChain(c, owner, lookup, predecessor, lookups + 1, visited + {c.sha(p.update)}, total + |predecessor|);
      var links := Kt.Walk(c, owner, lookup, predecessor, lookups + 1, visited + {c.sha(p.update)},
        total + |predecessor|).value;
      var k, s := Kt.Replay(c, links), Py.Replay(c, owner, older);
      PythonStep(c, owner, envelope, k, s);
      LinkInvariant(c, owner, envelope, s.value);
      KotlinReplayed(c, link, links);
      EnvelopesFirst(link, links);
      KotlinLinked(c, owner, lookup, envelope, lookups, visited, total, p, predecessor, links);
    }
  }

  lemma KotlinAnchored(c: Crypto, owner: Bytes, lookup: Lookup, envelope: Bytes, lookups: nat, visited: set<Bytes>,
          total: nat)
    requires lookups <= MAX_PREDECESSOR_DEPTH && Kt.Parse(c, owner, envelope).Some?
    requires Kt.IsAnchor(Kt.Parse(c, owner, envelope).value)
    requires c.sha(Kt.Parse(c, owner, envelope).value.update) !in visited
    ensures Kt.Walk(c, owner, lookup, envelope, lookups, visited, total)
              == Some([Kt.Link(envelope, Kt.Parse(c, owner, envelope).value)])
  {
    hide Kt.Parse;
  }

  lemma KotlinLinked(
    c: Crypto, owner: Bytes, lookup: Lookup, envelope: Bytes, lookups: nat, visited: set<Bytes>, total: nat, p: Parts,
    predecessor: Bytes, older: seq<Kt.Link>)
    requires lookups < MAX_PREDECESSOR_DEPTH && Kt.Parse(c, owner, envelope) == Some(p) && !Kt.IsAnchor(p)
    requires c.sha(p.update) !in visited
    requires lookup(p.auth.predecessor) == Some(predecessor) && Kt.WithinBudget(|predecessor|, total)
    requires Kt.Walk(c, owner, lookup, predecessor, lookups + 1, visited + {c.sha(p.update)}, total + |predecessor|)
               == Some(older)
    ensures Kt.Walk(c, owner, lookup, envelope, lookups, visited, total) == Some([Kt.Link(envelope, p)] + older)
  {
    hide Kt.Parse, Kt.WithinBudget;
  }

  lemma ParsedIsRead(c: Crypto, owner: Bytes, envelopes: seq<Bytes>)
    requires Py.Replay(c, owner, envelopes).Some?
    ensures Py.Read(owner, envelopes[0]).Some?
  {
    hide Py.Read, Py.Accepts;
  }

  // ------------------------------------------------ repeated hashes collide

  /** Two different updates on the chain with one hash. */
  ghost predicate Collision(c: Crypto, owner: Bytes, envelopes: seq<Bytes>)
  {
    exists i, j :: 0 <= i < j < |envelopes| && Collides(c, owner, envelopes[i], envelopes[j])
  }

  ghost predicate Collides(c: Crypto, owner: Bytes, a: Bytes, b: Bytes)
  {
    && Py.Read(owner, a).Some? && Py.Read(owner, b).Some?
    && Py.Read(owner, a).value.update != Py.Read(owner, b).value.update
    && c.sha(Py.Read(owner, a).value.update) == c.sha(Py.Read(owner, b).value.update)
  }

  lemma {:induction false} FreshMeansDistinct(c: Crypto, owner: Bytes, envelopes: seq<Bytes>, visited: set<Bytes>)
    ensures HashesFresh(c, owner, envelopes, visited) <==>
            && (forall i | 0 <= i < |envelopes| :: UpdateHash(c, owner, envelopes[i]) !in visited)
            && (forall i, j | 0 <= i < j < |envelopes| ::
                 UpdateHash(c, owner, envelopes[i]) != UpdateHash(c, owner, envelopes[j]))
  {
    hide UpdateHash;
    if envelopes != [] {
      var h := UpdateHash(c, owner, envelopes[0]);
      FreshMeansDistinct(c, owner, envelopes[1..], visited + {h});
      assert forall i | 0 < i < |envelopes| :: envelopes[i] == envelopes[1..][i - 1];
      assert forall i | 0 <= i < |envelopes| - 1 :: envelopes[1..][i] == envelopes[i + 1];
    }
  }

  /** Along an accepted chain the update at distance i carries the head's sequence minus i. */
  lemma {:induction false} SequencesDescend(c: Crypto, owner: Bytes, envelopes: seq<Bytes>, i: nat)
    requires Py.Replay(c, owner, envelopes).Some? && Linked(owner, envelopes) && i < |envelopes|
    ensures Py.Read(owner, envelopes[i]).Some?
    ensures Py.Read(owner, envelopes[i]).value.sequence + i == Py.Replay(c, owner, envelopes).value.sequence
  {
    hide Py.Read, Py.Accepts, StepRespects, Governed;
    if i > 0 {
      var older := envelopes[1..];
      assert forall j | 0 <= j < |older| - 1 :: older[j] == envelopes[j + 1];
      SequencesDescend(c, owner, older, i - 1);
      ChainInvariant(c, owner, older);
      LinkInvariant(c, owner, envelopes[0], Py.Replay(c, owner, older).value);
    }
  }

  lemma UpdatesDiffer(c: Crypto, owner: Bytes, envelopes: seq<Bytes>, i: nat, j: nat)
    requires Py.Replay(c, owner, envelopes).Some? && Linked(owner, envelopes) && i < j < |envelopes|
    ensures Py.Read(owner, envelopes[i]).Some? && Py.Read(owner, envelopes[j]).Some?
    ensures Py.Read(owner, envelopes[i]).value.update != Py.Read(owner, envelopes[j]).value.update
  {
    hide Py.Read, Py.DecodeUpdate, Py.Replay, Linked;
    SequencesDescend(c, owner, envelopes, i);
    SequencesDescend(c, owner, envelopes, j);
    PartsRead(owner, envelopes[i]);
    PartsRead(owner, envelopes[j]);
  }

  /** So a repeated hash on a chain that replays is always a real collision. */
  lemma RepeatIsCollision(c: Crypto, owner: Bytes, envelopes: seq<Bytes>)
    requires Py.Replay(c, owner, envelopes).Some? && Linked(owner, envelopes)
    ensures HashesFresh(c, owner, envelopes, {}) <==> !Collision(c, owner, envelopes)
  {
    hide Py.Read, Py.Replay, Linked, HashesFresh;
    FreshMeansDistinct(c, owner, envelopes, {});
    forall i, j | 0 <= i < j < |envelopes|
      ensures UpdateHash(c, owner, envelopes[i]) == UpdateHash(c, owner, envelopes[j]) <==>
                Collides(c, owner, envelopes[i], envelopes[j])
    {
      UpdatesDiffer(c, owner, envelopes, i, j);
    }
  }

  // ----------------------------------------------------------- main theorem

  /**
   * For every head and every lookup: Kotlin accepts exactly when Python accepts, the chain
   * fits Kotlin's byte budget, and no two of its updates collide under the hash; and then
   * both give the same owner key, sequence, hash, generation, threshold, signers and
   * predecessor list.
   */
  lemma VerifiersAgree(c: Crypto, owner: Bytes, head: Bytes, lookup: Lookup)
    ensures var k, s := Kt.Resolve(c, owner, head, lookup), Py.ReadState(c, owner, head, lookup);
            && (k.Some? <==>
                 s.Some? && BudgetHolds([head] + s.value.predecessors, 0)
                   && !Collision(c, owner, [head] + s.value.predecessors))
            && (k.Some? ==> Matches(k.value.state, s.value) && k.value.predecessors == s.value.predecessors)
  {
    hide Kt.Walk, Kt.Replay, Py.Walk, Py.Replay, Utf8Valid, Collision, HashesFresh, Governed, Matches, StepsRespected,
         Linked;
    if owner != [] && Utf8Valid(owner) {
      if Kt.Resolve(c, owner, head, lookup).Some? { KotlinAccepts(c, owner, head, lookup); }
      if Py.ReadState(c, owner, head, lookup).Some? { PythonAccepts(c, owner, head, lookup); }
    }
  }

  lemma KotlinAccepts(c: Crypto, owner: Bytes, head: Bytes, lookup: Lookup)
    requires Kt.Resolve(c, owner, head, lookup).Some?
    ensures var k, s := Kt.Resolve(c, owner, head, lookup).value, Py.ReadState(c, owner, head, lookup);
            && s.Some? && Matches(k.state, s.value) && k.predecessors == s.value.predecessors
            && BudgetHolds([head] + s.value.predecessors, 0) && !Collision(c, owner, [head] + s.value.predecessors)
  {
    hide Kt.Walk, Kt.Replay, Py.Walk, Py.Replay, Utf8Valid, Collision, HashesFresh, Governed, Matches, StepsRespected,
         Linked, Kt.WithinBudget;
    KotlinChain(c, owner, lookup, head, 0, {}, |head|);
    var links := Kt.Walk(c, owner, lookup, head, 0, {}, |head|).value;
    EnvelopesTail(links);
    ReadStateInvariant(c, owner, head, lookup);
    var s := Py.ReadState(c, owner, head, lookup).value;
    var chain := [head] + s.predecessors;
    assert chain[1..] == s.predecessors;
    RepeatIsCollision(c, owner, chain);
  }

  lemma EnvelopesTail(links: seq<Kt.Link>)
    requires links != []
    ensures Kt.Envelopes(links) == [links[0].envelope] + Kt.Envelopes(links[1..])
    ensures Kt.Envelopes(links)[1..] == Kt.Envelopes(links[1..])
  {
  }

  lemma PythonAccepts(c: Crypto, owner: Bytes, head: Bytes, lookup: Lookup)
    requires Py.ReadState(c, owner, head, lookup).Some?
    ensures var s := Py.ReadState(c, owner, head, lookup).value;
            BudgetHolds([head] + s.predecessors, 0) && !Collision(c, owner, [head] + s.predecessors)
            ==> Kt.Resolve(c, owner, head, lookup).Some?
  {
    hide Kt.Walk, Kt.Replay, Py.Walk, Py.Replay, Utf8Valid, Collision, HashesFresh, Governed, Matches, StepsRespected,
         Linked;
    ReadStateInvariant(c, owner, head, lookup);
    var s := Py.ReadState(c, owner, head, lookup).value;
    var chain := [head] + s.predecessors;
    assert chain[1..] == s.predecessors;
    if BudgetHolds(chain, 0) && !Collision(c, owner, chain) {
      RepeatIsCollision(c, owner, chain);
      PythonChain(c, owner, lookup, head, 0, {}, |head|);
    }
  }
}
