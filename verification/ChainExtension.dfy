/** Putting one more envelope in front of an accepted chain. */
module ChainExtension {
  import opened Prelude
  import opened Identity
  import opened ChainInvariants
  import opened VerifierAgreement
  import Kt = KotlinVerifier
  import Py = PythonVerifier

  /** The hash an envelope asks its history for. */
  ghost function Asks(envelope: Bytes): Bytes
  {
    if Py.Peek(envelope).Some? && Py.Peek(envelope).value.Some? then Py.Peek(envelope).value.value.predecessor else []
  }

  /** A walk depends on its lookup only at the hashes it asks for, and on its start only through the depth limit. */
  lemma {:induction false} WalkMoved(lookup: Lookup, other: Lookup, envelope: Bytes, n: nat, m: nat)
    requires n <= MAX_PREDECESSOR_DEPTH && m <= MAX_PREDECESSOR_DEPTH && Py.Walk(lookup, envelope, n).Some?
    requires var chain := Py.Walk(lookup, envelope, n).value;
             forall i | 0 <= i < |chain| - 1 :: other(Asks(chain[i])) == lookup(Asks(chain[i]))
    ensures var chain := Py.Walk(lookup, envelope, n).value;
            Py.Walk(other, envelope, m) == if m + |chain| - 1 <= MAX_PREDECESSOR_DEPTH then Some(chain) else None
    decreases MAX_PREDECESSOR_DEPTH - n
  {
    hide Py.Peek;
    var chain := Py.Walk(lookup, envelope, n).value;
    if |chain| > 1 {
      assert Asks(chain[0]) == Py.Peek(envelope).value.value.predecessor;
      var predecessor := lookup(Asks(envelope)).value;
      var older := Py.Walk(lookup, predecessor, n + 1).value;
      assert chain == [envelope] + older;
      forall i | 0 <= i < |older| - 1 ensures other(Asks(older[i])) == lookup(Asks(older[i])) {
        assert older[i] == chain[i + 1];
      }
      if m < MAX_PREDECESSOR_DEPTH { WalkMoved(lookup, other, predecessor, n + 1, m + 1); }
    }
  }

  /** Inside an accepted chain every envelope asks for the hash of the one behind it. */
  lemma ChainAsks(c: Crypto, owner: Bytes, chain: seq<Bytes>, i: nat)
    requires StepsRespected(c, owner, chain) && i + 1 < |chain|
    ensures Asks(chain[i]) == UpdateHash(c, owner, chain[i + 1])
  {
    hide Py.Read, Py.Peek, Governed, Py.Accepts;
    assert StepAt(c, owner, chain, i);
    PeekRead(owner, chain[i]);
    assert chain[i + 1..][0] == chain[i + 1];
    ReplayedHash(c, owner, chain[i + 1..]);
  }

  lemma ReplayedHash(c: Crypto, owner: Bytes, chain: seq<Bytes>)
    requires Py.Replay(c, owner, chain).Some?
    ensures Py.Replay(c, owner, chain).value.stateHash == UpdateHash(c, owner, chain[0])
  {
    hide Py.Read, Py.Accepts;
  }

  /** Behind a new head, the walk from the old one finds the chain it found before. */
  lemma HeadWalk(c: Crypto, owner: Bytes, head: Bytes, lookup: Lookup)
    requires Py.ReadState(c, owner, head, lookup).Some?
    requires !Collision(c, owner, [head] + Py.ReadState(c, owner, head, lookup).value.predecessors)
    ensures var s := Py.ReadState(c, owner, head, lookup).value;
            Py.Walk(Kt.PredecessorFirst(s.stateHash, head, lookup), head, 1)
            == if |s.predecessors| < MAX_PREDECESSOR_DEPTH then Some([head] + s.predecessors) else None
  {
    hide Py.Read, Py.Peek, Collision, StepsRespected, Linked, Governed, Py.Replay, HashesFresh, Asks;
    var s := Py.ReadState(c, owner, head, lookup).value;
    var chain, other := [head] + s.predecessors, Kt.PredecessorFirst(s.stateHash, head, lookup);
    ReadStateInvariant(c, owner, head, lookup);
    RepeatIsCollision(c, owner, chain);
    FreshMeansDistinct(c, owner, chain, {});
    ReplayedHash(c, owner, chain);
    forall i: nat | i < |chain| - 1 ensures other(Asks(chain[i])) == lookup(Asks(chain[i])) {
      ChainAsks(c, owner, chain, i);
    }
    WalkMoved(lookup, other, head, 0, 1);
  }

  lemma ExtendedWalk(c: Crypto, owner: Bytes, envelope: Bytes, head: Bytes, lookup: Lookup)
    requires Py.ReadState(c, owner, head, lookup).Some? && Py.Read(owner, envelope).Some?
    requires var p, s := Py.Read(owner, envelope).value, Py.ReadState(c, owner, head, lookup).value;
             && p.Versioned? && p.auth.operation != 1 && p.auth.predecessor == s.stateHash
             && !Collision(c, owner, [head] + s.predecessors)
    ensures var s := Py.ReadState(c, owner, head, lookup).value;
            Py.Walk(Kt.PredecessorFirst(s.stateHash, head, lookup), envelope, 0)
            == if |s.predecessors| < MAX_PREDECESSOR_DEPTH then Some([envelope, head] + s.predecessors) else None
  {
    hide Py.Read, Py.Peek, Collision, Py.ReadState;
    var s := Py.ReadState(c, owner, head, lookup).value;
    PeekRead(owner, envelope);
    HeadWalk(c, owner, head, lookup);
    assert [envelope] + ([head] + s.predecessors) == [envelope, head] + s.predecessors;
  }

  /** So an accepted step in front of an accepted state is itself read back, unless the depth is used up. */
  lemma ExtendedState(c: Crypto, owner: Bytes, envelope: Bytes, head: Bytes, lookup: Lookup)
    requires Py.ReadState(c, owner, head, lookup).Some? && Py.Read(owner, envelope).Some?
    requires var p, s := Py.Read(owner, envelope).value, Py.ReadState(c, owner, head, lookup).value;
             && p.Versioned? && p.auth.operation != 1 && Py.Accepts(c, owner, p, Some(s))
             && !Collision(c, owner, [head] + s.predecessors)
    ensures var p, s := Py.Read(owner, envelope).value, Py.ReadState(c, owner, head, lookup).value;
            Py.ReadState(c, owner, envelope, Kt.PredecessorFirst(s.stateHash, head, lookup))
            == if |s.predecessors| < MAX_PREDECESSOR_DEPTH then Some(Py.StateOf(c, owner, envelope, p, Some(s)))
                else None
  {
    hide Py.Read, Py.Walk, Collision, Py.StateOf, Py.Accepts;
    var p, s := Py.Read(owner, envelope).value, Py.ReadState(c, owner, head, lookup).value;
    AcceptedAsks(c, owner, p, s);
    ExtendedWalk(c, owner, envelope, head, lookup);
    var chain := [envelope, head] + s.predecessors;
    HeadReplays(c, owner, head, lookup);
    assert chain[1..] == [head] + s.predecessors;
  }

  lemma HeadReplays(c: Crypto, owner: Bytes, head: Bytes, lookup: Lookup)
    requires Py.ReadState(c, owner, head, lookup).Some?
    ensures var s := Py.ReadState(c, owner, head, lookup).value; Py.Replay(c, owner, [head] + s.predecessors) == Some(s)
  {
    hide Py.Walk, Py.Replay, StepsRespected, Linked, Governed;
    ReadStateInvariant(c, owner, head, lookup);
  }

  lemma AcceptedAsks(c: Crypto, owner: Bytes, p: Parts, s: Py.IdentityState)
    requires p.Versioned? && p.auth.operation != 1 && Py.Accepts(c, owner, p, Some(s))
    ensures p.auth.predecessor == s.stateHash
  {
    hide ProofVerifies, QuorumVerifies, HasKey, KeyFor;
  }

  // ------------------------------------------------------------------ Kotlin

  /** A resolved head, seen by both verifiers. */
  lemma HeadMatches(c: Crypto, owner: Bytes, head: Bytes, lookup: Lookup)
    requires Kt.Resolve(c, owner, head, lookup).Some?
    ensures var k, s := Kt.Resolve(c, owner, head, lookup).value, Py.ReadState(c, owner, head, lookup);
            && Utf8Valid(owner) && s.Some? && PrevMatches(Some(k.state), s, owner)
            && k.predecessors == s.value.predecessors
            && !Collision(c, owner, [head] + k.predecessors)
  {
    hide Kt.Walk, Kt.Replay, Py.ReadState, BudgetHolds, Collision, StepsRespected, Linked, Governed, Matches, Utf8Valid;
    VerifiersAgree(c, owner, head, lookup);
    ReadStateInvariant(c, owner, head, lookup);
  }

  /** What the transition rule and the next state depend on. */
  predicate SameState(j: Kt.VerifiedState, k: Kt.VerifiedState)
  {
    j.ownerKey == k.ownerKey && j.sequence == k.sequence && j.stateHash == k.stateHash
    && j.generation == k.generation && j.threshold == k.threshold && j.signers == k.signers
  }

  lemma SameStateSame(c: Crypto, envelope: Bytes, p: Parts, j: Kt.VerifiedState, k: Kt.VerifiedState)
    requires SameState(j, k)
    ensures Kt.TransitionAllowed(c, p, Some(j)) == Kt.TransitionAllowed(c, p, Some(k))
    ensures Kt.StateOf(c, envelope, p, Some(j)) == Kt.StateOf(c, envelope, p, Some(k))
  {
    hide QuorumVerifies, HasKey, KeyFor;
  }

  lemma ResolvedOnce(c: Crypto, owner: Bytes, envelope: Bytes, head: Bytes, other: Lookup)
    requires Kt.Resolve(c, owner, envelope, other).Some? && Kt.Parse(c, owner, envelope).Some?
    requires var p := Kt.Parse(c, owner, envelope).value; !Kt.IsAnchor(p) && other(p.auth.predecessor) == Some(head)
    ensures var p := Kt.Parse(c, owner, envelope).value;
            var older := Kt.Walk(c, owner, other, head, 1, {c.sha(p.update)}, |envelope| + |head|);
            && older.Some? && Kt.Replay(c, older.value).Some?
            && Kt.TransitionAllowed(c, p, Some(Kt.Replay(c, older.value).value))
            && Kt.Resolve(c, owner, envelope, other).value.state
                 == Kt.StateOf(c, envelope, p, Some(Kt.Replay(c, older.value).value))
  {
    hide Kt.Parse, Kt.TransitionAllowed, Kt.StateOf, Utf8Valid, Kt.WithinBudget, Kt.Walk, Kt.Replay;
    var p := Kt.Parse(c, owner, envelope).value;
    KotlinWalked(c, owner, other, envelope, 0, {}, |envelope|);
    assert {} + {c.sha(p.update)} == {c.sha(p.update)};
    var older := Kt.Walk(c, owner, other, head, 1, {c.sha(p.update)}, |envelope| + |head|).value;
    KotlinReplayed(c, Kt.Link(envelope, p), older);
  }

  /** The step a resolved envelope took was over the old head's own state. */
  lemma ResolvedMeans(c: Crypto, owner: Bytes, envelope: Bytes, head: Bytes, lookup: Lookup)
    requires Kt.Resolve(c, owner, head, lookup).Some?
    requires Kt.Resolve(c, owner, envelope,
               Kt.PredecessorFirst(Kt.Resolve(c, owner, head, lookup).value.state.stateHash, head, lookup)).Some?
    requires Kt.Parse(c, owner, envelope).Some? && Kt.Parse(c, owner, envelope).value.Versioned?
    requires var p := Kt.Parse(c, owner, envelope).value;
             p.auth.operation != 1 && p.auth.predecessor == Kt.Resolve(c, owner, head, lookup).value.state.stateHash
    ensures var p, before := Kt.Parse(c, owner, envelope).value, Kt.Resolve(c, owner, head, lookup).value;
            var other := Kt.PredecessorFirst(before.state.stateHash, head, lookup);
            var after := Kt.Resolve(c, owner, envelope, other).value;
            Kt.TransitionAllowed(c, p, Some(before.state))
              && after.state == Kt.StateOf(c, envelope, p, Some(before.state))
  {
    hide Kt.Parse, Kt.TransitionAllowed, Kt.StateOf, Py.ReadState, Collision, Governed, Py.Walk, Py.Replay, Utf8Valid,
         BudgetHolds, HashesFresh, Kt.Walk, Kt.Replay, Kt.Resolve;
    var p, before := Kt.Parse(c, owner, envelope).value, Kt.Resolve(c, owner, head, lookup).value;
    var other := Kt.PredecessorFirst(before.state.stateHash, head, lookup);
    HeadMatches(c, owner, head, lookup);
    HeadWalk(c, owner, head, lookup);
    HeadReplays(c, owner, head, lookup);
    ResolvedOnce(c, owner, envelope, head, other);
    var older := Kt.Walk(c, owner, other, head, 1, {c.sha(p.update)}, |envelope| + |head|).value;
    KotlinChain(c, owner, other, head, 1, {c.sha(p.update)}, |envelope| + |head|);
    SameStateSame(c, envelope, p, Kt.Replay(c, older).value, before.state);
  }

  lemma AllowedResolves(c: Crypto, owner: Bytes, envelope: Bytes, head: Bytes, lookup: Lookup)
    requires Kt.Resolve(c, owner, head, lookup).Some?
    requires Kt.Parse(c, owner, envelope).Some? && Kt.Parse(c, owner, envelope).value.Versioned?
    requires Kt.Parse(c, owner, envelope).value.auth.operation != 1
    requires Kt.TransitionAllowed(c, Kt.Parse(c, owner, envelope).value,
               Some(Kt.Resolve(c, owner, head, lookup).value.state))
    ensures var before := Kt.Resolve(c, owner, head, lookup).value;
            var after := Kt.Resolve(c, owner, envelope, Kt.PredecessorFirst(before.state.stateHash, head, lookup));
            var chain := [envelope, head] + before.predecessors;
            && (after.Some? <==>
                 |before.predecessors| < MAX_PREDECESSOR_DEPTH && BudgetHolds(chain, 0) && !Collision(c, owner, chain))
            && (after.Some? ==> after.value.predecessors == [head] + before.predecessors)
  {
    hide Kt.Resolve, Kt.Parse, Py.ReadState, Kt.TransitionAllowed, BudgetHolds, Collision, Kt.StateOf,
         Kt.PredecessorFirst, Governed, Utf8Valid, Py.Read, Py.Accepts;
    var p, before := Kt.Parse(c, owner, envelope).value, Kt.Resolve(c, owner, head, lookup).value;
    var other := Kt.PredecessorFirst(before.state.stateHash, head, lookup);
    HeadMatches(c, owner, head, lookup);
    var s := Py.ReadState(c, owner, head, lookup).value;
    KotlinStep(c, owner, envelope, Some(before.state), Some(s));
    ExtendedState(c, owner, envelope, head, lookup);
    HeadEnvelope(c, owner, head, lookup);
    VerifiersAgree(c, owner, envelope, other);
    assert [envelope] + ([head] + before.predecessors) == [envelope, head] + before.predecessors;
  }

  lemma HeadEnvelope(c: Crypto, owner: Bytes, head: Bytes, lookup: Lookup)
    requires Py.ReadState(c, owner, head, lookup).Some?
    ensures Py.ReadState(c, owner, head, lookup).value.envelope == head
  {
    hide Py.Walk, Py.Replay, StepsRespected, Linked, Governed;
    ReadStateInvariant(c, owner, head, lookup);
  }

  /**
   * Kotlin resolves a new envelope over a resolved head exactly when the transition rule allows
   * it, the 1024 lookups and the byte budget are not used up, and no two updates collide.
   */
  lemma ResolvesOver(c: Crypto, owner: Bytes, envelope: Bytes, head: Bytes, lookup: Lookup)
    requires Kt.Resolve(c, owner, head, lookup).Some?
    requires Kt.Parse(c, owner, envelope).Some? && Kt.Parse(c, owner, envelope).value.Versioned?
    requires var p := Kt.Parse(c, owner, envelope).value;
             p.auth.operation != 1 && p.auth.predecessor == Kt.Resolve(c, owner, head, lookup).value.state.stateHash
    ensures var p, before := Kt.Parse(c, owner, envelope).value, Kt.Resolve(c, owner, head, lookup).value;
            var after := Kt.Resolve(c, owner, envelope, Kt.PredecessorFirst(before.state.stateHash, head, lookup));
            var chain := [envelope, head] + before.predecessors;
            && (after.Some? <==>
                (&& Kt.TransitionAllowed(c, p, Some(before.state)) && |before.predecessors| < MAX_PREDECESSOR_DEPTH
                 && BudgetHolds(chain, 0) && !Collision(c, owner, chain)))
            && (after.Some? ==>
                 after.value.state == Kt.StateOf(c, envelope, p, Some(before.state))
                   && after.value.predecessors == [head] + before.predecessors)
  {
    hide Kt.Resolve, Kt.Parse, Py.ReadState, Kt.TransitionAllowed, BudgetHolds, Collision, Kt.StateOf,
         Kt.PredecessorFirst;
    var p, before := Kt.Parse(c, owner, envelope).value, Kt.Resolve(c, owner, head, lookup).value;
    var other := Kt.PredecessorFirst(before.state.stateHash, head, lookup);
    if Kt.Resolve(c, owner, envelope, other).Some? { ResolvedMeans(c, owner, envelope, head, lookup); }
    if Kt.TransitionAllowed(c, p, Some(before.state)) { AllowedResolves(c, owner, envelope, head, lookup); }
  }
}
