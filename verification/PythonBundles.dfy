/** Bundles of detached proofs: merging in any order, and finalizing into an accepted envelope. */
module PythonBundles {
  import opened Prelude
  import opened CborSpec
  import opened Identity
  import opened IdentityEncoding
  import opened ChainInvariants
  import opened PythonVerifier
  import opened PythonDrafts
  import opened Sorting

  /** A detached proof names its signer, the key it claims, and the signature. */
  datatype BundleProof = BundleProof(id: Option<Bytes>, key: Bytes, signature: Bytes)

  ghost predicate BundleProofValid(p: BundleProof)
  {
    |p.key| == KEY_BYTES && |p.signature| == SIGNATURE_BYTES
      && (p.id.Some? ==> SignerIdFits(p.id.value) && Utf8Valid(p.id.value))
  }

  datatype Draft = Draft(update: Bytes, previous: Option<Bytes>, history: seq<Bytes>)

  datatype Bundle = Bundle(draft: Draft, proofs: seq<BundleProof>)

  function BundleOrder(p: BundleProof): Bytes
  {
    if p.id.None? then [] else p.id.value
  }

  // -------------------------------------------------------------------- merge

  /** No two proofs name the same signer; at most one names none. */
  predicate IdsDiffer(proofs: seq<BundleProof>)
  {
    forall i, j | 0 <= i < j < |proofs| :: proofs[i].id != proofs[j].id
  }

  ghost predicate ProofsValid(proofs: seq<BundleProof>)
  {
    forall i | 0 <= i < |proofs| :: BundleProofValid(proofs[i])
  }

  ghost predicate BundleValid(b: Bundle)
  {
    ProofsValid(b.proofs) && IdsDiffer(b.proofs) && SortBy(BundleOrder, b.proofs) == b.proofs
  }

  function Merge(a: Bundle, b: Bundle): (r: Option<Bundle>)
  {
    if a.draft == b.draft && IdsDiffer(a.proofs + b.proofs) then
      Some(Bundle(a.draft, SortBy(BundleOrder, a.proofs + b.proofs))) else None
  }

  /** Merging the bundles of a list from the left. */
  function MergeAll(first: Bundle, rest: seq<Bundle>): (r: Option<Bundle>)
    decreases |rest|
  {
    if rest == [] then Some(first)
    else
      var next :- Merge(first, rest[0]);
      MergeAll(next, rest[1..])
  }

  ghost predicate Ascending(proofs: seq<BundleProof>)
  {
    forall i, j | 0 <= i < j < |proofs| :: LexLess(BundleOrder(proofs[i]), BundleOrder(proofs[j]))
  }

  /** Two ascending lists with the same proofs are the same list. */
  lemma {:induction false} AscendingUnique(a: seq<BundleProof>, b: seq<BundleProof>)
    requires Ascending(a) && Ascending(b) && multiset(a) == multiset(b)
    ensures a == b
  {
    hide LexLess;
    assert |multiset(a)| == |a| && |multiset(b)| == |b|;
    if a != [] {
      SmallestFirst(a, b);
      assert a == [a[0]] + a[1..] && b == [b[0]] + b[1..];
      assert multiset(a[1..]) == multiset(a) - multiset{a[0]};
      assert multiset(b[1..]) == multiset(b) - multiset{b[0]};
      AscendingUnique(a[1..], b[1..]);
    }
  }

  lemma SmallestFirst(a: seq<BundleProof>, b: seq<BundleProof>)
    requires Ascending(a) && Ascending(b) && multiset(a) == multiset(b) && a != [] && b != []
    ensures a[0] == b[0]
  {
    hide LexLess;
    SameElements(a, b);
    assert a[0] in b && b[0] in a;
    var i :| 0 <= i < |b| && b[i] == a[0];
    var j :| 0 <= j < |a| && a[j] == b[0];
    if i > 0 && j > 0 { LexAsymmetric(BundleOrder(b[0]), BundleOrder(a[0])); }
  }

  /** Valid proofs with different ids have different sort keys. */
  lemma SortAscends(proofs: seq<BundleProof>)
    requires ProofsValid(proofs) && IdsDiffer(proofs)
    ensures Ascending(SortBy(BundleOrder, proofs)) && ProofsValid(SortBy(BundleOrder, proofs))
    ensures IdsDiffer(SortBy(BundleOrder, proofs))
  {
    hide SortBy, LexLess, Utf8Valid;
    var sorted := SortBy(BundleOrder, proofs);
    SortIsOrdered(BundleOrder, proofs);
    SameElements(sorted, proofs);
    forall i | 0 <= i < |sorted| ensures BundleProofValid(sorted[i]) { assert sorted[i] in proofs; }
    IdsStayDifferent(proofs, sorted);
    DistinctAscends(BundleOrder, sorted);
  }

  lemma IdsStayDifferent(a: seq<BundleProof>, b: seq<BundleProof>)
    requires IdsDiffer(a) && multiset(a) == multiset(b)
    ensures IdsDiffer(b)
  {
    SameElements(a, b);
    forall i, j | 0 <= i < j < |b| ensures b[i].id != b[j].id {
      if b[i].id == b[j].id {
        assert b[i] in a && b[j] in a;
        var k :| 0 <= k < |a| && a[k] == b[i];
        var m :| 0 <= m < |a| && a[m] == b[j];
        CountTwice(b, i, j);
        CountOnce(a, k);
      }
    }
  }

  /** Sorting forgets the order it started from. */
  lemma SortForgetsOrder(a: seq<BundleProof>, b: seq<BundleProof>)
    requires ProofsValid(a) && IdsDiffer(a) && multiset(a) == multiset(b)
    ensures SortBy(BundleOrder, a) == SortBy(BundleOrder, b)
  {
    hide SortBy, BundleProofValid;
    SameElements(a, b);
    forall i | 0 <= i < |b| ensures BundleProofValid(b[i]) { assert b[i] in a; }
    IdsStayDifferent(a, b);
    SortAscends(a);
    SortAscends(b);
    AscendingUnique(SortBy(BundleOrder, a), SortBy(BundleOrder, b));
  }

  lemma MergeCommutes(a: Bundle, b: Bundle)
    requires BundleValid(a) && BundleValid(b)
    ensures Merge(a, b) == Merge(b, a)
    ensures Merge(a, b).Some? ==> BundleValid(Merge(a, b).value)
  {
    hide SortBy, BundleProofValid;
    var ab, ba := a.proofs + b.proofs, b.proofs + a.proofs;
    assert multiset(ab) == multiset(ba);
    if IdsDiffer(ab) {
      IdsStayDifferent(ab, ba);
      SortForgetsOrder(ab, ba);
      SortAscends(ab);
      SortAgain(ab);
    }
    if IdsDiffer(ba) { IdsStayDifferent(ba, ab); }
  }

  lemma SortAgain(proofs: seq<BundleProof>)
    requires ProofsValid(proofs) && IdsDiffer(proofs)
    ensures SortBy(BundleOrder, SortBy(BundleOrder, proofs)) == SortBy(BundleOrder, proofs)
  {
    hide SortBy, BundleProofValid;
    SortForgetsOrder(proofs, SortBy(BundleOrder, proofs));
  }

  /** All the proofs of a list of bundles. */
  function Flat(bundles: seq<Bundle>): seq<BundleProof>
  {
    if bundles == [] then [] else bundles[0].proofs + Flat(bundles[1..])
  }

  ghost predicate AllValid(bundles: seq<Bundle>)
  {
    forall i | 0 <= i < |bundles| :: BundleValid(bundles[i])
  }

  predicate OneDraft(draft: Draft, bundles: seq<Bundle>)
  {
    forall b | b in bundles :: b.draft == draft
  }

  lemma {:induction false} FlatValid(bundles: seq<Bundle>)
    requires AllValid(bundles)
    ensures ProofsValid(Flat(bundles))
  {
    hide BundleProofValid, SortBy;
    if bundles != [] { FlatValid(bundles[1..]); }
  }

  /** A whole merge succeeds exactly on one draft with no signer twice, and gives all the proofs, sorted. */
  lemma {:induction false} MergeAllIs(first: Bundle, rest: seq<Bundle>)
    requires BundleValid(first) && AllValid(rest)
    ensures MergeAll(first, rest) ==
            if OneDraft(first.draft, rest) && IdsDiffer(first.proofs + Flat(rest))
            then Some(Bundle(first.draft, SortBy(BundleOrder, first.proofs + Flat(rest)))) else None
    decreases |rest|
  {
    hide BundleProofValid, SortBy;
    if rest == [] {
      assert first.proofs + [] == first.proofs;
    } else {
      var b, tail := rest[0], rest[1..];
      var two := first.proofs + b.proofs;
      assert rest == [b] + tail;
      assert first.proofs + Flat(rest) == two + Flat(tail);
      if first.draft == b.draft && IdsDiffer(two) {
        MergeCommutes(first, b);
        var next := Merge(first, b).value;
        MergeAllIs(next, tail);
        MergeRest(two, tail);
      } else if first.draft == b.draft {
        IdsDifferPrefix(two, Flat(tail));
      }
    }
  }

  lemma IdsDifferPrefix(a: seq<BundleProof>, b: seq<BundleProof>)
    ensures IdsDiffer(a + b) ==> IdsDiffer(a)
  {
    if IdsDiffer(a + b) {
      forall i, j | 0 <= i < j < |a| ensures a[i].id != a[j].id { assert (a + b)[i] == a[i] && (a + b)[j] == a[j]; }
    }
  }

  /** Sorting the first part early changes nothing. */
  lemma MergeRest(two: seq<BundleProof>, tail: seq<Bundle>)
    requires ProofsValid(two) && IdsDiffer(two) && AllValid(tail)
    ensures var early := SortBy(BundleOrder, two) + Flat(tail);
            && IdsDiffer(early) == IdsDiffer(two + Flat(tail))
            && (IdsDiffer(early) ==> SortBy(BundleOrder, early) == SortBy(BundleOrder, two + Flat(tail)))
  {
    hide BundleProofValid, SortBy;
    var early, late := SortBy(BundleOrder, two) + Flat(tail), two + Flat(tail);
    assert multiset(early) == multiset(late);
    FlatValid(tail);
    if IdsDiffer(early) { IdsStayDifferent(early, late); }
    if IdsDiffer(late) { IdsStayDifferent(late, early); SortForgetsOrder(late, early); }
  }

  lemma {:induction false} FlatRemove(bundles: seq<Bundle>, i: nat)
    requires i < |bundles|
    ensures multiset(Flat(bundles)) == multiset(bundles[i].proofs) + multiset(Flat(bundles[..i] + bundles[i + 1..]))
  {
    var fewer := bundles[..i] + bundles[i + 1..];
    if i == 0 {
      assert fewer == bundles[1..];
    } else {
      FlatRemove(bundles[1..], i - 1);
      assert fewer[1..] == bundles[1..][..i - 1] + bundles[1..][i..];
      assert fewer[0] == bundles[0];
    }
  }

  lemma FlatFirst(a: seq<Bundle>)
    requires a != []
    ensures Flat(a) == a[0].proofs + Flat(a[1..])
  {
  }

  lemma RemoveOne(a: seq<Bundle>, b: seq<Bundle>, i: nat)
    requires a != [] && multiset(a) == multiset(b) && i < |b| && b[i] == a[0]
    ensures multiset(a[1..]) == multiset(b[..i] + b[i + 1..])
  {
    FirstGone(a);
    WithoutAt(b, i);
  }

  lemma FirstGone(s: seq<Bundle>)
    requires s != []
    ensures multiset(s[1..]) == multiset(s) - multiset{s[0]}
  {
    assert s == [s[0]] + s[1..];
  }

  lemma WithoutAt(s: seq<Bundle>, i: nat)
    requires i < |s|
    ensures multiset(s[..i] + s[i + 1..]) == multiset(s) - multiset{s[i]}
  {
    assert s == s[..i] + [s[i]] + s[i + 1..];
  }

  lemma {:induction false} FlatPermuted(a: seq<Bundle>, b: seq<Bundle>)
    requires multiset(a) == multiset(b)
    ensures multiset(Flat(a)) == multiset(Flat(b))
  {
    hide Flat;
    if a == [] {
      assert b == [] by { assert |multiset(b)| == |b|; }
    } else {
      SameElements(a, b);
      assert a[0] in b;
      FlatFirst(a);
      var i :| 0 <= i < |b| && b[i] == a[0];
      RemoveOne(a, b, i);
      FlatPermuted(a[1..], b[..i] + b[i + 1..]);
      FlatRemove(b, i);
    }
  }

  /** Merging any list of bundles gives the same result, or the same refusal, in every order. */
  lemma MergeAnyOrder(a: seq<Bundle>, b: seq<Bundle>)
    requires a != [] && b != [] && multiset(a) == multiset(b) && AllValid(a)
    ensures MergeAll(a[0], a[1..]) == MergeAll(b[0], b[1..])
  {
    hide BundleProofValid, SortBy, MergeAll;
    SameElements(a, b);
    forall i | 0 <= i < |b| ensures BundleValid(b[i]) { assert b[i] in a; }
    MergeAllIs(a[0], a[1..]);
    MergeAllIs(b[0], b[1..]);
    FlatPermuted(a, b);
    assert Flat(a) == a[0].proofs + Flat(a[1..]) && Flat(b) == b[0].proofs + Flat(b[1..]);
    FlatValid(a);
    if IdsDiffer(Flat(a)) { IdsStayDifferent(Flat(a), Flat(b)); SortForgetsOrder(Flat(a), Flat(b)); }
    if IdsDiffer(Flat(b)) { IdsStayDifferent(Flat(b), Flat(a)); }
    DraftsAgree(a, b);
  }

  lemma DraftsAgree(a: seq<Bundle>, b: seq<Bundle>)
    requires a != [] && b != [] && forall x :: x in a <==> x in b
    ensures OneDraft(a[0].draft, a[1..]) == OneDraft(b[0].draft, b[1..])
    ensures OneDraft(a[0].draft, a[1..]) ==> a[0].draft == b[0].draft
  {
    SharedDraft(a);
    SharedDraft(b);
    assert b[0] in a && a[0] in b;
  }

  lemma SharedDraft(a: seq<Bundle>)
    requires a != []
    ensures OneDraft(a[0].draft, a[1..]) <==> forall x, y | x in a && y in a :: x.draft == y.draft
  {
    assert a == [a[0]] + a[1..];
    if forall x, y | x in a && y in a :: x.draft == y.draft {
      forall x | x in a[1..] ensures x.draft == a[0].draft { assert x in a && a[0] in a; }
    }
  }

  // ----------------------------------------------------------------- finalize

  function Plain(proofs: seq<BundleProof>): (r: seq<Proof>)
    ensures |r| == |proofs| && forall i | 0 <= i < |proofs| :: r[i] == Proof(proofs[i].id, proofs[i].signature)
  {
    if proofs == [] then [] else [Proof(proofs[0].id, proofs[0].signature)] + Plain(proofs[1..])
  }

  /** The proof is by a listed signer, claims that signer's key, and verifies under it. */
  predicate Matches(c: Crypto, update: Bytes, p: BundleProof, signers: seq<Signer>)
  {
    p.id.Some? && KeyFor(signers, p.id.value) == Some(p.key) && c.verify(p.key, c.sha(update), p.signature)
  }

  /** The signers finalize looks the proofs up in; for operation 2 that is the draft's own list. */
  function Authorized(auth: Authorization, prev: Option<IdentityState>): Option<seq<Signer>>
  {
    if auth.operation == 3 || auth.operation == 5 then
      if prev.Some? && prev.value.signers != [] then Some(prev.value.signers) else None
    else Some(auth.signers)
  }

  /** What finalize has checked when it builds the envelope. */
  predicate FinalizeChecks(c: Crypto, update: Bytes, key: Bytes, auth: Option<Authorization>,
          prev: Option<IdentityState>, proofs: seq<BundleProof>)
  {
    && proofs != []
    && if auth.None? then
         |proofs| == 1 && proofs[0].id.None? && proofs[0].key == key
           && c.verify(key, c.sha(update), proofs[0].signature)
       else if FromLegacy(auth.value, prev) then
         |proofs| == 1 && proofs[0].id.None? && proofs[0].key == prev.value.ownerKey
           && c.verify(prev.value.ownerKey, c.sha(update), proofs[0].signature)
       else
         var signers := Authorized(auth.value, prev);
         && signers.Some? && (forall i | 0 <= i < |proofs| :: Matches(c, update, proofs[i], signers.value))
         && if auth.value.operation == 4 then |proofs| == 1 && proofs[0].key == key
              else |ProofIds(Plain(proofs))| >= auth.value.threshold
  }

  function FinalizedParts(update: Bytes, key: Bytes, sequence: nat, auth: Option<Authorization>,
          proofs: seq<BundleProof>): Parts
    requires proofs != []
  {
    if auth.None? then Legacy(update, key, sequence, proofs[0].signature)
      else Versioned(update, key, sequence, auth.value, Plain(proofs))
  }

  /** Every proof by the one key of a legacy predecessor, without a signer id. */
  predicate ByPredecessor(c: Crypto, update: Bytes, p: BundleProof, key: Bytes)
  {
    p.id.None? && p.key == key && c.verify(key, c.sha(update), p.signature)
  }

  predicate Passes(c: Crypto, update: Bytes, p: BundleProof, predecessor: Option<Bytes>, signers: seq<Signer>)
  {
    if predecessor.Some? then ByPredecessor(c, update, p, predecessor.value) else Matches(c, update, p, signers)
  }

  /** Checks the proofs one by one and collects the values that go into the envelope. */
  method CollectProofs(c: Crypto, update: Bytes, proofs: seq<BundleProof>, predecessor: Option<Bytes>,
          signers: seq<Signer>)
    returns (r: Option<(seq<Proof>, nat)>)
    ensures r.Some? <==> forall i | 0 <= i < |proofs| :: Passes(c, update, proofs[i], predecessor, signers)
    ensures r.Some? ==> r.value.0 == Plain(proofs) && (predecessor.None? ==> r.value.1 == |ProofIds(Plain(proofs))|)
  {
    hide ByPredecessor, Matches, Plain;
    var validSigners: set<Option<Bytes>> := {};
    var values: seq<Proof> := [];
    for i := 0 to |proofs|
      invariant values == Plain(proofs[..i]) && (predecessor.None? ==> validSigners == ProofIds(values))
      invariant forall j | 0 <= j < i :: Passes(c, update, proofs[j], predecessor, signers)
    {
      var proof := proofs[i];
      PlainExtend(proofs, i);
      if predecessor.Some? {
        if !ByPredecessor(c, update, proof, predecessor.value) { return None; }
      } else {
        if !Matches(c, update, proof, signers) { return None; }
        validSigners := validSigners + {proof.id};
      }
      values := values + [Proof(proof.id, proof.signature)];
    }
    assert proofs[..|proofs|] == proofs;
    return Some((values, |validSigners|));
  }

  /** The checks of finalize: the shape of the bundle, every proof, then how many signed. */
  method FinalizeBundle(c: Crypto, update: Bytes, key: Bytes, sequence: nat, auth: Option<Authorization>,
          prev: Option<IdentityState>, proofs: seq<BundleProof>)
    returns (r: Option<Parts>)
    ensures r.Some? <==> FinalizeChecks(c, update, key, auth, prev, proofs)
    ensures r.Some? ==> proofs != [] && r.value == FinalizedParts(update, key, sequence, auth, proofs)
  {
    hide Matches, Plain, ProofIds;
    if proofs == [] { return None; }
    if auth.None? {
      if |proofs| != 1 || proofs[0].id.Some? || proofs[0].key != key
        || !c.verify(proofs[0].key, c.sha(update), proofs[0].signature) {
        return None;
      }
      return Some(Legacy(update, key, sequence, proofs[0].signature));
    }
    var fromLegacy := FromLegacy(auth.value, prev);
    var signers := Authorized(auth.value, prev);
    if !fromLegacy && signers.None? { return None; }
    var collected := CollectProofs(c, update, proofs, if fromLegacy then Some(prev.value.ownerKey) else None,
      if fromLegacy then [] else signers.value);
    if collected.None? { return None; }
    if auth.value.operation == 4 {
      if |proofs| != 1 || proofs[0].key != key { return None; }
    } else if fromLegacy {
      if |proofs| != 1 { return None; }
    } else if collected.value.1 < auth.value.threshold {
      return None;
    }
    return Some(Versioned(update, key, sequence, auth.value, collected.value.0));
  }

  lemma PlainExtend(proofs: seq<BundleProof>, i: nat)
    requires i < |proofs|
    ensures Plain(proofs[..i + 1]) == Plain(proofs[..i]) + [Proof(proofs[i].id, proofs[i].signature)]
  {
    hide Plain;
    var longer := Plain(proofs[..i]) + [Proof(proofs[i].id, proofs[i].signature)];
    forall j | 0 <= j <= i ensures Plain(proofs[..i + 1])[j] == longer[j] { assert proofs[..i + 1][j] == proofs[j]; }
  }

  lemma PlainBuildable(proofs: seq<BundleProof>)
    requires ProofsValid(proofs) && Ascending(proofs)
    ensures ProofsBuildable(Plain(proofs))
  {
    hide LexLess, Utf8Valid, Plain;
    var plain := Plain(proofs);
    forall i, j | 0 <= i < j < |plain| ensures LexLess(ProofOrder(plain[i]), ProofOrder(plain[j])) {
      assert BundleOrder(proofs[i]) == ProofOrder(plain[i]) && BundleOrder(proofs[j]) == ProofOrder(plain[j]);
    }
    forall i | 0 <= i < |plain| ensures ProofBuildable(plain[i]) { assert BundleProofValid(proofs[i]); }
  }

  lemma MatchedVerify(c: Crypto, update: Bytes, proofs: seq<BundleProof>, signers: seq<Signer>)
    requires forall i | 0 <= i < |proofs| :: Matches(c, update, proofs[i], signers)
    ensures forall p | p in Plain(proofs) :: ProofVerifies(c, update, p, signers)
  {
    hide Plain, KeyFor;
    var plain := Plain(proofs);
    forall p | p in plain ensures ProofVerifies(c, update, p, signers) {
      var i :| 0 <= i < |plain| && plain[i] == p;
      assert Matches(c, update, proofs[i], signers);
    }
  }

  /** Over an allowed update, what finalize checked is what the verifier asks of the proofs. */
  lemma ChecksAccepted(c: Crypto, owner: Bytes, update: Bytes, key: Bytes, sequence: nat, auth: Authorization,
          prev: Option<IdentityState>, proofs: seq<BundleProof>)
    requires Previous(owner, prev) && 1 <= auth.operation <= 5 && Gate(owner, key, sequence, Some(auth), prev)
    requires FinalizeChecks(c, update, key, Some(auth), prev, proofs)
    ensures Accepts(c, owner, Versioned(update, key, sequence, auth, Plain(proofs)), prev)
  {
    hide Utf8Valid, SignersWellFormed, KeyFor, ProofVerifies, HasKey, Plain, LexLess;
    if !FromLegacy(auth, prev) {
      MatchedVerify(c, update, proofs, Authorized(auth, prev).value);
      if auth.operation == 4 {
        var plain := Plain(proofs);
        assert Matches(c, update, proofs[0], auth.signers);
        assert plain == [plain[0]] && ProofIds(plain) == {plain[0].id};
      }
    }
  }

  /** A draft as its constructor checked it, with the state its carried history gives. */
  ghost predicate DraftValid(c: Crypto, d: Draft, owner: Bytes, key: Bytes, sequence: nat, auth: Option<Authorization>,
          prev: Option<IdentityState>)
  {
    && DecodeUpdate(d.update) == Some(Update(Bstr(owner), Bstr(key), sequence, auth))
    && |key| == KEY_BYTES && |d.history| <= MAX_PREDECESSOR_DEPTH
    && PreviousState(c, owner, d.previous, d.history) == Some(prev)
    && Gate(owner, key, sequence, auth, prev)
  }

  lemma DraftPrevious(c: Crypto, d: Draft, owner: Bytes, key: Bytes, sequence: nat, auth: Option<Authorization>,
          prev: Option<IdentityState>)
    requires DraftValid(c, d, owner, key, sequence, auth, prev)
    ensures Previous(owner, prev)
  {
    hide Previous, DecodeUpdate, Gate, Replay;
    if d.previous.None? { NothingBefore(owner); }
    else { CarriedIsPrevious(c, owner, [d.previous.value] + d.history); }
  }

  lemma NothingBefore(owner: Bytes)
    ensures Previous(owner, None)
  {
  }

  /**
   * Finalize's closing re-parse never rejects: for every draft and every valid bundle of proofs
   * that passes its own checks, the verifier reads the envelope and accepts it.
   */
  lemma FinalizeNeverRejects(
    c: Crypto, d: Draft, owner: Bytes, key: Bytes, sequence: nat, auth: Option<Authorization>,
    prev: Option<IdentityState>, proofs: seq<BundleProof>)
    requires DraftValid(c, d, owner, key, sequence, auth, prev) && BundleValid(Bundle(d, proofs))
    requires FinalizeChecks(c, d.update, key, auth, prev, proofs)
    requires |Enc(EnvelopeValue(FinalizedParts(d.update, key, sequence, auth, proofs)))| <= UINT64_MAX
    ensures var p := FinalizedParts(d.update, key, sequence, auth, proofs);
            ParseEnvelope(c, owner, Enc(EnvelopeValue(p)), prev)
              == Some(StateOf(c, owner, Enc(EnvelopeValue(p)), p, prev))
  {
    hide DecodeUpdate, Enc, EnvelopeValue, UpdateValue, SortBy, Utf8Valid, Gate, Read, Previous, AuthorizationBuildable,
         ProofsBuildable, Plain, FinalizeChecks, StateOf;
    SomeProof(c, d.update, key, auth, prev, proofs);
    DraftPrevious(c, d, owner, key, sequence, auth, prev);
    UpdateExact(d.update, owner, key);
    SortAscends(proofs);
    PlainBuildable(proofs);
    var p := FinalizedParts(d.update, key, sequence, auth, proofs);
    if auth.None? { LegacyChecks(c, d.update, key, prev, proofs); } else {
      OperationKnown(auth.value);
      ChecksAccepted(c, owner, d.update, key, sequence, auth.value, prev, proofs);
    }
    assert BundleProofValid(proofs[0]);
    ReadBuilt(owner, p);
  }

  /** Every proof claims the key the verifier will look up for it; a legacy update has its one unnamed proof. */
  ghost predicate Claims(key: Bytes, auth: Option<Authorization>, prev: Option<IdentityState>, proofs: seq<BundleProof>)
  {
    if auth.None? then |proofs| == 1 && proofs[0].id.None? && proofs[0].key == key
    else forall i | 0 <= i < |proofs| :: proofs[i].key == ClaimedKey(auth.value, prev, proofs[i].id, proofs[i].key)
  }

  /** The key listed for the id among those who decide, or the predecessor's when no id is given. */
  ghost function ClaimedKey(auth: Authorization, prev: Option<IdentityState>, id: Option<Bytes>,
          otherwise: Bytes): Bytes
  {
    if id.None? then if FromLegacy(auth, prev) then prev.value.ownerKey else otherwise
    else
      var listed := KeyFor(if auth.operation == 4 then auth.signers else Deciding(auth, prev), id.value);
      if listed.Some? then listed.value else otherwise
  }

  /** What the verifier asks of the proofs, with their claims right, is all finalize checks. */
  lemma AcceptedChecks(c: Crypto, owner: Bytes, update: Bytes, key: Bytes, sequence: nat, auth: Authorization,
          prev: Option<IdentityState>, proofs: seq<BundleProof>)
    requires 1 <= auth.operation <= 5 && proofs != []
    requires Accepts(c, owner, Versioned(update, key, sequence, auth, Plain(proofs)), prev)
    requires Claims(key, Some(auth), prev, proofs)
    ensures FinalizeChecks(c, update, key, Some(auth), prev, proofs)
  {
    hide Utf8Valid, SignersWellFormed, KeyFor, HasKey, Plain, LexLess;
    if FromLegacy(auth, prev) {
      assert proofs[0].key == ClaimedKey(auth, prev, proofs[0].id, proofs[0].key);
    } else {
      var signers := Authorized(auth, prev);
      assert signers.Some? && signers.value == (if auth.operation == 4 then auth.signers else Deciding(auth, prev));
      forall i | 0 <= i < |proofs| ensures Matches(c, update, proofs[i], signers.value) {
        assert Plain(proofs)[i] in Plain(proofs);
        assert ProofVerifies(c, update, Plain(proofs)[i], signers.value);
        assert proofs[i].key == ClaimedKey(auth, prev, proofs[i].id, proofs[i].key);
      }
    }
  }

  lemma ChecksClaim(c: Crypto, owner: Bytes, update: Bytes, key: Bytes, sequence: nat, auth: Option<Authorization>,
          prev: Option<IdentityState>, proofs: seq<BundleProof>)
    requires FinalizeChecks(c, update, key, auth, prev, proofs) && Gate(owner, key, sequence, auth, prev)
    requires auth.Some? ==> 1 <= auth.value.operation <= 5
    ensures Claims(key, auth, prev, proofs)
  {
    hide SignersWellFormed, KeyFor, HasKey, Plain;
    if auth.Some? {
      forall i | 0 <= i < |proofs|
        ensures proofs[i].key == ClaimedKey(auth.value, prev, proofs[i].id, proofs[i].key)
      {
        if !FromLegacy(auth.value, prev) {
          assert Matches(c, update, proofs[i], Authorized(auth.value, prev).value);
        }
      }
    }
  }

  /**
   * Finalize is exact: for every draft and every valid bundle, its own checks pass if and only if
   * there is a proof, every proof claims the key the verifier will look up, and the verifier reads
   * and accepts the envelope made of them.
   */
  lemma FinalizeExactly(
    c: Crypto, d: Draft, owner: Bytes, key: Bytes, sequence: nat, auth: Option<Authorization>,
    prev: Option<IdentityState>, proofs: seq<BundleProof>)
    requires DraftValid(c, d, owner, key, sequence, auth, prev) && BundleValid(Bundle(d, proofs)) && proofs != []
    requires |Enc(EnvelopeValue(FinalizedParts(d.update, key, sequence, auth, proofs)))| <= UINT64_MAX
    ensures var p := FinalizedParts(d.update, key, sequence, auth, proofs);
            FinalizeChecks(c, d.update, key, auth, prev, proofs) <==>
              Claims(key, auth, prev, proofs) && ParseEnvelope(c, owner, Enc(EnvelopeValue(p)), prev).Some?
  {
    hide DecodeUpdate, Enc, EnvelopeValue, UpdateValue, SortBy, Utf8Valid, Gate, Read, Previous, AuthorizationBuildable,
         ProofsBuildable, Plain, FinalizeChecks, StateOf, Claims, Accepts;
    UpdateExact(d.update, owner, key);
    if auth.Some? { OperationKnown(auth.value); }
    var p := FinalizedParts(d.update, key, sequence, auth, proofs);
    if FinalizeChecks(c, d.update, key, auth, prev, proofs) {
      FinalizeNeverRejects(c, d, owner, key, sequence, auth, prev, proofs);
      ChecksClaim(c, owner, d.update, key, sequence, auth, prev, proofs);
    } else if Claims(key, auth, prev, proofs) {
      SortAscends(proofs);
      PlainBuildable(proofs);
      assert BundleProofValid(proofs[0]);
      ReadBuilt(owner, p);
      if Accepts(c, owner, p, prev) {
        if auth.None? { LegacyAccepted(c, owner, d.update, key, sequence, prev, proofs); }
        else { AcceptedChecks(c, owner, d.update, key, sequence, auth.value, prev, proofs); }
      }
    }
  }

  lemma LegacyAccepted(c: Crypto, owner: Bytes, update: Bytes, key: Bytes, sequence: nat,
          prev: Option<IdentityState>, proofs: seq<BundleProof>)
    requires proofs != [] && Claims(key, None, prev, proofs)
    requires Accepts(c, owner, Legacy(update, key, sequence, proofs[0].signature), prev)
    ensures FinalizeChecks(c, update, key, None, prev, proofs)
  {
  }

  lemma SomeProof(c: Crypto, update: Bytes, key: Bytes, auth: Option<Authorization>, prev: Option<IdentityState>,
          proofs: seq<BundleProof>)
    requires FinalizeChecks(c, update, key, auth, prev, proofs)
    ensures proofs != []
  {
  }

  lemma OperationKnown(a: Authorization)
    requires AuthorizationBuildable(a)
    ensures 1 <= a.operation <= 5
  {
  }

  lemma LegacyChecks(c: Crypto, update: Bytes, key: Bytes, prev: Option<IdentityState>, proofs: seq<BundleProof>)
    requires FinalizeChecks(c, update, key, None, prev, proofs)
    ensures proofs != [] && c.verify(key, c.sha(update), proofs[0].signature)
  {
  }

  // --------------------------------------------------------------- submission

  /** The authority check before a submission signs anything. */
  predicate Authorises(current: Option<IdentityState>, auth: Authorization, id: Option<Bytes>, key: Bytes)
  {
    if current.None? then
      auth.operation == 1 && auth.generation == 1 && auth.predecessor == ZERO_HASH && TwoOfThree(auth) && id.Some?
        && KeyFor(auth.signers, id.value) == Some(key)
    else if auth.operation == 5 then
      if current.value.signers == [] then
        auth.generation == 1 && TwoOfThree(auth) && id.None? && key == current.value.ownerKey
      else SameGovernance(auth, current.value) && id.Some? && KeyFor(current.value.signers, id.value) == Some(key)
    else if current.value.signers == [] then
      auth.operation == 4 && auth.generation == 1 && auth.predecessor == current.value.stateHash && TwoOfThree(auth)
      && key == current.value.ownerKey && id.Some? && KeyFor(auth.signers, id.value) == Some(key)
    else
      && id.Some? && KeyFor(current.value.signers, id.value) == Some(key)
      && if auth.operation == 2 then SameGovernance(auth, current.value)
         else
           && auth.operation == 3
           && auth.generation > (if current.value.generation.Some? then current.value.generation.value else 0)
           && TwoOfThree(auth) && auth.signers != current.value.signers
  }

  datatype Submission = Refused | ProofReady | Publish(envelope: Value)

  /** What a consented, signed submission ends in: refused, a proof for a bundle, or a PUT of this envelope. */
  function Submit(
    current: Option<IdentityState>, hasDraft: bool, ownerKey: Bytes, auth: Option<Authorization>, id: Option<Bytes>,
    signerKey: Bytes, update: Bytes, signature: Bytes)
    : (r: Submission)
  {
    if auth.Some? then
      var a := auth.value;
      if current.Some? && current.value.ownerKey != ownerKey && a.operation != 5 then Refused
      else if a.operation == 5 && !hasDraft then Refused
      else if a.predecessor != (if current.Some? then current.value.stateHash else ZERO_HASH) then Refused
      else if !Authorises(current, a, id, signerKey) then Refused
      else if hasDraft then ProofReady
      else if a.threshold > 1 then (if id.None? then Refused else ProofReady)
      else if id.None? then Refused
      else Publish(Entry([Int(1), Bstr(update), List([ProofValue(Proof(id, signature))])]))
    else if current.Some? && (current.value.ownerKey != ownerKey || current.value.signers != []) then Refused
    else if signerKey != ownerKey || id.Some? then Refused
    else if hasDraft then ProofReady
    else Publish(Entry([Bstr(update), Bstr(signature)]))
  }

  /**
   * Submission only ever publishes two-field legacy envelopes: over every state read from the
   * registry, each authorised transition needs two signatures, so the single-proof version-1
   * envelope is never built.
   */
  lemma SubmitPublishesLegacy(
    c: Crypto, owner: Bytes, head: Option<Bytes>, lookup: Lookup, current: Option<IdentityState>, hasDraft: bool,
    ownerKey: Bytes, auth: Option<Authorization>, id: Option<Bytes>, signerKey: Bytes, update: Bytes, signature: Bytes)
    requires if head.None? then current.None? else ReadState(c, owner, head.value, lookup) == current && current.Some?
    ensures var r := Submit(current, hasDraft, ownerKey, auth, id, signerKey, update, signature);
            && (r.Publish? <==>
                 && auth.None? && !hasDraft && id.None? && signerKey == ownerKey
                 && (current.Some? ==> current.value.signers == [] && current.value.ownerKey == ownerKey))
            && (r.Publish? ==> r.envelope == Entry([Bstr(update), Bstr(signature)]))
  {
    hide ReadState, Entry, ProofValue, KeyFor, SignersWellFormed;
    if head.Some? { StateGoverned(c, owner, head.value, lookup); }
  }

  /** The signer is one whose proof the verifier would count for this update. */
  ghost predicate Decides(a: Authorization, current: Option<IdentityState>, id: Option<Bytes>, signerKey: Bytes)
  {
    if FromLegacy(a, current) then id.None? && signerKey == current.value.ownerKey
    else if a.operation == 4 then
      id.Some? && KeyFor(a.signers, id.value) == Some(signerKey) && current.Some? && signerKey == current.value.ownerKey
    else id.Some? && KeyFor(Deciding(a, current), id.value) == Some(signerKey)
  }

  /** What the submission leaves to the draft: the number, the owner, and where a rotation goes. */
  ghost predicate Drafted(owner: Bytes, ownerKey: Bytes, sequence: nat, a: Authorization,
          current: Option<IdentityState>)
  {
    && (current.None? ==> sequence == 1)
    && (current.Some? ==> owner == current.value.ownerName && sequence == current.value.sequence + 1)
    && (current.Some? && a.operation == 5 ==>
         ownerKey != current.value.ownerKey && (current.value.signers == [] ==> HasKey(a.signers, ownerKey)))
  }

  /**
   * An authorized submission goes ahead if and only if the draft gate passes the update and the
   * verifier would count the signer, over every governed state; a rotation also needs its draft.
   */
  lemma SubmissionIsGated(
    owner: Bytes, sequence: nat, current: Option<IdentityState>, hasDraft: bool, ownerKey: Bytes, a: Authorization,
    id: Option<Bytes>, signerKey: Bytes, update: Bytes, signature: Bytes)
    requires 1 <= a.operation <= 5 && (current.Some? ==> Governed(current.value))
    requires Drafted(owner, ownerKey, sequence, a, current)
    ensures !Submit(current, hasDraft, ownerKey, Some(a), id, signerKey, update, signature).Refused? <==>
            (&& Gate(owner, ownerKey, sequence, Some(a), current) && Decides(a, current, id, signerKey)
             && (a.operation == 5 ==> hasDraft))
  {
    hide Entry, ProofValue, SignersWellFormed;
    if id.Some? && KeyFor(a.signers, id.value) == Some(signerKey) { ListedHasKey(a.signers, id.value); }
  }

  lemma ListedHasKey(signers: seq<Signer>, id: Bytes)
    requires KeyFor(signers, id).Some?
    ensures HasKey(signers, KeyFor(signers, id).value)
  {
    hide KeyFor;
    var i :| 0 <= i < |signers| && signers[i] == Signer(id, KeyFor(signers, id).value);
  }

  lemma StateGoverned(c: Crypto, owner: Bytes, head: Bytes, lookup: Lookup)
    requires ReadState(c, owner, head, lookup).Some?
    ensures Governed(ReadState(c, owner, head, lookup).value)
  {
    hide Walk, Replay, Governed, Linked, StepsRespected;
    ReadStateInvariant(c, owner, head, lookup);
  }
}
