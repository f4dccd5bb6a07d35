/** The loops of the Python verifier; the CBOR library is the loader it is given. */
module PythonHistory {
  import opened Prelude
  import opened CborSpec
  import opened Identity
  import opened ChainInvariants
  import opened PythonVerifier
  import opened Sorting

  type Loader = Bytes -> Option<Value>

  /** Loading and dumping again gave the same bytes. */
  ghost predicate Loads(load: Loader)
  {
    forall bytes :: load(bytes) == Loaded(bytes)
  }

  function SignerId(s: Signer): Bytes
  {
    s.id
  }

  // ------------------------------------------------------------------ signers

  /** Pairwise different ids and pairwise different keys, in any order. */
  ghost predicate Unrepeated(signers: seq<Signer>)
  {
    forall i, j | 0 <= i < j < |signers| :: signers[i].id != signers[j].id && signers[i].key != signers[j].key
  }

  /** Comparing with the sorted list is the same as being strictly ordered. */
  lemma SortedCheck(signers: seq<Signer>)
    requires Unrepeated(signers)
    ensures SortBy(SignerId, signers) == signers <==> SignersDistinct(signers)
  {
    hide SortBy, LexLess;
    SortIsOrdered(SignerId, signers);
    if SortBy(SignerId, signers) == signers { DistinctAscends(SignerId, signers); }
    if SignersDistinct(signers) { SortOfAscending(signers); }
  }

  lemma {:induction false} SortOfAscending(signers: seq<Signer>)
    requires SignersDistinct(signers)
    ensures SortBy(SignerId, signers) == signers
  {
    hide LexLess;
    if signers != [] {
      SortOfAscending(signers[1..]);
      assert signers == [signers[0]] + signers[1..];
      assert |signers| > 1 ==> LexLess(signers[0].id, signers[1].id);
    }
  }

  lemma DistinctUnrepeated(signers: seq<Signer>)
    requires SignersDistinct(signers)
    ensures Unrepeated(signers)
  {
    hide LexLess;
    forall i, j | 0 <= i < j < |signers| ensures signers[i].id != signers[j].id { LexIrreflexive(signers[i].id); }
  }

  /** Entries one by one against those seen, then the whole list against its sorted form. */
  method ValidateSigners(value: Value) returns (r: Option<seq<Signer>>)
    ensures r == ReadSigners(value)
  {
    hide SignerEntry, SignersDistinct, SortBy;
    if !value.List? || value.items == [] { return None; }
    var entries := value.items;
    var normalized: seq<Signer> := [];
    for i := 0 to |entries|
      invariant |normalized| == i && Unrepeated(normalized)
      invariant forall j | 0 <= j < i :: SignerEntry(entries[j]) == Some(normalized[j])
    {
      var entry := SignerEntry(entries[i]);
      if entry.None? { return None; }
      if Duplicates(normalized, entry.value) {
        RepeatRefused(entries, normalized, i, entry.value);
        return None;
      }
      normalized := normalized + [entry.value];
    }
    SignerEntriesAre(entries, normalized);
    SortedCheck(normalized);
    return if SortBy(SignerId, normalized) == normalized then Some(normalized) else None;
  }

  lemma RepeatRefused(entries: seq<Value>, done: seq<Signer>, i: nat, s: Signer)
    requires |done| == i < |entries| && SignerEntry(entries[i]) == Some(s) && Duplicates(done, s)
    requires forall j | 0 <= j < i :: SignerEntry(entries[j]) == Some(done[j])
    ensures SignerEntries(entries).Some? ==> !SignersDistinct(SignerEntries(entries).value)
  {
    hide SignerEntry, SignersDistinct;
    if SignerEntries(entries).Some? && SignersDistinct(SignerEntries(entries).value) {
      var all := SignerEntries(entries).value;
      DistinctUnrepeated(all);
    }
  }

  method ValidateAuthorization(value: Value) returns (r: Option<Authorization>)
    ensures r == ReadAuthorization(value)
  {
    hide Fields, ReadSigners;
    var auth :- Fields(value, 7);
    if auth[1] != Int(1) || auth[2] != Int(1) { return None; }
    var operation :- AsUint(auth[3]);
    if operation !in {1, 2, 3, 4, 5} { return None; }
    var epoch :- AsUint(auth[4]);
    var threshold :- AsUint(auth[5]);
    var signers :- ValidateSigners(auth[6]);
    if !(1 <= threshold <= |signers|) { return None; }
    var predecessor :- AsBytesOf(auth[7], KEY_BYTES);
    return Some(Authorization(operation, epoch, threshold, signers, predecessor));
  }

  // ------------------------------------------------------------------- proofs

  ghost predicate IdsUnrepeated(proofs: seq<Proof>)
  {
    forall i, j | 0 <= i < j < |proofs| :: proofs[i].id != proofs[j].id
  }

  /** Sorting a list that is in order, or noticing that it is not; ids read are never empty. */
  lemma ProofSortedCheck(proofs: seq<Proof>)
    requires IdsUnrepeated(proofs) && forall i | 0 <= i < |proofs| :: proofs[i].id != Some([])
    ensures SortBy(ProofOrder, proofs) == proofs <==> ProofsOrdered(proofs)
  {
    hide SortBy, LexLess;
    SortIsOrdered(ProofOrder, proofs);
    if SortBy(ProofOrder, proofs) == proofs { DistinctAscends(ProofOrder, proofs); }
    if ProofsOrdered(proofs) { SortOfOrdered(proofs); }
  }

  lemma {:induction false} SortOfOrdered(proofs: seq<Proof>)
    requires ProofsOrdered(proofs)
    ensures SortBy(ProofOrder, proofs) == proofs
  {
    hide LexLess, ProofOrder;
    if proofs != [] {
      SortOfOrdered(proofs[1..]);
      assert proofs == [proofs[0]] + proofs[1..];
      assert |proofs| > 1 ==> LexLess(ProofOrder(proofs[0]), ProofOrder(proofs[1]));
    }
  }

  method ValidateProofList(value: Value) returns (r: Option<seq<Proof>>)
    ensures r == ReadProofs(value)
  {
    hide ProofEntry, ProofsOrdered, SortBy;
    if !value.List? { return None; }
    var items := value.items;
    var normalized: seq<Proof> := [];
    var seen: set<Option<Bytes>> := {};
    for i := 0 to |items|
      invariant |normalized| == i && IdsUnrepeated(normalized) && seen == ProofIds(normalized)
      invariant forall j | 0 <= j < i :: ProofEntry(items[j]) == Some(normalized[j])
    {
      var proof := ProofEntry(items[i]);
      if proof.None? { return None; }
      if proof.value.id in seen {
        RepeatedProof(items, normalized, i, proof.value);
        return None;
      }
      seen := seen + {proof.value.id};
      normalized := normalized + [proof.value];
    }
    ProofEntriesAre(items, normalized);
    forall j | 0 <= j < |items| ensures normalized[j].id != Some([]) { NeverEmpty(items[j]); }
    ProofSortedCheck(normalized);
    return if SortBy(ProofOrder, normalized) == normalized then Some(normalized) else None;
  }

  lemma NeverEmpty(v: Value)
    ensures ProofEntry(v).Some? ==> ProofEntry(v).value.id != Some([])
  {
    hide Fields;
  }

  lemma RepeatedProof(items: seq<Value>, done: seq<Proof>, i: nat, p: Proof)
    requires |done| == i < |items| && ProofEntry(items[i]) == Some(p) && p.id in ProofIds(done)
    requires forall j | 0 <= j < i :: ProofEntry(items[j]) == Some(done[j])
    ensures ProofEntries(items).Some? ==> !ProofsOrdered(ProofEntries(items).value)
  {
    hide ProofEntry, ProofsOrdered;
    if ProofEntries(items).Some? && ProofsOrdered(ProofEntries(items).value) {
      var all := ProofEntries(items).value;
      assert forall j | 0 <= j < i :: all[j] == done[j];
      var j: nat :| j < i && done[j].id == p.id;
      ProofClash(all, j, i);
    }
  }

  /** The signers whose proofs verified, or nothing if one proof did not. */
  method VerifyProofs(c: Crypto, update: Bytes, proofs: seq<Proof>, keys: seq<Signer>) returns (valid: Option<nat>)
    ensures valid.Some? <==> forall p | p in proofs :: ProofVerifies(c, update, p, keys)
    ensures valid.Some? ==> valid.value == |ProofIds(proofs)|
  {
    hide KeyFor;
    var signers: set<Option<Bytes>> := {};
    for i := 0 to |proofs|
      invariant forall j | 0 <= j < i :: ProofVerifies(c, update, proofs[j], keys)
      invariant signers == ProofIds(proofs[..i])
    {
      var proof := proofs[i];
      assert proof in proofs;
      if !ProofVerifies(c, update, proof, keys) { return None; }
      assert proofs[..i + 1] == proofs[..i] + [proof];
      signers := signers + {proof.id};
    }
    assert proofs[..|proofs|] == proofs;
    return Some(|signers|);
  }

  // ---------------------------------------------------------------- envelopes

  method DecodeRecord(update: seq<Value>) returns (r: Option<Update>)
    requires |update| >= 4
    ensures r == UpdateFields(update)
  {
    hide Fields;
    var record :- Fields(update[1], 2);
    if update[2] != Map(map[]) { return None; }
    var sequence :- AsUint(update[3]);
    return Some(Update(record[1], record[2], sequence, None));
  }

  method DecodeSignedUpdate(load: Loader, bytes: Bytes) returns (r: Option<Update>)
    requires Loads(load)
    ensures r == DecodeUpdate(bytes)
  {
    hide Fields, Loaded, UpdateFields, ReadAuthorization;
    var value :- load(bytes);
    if Fields(value, 3).Some? {
      r := DecodeRecord(Fields(value, 3).value);
      return;
    }
    var fields :- Fields(value, 4);
    var update :- DecodeRecord(fields);
    var auth :- ValidateAuthorization(fields[4]);
    return Some(update.(auth := Some(auth)));
  }

  method ReadParts(load: Loader, owner: Bytes, envelope: Bytes) returns (r: Option<Parts>)
    requires Loads(load)
    ensures r == Read(owner, envelope)
  {
    hide Fields, Loaded, DecodeUpdate, ReadProofs;
    var value :- load(envelope);
    if Fields(value, 2).Some? {
      var outer := Fields(value, 2).value;
      var updateBytes :- AsBytes(outer[1]);
      var signature :- AsBytesOf(outer[2], SIGNATURE_BYTES);
      var update :- DecodeSignedUpdate(load, updateBytes);
      var key :- AsBytesOf(update.key, KEY_BYTES);
      if update.auth.Some? || update.name != Bstr(owner) { return None; }
      return Some(Legacy(updateBytes, key, update.sequence, signature));
    }
    var outer :- Fields(value, 3);
    if outer[1] != Int(1) { return None; }
    var updateBytes :- AsBytes(outer[2]);
    var update :- DecodeSignedUpdate(load, updateBytes);
    if update.auth.None? || update.name != Bstr(owner) { return None; }
    var proofs :- ValidateProofList(outer[3]);
    var key :- AsBytesOf(update.key, KEY_BYTES);
    return Some(Versioned(updateBytes, key, update.sequence, update.auth.value, proofs));
  }

  method ParseIdentityEnvelope(c: Crypto, load: Loader, owner: Bytes, envelope: Bytes, prev: Option<IdentityState>)
    returns (r: Option<IdentityState>)
    requires Loads(load)
    ensures r == ParseEnvelope(c, owner, envelope, prev)
  {
    hide Read, StateOf, ShapeAllowed, KeyFor, HasKey, ProofVerifies, SignersWellFormed, DecodeUpdate;
    var p :- ReadParts(load, owner, envelope);
    PartsRead(owner, envelope);
    if p.Legacy? {
      return if c.verify(p.key, c.sha(p.update), p.signature) then Some(StateOf(c, owner, envelope, p, prev)) else None;
    }
    if !ShapeAllowed(owner, p, prev) { return None; }
    if p.auth.operation == 4 {
      if !(&& |p.proofs| == 1 && p.proofs[0].id.Some? && KeyFor(p.auth.signers, p.proofs[0].id.value) == Some(p.key)
           && prev.Some? && prev.value.signers == [] && prev.value.ownerKey == p.key
           && prev.value.stateHash == p.auth.predecessor && p.sequence == prev.value.sequence + 1)
      {
        return None;
      }
    }
    if p.auth.operation == 5 && prev.Some? && prev.value.signers == [] {
      if |p.proofs| != 1 || p.proofs[0].id.Some?
        || !c.verify(prev.value.ownerKey, c.sha(p.update), p.proofs[0].signature) {
        return None;
      }
    } else {
      var previousKeys := if prev.Some? then prev.value.signers else [];
      var verificationKeys := if p.auth.operation in {2, 3, 5} then previousKeys else p.auth.signers;
      var valid := VerifyProofs(c, p.update, p.proofs, verificationKeys);
      if valid.None? { return None; }
      if p.auth.operation == 4 {
        if valid.value != 1 { return None; }
      } else if valid.value < p.auth.threshold {
        return None;
      }
    }
    return Some(StateOf(c, owner, envelope, p, prev));
  }

  // ------------------------------------------------------------------ history

  method PeekAuthorization(load: Loader, envelope: Bytes) returns (r: Option<Option<Authorization>>)
    requires Loads(load)
    ensures r == Peek(envelope)
  {
    hide Loaded, DecodeUpdate;
    var value :- load(envelope);
    if value.Map? && 1 in value.m && value.m[1] == Int(1) && 2 in value.m && value.m[2].Bstr? {
      var update :- DecodeSignedUpdate(load, value.m[2].bytes);
      return Some(update.auth);
    }
    return Some(None);
  }

  /** Follows the predecessor hashes back to an anchor, newest first. */
  method CollectHistory(load: Loader, lookup: Lookup, head: Bytes) returns (r: Option<seq<Bytes>>)
    requires Loads(load)
    ensures r == Walk(lookup, head, 0)
  {
    hide Peek, After, Loads;
    var chain: seq<Bytes> := [];
    var current := head;
    ghost var whole := Walk(lookup, head, 0);
    AfterNothing(whole);
    while true
      invariant |chain| <= MAX_PREDECESSOR_DEPTH
      invariant whole == After(chain, Walk(lookup, current, |chain|))
      decreases MAX_PREDECESSOR_DEPTH - |chain|
    {
      AfterEnds(chain, [current]);
      var auth := PeekAuthorization(load, current);
      if auth.None? { return None; }
      if auth.value.None? || auth.value.value.operation == 1 { return Some(chain + [current]); }
      if |chain| >= MAX_PREDECESSOR_DEPTH { return None; }
      var predecessor := lookup(auth.value.value.predecessor);
      if predecessor.None? { return None; }
      AfterStep(chain, current, Walk(lookup, predecessor.value, |chain| + 1));
      chain := chain + [current];
      current := predecessor.value;
    }
  }

  lemma {:induction false} ReplayFails(c: Crypto, owner: Bytes, envelopes: seq<Bytes>, i: nat)
    requires i < |envelopes| && Replay(c, owner, envelopes[i..]).None?
    ensures Replay(c, owner, envelopes).None?
  {
    hide ParseEnvelope;
    if i == 0 {
      assert envelopes[0..] == envelopes;
    } else {
      assert envelopes[1..][i - 1..] == envelopes[i..];
      ReplayFails(c, owner, envelopes[1..], i - 1);
    }
  }

  /** Parses oldest first, each envelope over the state before it. */
  method ReplayEnvelopes(c: Crypto, load: Loader, owner: Bytes, envelopes: seq<Bytes>)
    returns (r: Option<IdentityState>)
    requires Loads(load)
    ensures r == Replay(c, owner, envelopes)
  {
    hide ParseEnvelope, Loads;
    r := None;
    var n := |envelopes|;
    for i := n downto 0
      invariant i < n ==> r.Some? && Replay(c, owner, envelopes[i..]) == r
      invariant i == n ==> r.None?
    {
      assert envelopes[i..][1..] == envelopes[i + 1..];
      r := ParseIdentityEnvelope(c, load, owner, envelopes[i], r);
      if r.None? {
        ReplayFails(c, owner, envelopes, i);
        return None;
      }
    }
    assert envelopes[0..] == envelopes;
  }

  method ParseStateWithHistory(c: Crypto, load: Loader, owner: Bytes, head: Bytes, lookup: Lookup)
    returns (r: Option<IdentityState>)
    requires Loads(load)
    ensures r == ReadState(c, owner, head, lookup)
  {
    hide Walk, Replay, Utf8Valid, Loads;
    if owner == [] || !Utf8Valid(owner) { return None; }
    var chain :- CollectHistory(load, lookup, head);
    r := ReplayEnvelopes(c, load, owner, chain);
  }

  /** A draft's carried history, the immediate predecessor first. */
  method ParsePreviousStateChain(c: Crypto, load: Loader, owner: Bytes, envelope: Option<Bytes>, history: seq<Bytes>)
    returns (r: Option<Option<IdentityState>>)
    requires Loads(load)
    ensures r == PreviousState(c, owner, envelope, history)
  {
    hide Replay, Loads;
    if envelope.None? { return if history == [] then Some(None) else None; }
    var state :- ReplayEnvelopes(c, load, owner, [envelope.value] + history);
    return Some(Some(state));
  }
}
