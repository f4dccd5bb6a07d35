/** Identity envelopes as both verifiers read them, with the primitives kept abstract. */
module Identity {
  import opened Prelude
  import opened CborSpec

  const KEY_BYTES: nat := 32
  const SIGNATURE_BYTES: nat := 64
  const MAX_SIGNER_ID_BYTES: nat := 256
  const MAX_PREDECESSOR_DEPTH: nat := 1024

  /** SHA-256 and Ed25519 verification; nothing is assumed of either unless a lemma says so. */
  datatype Crypto = Crypto(sha: Bytes -> Bytes, verify: (Bytes, Bytes, Bytes) -> bool)

  type Lookup = Bytes -> Option<Bytes>

  /** A signer id is held as its UTF-8 bytes. */
  datatype Signer = Signer(id: Bytes, key: Bytes)

  datatype Proof = Proof(id: Option<Bytes>, signature: Bytes)

  datatype Authorization = Authorization(
    operation: nat,
    generation: nat,
    threshold: nat,
    signers: seq<Signer>,
    predecessor: Bytes)

  /** The content of an envelope: legacy (two fields) or version 1 (three). */
  datatype Parts =
    | Legacy(update: Bytes, key: Bytes, sequence: nat, signature: Bytes)
    | Versioned(update: Bytes, key: Bytes, sequence: nat, auth: Authorization, proofs: seq<Proof>)

  const ZERO_HASH: Bytes := [
    0, 0, 0, 0, 0, 0, 0, 0, 0, 0, 0, 0, 0, 0, 0, 0,
    0, 0, 0, 0, 0, 0, 0, 0, 0, 0, 0, 0, 0, 0, 0, 0]

  // ------------------------------------------------------- typed field access

  function KeysUpTo(n: nat): (s: set<int>)
    ensures |s| == n && forall k :: k in s <==> 1 <= k <= n
  {
    if n == 0 then {} else KeysUpTo(n - 1) + {n}
  }

  predicate HasKeysUpTo(v: Value, n: nat)
  {
    v.Map? && v.m.Keys == KeysUpTo(n)
  }

  /** The fields of a map whose keys are exactly 1 to n; field k is at index k. */
  function Fields(v: Value, n: nat): (r: Option<seq<Value>>)
    ensures r.Some? ==> |r.value| == n + 1
  {
    if HasKeysUpTo(v, n) then Some([Null] + seq(n, i requires 0 <= i < n => v.m[i + 1])) else None
  }

  function AsBytes(v: Value): Option<Bytes>
  {
    if v.Bstr? then Some(v.bytes) else None
  }

  function AsBytesOf(v: Value, length: nat): Option<Bytes>
  {
    if v.Bstr? && |v.bytes| == length then Some(v.bytes) else None
  }

  function AsUint(v: Value): Option<nat>
  {
    if v.Int? && v.n >= 0 then Some(v.n) else None
  }

  function AsList(v: Value): Option<seq<Value>>
  {
    if v.List? then Some(v.items) else None
  }

  // ---------------------------------------------------------------- signers

  predicate SignerIdFits(id: Bytes)
  {
    0 < |id| <= MAX_SIGNER_ID_BYTES
  }

  function SignerEntry(v: Value): (r: Option<Signer>)
  {
    var entry :- Fields(v, 2);
    var key :- AsBytesOf(entry[2], KEY_BYTES);
    if entry[1].Text? && SignerIdFits(entry[1].utf8) then Some(Signer(entry[1].utf8, key)) else None
  }

  function SignerEntries(items: seq<Value>): (r: Option<seq<Signer>>)
    ensures r.Some? ==> |r.value| == |items| && forall i | 0 <= i < |items| :: SignerEntry(items[i]) == Some(r.value[i])
  {
    if items == [] then Some([])
    else
      var first :- SignerEntry(items[0]);
      var rest :- SignerEntries(items[1..]);
      Some([first] + rest)
  }

  lemma {:induction false} SignerEntriesAre(items: seq<Value>, signers: seq<Signer>)
    requires |signers| == |items| && forall i | 0 <= i < |items| :: SignerEntry(items[i]) == Some(signers[i])
    ensures SignerEntries(items) == Some(signers)
  {
    hide SignerEntry;
    if items != [] {
      SignerEntriesAre(items[1..], signers[1..]);
      assert signers == [signers[0]] + signers[1..];
    }
  }

  /** Ids in strict order, keys all different. */
  ghost predicate SignersDistinct(signers: seq<Signer>)
  {
    forall i, j :: 0 <= i < j < |signers| ==> LexLess(signers[i].id, signers[j].id) && signers[i].key != signers[j].key
  }

  /** An id or a key of s is listed already. */
  predicate Duplicates(signers: seq<Signer>, s: Signer)
  {
    exists i | 0 <= i < |signers| :: signers[i].id == s.id || signers[i].key == s.key
  }

  /** The key listed for id. Lists in use have distinct ids, so at most one entry can match. */
  function KeyFor(signers: seq<Signer>, id: Bytes): (r: Option<Bytes>)
    ensures r.None? <==> forall s | s in signers :: s.id != id
    ensures r.Some? ==> Signer(id, r.value) in signers
  {
    if signers == [] then None
    else if signers[0].id == id then Some(signers[0].key)
    else KeyFor(signers[1..], id)
  }

  predicate HasKey(signers: seq<Signer>, key: Bytes)
  {
    exists i | 0 <= i < |signers| :: signers[i].key == key
  }

  // ----------------------------------------------------------------- proofs

  function ProofEntry(v: Value): (r: Option<Proof>)
  {
    var entry :- Fields(v, 2);
    var signature :- AsBytesOf(entry[2], SIGNATURE_BYTES);
    if entry[1].Null? then Some(Proof(None, signature))
    else if entry[1].Text? && entry[1].utf8 != [] then Some(Proof(Some(entry[1].utf8), signature))
    else None
  }

  function ProofEntries(items: seq<Value>): (r: Option<seq<Proof>>)
    ensures r.Some? ==> |r.value| == |items| && forall i | 0 <= i < |items| :: ProofEntry(items[i]) == Some(r.value[i])
  {
    if items == [] then Some([])
    else
      var first :- ProofEntry(items[0]);
      var rest :- ProofEntries(items[1..]);
      Some([first] + rest)
  }

  lemma {:induction false} ProofEntriesAre(items: seq<Value>, proofs: seq<Proof>)
    requires |proofs| == |items| && forall i | 0 <= i < |items| :: ProofEntry(items[i]) == Some(proofs[i])
    ensures ProofEntries(items) == Some(proofs)
  {
    hide ProofEntry;
    if items != [] {
      ProofEntriesAre(items[1..], proofs[1..]);
      assert proofs == [proofs[0]] + proofs[1..];
    }
  }

  /** A proof without a signer id sorts as the empty id. */
  function ProofOrder(p: Proof): Bytes
  {
    if p.id.None? then [] else p.id.value
  }

  ghost predicate ProofsOrdered(proofs: seq<Proof>)
  {
    forall i, j :: 0 <= i < j < |proofs| ==> LexLess(ProofOrder(proofs[i]), ProofOrder(proofs[j]))
  }

  lemma ProofClash(proofs: seq<Proof>, i: nat, j: nat)
    requires i < j < |proofs| && ProofsOrdered(proofs)
    ensures proofs[i].id != proofs[j].id && LexLess(ProofOrder(proofs[i]), ProofOrder(proofs[j]))
  {
    hide LexLess;
    LexIrreflexive(ProofOrder(proofs[i]));
  }

  predicate ProofIdsFit(proofs: seq<Proof>)
  {
    forall i | 0 <= i < |proofs| :: proofs[i].id.Some? ==> SignerIdFits(proofs[i].id.value)
  }

  /** This proof names one of the signers and its signature verifies under that signer's key. */
  predicate ProofVerifies(c: Crypto, update: Bytes, p: Proof, signers: seq<Signer>)
  {
    p.id.Some? && KeyFor(signers, p.id.value).Some?
    && c.verify(KeyFor(signers, p.id.value).value, c.sha(update), p.signature)
  }

  function ProofIds(proofs: seq<Proof>): set<Option<Bytes>>
  {
    set p | p in proofs :: p.id
  }

  /** Every proof verifies, and at least threshold different signers are among them. */
  predicate QuorumVerifies(c: Crypto, update: Bytes, proofs: seq<Proof>, signers: seq<Signer>, threshold: nat)
  {
    (forall p | p in proofs :: ProofVerifies(c, update, p, signers)) && |ProofIds(proofs)| >= threshold
  }
}
