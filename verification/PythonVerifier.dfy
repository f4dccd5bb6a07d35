/** The Python verifier over the same bytes. */
module PythonVerifier {
  import opened Prelude
  import opened CborSpec
  import opened CborProofs
  import opened Identity

  datatype IdentityState = IdentityState(
    ownerName: Bytes,
    ownerKey: Bytes,
    sequence: nat,
    update: Bytes,
    envelope: Bytes,
    stateHash: Bytes,
    generation: Option<nat>,
    threshold: Option<nat>,
    signers: seq<Signer>,
    predecessors: seq<Bytes>)

  // ---------------------------------------------------------------- reading

  ghost predicate Canonical(bytes: Bytes, v: Value)
  {
    TextsValid(v) && Enc(v) == bytes && |Enc(v)| <= UINT64_MAX
  }

  /**
   * Loading, then dumping back to the same bytes. Values outside the shared language
   * (floats, other tags, text keys) fail every shape test below, so they count as unread.
   */
  ghost function Loaded(bytes: Bytes): (r: Option<Value>)
    ensures forall v :: r == Some(v) <==> Canonical(bytes, v)
  {
    if exists v :: Canonical(bytes, v) then
      var v :| Canonical(bytes, v);
      LoadedUnique(bytes, v);
      Some(v)
    else None
  }

  lemma LoadedUnique(bytes: Bytes, v: Value)
    requires Canonical(bytes, v)
    ensures forall w :: Canonical(bytes, w) ==> w == v
  {
    forall w | Canonical(bytes, w) ensures w == v { EncInjective(v, w); }
  }

  ghost function ReadSigners(v: Value): (r: Option<seq<Signer>>)
  {
    var items :- AsList(v);
    if items == [] then None else
    var signers :- SignerEntries(items);
    if SignersDistinct(signers) then Some(signers) else None
  }

  ghost function ReadAuthorization(v: Value): (r: Option<Authorization>)
  {
    var auth :- Fields(v, 7);
    if auth[1] != Int(1) || auth[2] != Int(1) then None else
    var operation :- AsUint(auth[3]);
    if operation !in {1, 2, 3, 4, 5} then None else
    var generation :- AsUint(auth[4]);
    var threshold :- AsUint(auth[5]);
    var signers :- ReadSigners(auth[6]);
    if !(1 <= threshold <= |signers|) then None else
    var predecessor :- AsBytesOf(auth[7], KEY_BYTES);
    Some(Authorization(operation, generation, threshold, signers, predecessor))
  }

  /** A decoded update: its record fields are not yet typed. */
  datatype Update = Update(name: Value, key: Value, sequence: nat, auth: Option<Authorization>)

  ghost function DecodeUpdate(bytes: Bytes): (r: Option<Update>)
  {
    var value :- Loaded(bytes);
    if Fields(value, 3).Some? then UpdateFields(Fields(value, 3).value)
    else
      var fields :- Fields(value, 4);
      var update :- UpdateFields(fields);
      var auth :- ReadAuthorization(fields[4]);
      Some(update.(auth := Some(auth)))
  }

  ghost function UpdateFields(update: seq<Value>): (r: Option<Update>)
    requires |update| >= 4
  {
    var record :- Fields(update[1], 2);
    var sequence :- AsUint(update[3]);
    if update[2] == Map(map[]) then Some(Update(record[1], record[2], sequence, None)) else None
  }

  ghost function ReadProofs(v: Value): (r: Option<seq<Proof>>)
  {
    var items :- AsList(v);
    var proofs :- ProofEntries(items);
    if ProofsOrdered(proofs) then Some(proofs) else None
  }

  ghost function ReadLegacy(owner: Bytes, outer: seq<Value>): (r: Option<Parts>)
    requires |outer| == 3
    ensures r.Some? ==> r.value.Legacy?
  {
    var updateBytes :- AsBytes(outer[1]);
    var signature :- AsBytesOf(outer[2], SIGNATURE_BYTES);
    var update :- DecodeUpdate(updateBytes);
    var key :- AsBytesOf(update.key, KEY_BYTES);
    if update.auth.Some? || update.name != Bstr(owner) then None
    else Some(Legacy(updateBytes, key, update.sequence, signature))
  }

  ghost function ReadVersioned(owner: Bytes, outer: seq<Value>): (r: Option<Parts>)
    requires |outer| == 4
    ensures r.Some? ==> r.value.Versioned?
  {
    if outer[1] != Int(1) then None else
    var updateBytes :- AsBytes(outer[2]);
    var update :- DecodeUpdate(updateBytes);
    if update.auth.None? || update.name != Bstr(owner) then None else
    var proofs :- ReadProofs(outer[3]);
    var key :- AsBytesOf(update.key, KEY_BYTES);
    Some(Versioned(updateBytes, key, update.sequence, update.auth.value, proofs))
  }

  ghost function Read(owner: Bytes, envelope: Bytes): (r: Option<Parts>)
  {
    var value :- Loaded(envelope);
    if Fields(value, 2).Some? then ReadLegacy(owner, Fields(value, 2).value)
    else if Fields(value, 3).Some? then ReadVersioned(owner, Fields(value, 3).value)
    else None
  }

  // ------------------------------------------------------------ transitions

  predicate TwoOfThree(auth: Authorization)
  {
    auth.threshold == 2 && |auth.signers| == 3
  }

  predicate Follows(owner: Bytes, p: Parts, prev: IdentityState)
    requires p.Versioned?
  {
    prev.ownerName == owner && prev.stateHash == p.auth.predecessor && p.sequence == prev.sequence + 1
  }

  /** The structural half of the operation checks, before any proof is looked at. */
  predicate ShapeAllowed(owner: Bytes, p: Parts, prev: Option<IdentityState>)
    requires p.Versioned?
  {
    match p.auth.operation
    case 1 =>
      prev.None? && p.sequence == 1 && p.auth.generation == 1 && p.auth.predecessor == ZERO_HASH && TwoOfThree(p.auth)
    case 4 => p.auth.generation == 1 && TwoOfThree(p.auth)
    case 2 =>
      prev.Some? && prev.value.signers != [] && Follows(owner, p, prev.value) && prev.value.ownerKey == p.key
      && Some(p.auth.generation) == prev.value.generation && Some(p.auth.threshold) == prev.value.threshold
      && p.auth.signers == prev.value.signers
    case 3 =>
      TwoOfThree(p.auth)
      && prev.Some? && prev.value.signers != [] && Follows(owner, p, prev.value) && prev.value.ownerKey == p.key
      && p.auth.generation > (if prev.value.generation.Some? then prev.value.generation.value else 0)
      && p.auth.signers != prev.value.signers
    case 5 =>
      prev.Some? && Follows(owner, p, prev.value) && prev.value.ownerKey != p.key &&
      if prev.value.signers != [] then
        Some(p.auth.generation) == prev.value.generation && Some(p.auth.threshold) == prev.value.threshold
        && p.auth.signers == prev.value.signers
      else p.auth.generation == 1 && TwoOfThree(p.auth) && HasKey(p.auth.signers, p.key)
    case _ => false
  }

  predicate ProofsAllowed(c: Crypto, p: Parts, prev: Option<IdentityState>)
    requires p.Versioned?
  {
    if p.auth.operation == 4 then
      |p.proofs| == 1 && p.proofs[0].id.Some? && KeyFor(p.auth.signers, p.proofs[0].id.value) == Some(p.key)
      && prev.Some? && prev.value.signers == [] && prev.value.ownerKey == p.key
      && prev.value.stateHash == p.auth.predecessor && p.sequence == prev.value.sequence + 1
      && (forall q | q in p.proofs :: ProofVerifies(c, p.update, q, p.auth.signers)) && |ProofIds(p.proofs)| == 1
    else if p.auth.operation == 5 && prev.Some? && prev.value.signers == [] then
      |p.proofs| == 1 && p.proofs[0].id.None?
      && c.verify(prev.value.ownerKey, c.sha(p.update), p.proofs[0].signature)
    else
      QuorumVerifies(c, p.update, p.proofs,
        if p.auth.operation == 1 then p.auth.signers else if prev.Some? then prev.value.signers else [],
        p.auth.threshold)
  }

  /** A legacy envelope is checked on its own: the previous state is not consulted. */
  predicate Accepts(c: Crypto, owner: Bytes, p: Parts, prev: Option<IdentityState>)
  {
    if p.Legacy? then c.verify(p.key, c.sha(p.update), p.signature)
    else ShapeAllowed(owner, p, prev) && ProofsAllowed(c, p, prev)
  }

  function StateOf(c: Crypto, owner: Bytes, envelope: Bytes, p: Parts, prev: Option<IdentityState>): IdentityState
  {
    IdentityState(
      owner, p.key, p.sequence, p.update, envelope, c.sha(p.update),
      if p.Versioned? then Some(p.auth.generation) else None,
      if p.Versioned? then Some(p.auth.threshold) else None,
      if p.Versioned? then p.auth.signers else [],
      if p.Versioned? && p.auth.operation != 1 && prev.Some? then [prev.value.envelope] + prev.value.predecessors
        else [])
  }

  ghost function ParseEnvelope(c: Crypto, owner: Bytes, envelope: Bytes,
          prev: Option<IdentityState>): (r: Option<IdentityState>)
  {
    var p :- Read(owner, envelope);
    if Accepts(c, owner, p, prev) then Some(StateOf(c, owner, envelope, p, prev)) else None
  }

  // ---------------------------------------------------------------- history

  /** The authorization the walk looks at, before the envelope is checked in full. */
  ghost function Peek(envelope: Bytes): (r: Option<Option<Authorization>>)
  {
    var value :- Loaded(envelope);
    if value.Map? && 1 in value.m && value.m[1] == Int(1) && 2 in value.m && value.m[2].Bstr? then
      var update :- DecodeUpdate(value.m[2].bytes);
      Some(update.auth)
    else Some(None)
  }

  ghost function Walk(lookup: Lookup, envelope: Bytes, lookups: nat): (r: Option<seq<Bytes>>)
    requires lookups <= MAX_PREDECESSOR_DEPTH
    ensures r.Some? ==> r.value != [] && r.value[0] == envelope
    decreases MAX_PREDECESSOR_DEPTH - lookups, |envelope|
  {
    var auth :- Peek(envelope);
    if auth.None? || auth.value.operation == 1 then Some([envelope])
    else if lookups >= MAX_PREDECESSOR_DEPTH then None
    else
      var predecessor :- lookup(auth.value.predecessor);
      var older :- Walk(lookup, predecessor, lookups + 1);
      Some([envelope] + older)
  }

  /** Newest first; each envelope is checked over the state of the ones after it. */
  ghost function Replay(c: Crypto, owner: Bytes, envelopes: seq<Bytes>): (r: Option<IdentityState>)
    ensures r.Some? ==> envelopes != [] && r.value.envelope == envelopes[0]
  {
    if envelopes == [] then None
    else if |envelopes| == 1 then ParseEnvelope(c, owner, envelopes[0], None)
    else
      var prev :- Replay(c, owner, envelopes[1..]);
      ParseEnvelope(c, owner, envelopes[0], Some(prev))
  }

  /** What reading the head envelope and its looked-up history yields. */
  ghost function ReadState(c: Crypto, owner: Bytes, head: Bytes, lookup: Lookup): (r: Option<IdentityState>)
  {
    if owner == [] || !Utf8Valid(owner) then None else
    var envelopes :- Walk(lookup, head, 0);
    Replay(c, owner, envelopes)
  }

  /** What re-parsing a carried history yields: immediate predecessor first. */
  ghost function ParseCarried(c: Crypto, owner: Bytes, envelope: Bytes, history: seq<Bytes>): (r: Option<IdentityState>)
  {
    Replay(c, owner, [envelope] + history)
  }

  /** A draft's previous state: none when it carries nothing, refused when it carries a history and no envelope. */
  ghost function PreviousState(c: Crypto, owner: Bytes, envelope: Option<Bytes>, history: seq<Bytes>)
    : Option<Option<IdentityState>>
  {
    if envelope.None? then if history == [] then Some(None) else None
    else
      var state := ParseCarried(c, owner, envelope.value, history);
      if state.Some? then Some(state) else None
  }
}
