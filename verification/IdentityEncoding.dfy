/** Building envelopes from their content; reading is exactly the inverse of building. */
module IdentityEncoding {
  import opened Prelude
  import opened CborSpec
  import opened Identity
  import opened ChainInvariants
  import opened PythonVerifier

  // ------------------------------------------------------------------ values

  /** A map with keys 1, 2, 3, … */
  function Entry(fields: seq<Value>): Value
  {
    var padded := [Null] + fields;
    Map(map k: int | 1 <= k < |padded| :: padded[k])
  }

  function SignerValue(s: Signer): Value
  {
    Entry([Text(s.id), Bstr(s.key)])
  }

  function SignerValues(signers: seq<Signer>): (r: seq<Value>)
    ensures |r| == |signers| && forall i | 0 <= i < |signers| :: r[i] == SignerValue(signers[i])
  {
    if signers == [] then [] else [SignerValue(signers[0])] + SignerValues(signers[1..])
  }

  function ProofValue(p: Proof): Value
  {
    Entry([if p.id.None? then Null else Text(p.id.value), Bstr(p.signature)])
  }

  function ProofValues(proofs: seq<Proof>): (r: seq<Value>)
    ensures |r| == |proofs| && forall i | 0 <= i < |proofs| :: r[i] == ProofValue(proofs[i])
  {
    if proofs == [] then [] else [ProofValue(proofs[0])] + ProofValues(proofs[1..])
  }

  function AuthorizationValue(a: Authorization): Value
  {
    Entry([Int(1), Int(1), Int(a.operation), Int(a.generation), Int(a.threshold), List(SignerValues(a.signers)),
      Bstr(a.predecessor)])
  }

  function RecordFields(owner: Bytes, key: Bytes, sequence: nat): seq<Value>
  {
    [Entry([Bstr(owner), Bstr(key)]), Map(map[]), Int(sequence)]
  }

  function UpdateValue(owner: Bytes, key: Bytes, sequence: nat, auth: Option<Authorization>): Value
  {
    Entry(RecordFields(owner, key, sequence) + if auth.Some? then [AuthorizationValue(auth.value)] else [])
  }

  function EnvelopeValue(p: Parts): Value
  {
    match p
    case Legacy(update, _, _, signature) => Entry([Bstr(update), Bstr(signature)])
    case Versioned(update, _, _, _, proofs) => Entry([Int(1), Bstr(update), List(ProofValues(proofs))])
  }

  function AuthOf(p: Parts): Option<Authorization>
  {
    if p.Versioned? then Some(p.auth) else None
  }

  lemma PairIs(a: Value, b: Value)
    ensures Entry([a, b]) == Map(map[1 := a, 2 := b])
  {
    EntryIs([a, b]);
    assert Entry([a, b]).m == map[1 := a, 2 := b];
  }

  lemma TripleIs(a: Value, b: Value, c: Value)
    ensures Entry([a, b, c]) == Map(map[1 := a, 2 := b, 3 := c])
  {
    EntryIs([a, b, c]);
    assert Entry([a, b, c]).m == map[1 := a, 2 := b, 3 := c];
  }

  lemma FourIs(a: Value, b: Value, c: Value, d: Value)
    ensures Entry([a, b, c, d]) == Map(map[1 := a, 2 := b, 3 := c, 4 := d])
  {
    EntryIs([a, b, c, d]);
    assert Entry([a, b, c, d]).m == map[1 := a, 2 := b, 3 := c, 4 := d];
  }

  lemma SevenIs(f: seq<Value>)
    requires |f| == 7
    ensures Entry(f)
            == Map(map[1 := f[0], 2 := f[1], 3 := f[2], 4 := f[3], 5 := f[4], 6 := f[5], 7 := f[6]])
  {
    hide Entry;
    EntryIs(f);
    assert Entry(f).m == map[1 := f[0], 2 := f[1], 3 := f[2], 4 := f[3], 5 := f[4], 6 := f[5], 7 := f[6]];
  }

  /** Where everything is on the wire: the keys of each map and what is under them. */
  lemma WireLayout(s: Signer, p: Proof, a: Authorization)
    ensures SignerValue(s) == Map(map[1 := Text(s.id), 2 := Bstr(s.key)])
    ensures ProofValue(p) == Map(map[1 := if p.id.None? then Null else Text(p.id.value), 2 := Bstr(p.signature)])
    ensures AuthorizationValue(a)
            == Map(map[1 := Int(1), 2 := Int(1), 3 := Int(a.operation), 4 := Int(a.generation), 5 := Int(a.threshold),
                       6 := List(SignerValues(a.signers)), 7 := Bstr(a.predecessor)])
  {
    hide SignerValues, ProofValues, Entry;
    PairIs(Text(s.id), Bstr(s.key));
    PairIs(if p.id.None? then Null else Text(p.id.value), Bstr(p.signature));
    SevenIs([Int(1), Int(1), Int(a.operation), Int(a.generation), Int(a.threshold), List(SignerValues(a.signers)),
      Bstr(a.predecessor)]);
  }

  lemma EnvelopeLayout(owner: Bytes, key: Bytes, sequence: nat, a: Authorization, p: Parts)
    ensures var record := Map(map[1 := Bstr(owner), 2 := Bstr(key)]);
            && UpdateValue(owner, key, sequence, None) == Map(map[1 := record, 2 := Map(map[]), 3 := Int(sequence)])
            && UpdateValue(owner, key, sequence, Some(a))
               == Map(map[1 := record, 2 := Map(map[]), 3 := Int(sequence), 4 := AuthorizationValue(a)])
    ensures EnvelopeValue(p)
            == if p.Legacy? then Map(map[1 := Bstr(p.update), 2 := Bstr(p.signature)])
               else Map(map[1 := Int(1), 2 := Bstr(p.update), 3 := List(ProofValues(p.proofs))])
  {
    hide ProofValues, Entry, AuthorizationValue;
    PairIs(Bstr(owner), Bstr(key));
    var record := Entry([Bstr(owner), Bstr(key)]);
    TripleIs(record, Map(map[]), Int(sequence));
    FourIs(record, Map(map[]), Int(sequence), AuthorizationValue(a));
    assert RecordFields(owner, key, sequence) + [] == [record, Map(map[]), Int(sequence)];
    assert RecordFields(owner, key, sequence) + [AuthorizationValue(a)]
        == [record, Map(map[]), Int(sequence), AuthorizationValue(a)];
    if p.Legacy? { PairIs(Bstr(p.update), Bstr(p.signature)); }
    else { TripleIs(Int(1), Bstr(p.update), List(ProofValues(p.proofs))); }
  }

  // -------------------------------------------------------------- conditions

  ghost predicate AuthorizationBuildable(a: Authorization)
  {
    && 1 <= a.operation <= 5 && 1 <= a.threshold <= |a.signers| && |a.predecessor| == KEY_BYTES
    && SignersWellFormed(a.signers) && forall i | 0 <= i < |a.signers| :: Utf8Valid(a.signers[i].id)
  }

  ghost predicate ProofBuildable(p: Proof)
  {
    |p.signature| == SIGNATURE_BYTES && (p.id.Some? ==> p.id.value != [] && Utf8Valid(p.id.value))
  }

  ghost predicate ProofsBuildable(proofs: seq<Proof>)
  {
    ProofsOrdered(proofs) && forall i | 0 <= i < |proofs| :: ProofBuildable(proofs[i])
  }

  /** The content of an envelope some builder could have made for this owner. */
  ghost predicate Buildable(owner: Bytes, p: Parts)
  {
    && |p.key| == KEY_BYTES
    && p.update == Enc(UpdateValue(owner, p.key, p.sequence, AuthOf(p)))
    && |p.update| <= UINT64_MAX && |Enc(EnvelopeValue(p))| <= UINT64_MAX
    && if p.Legacy? then |p.signature| == SIGNATURE_BYTES
         else AuthorizationBuildable(p.auth) && ProofsBuildable(p.proofs)
  }

  // ------------------------------------------------------------ map entries

  lemma EntryFields(fields: seq<Value>)
    ensures Fields(Entry(fields), |fields|) == Some([Null] + fields)
    ensures forall n: nat | n != |fields| :: Fields(Entry(fields), n) == None
  {
    var v, n := Entry(fields), |fields|;
    assert v.m.Keys == KeysUpTo(n);
    assert Fields(v, n).value == [Null] + fields;
    forall k: nat | k != n ensures Fields(v, k) == None { assert |KeysUpTo(k)| != |KeysUpTo(n)|; }
  }

  lemma FieldsEntry(v: Value, n: nat)
    requires Fields(v, n).Some?
    ensures v == Entry(Fields(v, n).value[1..])
  {
    hide *;
    var fields := Fields(v, n).value;
    FieldsAre(v, n);
    EntryIs(fields[1..]);
    var m := Entry(fields[1..]).m;
    forall k | k in v.m ensures k in m && v.m[k] == m[k] { assert m[k] == fields[1..][k - 1]; }
    forall k | k in m ensures k in v.m { assert 1 <= k <= n; }
    assert v.m == m;
  }

  lemma FieldsAre(v: Value, n: nat)
    requires Fields(v, n).Some?
    ensures v.Map? && |Fields(v, n).value| == n + 1 && forall k :: k in v.m <==> 1 <= k <= n
    ensures forall k | k in v.m :: v.m[k] == Fields(v, n).value[k]
  {
    hide KeysUpTo;
    assert forall k :: k in v.m <==> k in KeysUpTo(n);
    var f := seq(n, i requires 0 <= i < n => v.m[i + 1]);
    assert Fields(v, n).value == [Null] + f;
    forall k | k in v.m ensures v.m[k] == ([Null] + f)[k] { assert f[k - 1] == v.m[k - 1 + 1]; }
  }

  lemma EntryIs(fields: seq<Value>)
    ensures Entry(fields).Map? && forall k :: k in Entry(fields).m <==> 1 <= k <= |fields|
    ensures forall k | k in Entry(fields).m :: Entry(fields).m[k] == fields[k - 1]
  {
  }

  lemma EntryTexts(fields: seq<Value>)
    ensures TextsValid(Entry(fields)) <==> forall i | 0 <= i < |fields| :: TextsValid(fields[i])
  {
    var v := Entry(fields);
    if TextsValid(v) {
      forall i | 0 <= i < |fields| ensures TextsValid(fields[i]) { assert i + 1 in v.m && v.m[i + 1] == fields[i]; }
    }
  }

  // ------------------------------------------------------- signers and proofs

  lemma SignerInverse(s: Signer)
    requires SignerIdFits(s.id) && |s.key| == KEY_BYTES
    ensures SignerEntry(SignerValue(s)) == Some(s)
  {
    hide Fields, Entry;
    EntryFields([Text(s.id), Bstr(s.key)]);
  }

  lemma SignerExact(v: Value)
    requires SignerEntry(v).Some?
    ensures v == SignerValue(SignerEntry(v).value)
  {
    hide Entry, Fields;
    FieldsEntry(v, 2);
    var f := Fields(v, 2).value;
    assert f[1..] == [f[1], f[2]];
  }

  lemma SignersInverse(signers: seq<Signer>)
    requires SignersWellFormed(signers) && signers != []
    ensures ReadSigners(List(SignerValues(signers))) == Some(signers)
  {
    hide SignerValue, SignerEntry, SignersDistinct;
    forall i | 0 <= i < |signers| ensures SignerEntry(SignerValue(signers[i])) == Some(signers[i]) {
      SignerInverse(signers[i]);
    }
    SignerEntriesAre(SignerValues(signers), signers);
  }

  lemma SignersExact(v: Value)
    requires ReadSigners(v).Some?
    ensures v == List(SignerValues(ReadSigners(v).value))
  {
    hide SignerValue, SignerEntry, SignersDistinct;
    var signers := ReadSigners(v).value;
    forall i | 0 <= i < |signers| ensures v.items[i] == SignerValue(signers[i]) { SignerExact(v.items[i]); }
    assert v.items == SignerValues(signers);
  }

  lemma SignerText(s: Signer)
    ensures TextsValid(SignerValue(s)) <==> Utf8Valid(s.id)
  {
    hide Entry, Utf8Valid;
    var f := [Text(s.id), Bstr(s.key)];
    EntryTexts(f);
    assert TextsValid(f[0]) == Utf8Valid(s.id);
  }

  lemma SignerTexts(signers: seq<Signer>)
    ensures TextsValid(List(SignerValues(signers))) <==> forall i | 0 <= i < |signers| :: Utf8Valid(signers[i].id)
  {
    hide SignerValue, Utf8Valid;
    var items := SignerValues(signers);
    forall i | 0 <= i < |signers| ensures TextsValid(items[i]) <==> Utf8Valid(signers[i].id) { SignerText(signers[i]); }
    if TextsValid(List(items)) {
      forall i | 0 <= i < |signers| ensures Utf8Valid(signers[i].id) { assert items[i] in items; }
    }
  }

  lemma ProofInverse(p: Proof)
    requires ProofBuildable(p)
    ensures ProofEntry(ProofValue(p)) == Some(p) && TextsValid(ProofValue(p))
  {
    hide Fields, Entry, Utf8Valid;
    var f := [if p.id.None? then Null else Text(p.id.value), Bstr(p.signature)];
    EntryFields(f);
    EntryTexts(f);
  }

  lemma ProofExact(v: Value)
    requires ProofEntry(v).Some? && TextsValid(v)
    ensures v == ProofValue(ProofEntry(v).value) && ProofBuildable(ProofEntry(v).value)
  {
    hide Entry, Fields, Utf8Valid;
    FieldsEntry(v, 2);
    var f := Fields(v, 2).value;
    assert f[1..] == [f[1], f[2]];
    EntryTexts([f[1], f[2]]);
    assert TextsValid([f[1], f[2]][0]);
  }

  lemma ProofsInverse(proofs: seq<Proof>)
    requires ProofsBuildable(proofs)
    ensures ReadProofs(List(ProofValues(proofs))) == Some(proofs) && TextsValid(List(ProofValues(proofs)))
  {
    hide ProofValue, ProofEntry, ProofsOrdered, ProofBuildable;
    forall i | 0 <= i < |proofs|
      ensures ProofEntry(ProofValue(proofs[i])) == Some(proofs[i]) && TextsValid(ProofValue(proofs[i]))
    {
      ProofInverse(proofs[i]);
    }
    ProofEntriesAre(ProofValues(proofs), proofs);
  }

  lemma ProofsExact(v: Value)
    requires ReadProofs(v).Some? && TextsValid(v)
    ensures v == List(ProofValues(ReadProofs(v).value)) && ProofsBuildable(ReadProofs(v).value)
  {
    hide ProofValue, ProofEntry, ProofsOrdered, ProofBuildable;
    var proofs := ReadProofs(v).value;
    forall i | 0 <= i < |proofs| ensures v.items[i] == ProofValue(proofs[i]) && ProofBuildable(proofs[i]) {
      assert v.items[i] in v.items;
      ProofExact(v.items[i]);
    }
    assert v.items == ProofValues(proofs);
  }

  // ---------------------------------------------------------- authorizations

  lemma AuthorizationInverse(a: Authorization)
    requires AuthorizationBuildable(a)
    ensures ReadAuthorization(AuthorizationValue(a)) == Some(a) && TextsValid(AuthorizationValue(a))
  {
    hide Fields, Entry, ReadSigners, SignersWellFormed, Utf8Valid, TextsValid;
    var f := [Int(1), Int(1), Int(a.operation), Int(a.generation), Int(a.threshold), List(SignerValues(a.signers)),
      Bstr(a.predecessor)];
    EntryFields(f);
    SignersInverse(a.signers);
    SignerTexts(a.signers);
    forall i | 0 <= i < |f| ensures TextsValid(f[i]) { if i != 5 { AtomText(f[i]); } }
    EntryTexts(f);
  }

  lemma AtomText(v: Value)
    requires !v.Text? && !v.List? && !v.Map?
    ensures TextsValid(v)
  {
  }

  lemma AuthorizationExact(v: Value)
    requires ReadAuthorization(v).Some? && TextsValid(v)
    ensures v == AuthorizationValue(ReadAuthorization(v).value) && AuthorizationBuildable(ReadAuthorization(v).value)
  {
    hide Fields, Entry, ReadSigners, SignersWellFormed, Utf8Valid, TextsValid;
    var f, a := Fields(v, 7).value, ReadAuthorization(v).value;
    FieldsEntry(v, 7);
    AuthorizationRead(v);
    SignersExact(f[6]);
    var g := [f[1], f[2], f[3], f[4], f[5], f[6], f[7]];
    assert f[1..] == g;
    EntryTexts(g);
    assert TextsValid(g[5]);
    SignerTexts(a.signers);
  }

  // ----------------------------------------------------------------- updates

  lemma RecordTexts(owner: Bytes, key: Bytes, sequence: nat)
    ensures forall i | 0 <= i < 3 :: TextsValid(RecordFields(owner, key, sequence)[i])
  {
    hide Entry;
    EntryTexts([Bstr(owner), Bstr(key)]);
  }

  lemma UpdateTexts(owner: Bytes, key: Bytes, sequence: nat, auth: Option<Authorization>)
    requires auth.Some? ==> TextsValid(AuthorizationValue(auth.value))
    ensures TextsValid(UpdateValue(owner, key, sequence, auth))
  {
    hide Entry, TextsValid, AuthorizationValue, RecordFields;
    RecordLength(owner, key, sequence);
    RecordTexts(owner, key, sequence);
    var record := RecordFields(owner, key, sequence);
    var f := record + if auth.Some? then [AuthorizationValue(auth.value)] else [];
    forall i | 0 <= i < |f| ensures TextsValid(f[i]) { assert i < 3 ==> f[i] == record[i]; }
    EntryTexts(f);
  }

  lemma RecordInverse(owner: Bytes, key: Bytes, sequence: nat, f: seq<Value>)
    requires |f| >= 4 && f[1..4] == RecordFields(owner, key, sequence)
    ensures UpdateFields(f) == Some(Update(Bstr(owner), Bstr(key), sequence, None))
  {
    hide Entry, Fields;
    EntryFields([Bstr(owner), Bstr(key)]);
    assert f[1] == f[1..4][0] && f[2] == f[1..4][1] && f[3] == f[1..4][2];
  }

  lemma UpdateInverse(owner: Bytes, key: Bytes, sequence: nat, auth: Option<Authorization>)
    requires auth.Some? ==> AuthorizationBuildable(auth.value)
    requires |Enc(UpdateValue(owner, key, sequence, auth))| <= UINT64_MAX
    ensures DecodeUpdate(Enc(UpdateValue(owner, key, sequence, auth)))
              == Some(Update(Bstr(owner), Bstr(key), sequence, auth))
  {
    hide Entry, Fields, TextsValid, AuthorizationValue, ReadAuthorization, AuthorizationBuildable, RecordFields,
         UpdateFields, Enc;
    if auth.Some? { AuthorizationInverse(auth.value); }
    UpdateTexts(owner, key, sequence, auth);
    var v := UpdateValue(owner, key, sequence, auth);
    assert Canonical(Enc(v), v);
    var tail := if auth.Some? then [AuthorizationValue(auth.value)] else [];
    var f := [Null] + (RecordFields(owner, key, sequence) + tail);
    EntryFields(RecordFields(owner, key, sequence) + tail);
    RecordLength(owner, key, sequence);
    assert f[1..4] == RecordFields(owner, key, sequence);
    RecordInverse(owner, key, sequence, f);
  }

  lemma RecordLength(owner: Bytes, key: Bytes, sequence: nat)
    ensures |RecordFields(owner, key, sequence)| == 3
  {
  }

  lemma RecordExact(f: seq<Value>, owner: Bytes, key: Bytes)
    requires |f| >= 4 && UpdateFields(f).Some? && UpdateFields(f).value.name == Bstr(owner)
    requires UpdateFields(f).value.key == Bstr(key)
    ensures f[1..4] == RecordFields(owner, key, UpdateFields(f).value.sequence) && UpdateFields(f).value.auth.None?
  {
    hide Entry, Fields;
    FieldsEntry(f[1], 2);
    var g := Fields(f[1], 2).value;
    assert g[1..] == [g[1], g[2]];
    assert f[1..4] == [f[1], f[2], f[3]];
  }

  lemma UpdateExact(bytes: Bytes, owner: Bytes, key: Bytes)
    requires DecodeUpdate(bytes).Some? && DecodeUpdate(bytes).value.name == Bstr(owner)
    requires DecodeUpdate(bytes).value.key == Bstr(key)
    ensures var u := DecodeUpdate(bytes).value;
            && bytes == Enc(UpdateValue(owner, key, u.sequence, u.auth)) && |bytes| <= UINT64_MAX
            && (u.auth.Some? ==> AuthorizationBuildable(u.auth.value))
  {
    hide Entry, Fields, TextsValid, AuthorizationValue, ReadAuthorization, AuthorizationBuildable, RecordFields,
         UpdateFields, Enc;
    var v, u := Loaded(bytes).value, DecodeUpdate(bytes).value;
    if Fields(v, 3).Some? {
      var f := Fields(v, 3).value;
      FieldsEntry(v, 3);
      RecordExact(f, owner, key);
      assert f[1..] == f[1..4] + [];
    } else {
      var f := Fields(v, 4).value;
      FieldsEntry(v, 4);
      RecordExact(f, owner, key);
      assert f[1..] == f[1..4] + [f[4]];
      EntryTexts(f[1..]);
      assert TextsValid(f[1..][3]);
      AuthorizationExact(f[4]);
    }
  }

  // --------------------------------------------------------------- envelopes

  /** Reading what was built gives back its content. */
  lemma ReadBuilt(owner: Bytes, p: Parts)
    requires Buildable(owner, p)
    ensures Read(owner, Enc(EnvelopeValue(p))) == Some(p)
  {
    hide Entry, Fields, TextsValid, DecodeUpdate, ReadProofs, ProofsBuildable, AuthorizationBuildable, UpdateValue, Enc,
         ProofValues;
    UpdateInverse(owner, p.key, p.sequence, AuthOf(p));
    if p.Legacy? { ReadBuiltLegacy(owner, p); } else { ReadBuiltVersioned(owner, p); }
  }

  lemma ReadBuiltLegacy(owner: Bytes, p: Parts)
    requires p.Legacy? && |p.key| == KEY_BYTES && |p.signature| == SIGNATURE_BYTES
    requires |Enc(EnvelopeValue(p))| <= UINT64_MAX
    requires DecodeUpdate(p.update) == Some(Update(Bstr(owner), Bstr(p.key), p.sequence, None))
    ensures Read(owner, Enc(EnvelopeValue(p))) == Some(p)
  {
    hide Entry, Fields, TextsValid, DecodeUpdate, Enc;
    var f := [Bstr(p.update), Bstr(p.signature)];
    EntryFields(f);
    forall i | 0 <= i < |f| ensures TextsValid(f[i]) { AtomText(f[i]); }
    EntryTexts(f);
    assert Canonical(Enc(EnvelopeValue(p)), EnvelopeValue(p));
  }

  lemma ReadBuiltVersioned(owner: Bytes, p: Parts)
    requires p.Versioned? && |p.key| == KEY_BYTES && ProofsBuildable(p.proofs) && |Enc(EnvelopeValue(p))| <= UINT64_MAX
    requires DecodeUpdate(p.update) == Some(Update(Bstr(owner), Bstr(p.key), p.sequence, Some(p.auth)))
    ensures Read(owner, Enc(EnvelopeValue(p))) == Some(p)
  {
    hide Entry, Fields, TextsValid, DecodeUpdate, ReadProofs, ProofsBuildable, Enc, ProofValues;
    var f := [Int(1), Bstr(p.update), List(ProofValues(p.proofs))];
    EntryFields(f);
    ProofsInverse(p.proofs);
    forall i | 0 <= i < |f| ensures TextsValid(f[i]) { if i < 2 { AtomText(f[i]); } }
    EntryTexts(f);
    assert Canonical(Enc(EnvelopeValue(p)), EnvelopeValue(p));
  }

  /** And nothing else reads: every envelope that reads is the one its content builds. */
  lemma BuiltRead(owner: Bytes, envelope: Bytes)
    requires Read(owner, envelope).Some?
    ensures var p := Read(owner, envelope).value; Buildable(owner, p) && envelope == Enc(EnvelopeValue(p))
  {
    hide Entry, Fields, TextsValid, DecodeUpdate, ReadProofs, ProofsBuildable, AuthorizationBuildable, UpdateValue, Enc,
         ProofValues;
    var v, p := Loaded(envelope).value, Read(owner, envelope).value;
    UpdateExact(p.update, owner, p.key);
    if Fields(v, 2).Some? {
      var f := Fields(v, 2).value;
      FieldsEntry(v, 2);
      assert f[1..] == [f[1], f[2]];
    } else {
      var f := Fields(v, 3).value;
      FieldsEntry(v, 3);
      assert f[1..] == [f[1], f[2], f[3]];
      EntryTexts(f[1..]);
      assert TextsValid(f[1..][2]);
      ProofsExact(f[3]);
    }
  }
}
