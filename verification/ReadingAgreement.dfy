/** Both verifiers read the same content from an envelope that either accepts. */
module ReadingAgreement {
  import opened Prelude
  import opened CborSpec
  import opened CborWriter
  import opened CborDecoder
  import opened Identity
  import ChainInvariants
  import Kt = KotlinVerifier
  import Py = PythonVerifier

  // ------------------------------------------- small values always decode

  /** At most height further levels and size items, whatever the depth it starts at. */
  ghost predicate Flat(v: Value, height: nat, size: nat)
  {
    (forall depth: nat | depth + height <= MAX_DEPTH :: DepthFits(v, depth, KOTLIN)) && Items(v) <= size
  }

  lemma FlatAtom(v: Value)
    requires !v.List? && !v.Map?
    ensures Flat(v, 1, 2) && (!v.Int? ==> Flat(v, 0, 1))
  {
  }

  lemma FlatWiden(v: Value, height: nat, size: nat, height': nat, size': nat)
    requires Flat(v, height, size) && height <= height' && size <= size'
    ensures Flat(v, height', size')
  {
    hide DepthFits, Items;
  }

  lemma {:induction false} ItemsOfBound(items: seq<Value>, size: nat)
    requires forall x | x in items :: Items(x) <= size
    ensures ItemsOf(items) <= |items| * size
  {
    hide Items;
    if items != [] {
      ItemsOfBound(items[1..], size);
      assert items[0] in items;
      assert |items| * size == size + |items[1..]| * size;
    }
  }

  lemma {:induction false} ItemsInBound(v: Value, keys: seq<int>, size: nat)
    requires v.Map? && (forall k | k in keys :: k in v.m && !IsBig(k) && Items(v.m[k]) <= size)
    ensures ItemsIn(v, keys) <= |keys| * (1 + size)
    decreases |keys|
  {
    hide Items;
    if keys != [] {
      ItemsInBound(v, keys[1..], size);
      assert keys[0] in keys;
      assert |keys| * (1 + size) == (1 + size) + |keys[1..]| * (1 + size);
    }
  }

  lemma FlatList(items: seq<Value>, height: nat, size: nat)
    requires forall x | x in items :: Flat(x, height, size)
    ensures Flat(List(items), height + 1, 1 + |items| * size)
  {
    ItemsOfBound(items, size);
    assert Items(List(items)) == 1 + ItemsOf(items);
    forall depth: nat | depth + height + 1 <= MAX_DEPTH ensures DepthFits(List(items), depth, KOTLIN) {
      forall x | x in items ensures DepthFits(x, depth + 1, KOTLIN) { assert Flat(x, height, size); }
    }
  }

  /** Items of a map with n small keys and values of at most size items each. */
  function FlatSize(n: nat, size: nat): nat
  {
    1 + n * (1 + size)
  }

  lemma FlatMap(m: map<int, Value>, height: nat, size: nat)
    requires forall k | k in m :: 0 <= k < 24 && Flat(m[k], height, size)
    ensures Flat(Map(m), height + 1, FlatSize(|m|, size))
  {
    hide DepthFits, SortedKeys, Enc;
    var v := Map(m);
    var keys := SortedKeys(m.Keys);
    forall k | k in keys ensures k in v.m && !IsBig(k) && Items(v.m[k]) <= size { assert k in Elements(keys); }
    ItemsInBound(v, keys, size);
    MapItems(m);
    forall depth: nat | depth + height + 1 <= MAX_DEPTH ensures DepthFits(v, depth, KOTLIN) {
      MapDepth(m, depth, height, size);
    }
  }

  lemma MapItems(m: map<int, Value>)
    ensures (forall k | k in SortedKeys(m.Keys) :: k in m) && Items(Map(m)) == 1 + ItemsIn(Map(m), SortedKeys(m.Keys))
  {
    hide SortedKeys, ItemsIn;
    var keys := SortedKeys(m.Keys);
    forall k | k in keys ensures k in m { assert k in Elements(keys); }
  }

  lemma MapDepth(m: map<int, Value>, depth: nat, height: nat, size: nat)
    requires forall k | k in m :: 0 <= k < 24 && Flat(m[k], height, size)
    requires depth + height + 1 <= MAX_DEPTH
    ensures DepthFits(Map(m), depth, KOTLIN)
  {
    hide Items;
    forall k | k in m ensures IntDepthFits(k, depth + 1, KOTLIN) && DepthFits(m[k], depth + 1, KOTLIN) {
      assert Flat(m[k], height, size);
    }
  }

  /** A map with fields 1 to n, each of them flat. */
  lemma FieldsFlat(v: Value, n: nat, height: nat, size: nat)
    requires n < 24 && Fields(v, n).Some? && forall k | 1 <= k <= n :: Flat(Fields(v, n).value[k], height, size)
    ensures Flat(v, height + 1, FlatSize(n, size))
  {
    hide Flat, Fields, HasKeysUpTo, FlatSize;
    FieldValues(v, n);
    var m := v.m;
    forall k | k in m ensures 0 <= k < 24 && Flat(m[k], height, size) {
      assert Flat(Fields(v, n).value[k], height, size);
    }
    FlatMap(m, height, size);
    KeyCount(v, n);
  }

  lemma FieldValues(v: Value, n: nat)
    requires Fields(v, n).Some?
    ensures v.Map? && HasKeysUpTo(v, n) && forall k | k in v.m :: 1 <= k <= n && Fields(v, n).value[k] == v.m[k]
  {
    hide KeysUpTo;
    forall k | k in v.m ensures 1 <= k <= n && Fields(v, n).value[k] == v.m[k] { assert k in KeysUpTo(n); }
  }

  lemma KeyCount(v: Value, n: nat)
    requires HasKeysUpTo(v, n)
    ensures v.Map? && |v.m| == n
  {
    assert |v.m| == |v.m.Keys|;
  }

  // ---------------------------------------------- shapes of the wire format

  predicate Atom(v: Value)
  {
    !v.List? && !v.Map? && !v.Int?
  }

  lemma PairFlat(v: Value)
    requires Fields(v, 2).Some? && Atom(Fields(v, 2).value[1]) && Atom(Fields(v, 2).value[2])
    ensures Flat(v, 1, 5)
  {
    hide Flat, Fields;
    FlatAtom(Fields(v, 2).value[1]);
    FlatAtom(Fields(v, 2).value[2]);
    FieldsFlat(v, 2, 0, 1);
  }

  lemma SignerFlat(x: Value)
    requires SignerEntry(x).Some?
    ensures Flat(x, 1, 5)
  {
    hide Flat, Fields;
    PairFlat(x);
  }

  lemma ProofFlat(x: Value)
    requires ProofEntry(x).Some?
    ensures Flat(x, 1, 5)
  {
    hide Flat, Fields;
    PairFlat(x);
  }

  lemma SignerListFlat(items: seq<Value>)
    requires |items| == 3 && SignerEntries(items).Some?
    ensures Flat(List(items), 2, 16)
  {
    hide Flat, SignerEntry, SignerEntries;
    forall x | x in items ensures Flat(x, 1, 5) {
      var i :| 0 <= i < |items| && items[i] == x;
      assert SignerEntry(items[i]).Some?;
      SignerFlat(x);
    }
    FlatList(items, 1, 5);
  }

  lemma ProofListFlat(items: seq<Value>)
    requires |items| <= 3 && ProofEntries(items).Some?
    ensures Flat(List(items), 2, 16)
  {
    hide Flat, ProofEntry, ProofEntries;
    forall x | x in items ensures Flat(x, 1, 5) {
      var i :| 0 <= i < |items| && items[i] == x;
      assert ProofEntry(items[i]).Some?;
      ProofFlat(x);
    }
    FlatList(items, 1, 5);
    FlatWiden(List(items), 2, 1 + |items| * 5, 2, 16);
  }

  lemma AtomFlat(v: Value, height: nat, size: nat)
    requires !v.List? && !v.Map? && height >= 1 && size >= 2
    ensures Flat(v, height, size)
  {
    FlatAtom(v);
  }

  lemma AuthorizationFlat(v: Value)
    requires Py.ReadAuthorization(v).Some? && |Py.ReadAuthorization(v).value.signers| == 3
    ensures Flat(v, 3, 120)
  {
    hide Flat, Fields, SignerEntries, SignersDistinct;
    var f := Fields(v, 7).value;
    SignerListFlat(f[6].items);
    forall k | 1 <= k <= 7 ensures Flat(f[k], 2, 16) {
      if k != 6 { AtomFlat(f[k], 2, 16); }
    }
    FieldsFlat(v, 7, 2, 16);
  }

  lemma UpdateFieldsFlat(f: seq<Value>)
    requires |f| >= 4 && Py.UpdateFields(f).Some? && Atom(Py.UpdateFields(f).value.name)
    requires Atom(Py.UpdateFields(f).value.key)
    ensures Flat(f[1], 3, 120) && Flat(f[2], 3, 120) && Flat(f[3], 3, 120)
  {
    hide Flat, Fields;
    PairFlat(f[1]);
    FlatWiden(f[1], 1, 5, 3, 120);
    FlatMap(map[], 0, 0);
    FlatWiden(f[2], 1, 1, 3, 120);
    AtomFlat(f[3], 3, 120);
  }

  /** Every update whose record is two byte strings and whose signers are three stays far below the limits. */
  lemma UpdateFlat(bytes: Bytes, v: Value)
    requires Py.Loaded(bytes) == Some(v) && Py.DecodeUpdate(bytes).Some?
    requires var u := Py.DecodeUpdate(bytes).value;
             Atom(u.name) && Atom(u.key) && (u.auth.Some? ==> |u.auth.value.signers| == 3)
    ensures Flat(v, 4, 485)
  {
    hide Flat, Py.Loaded, Py.ReadAuthorization, Fields, Py.UpdateFields;
    if Fields(v, 3).Some? {
      UpdateFieldsFlat(Fields(v, 3).value);
      FieldsFlat(v, 3, 3, 120);
      FlatWiden(v, 4, 364, 4, 485);
    } else {
      UpdateFieldsFlat(Fields(v, 4).value);
      AuthorizationFlat(Fields(v, 4).value[4]);
      FieldsFlat(v, 4, 3, 120);
    }
  }

  lemma OuterFlat(v: Value)
    requires if Fields(v, 2).Some? then Atom(Fields(v, 2).value[1]) && Atom(Fields(v, 2).value[2])
             else Fields(v, 3).Some? && var f := Fields(v, 3).value;
                  f[1] == Int(1) && Atom(f[2]) && f[3].List? && |f[3].items| <= 3 && ProofEntries(f[3].items).Some?
    ensures Flat(v, 32, 10_000)
  {
    hide Flat, Fields, ProofEntries;
    if Fields(v, 2).Some? {
      PairFlat(v);
      FlatWiden(v, 1, 5, 32, 10_000);
    } else {
      var f := Fields(v, 3).value;
      AtomFlat(f[1], 2, 16);
      AtomFlat(f[2], 2, 16);
      ProofListFlat(f[3].items);
      FieldsFlat(v, 3, 2, 16);
      FlatWiden(v, 3, 52, 32, 10_000);
    }
  }

  // -------------------------------------------------------- decoding agrees

  lemma DecodedIsLoaded(bytes: Bytes)
    requires Decoded(bytes).Some?
    ensures Py.Loaded(bytes) == Decoded(bytes)
  {
    hide Enc, TextsValid, DepthFits, Items;
    var v := Decoded(bytes).value;
    assert Py.Canonical(bytes, v);
  }

  lemma LoadedIsDecoded(bytes: Bytes, v: Value)
    requires Py.Loaded(bytes) == Some(v) && |bytes| <= MAX_ENCODED_BYTES
    requires Flat(v, 32, 10_000)
    ensures Decoded(bytes) == Some(v)
  {
    hide Enc, TextsValid, DepthFits, Items;
    assert Py.Canonical(bytes, v);
    assert Decodes(bytes, v);
  }

  lemma NestedLength(bytes: Bytes, v: Value, n: nat, k: nat)
    requires Py.Loaded(bytes) == Some(v) && Fields(v, n).Some? && 1 <= k <= n && Fields(v, n).value[k].Bstr?
    ensures |Fields(v, n).value[k].bytes| <= |bytes|
  {
    hide SortedKeys, EncEntries, TextsValid;
    assert Py.Canonical(bytes, v);
    var keys := SortedKeys(v.m.Keys);
    assert k in v.m && k in Elements(keys);
    var i :| 0 <= i < |keys| && keys[i] == k;
    forall j | j in keys ensures j in v.m { assert j in Elements(keys); }
    EntriesSplit(v, keys, i);
    assert Enc(v.m[k]) == BytesForm(2, v.m[k].bytes);
  }

  // --------------------------------------------------------- reading agrees

  lemma AuthorizationAgrees(v: Value)
    ensures Kt.ReadAuthorization(v).Some? && 1 <= Kt.ReadAuthorization(v).value.threshold <= 3
            ==> Py.ReadAuthorization(v) == Kt.ReadAuthorization(v)
    ensures Py.ReadAuthorization(v).Some? && |Py.ReadAuthorization(v).value.signers| == 3
            ==> Kt.ReadAuthorization(v) == Py.ReadAuthorization(v)
  {
    hide SignersDistinct, Fields, SignerEntries;
  }

  /** The two views of one update's record. */
  lemma RecordAgrees(owner: Bytes, f: seq<Value>)
    requires |f| >= 4 && Utf8Valid(owner)
    ensures var r, u := Kt.ReadRecord(owner, f), Py.UpdateFields(f);
            && (r.Some? ==>
                 u == Some(Py.Update(Bstr(owner), Bstr(r.value.0), r.value.1, None)) && |r.value.0| == KEY_BYTES)
            && ((u.Some? && u.value.name == Bstr(owner) && AsBytesOf(u.value.key, KEY_BYTES).Some?) ==> r.Some?)
  {
    hide Fields, Utf8Valid;
  }

  /** Content the Kotlin reader gets, the Python reader gets too, threshold permitting. */
  lemma KotlinReadIsPython(owner: Bytes, envelope: Bytes)
    requires Kt.Read(owner, envelope).Some? && Utf8Valid(owner)
    requires var p := Kt.Read(owner, envelope).value; p.Versioned? ==> 1 <= p.auth.threshold <= 3
    ensures Py.Read(owner, envelope) == Kt.Read(owner, envelope)
  {
    hide Decoded, Py.Loaded, Fields, Kt.ReadLegacy, Kt.ReadVersioned, Py.ReadLegacy, Py.ReadVersioned, Utf8Valid;
    DecodedIsLoaded(envelope);
    var v := Decoded(envelope).value;
    if Fields(v, 2).Some? { KotlinLegacyIsPython(owner, Fields(v, 2).value); }
    else { KotlinVersionedIsPython(owner, Fields(v, 3).value); }
  }

  lemma KotlinLegacyIsPython(owner: Bytes, outer: seq<Value>)
    requires |outer| == 3 && Kt.ReadLegacy(owner, outer).Some? && Utf8Valid(owner)
    ensures Py.ReadLegacy(owner, outer) == Kt.ReadLegacy(owner, outer)
  {
    hide Decoded, Py.Loaded, Kt.ReadRecord, Py.UpdateFields, Py.ReadAuthorization, Fields, Utf8Valid;
    DecodedIsLoaded(outer[1].bytes);
    RecordAgrees(owner, Fields(Decoded(outer[1].bytes).value, 3).value);
  }

  lemma KotlinVersionedIsPython(owner: Bytes, outer: seq<Value>)
    requires |outer| == 4 && Kt.ReadVersioned(owner, outer).Some? && Utf8Valid(owner)
    requires 1 <= Kt.ReadVersioned(owner, outer).value.auth.threshold <= 3
    ensures Py.ReadVersioned(owner, outer) == Kt.ReadVersioned(owner, outer)
  {
    hide Decoded, Py.Loaded, Kt.ReadRecord, Py.UpdateFields, Py.ReadAuthorization, Kt.ReadAuthorization, Fields,
         Utf8Valid;
    DecodedIsLoaded(outer[2].bytes);
    var v := Decoded(outer[2].bytes).value;
    OneKeyCount(v);
    var f := Fields(v, 4).value;
    RecordAgrees(owner, f);
    AuthorizationAgrees(f[4]);
    ProofsAgree(outer[3]);
  }

  lemma OneKeyCount(v: Value)
    ensures !(Fields(v, 3).Some? && Fields(v, 4).Some?)
  {
    assert 4 in KeysUpTo(4) && 4 !in KeysUpTo(3);
  }

  lemma ProofsAgree(v: Value)
    ensures Kt.ReadProofs(v).Some? ==> Py.ReadProofs(v) == Kt.ReadProofs(v)
    ensures Py.ReadProofs(v).Some? && |Py.ReadProofs(v).value| <= 3 && ProofIdsFit(Py.ReadProofs(v).value)
            ==> Kt.ReadProofs(v) == Py.ReadProofs(v)
  {
    hide ProofsOrdered, ProofIdsFit;
  }

  /** Content the Python reader gets from a small enough envelope, the Kotlin reader gets too. */
  lemma PythonReadIsKotlin(owner: Bytes, envelope: Bytes)
    requires Py.Read(owner, envelope).Some? && |envelope| <= MAX_ENCODED_BYTES && Utf8Valid(owner)
    requires var p := Py.Read(owner, envelope).value;
             p.Versioned? ==> |p.auth.signers| == 3 && |p.proofs| <= 3 && ProofIdsFit(p.proofs)
    ensures Kt.Read(owner, envelope) == Py.Read(owner, envelope)
  {
    hide Decoded, Py.Loaded, Fields, Kt.ReadLegacy, Kt.ReadVersioned, Py.ReadLegacy, Py.ReadVersioned, Utf8Valid, Flat;
    var v := Py.Loaded(envelope).value;
    if Fields(v, 2).Some? {
      LegacyShape(owner, Fields(v, 2).value);
      NestedLength(envelope, v, 2, 1);
      OuterFlat(v);
      LoadedIsDecoded(envelope, v);
      PythonLegacyIsKotlin(owner, Fields(v, 2).value);
    } else {
      VersionedShape(owner, Fields(v, 3).value);
      NestedLength(envelope, v, 3, 2);
      OuterFlat(v);
      LoadedIsDecoded(envelope, v);
      PythonVersionedIsKotlin(owner, Fields(v, 3).value);
    }
  }

  lemma LegacyShape(owner: Bytes, outer: seq<Value>)
    requires |outer| == 3 && Py.ReadLegacy(owner, outer).Some?
    ensures outer[1].Bstr? && outer[2].Bstr?
  {
    hide Py.DecodeUpdate;
  }

  lemma VersionedShape(owner: Bytes, outer: seq<Value>)
    requires |outer| == 4 && Py.ReadVersioned(owner, outer).Some?
    ensures var p := Py.ReadVersioned(owner, outer).value;
            outer[1] == Int(1) && outer[2].Bstr? && outer[3].List? && |outer[3].items| == |p.proofs|
              && ProofEntries(outer[3].items).Some?
  {
    hide Py.DecodeUpdate, ProofsOrdered;
  }

  lemma PythonLegacyIsKotlin(owner: Bytes, outer: seq<Value>)
    requires |outer| == 3 && Py.ReadLegacy(owner, outer).Some? && Utf8Valid(owner)
    requires outer[1].Bstr? && |outer[1].bytes| <= MAX_ENCODED_BYTES
    ensures Kt.ReadLegacy(owner, outer) == Py.ReadLegacy(owner, outer)
  {
    hide Decoded, Py.Loaded, Kt.ReadRecord, Py.UpdateFields, Py.ReadAuthorization, Fields, Utf8Valid, Flat;
    UpdateDecodes(outer[1].bytes);
    RecordAgrees(owner, Fields(Decoded(outer[1].bytes).value, 3).value);
  }

  /** A well-shaped update is decoded to the same value by both, and has an authorization exactly as field 4. */
  lemma UpdateDecodes(bytes: Bytes)
    requires |bytes| <= MAX_ENCODED_BYTES && Py.DecodeUpdate(bytes).Some?
    requires var u := Py.DecodeUpdate(bytes).value;
             Atom(u.name) && Atom(u.key) && (u.auth.Some? ==> |u.auth.value.signers| == 3)
    ensures Decoded(bytes) == Py.Loaded(bytes) && Decoded(bytes).Some?
    ensures var v := Decoded(bytes).value;
            if Py.DecodeUpdate(bytes).value.auth.None? then Fields(v, 3).Some?
              else Fields(v, 3).None? && Fields(v, 4).Some?
  {
    hide Decoded, Py.Loaded, Py.UpdateFields, Py.ReadAuthorization, Fields, Flat;
    var v := Py.Loaded(bytes).value;
    UpdateFlat(bytes, v);
    FlatWiden(v, 4, 485, 32, 10_000);
    LoadedIsDecoded(bytes, v);
    if Fields(v, 3).Some? { ChainInvariants.FieldsHaveNoAuthorization(Fields(v, 3).value); }
  }

  lemma PythonVersionedIsKotlin(owner: Bytes, outer: seq<Value>)
    requires |outer| == 4 && Py.ReadVersioned(owner, outer).Some? && Utf8Valid(owner)
    requires outer[2].Bstr? && |outer[2].bytes| <= MAX_ENCODED_BYTES
    requires var p := Py.ReadVersioned(owner, outer).value;
             |p.auth.signers| == 3 && |p.proofs| <= 3 && ProofIdsFit(p.proofs)
    ensures Kt.ReadVersioned(owner, outer) == Py.ReadVersioned(owner, outer)
  {
    hide Decoded, Py.Loaded, Kt.ReadRecord, Py.UpdateFields, Py.ReadAuthorization, Kt.ReadAuthorization, Fields,
         Utf8Valid, Flat;
    UpdateDecodes(outer[2].bytes);
    var f := Fields(Decoded(outer[2].bytes).value, 4).value;
    RecordAgrees(owner, f);
    AuthorizationAgrees(f[4]);
    ProofsAgree(outer[3]);
  }
}
