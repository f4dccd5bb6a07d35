/** The encoding and the decoder grammar are inverse to each other. */
module CborProofs {
  import opened Prelude
  import opened CborSpec

  // ------------------------------------------------------------- key order

  lemma {:induction false} SortedKeysSorted(keys: set<int>)
    ensures KeySorted(SortedKeys(keys))
  {
    if keys != {} {
      var s := SortedKeys(keys);
      SortedKeysSorted(keys - {s[0]});
      assert s[1..] == SortedKeys(keys - {s[0]});
      forall i, j | 0 <= i < j < |s| ensures KeyLess(s[i], s[j]) {
        if i == 0 {
          assert s[j] == s[1..][j - 1];
          assert s[j] in Elements(s[1..]);
        } else {
          assert s[i] == s[1..][i - 1] && s[j] == s[1..][j - 1];
        }
      }
    }
  }

  lemma SortedDistinct(s: seq<int>, i: int, j: int)
    requires KeySorted(s) && 0 <= i < j < |s|
    ensures s[i] != s[j]
  {
    ShortLexOrder(EncInt(s[i]), [], []);
  }

  /** Any listing of the keys in canonical order is the canonical listing. */
  lemma {:induction false} SortedUnique(s: seq<int>, t: seq<int>)
    requires KeySorted(s) && KeySorted(t) && Elements(s) == Elements(t)
    ensures s == t
  {
    hide KeySorted, Elements;
    EmptyElements(s);
    EmptyElements(t);
    if s != [] {
      HeadsEqual(s, t);
      TailElements(s);
      TailElements(t);
      SortedUnique(s[1..], t[1..]);
      assert s == [s[0]] + s[1..] && t == [t[0]] + t[1..];
    }
  }

  lemma EmptyElements(s: seq<int>)
    ensures s == [] <==> Elements(s) == {}
  {
    if s != [] { assert s[0] in Elements(s); }
  }

  lemma HeadsEqual(s: seq<int>, t: seq<int>)
    requires KeySorted(s) && KeySorted(t) && Elements(s) == Elements(t) && s != [] && t != []
    ensures s[0] == t[0]
  {
    assert s[0] in Elements(t) && t[0] in Elements(s);
    var i :| 0 <= i < |t| && t[i] == s[0];
    var j :| 0 <= j < |s| && s[j] == t[0];
    assert i > 0 ==> KeyLess(t[0], t[i]);
    assert j > 0 ==> KeyLess(s[0], s[j]);
    ShortLexOrder(EncInt(s[0]), EncInt(t[0]), EncInt(s[0]));
  }

  lemma TailElements(s: seq<int>)
    requires KeySorted(s) && s != []
    ensures Elements(s[1..]) == Elements(s) - {s[0]} && KeySorted(s[1..])
  {
    hide KeyLess;
    assert s == [s[0]] + s[1..];
    forall j | 0 < j < |s| ensures s[j] != s[0] { SortedDistinct(s, 0, j); }
    forall i, j | 0 <= i < j < |s[1..]| ensures KeyLess(s[1..][i], s[1..][j]) {
      assert KeyLess(s[i + 1], s[j + 1]);
    }
  }

  // ------------------------------------------- decoding inverts encoding

  ghost predicate Fits(v: Value, depth: nat, count: nat, lim: Limits)
  {
    DepthFits(v, depth, lim) && count + Items(v) <= lim.items
  }

  ghost function Expected(v: Value, rest: Bytes, depth: nat, count: nat, lim: Limits): Parsed<Value>
  {
    if Fits(v, depth, count, lim) then Ok(v, rest, count + Items(v)) else Bad
  }

  lemma StringInverse(major: nat, bytes: Bytes, rest: Bytes, lim: Limits)
    requires major == 2 || major == 3
    requires |bytes| <= lim.length
    ensures var s := BytesForm(major, bytes) + rest;
            s[0] / 32 == major && ParseBytes(s[0] % 32, s[1..], lim) == Ok(bytes, rest, 0)
  {
    HeadInverse(major, |bytes|, bytes + rest);
    assert BytesForm(major, bytes) + rest == Head(major, |bytes|) + (bytes + rest);
    assert (bytes + rest)[..|bytes|] == bytes && (bytes + rest)[|bytes|..] == rest;
  }

  lemma StringValue(bytes: Bytes, rest: Bytes, depth: nat, count: nat, lim: Limits)
    requires |bytes| <= lim.length
    ensures ParseValue(BytesForm(2, bytes) + rest, depth, count, lim) == Expected(Bstr(bytes), rest, depth, count, lim)
  {
    StringInverse(2, bytes, rest, lim);
  }

  lemma SmallIntInverse(n: int, rest: Bytes, depth: nat, count: nat, lim: Limits)
    requires !IsBig(n)
    ensures ParseValue(EncInt(n) + rest, depth, count, lim) == Expected(Int(n), rest, depth, count, lim)
  {
    HeadInverse(if n >= 0 then 0 else 1, if n >= 0 then n else -1 - n, rest);
  }

  lemma BigForm(n: int, first: Byte, mag: Bytes)
    requires IsBig(n) && first == (if n >= 0 then 0xc2 else 0xc3) && mag == Magnitude(if n >= 0 then n else -1 - n)
    ensures EncInt(n) == [first] + BytesForm(2, mag) && |mag| <= |EncInt(n)|
    ensures BigNumber(first % 32, mag) == Some(n)
  {
    MagnitudeInverse(if n >= 0 then n else -1 - n);
  }

  lemma BigIntInverse(n: int, rest: Bytes, depth: nat, count: nat, lim: Limits)
    requires IsBig(n) && |EncInt(n)| <= lim.length
    ensures ParseValue(EncInt(n) + rest, depth, count, lim) == Expected(Int(n), rest, depth, count, lim)
  {
    hide ParseValue, EncInt, BytesForm, BigNumber, Magnitude;
    var first: Byte := if n >= 0 then 0xc2 else 0xc3;
    var mag := Magnitude(if n >= 0 then n else -1 - n);
    BigForm(n, first, mag);
    StringValue(mag, rest, depth + 1, count + 1, lim);
    assert EncInt(n) + rest == [first] + (BytesForm(2, mag) + rest);
    TagStep(first, BytesForm(2, mag) + rest, depth, count, lim);
  }

  /** One unfolding of the grammar at a bignum tag. */
  lemma TagStep(first: Byte, tail: Bytes, depth: nat, count: nat, lim: Limits)
    requires first == 0xc2 || first == 0xc3
    ensures ParseValue([first] + tail, depth, count, lim) ==
            if depth > lim.depth || count + 1 > lim.items then Bad else
            var b := ParseValue(tail, depth + 1, count + 1, lim);
            if b.Bad? || !b.value.Bstr? then Bad else
            var n := BigNumber(first % 32, b.value.bytes);
            if n.None? then Bad else Ok(Int(n.value), b.rest, b.count)
  {
    assert ([first] + tail)[1..] == tail;
    assert first / 32 == 6;
    assert ParseArgument(first % 32, tail) == Ok(first % 32, tail, 0);
  }

  lemma IntInverse(n: int, rest: Bytes, depth: nat, count: nat, lim: Limits)
    requires |EncInt(n)| <= lim.length
    ensures ParseValue(EncInt(n) + rest, depth, count, lim) == Expected(Int(n), rest, depth, count, lim)
  {
    if IsBig(n) { BigIntInverse(n, rest, depth, count, lim); } else { SmallIntInverse(n, rest, depth, count, lim); }
  }

  lemma {:induction false} ValueInverse(v: Value, rest: Bytes, depth: nat, count: nat, lim: Limits)
    requires TextsValid(v) && |Enc(v)| <= lim.length
    ensures ParseValue(Enc(v) + rest, depth, count, lim) == Expected(v, rest, depth, count, lim)
    decreases v, 1
  {
    match v
    case Null => assert (Enc(v) + rest)[1..] == rest;
    case Bool(_) => assert (Enc(v) + rest)[1..] == rest;
    case Int(n) => IntInverse(n, rest, depth, count, lim);
    case Bstr(bytes) => StringInverse(2, bytes, rest, lim);
    case Text(utf8) => StringInverse(3, utf8, rest, lim);
    case List(items) => ListInverse(v, rest, depth, count, lim);
    case Map(m) => MapInverse(v, rest, depth, count, lim);
  }

  /** One unfolding of the grammar at a list head. */
  lemma ListStep(size: nat, tail: Bytes, depth: nat, count: nat, lim: Limits)
    requires size <= lim.length
    ensures ParseValue(Head(4, size) + tail, depth, count, lim) ==
            if depth > lim.depth || count + 1 > lim.items then Bad else
            var xs := ParseItems(size, tail, depth + 1, count + 1, lim);
            if xs.Bad? then Bad else Ok(List(xs.value), xs.rest, xs.count)
  {
    hide ParseItems;
    HeadInverse(4, size, tail);
  }

  lemma {:induction false} ListInverse(v: Value, rest: Bytes, depth: nat, count: nat, lim: Limits)
    requires v.List? && TextsValid(v) && |Enc(v)| <= lim.length
    ensures ParseValue(Enc(v) + rest, depth, count, lim) == Expected(v, rest, depth, count, lim)
    decreases v, 0
  {
    hide ParseItems, EncItems, ItemsOf, ParseValue;
    var tail := EncItems(v.items) + rest;
    assert Enc(v) + rest == Head(4, |v.items|) + tail;
    ListStep(|v.items|, tail, depth, count, lim);
    if depth <= lim.depth && count + 1 <= lim.items { ItemsInverse(v.items, rest, depth + 1, count + 1, lim); }
  }

  /** One unfolding of the grammar at a map head. */
  lemma MapStep(size: nat, tail: Bytes, depth: nat, count: nat, lim: Limits)
    requires size <= lim.length
    ensures ParseValue(Head(5, size) + tail, depth, count, lim) ==
            if depth > lim.depth || count + 1 > lim.items then Bad else
            var es := ParseEntries(size, tail, depth + 1, count + 1, map[], lim);
            if es.Bad? then Bad else Ok(Map(es.value), es.rest, es.count)
  {
    hide ParseEntries;
    HeadInverse(5, size, tail);
  }

  lemma AllEntries(v: Value, depth: nat, lim: Limits)
    requires v.Map?
    ensures var keys := SortedKeys(v.m.Keys);
            && (forall k | k in keys :: k in v.m)
            && map[] + Chosen(v, keys) == v.m
            && (DepthFits(v, depth, lim) <==> depth <= lim.depth && EntriesFit(v, keys, depth + 1, lim))
  {
    hide SortedKeys;
    var keys := SortedKeys(v.m.Keys);
    assert forall k :: k in v.m <==> k in Elements(keys);
  }

  lemma {:induction false} MapInverse(v: Value, rest: Bytes, depth: nat, count: nat, lim: Limits)
    requires v.Map? && TextsValid(v) && |Enc(v)| <= lim.length
    ensures ParseValue(Enc(v) + rest, depth, count, lim) == Expected(v, rest, depth, count, lim)
    decreases v, 0, 1 + |v.m|
  {
    hide ParseEntries, EncEntries, ItemsIn, ParseValue, SortedKeys, DepthFits, TextsValid, EntriesFit, Chosen;
    var keys := SortedKeys(v.m.Keys);
    var tail := EncEntries(v, keys) + rest;
    assert Enc(v) + rest == Head(5, |v.m|) + tail;
    MapStep(|v.m|, tail, depth, count, lim);
    AllEntries(v, depth, lim);
    if depth <= lim.depth && count + 1 <= lim.items {
      SortedKeysSorted(v.m.Keys);
      EntriesInverse(v, keys, rest, depth + 1, count + 1, map[], lim);
    }
  }

  lemma {:induction false} ItemsInverse(items: seq<Value>, rest: Bytes, depth: nat, count: nat, lim: Limits)
    requires (forall x | x in items :: TextsValid(x)) && |EncItems(items)| <= lim.length && count <= lim.items
    ensures ParseItems(|items|, EncItems(items) + rest, depth, count, lim)
         == if (forall x | x in items :: DepthFits(x, depth, lim)) && count + ItemsOf(items) <= lim.items
            then Ok(items, rest, count + ItemsOf(items)) else Bad
    decreases items, 0
  {
    hide ParseValue, Enc, DepthFits, TextsValid, Items;
    if items == [] {
      assert EncItems(items) + rest == rest;
    } else {
      var tail := EncItems(items[1..]) + rest;
      assert EncItems(items) + rest == Enc(items[0]) + tail;
      assert items == [items[0]] + items[1..];
      ValueInverse(items[0], tail, depth, count, lim);
      if Fits(items[0], depth, count, lim) {
        ItemsInverse(items[1..], rest, depth, count + Items(items[0]), lim);
      }
    }
  }

  ghost function Chosen(v: Value, keys: seq<int>): map<int, Value>
    requires v.Map? && forall k | k in keys :: k in v.m
  {
    map k | k in keys :: v.m[k]
  }

  ghost predicate EntriesFit(v: Value, keys: seq<int>, depth: nat, lim: Limits)
    requires v.Map? && forall k | k in keys :: k in v.m
  {
    forall k | k in keys :: IntDepthFits(k, depth, lim) && DepthFits(v.m[k], depth, lim)
  }

  ghost predicate EntryFits(v: Value, k: int, depth: nat, count: nat, lim: Limits)
    requires v.Map? && k in v.m
  {
    IntDepthFits(k, depth, lim) && DepthFits(v.m[k], depth, lim) && count + IntItems(k) + Items(v.m[k]) <= lim.items
  }

  /** One key and its value, with n more entries to come. */
  lemma {:induction false} EntryInverse(v: Value, k: int, n: nat, tail: Bytes, depth: nat, count: nat,
          acc: map<int, Value>, lim: Limits)
    requires v.Map? && TextsValid(v) && k in v.m && k !in acc
    requires |EncInt(k)| + |Enc(v.m[k])| <= lim.length
    ensures ParseEntries(n + 1, EncInt(k) + Enc(v.m[k]) + tail, depth, count, acc, lim)
         == if EntryFits(v, k, depth, count, lim)
            then ParseEntries(n, tail, depth, count + IntItems(k) + Items(v.m[k]), acc[k := v.m[k]], lim) else Bad
    decreases v, 0, 0
  {
    hide ParseValue, Enc, EncInt;
    var body := Enc(v.m[k]) + tail;
    assert EncInt(k) + Enc(v.m[k]) + tail == EncInt(k) + body;
    IntInverse(k, body, depth, count, lim);
    if Fits(Int(k), depth, count, lim) { ValueInverse(v.m[k], tail, depth, count + IntItems(k), lim); }
  }

  lemma ChosenStep(v: Value, keys: seq<int>, acc: map<int, Value>)
    requires v.Map? && (forall k | k in keys :: k in v.m) && keys != [] && keys[0] in v.m && keys[0] !in keys[1..]
    ensures acc[keys[0] := v.m[keys[0]]] + Chosen(v, keys[1..]) == acc + Chosen(v, keys)
  {
    assert keys == [keys[0]] + keys[1..];
  }

  lemma EntriesUnfold(v: Value, keys: seq<int>, depth: nat, acc: map<int, Value>, lim: Limits)
    requires v.Map? && (forall k | k in keys :: k in v.m) && keys != [] && KeySorted(keys)
    requires forall k | k in keys :: k !in acc
    ensures var k, more := keys[0], keys[1..];
            && (EntriesFit(v, keys, depth, lim) <==>
                 IntDepthFits(k, depth, lim) && DepthFits(v.m[k], depth, lim) && EntriesFit(v, more, depth, lim))
            && acc[k := v.m[k]] + Chosen(v, more) == acc + Chosen(v, keys)
            && KeySorted(more)
            && forall j | j in more :: j !in acc[k := v.m[k]]
  {
    hide DepthFits, EncInt, Chosen, IntDepthFits;
    var k, more := keys[0], keys[1..];
    assert keys == [k] + more;
    TailElements(keys);
    forall j | j in more ensures j != k { assert j in Elements(more); }
    ChosenStep(v, keys, acc);
  }

  lemma {:induction false} EntriesInverse(v: Value, keys: seq<int>, rest: Bytes, depth: nat, count: nat,
          acc: map<int, Value>, lim: Limits)
    requires v.Map? && TextsValid(v) && (forall k | k in keys :: k in v.m)
    requires |EncEntries(v, keys)| <= lim.length && count <= lim.items
    requires KeySorted(keys) && forall k | k in keys :: k !in acc
    ensures ParseEntries(|keys|, EncEntries(v, keys) + rest, depth, count, acc, lim)
         == if EntriesFit(v, keys, depth, lim) && count + ItemsIn(v, keys) <= lim.items
            then Ok(acc + Chosen(v, keys), rest, count + ItemsIn(v, keys)) else Bad
    decreases v, 0, |keys|
  {
    hide ParseValue, Enc, DepthFits, TextsValid, EncInt, ParseEntries, EncEntries, ItemsIn, EntriesFit, Chosen,
         KeySorted, Items;
    if keys == [] {
      NoEntries(v, rest, depth, count, acc, lim);
    } else {
      var k, more := keys[0], keys[1..];
      var tail := EncEntries(v, more) + rest;
      FirstEntry(v, keys);
      EntryInverse(v, k, |more|, tail, depth, count, acc, lim);
      assert EncEntries(v, keys) + rest == EncInt(k) + Enc(v.m[k]) + tail;
      EntriesUnfold(v, keys, depth, acc, lim);
      if EntryFits(v, k, depth, count, lim) {
        EntriesInverse(v, more, rest, depth, count + IntItems(k) + Items(v.m[k]), acc[k := v.m[k]], lim);
      }
    }
  }

  lemma NoEntries(v: Value, rest: Bytes, depth: nat, count: nat, acc: map<int, Value>, lim: Limits)
    requires v.Map?
    ensures EncEntries(v, []) == [] && ItemsIn(v, []) == 0 && EntriesFit(v, [], depth, lim)
    ensures acc + Chosen(v, []) == acc
    ensures EncEntries(v, []) + rest == rest && ParseEntries(0, rest, depth, count, acc, lim) == Ok(acc, rest, count)
  {
    assert [] + rest == rest;
  }

  lemma EncNoEntries(v: Value)
    requires v.Map?
    ensures EncEntries(v, []) == []
  {
  }

  lemma FirstEntry(v: Value, keys: seq<int>)
    requires v.Map? && (forall k | k in keys :: k in v.m) && keys != []
    ensures EncEntries(v, keys) == EncInt(keys[0]) + Enc(v.m[keys[0]]) + EncEntries(v, keys[1..])
    ensures ItemsIn(v, keys) == IntItems(keys[0]) + Items(v.m[keys[0]]) + ItemsIn(v, keys[1..])
  {
    hide Enc, EncInt, Items;
  }

  // --------------------------------------------------------- main results

  /** Parser after printer, and the exact budget under which it succeeds. */
  lemma DecodeAfterEncode(v: Value, lim: Limits)
    requires TextsValid(v) && |Enc(v)| <= lim.length
    ensures ParseValue(Enc(v), 0, 0, lim) == if Decodable(v, lim) then Ok(v, [], Items(v)) else Bad
  {
    ValueInverse(v, [], 0, 0, lim);
    assert Enc(v) + [] == Enc(v);
  }

  /** No two values share an encoding, up to the longest length a head can carry. */
  lemma EncInjective(a: Value, b: Value)
    requires TextsValid(a) && TextsValid(b) && Enc(a) == Enc(b) && |Enc(a)| <= UINT64_MAX
    ensures a == b
  {
    var lim: Limits := Limited(|Enc(a)|, |Enc(a)|, UINT64_MAX);
    AmpleDepth(a, 0, lim);
    AmpleDepth(b, 0, lim);
    DecodeAfterEncode(a, lim);
    DecodeAfterEncode(b, lim);
  }

  /** Nesting and items never exceed the number of encoded bytes. */
  lemma {:induction false} AmpleDepth(v: Value, depth: nat, lim: Limits)
    requires depth + |Enc(v)| <= lim.depth
    ensures DepthFits(v, depth, lim) && Items(v) <= |Enc(v)|
    decreases v, 1
  {
    match v
    case List(items) => AmpleItems(items, depth + 1, lim);
    case Map(m) =>
      AllEntries(v, depth, lim);
      AmpleEntries(v, SortedKeys(m.Keys), depth + 1, lim);
    case _ =>
  }

  lemma {:induction false} AmpleItems(items: seq<Value>, depth: nat, lim: Limits)
    requires depth + |EncItems(items)| <= lim.depth
    ensures (forall x | x in items :: DepthFits(x, depth, lim)) && ItemsOf(items) <= |EncItems(items)|
    decreases items, 0
  {
    hide DepthFits, Enc;
    if items != [] {
      AmpleDepth(items[0], depth, lim);
      AmpleItems(items[1..], depth, lim);
      assert items == [items[0]] + items[1..];
    }
  }

  lemma {:induction false} AmpleEntries(v: Value, keys: seq<int>, depth: nat, lim: Limits)
    requires v.Map? && (forall k | k in keys :: k in v.m) && depth + |EncEntries(v, keys)| <= lim.depth
    ensures EntriesFit(v, keys, depth, lim) && ItemsIn(v, keys) <= |EncEntries(v, keys)|
    decreases v, 0, |keys|
  {
    hide DepthFits, Enc;
    if keys != [] {
      AmpleDepth(v.m[keys[0]], depth, lim);
      AmpleEntries(v, keys[1..], depth, lim);
      assert keys == [keys[0]] + keys[1..];
    }
  }

  /** What the decoder's budgets leave, the writer never refuses. */
  lemma {:induction false} DecodableIsWritable(v: Value, depth: nat)
    requires TextsValid(v) && DepthFits(v, depth, KOTLIN) && Items(v) <= MAX_ITEMS
    ensures Writable(v, depth)
    decreases v
  {
    hide SortedKeys, ItemsIn, ItemsOf, Utf8Valid;
    match v
    case List(items) =>
      forall x | x in items ensures Writable(x, depth + 1) {
        ItemsBound(items, x);
        DecodableIsWritable(x, depth + 1);
      }
      ItemsLength(items);
    case Map(m) =>
      forall k | k in m ensures Writable(m[k], depth + 1) {
        assert k in Elements(SortedKeys(m.Keys));
        EntriesBound(v, SortedKeys(m.Keys), k);
        DecodableIsWritable(m[k], depth + 1);
      }
      EntriesLength(v, SortedKeys(m.Keys));
    case _ =>
  }

  lemma {:induction false} ItemsBound(items: seq<Value>, x: Value)
    requires x in items
    ensures Items(x) <= ItemsOf(items)
  {
    if x != items[0] { ItemsBound(items[1..], x); }
  }

  lemma {:induction false} ItemsLength(items: seq<Value>)
    ensures |items| <= ItemsOf(items)
  {
    if items != [] { ItemsLength(items[1..]); }
  }

  lemma {:induction false} EntriesBound(v: Value, keys: seq<int>, k: int)
    requires v.Map? && (forall j | j in keys :: j in v.m) && k in keys
    ensures Items(v.m[k]) <= ItemsIn(v, keys)
    decreases |keys|
  {
    if k != keys[0] { EntriesBound(v, keys[1..], k); }
  }

  lemma {:induction false} EntriesLength(v: Value, keys: seq<int>)
    requires v.Map? && forall j | j in keys :: j in v.m
    ensures |keys| <= ItemsIn(v, keys)
    decreases |keys|
  {
    if keys != [] { EntriesLength(v, keys[1..]); }
  }
}
