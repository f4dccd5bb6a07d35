/** The canonical writer: appends to an output stream, refusing what breaks a limit. */
module CborWriter {
  import opened Prelude
  import opened CborSpec
  import opened CborProofs

  lemma ShortHead(major: nat, argument: nat)
    requires major < 8 && argument < 24
    ensures Head(major, argument) == [major * 32 + argument]
  {
  }

  lemma LongHead(major: nat, argument: nat, width: nat, code: nat)
    requires major < 8 && argument >= 24
    requires width == if argument <= 0xff then 1 else if argument <= 0xffff then 2 else if argument <= 0xffff_ffff then
               4 else 8
    requires code == if width == 1 then 24 else if width == 2 then 25 else if width == 4 then 26 else 27
    ensures Head(major, argument) == [major * 32 + code] + BigEndian(argument, width)
    ensures |BigEndian(argument, width)| == width
  {
    hide BigEndian;
  }

  class ByteSink {
    var data: Bytes

    constructor ()
      ensures data == []
    {
      data := [];
    }

    /** Fails exactly when the stream would grow past the limit; then it is unchanged. */
    method WriteRaw(bytes: Bytes) returns (ok: bool)
      modifies this
      ensures ok == (|old(data)| + |bytes| <= MAX_ENCODED_BYTES)
      ensures data == if ok then old(data) + bytes else old(data)
    {
      ok := |data| + |bytes| <= MAX_ENCODED_BYTES;
      if ok { data := data + bytes; }
    }

    method WriteByte(b: Byte) returns (ok: bool)
      modifies this
      ensures ok == (|old(data)| + 1 <= MAX_ENCODED_BYTES)
      ensures data == if ok then old(data) + [b] else old(data)
    {
      ok := WriteRaw([b]);
    }

    /** Most significant byte first, one shift per byte. */
    method WriteUnsigned(n: nat, width: nat) returns (ok: bool)
      requires |data| <= MAX_ENCODED_BYTES
      modifies this
      ensures ok == (|old(data)| + width <= MAX_ENCODED_BYTES)
      ensures ok ==> data == old(data) + BigEndian(n, width)
      ensures |data| <= MAX_ENCODED_BYTES
    {
      var i := 0;
      while i < width
        invariant 0 <= i <= width
        invariant |old(data)| + i <= MAX_ENCODED_BYTES
        invariant data == old(data) + BigEndian(ShiftBytes(n, width - i), i)
      {
        var shifted := ShiftBytes(n, width - i - 1);
        ShiftStep(n, width - i - 1);
        var written := WriteByte(shifted % 256);
        if !written { return false; }
        i := i + 1;
      }
      ok := true;
    }

    method WriteHeader(major: nat, argument: nat) returns (ok: bool)
      requires major < 8 && |data| <= MAX_ENCODED_BYTES
      modifies this
      ensures ok == (|old(data)| + |Head(major, argument)| <= MAX_ENCODED_BYTES)
      ensures ok ==> data == old(data) + Head(major, argument)
      ensures |data| <= MAX_ENCODED_BYTES
    {
      hide BigEndian, Head;
      if argument < 24 {
        ShortHead(major, argument);
        ok := WriteByte(major * 32 + argument);
        return;
      }
      var width := if argument <= 0xff then 1 else if argument <= 0xffff then 2 else if argument <= 0xffff_ffff then 4
        else 8;
      var code := if width == 1 then 24 else if width == 2 then 25 else if width == 4 then 26 else 27;
      LongHead(major, argument, width, code);
      ok := WriteByte(major * 32 + code);
      if ok {
        assert old(data) + [(major * 32 + code) as Byte] + BigEndian(argument, width)
                 == old(data) + ([(major * 32 + code) as Byte] + BigEndian(argument, width));
        ok := WriteUnsigned(argument, width);
      }
    }

    method WriteInteger(n: int) returns (ok: bool)
      requires |data| <= MAX_ENCODED_BYTES
      modifies this
      ensures ok == (|old(data)| + |EncInt(n)| <= MAX_ENCODED_BYTES)
      ensures ok ==> data == old(data) + EncInt(n)
      ensures |data| <= MAX_ENCODED_BYTES
    {
      hide Head, Magnitude;
      var argument := if n >= 0 then n else -1 - n;
      if argument <= UINT64_MAX {
        ok := WriteHeader(if n >= 0 then 0 else 1, argument);
      } else {
        ok := WriteByte(if n >= 0 then 0xc2 else 0xc3);
        if ok { ok := WriteString(2, Magnitude(argument)); }
      }
    }

    method WriteString(major: nat, bytes: Bytes) returns (ok: bool)
      requires major < 8 && |data| <= MAX_ENCODED_BYTES
      modifies this
      ensures ok == (|old(data)| + |BytesForm(major, bytes)| <= MAX_ENCODED_BYTES)
      ensures ok ==> data == old(data) + BytesForm(major, bytes)
      ensures |data| <= MAX_ENCODED_BYTES
    {
      ok := WriteHeader(major, |bytes|);
      if ok { ok := WriteRaw(bytes); }
    }

    /** Appends the canonical form of value, or fails exactly when a limit forbids it. */
    method WriteValue(value: Value, depth: nat) returns (ok: bool)
      requires |data| <= MAX_ENCODED_BYTES
      modifies this
      ensures ok == (Writable(value, depth) && |old(data)| + |Enc(value)| <= MAX_ENCODED_BYTES)
      ensures ok ==> data == old(data) + Enc(value)
      ensures |data| <= MAX_ENCODED_BYTES
      decreases value, 1
    {
      hide Head, EncInt, BytesForm, SortedKeys, EncItems, EncEntries, Utf8Valid;
      if depth > MAX_DEPTH { return false; }
      match value
      case Null => ok := WriteByte(0xf6);
      case Bool(flag) => ok := WriteByte(if flag then 0xf5 else 0xf4);
      case Int(n) => ok := WriteInteger(n);
      case Bstr(bytes) => ok := WriteString(2, bytes);
      case Text(utf8) =>
        if !Utf8Valid(utf8) { return false; }
        ok := WriteString(3, utf8);
      case List(items) =>
        if |items| > MAX_ITEMS { return false; }
        ok := WriteHeader(4, |items|);
        assert old(data) + Head(4, |items|) + EncItems(items) == old(data) + (Head(4, |items|) + EncItems(items));
        if ok { ok := WriteItems(items, depth + 1); }
      case Map(m) =>
        if |m| > MAX_ITEMS { return false; }
        ok := WriteMap(value, depth);
    }

    method WriteItems(items: seq<Value>, depth: nat) returns (ok: bool)
      requires |data| <= MAX_ENCODED_BYTES
      modifies this
      ensures ok == ((forall x | x in items :: Writable(x, depth))
                && |old(data)| + |EncItems(items)| <= MAX_ENCODED_BYTES)
      ensures ok ==> data == old(data) + EncItems(items)
      ensures |data| <= MAX_ENCODED_BYTES
      decreases items, 0
    {
      hide Enc, Writable, EncItems;
      var i := 0;
      NothingToWrite();
      assert items[..0] == [] && data == old(data) + [];
      while i < |items|
        invariant 0 <= i <= |items|
        invariant forall x | x in items[..i] :: Writable(x, depth)
        invariant data == old(data) + EncItems(items[..i])
        invariant |data| <= MAX_ENCODED_BYTES
      {
        var written := WriteValue(items[i], depth);
        ItemsSplit(items, i);
        if !written { return false; }
        assert items[..i + 1] == items[..i] + [items[i]];
        i := i + 1;
      }
      assert items[..i] == items;
      ok := true;
    }

    method WriteMap(value: Value, depth: nat) returns (ok: bool)
      requires value.Map? && depth <= MAX_DEPTH && |value.m| <= MAX_ITEMS
      requires |data| <= MAX_ENCODED_BYTES
      modifies this
      ensures ok == (Writable(value, depth) && |old(data)| + |Enc(value)| <= MAX_ENCODED_BYTES)
      ensures ok ==> data == old(data) + Enc(value)
      ensures |data| <= MAX_ENCODED_BYTES
      decreases value, 0, 2
    {
      hide *;
      MapForm(value, depth);
      var entries := CanonicalEntries(value.m);
      ghost var keys := SortedKeys(value.m.Keys);
      assert old(data) + Head(5, |value.m|) + EncEntries(value, keys)
          == old(data) + (Head(5, |value.m|) + EncEntries(value, keys));
      ok := WriteHeader(5, |entries|);
      if ok { ok := WriteEntries(value, entries, depth + 1); }
    }

    method WriteEntry(ghost owner: Value, entry: EncodedEntry, depth: nat) returns (ok: bool)
      requires owner.Map? && entry.Of(owner.m) && |data| <= MAX_ENCODED_BYTES
      modifies this
      ensures ok == (Writable(entry.value, depth)
                && |old(data)| + |entry.encodedKey| + |Enc(entry.value)| <= MAX_ENCODED_BYTES)
      ensures ok ==> data == old(data) + (entry.encodedKey + Enc(entry.value))
      ensures |data| <= MAX_ENCODED_BYTES
      decreases owner, 0, 0
    {
      hide Enc, EncInt, Writable;
      ok := WriteRaw(entry.encodedKey);
      if ok { ok := WriteValue(entry.value, depth); }
    }

    method WriteEntries(value: Value, entries: seq<EncodedEntry>, depth: nat) returns (ok: bool)
      requires value.Map? && |data| <= MAX_ENCODED_BYTES
      requires forall e | e in entries :: e.Of(value.m)
      modifies this
      ensures (forall k | k in KeysOf(entries) :: k in value.m)
      ensures ok == ((forall k | k in KeysOf(entries) :: Writable(value.m[k], depth))
                     && |old(data)| + |EncEntries(value, KeysOf(entries))| <= MAX_ENCODED_BYTES)
      ensures ok ==> data == old(data) + EncEntries(value, KeysOf(entries))
      ensures |data| <= MAX_ENCODED_BYTES
      decreases value, 0, 1
    {
      hide Enc, EncInt, Writable, EncEntries;
      ghost var keys := KeysOf(entries);
      EncNoEntries(value);
      assert keys[..0] == [] && data == old(data) + [];
      forall k | k in keys ensures k in value.m {
        var n :| 0 <= n < |keys| && keys[n] == k;
        assert entries[n].Of(value.m);
      }
      var i := 0;
      while i < |entries|
        invariant 0 <= i <= |entries|
        invariant forall k | k in keys[..i] :: Writable(value.m[k], depth)
        invariant data == old(data) + EncEntries(value, keys[..i])
        invariant |data| <= MAX_ENCODED_BYTES
      {
        EntriesSplit(value, keys, i);
        assert entries[i].Of(value.m) && keys[i] == entries[i].key;
        assert keys[i] in keys && keys[..i + 1] == keys[..i] + [keys[i]];
        var written := WriteEntry(value, entries[i], depth);
        if !written { return false; }
        i := i + 1;
      }
      assert keys[..i] == keys;
      ok := true;
    }
  }

  /** One map entry whose key has been encoded on its own. */
  datatype EncodedEntry = EncodedEntry(key: int, encodedKey: Bytes, value: Value)
  {
    ghost predicate Of(m: map<int, Value>)
    {
      key in m && value == m[key] && encodedKey == EncInt(key)
    }
  }

  ghost function KeysOf(entries: seq<EncodedEntry>): (s: seq<int>)
    ensures |s| == |entries|
    ensures forall i | 0 <= i < |s| :: s[i] == entries[i].key
  {
    seq(|entries|, i requires 0 <= i < |entries| => entries[i].key)
  }

  method PickOne<T(==)>(s: set<T>) returns (x: T)
    requires s != {}
    ensures x in s
  {
    x :| x in s;
  }

  /** Entries in whatever order the map yields them. */
  method EncodeKeys(m: map<int, Value>) returns (entries: seq<EncodedEntry>)
    ensures forall e | e in entries :: e.Of(m)
    ensures Elements(KeysOf(entries)) == m.Keys && |entries| == |m|
  {
    var remaining := m.Keys;
    entries := [];
    while remaining != {}
      invariant remaining <= m.Keys
      invariant forall e | e in entries :: e.Of(m)
      invariant Elements(KeysOf(entries)) == m.Keys - remaining
      invariant |entries| + |remaining| == |m.Keys|
      decreases remaining
    {
      var k := PickOne(remaining);
      var more := entries + [EncodedEntry(k, EncInt(k), m[k])];
      assert KeysOf(more) == KeysOf(entries) + [k];
      assert Elements(KeysOf(more)) == Elements(KeysOf(entries)) + {k};
      entries := more;
      remaining := remaining - {k};
    }
  }

  /** Negative, zero or positive as left sorts before, with or after right. */
  method CompareCanonical(left: Bytes, right: Bytes) returns (c: int)
    ensures c < 0 <==> ShortLexLess(left, right)
    ensures c == 0 <==> left == right
  {
    ShortLexOrder(left, right, left);
    if |left| != |right| { return |left| - |right|; }
    var i := 0;
    while i < |left|
      invariant 0 <= i <= |left|
      invariant left[..i] == right[..i]
      invariant LexLess(left, right) == LexLess(left[i..], right[i..])
    {
      if left[i] != right[i] { return (left[i] as int) - (right[i] as int); }
      assert left[i..][1..] == left[i + 1..] && right[i..][1..] == right[i + 1..];
      i := i + 1;
    }
    assert left[..i] == left && right[..i] == right;
    c := 0;
  }

  /** Stable insertion by encoded key. */
  method SortEntries(entries: seq<EncodedEntry>) returns (sorted: seq<EncodedEntry>)
    requires forall e | e in entries :: e.encodedKey == EncInt(e.key)
    requires |Elements(KeysOf(entries))| == |entries|
    ensures forall e | e in sorted :: e in entries
    ensures KeySorted(KeysOf(sorted)) && Elements(KeysOf(sorted)) == Elements(KeysOf(entries))
    ensures |sorted| == |entries|
  {
    hide EncInt, KeySorted;
    sorted := [];
    assert KeySorted(KeysOf([])) by { EmptySorted(); }
    var i := 0;
    while i < |entries|
      invariant 0 <= i <= |entries| && |sorted| == i
      invariant forall e | e in sorted :: e in entries
      invariant KeySorted(KeysOf(sorted)) && Elements(KeysOf(sorted)) == Elements(KeysOf(entries)[..i])
    {
      DistinctPrefix(KeysOf(entries), i);
      sorted := InsertEntry(sorted, entries[i]);
      assert KeysOf(entries)[..i + 1] == KeysOf(entries)[..i] + [entries[i].key];
      assert Elements(KeysOf(entries)[..i + 1]) == Elements(KeysOf(entries)[..i]) + {entries[i].key};
      i := i + 1;
    }
    assert KeysOf(entries)[..i] == KeysOf(entries);
  }

  /** The entries of a map in canonical key order, each key encoded once. */
  method CanonicalEntries(m: map<int, Value>) returns (entries: seq<EncodedEntry>)
    ensures KeysOf(entries) == SortedKeys(m.Keys) && |entries| == |m|
    ensures forall e | e in entries :: e.Of(m)
  {
    hide SortedKeys, KeySorted, EncInt;
    entries := EncodeKeys(m);
    entries := SortEntries(entries);
    SortedKeysSorted(m.Keys);
    SortedUnique(KeysOf(entries), SortedKeys(m.Keys));
  }

  lemma MapForm(v: Value, depth: nat)
    requires v.Map? && depth <= MAX_DEPTH && |v.m| <= MAX_ITEMS
    ensures var keys := SortedKeys(v.m.Keys);
            && (forall k | k in keys :: k in v.m)
            && Enc(v) == Head(5, |v.m|) + EncEntries(v, keys)
            && (Writable(v, depth) <==> forall k | k in keys :: Writable(v.m[k], depth + 1))
  {
    hide SortedKeys, Head, EncEntries;
    var keys := SortedKeys(v.m.Keys);
    assert forall k :: k in v.m <==> k in Elements(keys);
  }

  method InsertEntry(sorted: seq<EncodedEntry>, entry: EncodedEntry) returns (result: seq<EncodedEntry>)
    requires KeySorted(KeysOf(sorted)) && entry.key !in Elements(KeysOf(sorted))
    requires entry.encodedKey == EncInt(entry.key) && forall e | e in sorted :: e.encodedKey == EncInt(e.key)
    ensures KeySorted(KeysOf(result)) && Elements(KeysOf(result)) == Elements(KeysOf(sorted)) + {entry.key}
    ensures |result| == |sorted| + 1 && forall e | e in result :: e == entry || e in sorted
  {
    hide EncInt, KeySorted;
    ghost var keys := KeysOf(sorted);
    var at := |sorted|;
    while at > 0
      invariant 0 <= at <= |sorted|
      invariant forall j | at <= j < |sorted| :: KeyLess(entry.key, keys[j])
    {
      var c := CompareCanonical(entry.encodedKey, sorted[at - 1].encodedKey);
      assert keys[at - 1] == sorted[at - 1].key && keys[at - 1] in Elements(keys);
      KeyLessTotal(entry.key, keys[at - 1]);
      if c >= 0 { break; }
      at := at - 1;
    }
    result := sorted[..at] + [entry] + sorted[at..];
    InsertSorted(keys, entry.key, at);
    KeysInserted(sorted, entry, at);
  }

  lemma KeysInserted(sorted: seq<EncodedEntry>, entry: EncodedEntry, at: nat)
    requires at <= |sorted|
    ensures KeysOf(sorted[..at] + [entry] + sorted[at..]) == KeysOf(sorted)[..at] + [entry.key] + KeysOf(sorted)[at..]
    ensures Elements(KeysOf(sorted)[..at] + [entry.key] + KeysOf(sorted)[at..])
              == Elements(KeysOf(sorted)) + {entry.key}
  {
    var keys := KeysOf(sorted);
    assert keys == keys[..at] + keys[at..];
  }

  lemma EmptySorted()
    ensures KeySorted(KeysOf([]))
  {
  }

  lemma InsertSorted(keys: seq<int>, k: int, at: nat)
    requires KeySorted(keys) && at <= |keys|
    requires forall j | at <= j < |keys| :: KeyLess(k, keys[j])
    requires at > 0 ==> KeyLess(keys[at - 1], k)
    ensures var t := keys[..at] + [k] + keys[at..]; KeySorted(t) && Elements(t) == Elements(keys) + {k}
  {
    hide EncInt, ShortLexLess;
    var t := keys[..at] + [k] + keys[at..];
    forall i | 0 <= i < at ensures KeyLess(keys[i], k) {
      if i < at - 1 {
        assert KeyLess(keys[i], keys[at - 1]);
        ShortLexOrder(EncInt(keys[i]), EncInt(keys[at - 1]), EncInt(k));
      }
    }
    assert keys == keys[..at] + keys[at..];
  }

  lemma DistinctPrefix(keys: seq<int>, i: nat)
    requires |Elements(keys)| == |keys| && i < |keys|
    ensures keys[i] !in Elements(keys[..i])
  {
    if keys[i] in keys[..i] {
      var j :| 0 <= j < i && keys[..i][j] == keys[i];
      var fewer := keys[..i] + keys[i + 1..];
      assert Elements(keys) == Elements(fewer) by {
        forall k | k in keys ensures k in fewer {
          var n :| 0 <= n < |keys| && keys[n] == k;
          assert k == fewer[if n == i then j else if n < i then n else n - 1];
        }
      }
      ElementsBound(fewer);
    }
  }

  lemma {:induction false} ElementsBound(keys: seq<int>)
    ensures |Elements(keys)| <= |keys|
  {
    if keys != [] {
      ElementsBound(keys[1..]);
      assert keys == [keys[0]] + keys[1..];
      assert Elements(keys) == {keys[0]} + Elements(keys[1..]);
    }
  }

  /** Right shift by whole bytes. */
  function ShiftBytes(n: nat, bytes: nat): nat
  {
    if bytes == 0 then n else ShiftBytes(n / 256, bytes - 1)
  }

  lemma {:induction false} ShiftStep(n: nat, bytes: nat)
    ensures ShiftBytes(n, bytes) / 256 == ShiftBytes(n, bytes + 1)
  {
    if bytes > 0 { ShiftStep(n / 256, bytes - 1); }
  }

  lemma NothingToWrite()
    ensures EncItems([]) == []
  {
  }

  lemma {:induction false} ItemsSplit(items: seq<Value>, i: nat)
    requires i < |items|
    ensures EncItems(items[..i + 1]) == EncItems(items[..i]) + Enc(items[i])
    ensures |EncItems(items[..i])| + |Enc(items[i])| <= |EncItems(items)|
  {
    hide Enc;
    if i == 0 {
      assert items[..1] == [items[0]];
      assert EncItems([items[0]]) == Enc(items[0]) + EncItems([]);
    } else {
      ItemsSplit(items[1..], i - 1);
      assert items[1..][..i] == items[..i + 1][1..];
      assert items[1..][..i - 1] == items[..i][1..];
    }
  }

  lemma {:induction false} EntriesSplit(v: Value, keys: seq<int>, i: nat)
    requires v.Map? && (forall k | k in keys :: k in v.m) && i < |keys|
    ensures EncEntries(v, keys[..i + 1]) == EncEntries(v, keys[..i]) + (EncInt(keys[i]) + Enc(v.m[keys[i]]))
    ensures |EncEntries(v, keys[..i])| + |EncInt(keys[i])| + |Enc(v.m[keys[i]])| <= |EncEntries(v, keys)|
    decreases |keys|
  {
    hide Enc, EncInt, EncEntries;
    FirstEntry(v, keys);
    FirstEntry(v, keys[..i + 1]);
    if i == 0 {
      assert keys[..1][1..] == [] && keys[..0] == [];
      EncNoEntries(v);
    } else {
      FirstEntry(v, keys[..i]);
      EntriesSplit(v, keys[1..], i - 1);
      assert keys[1..][..i] == keys[..i + 1][1..];
      assert keys[1..][..i - 1] == keys[..i][1..];
    }
  }

  /** The writer's entry point: the encoding when the limits allow it, nothing otherwise. */
  method EncodeCanonical(value: Value) returns (r: Option<Bytes>)
    ensures r == if Writable(value, 0) && |Enc(value)| <= MAX_ENCODED_BYTES then Some(Enc(value)) else None
  {
    var output := new ByteSink();
    var ok := output.WriteValue(value, 0);
    assert [] + Enc(value) == Enc(value);
    r := if ok then Some(output.data) else None;
  }
}
