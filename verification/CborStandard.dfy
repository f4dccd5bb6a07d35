/** The encoding by what RFC 8949 says of its bytes, stated without the printer's own definitions. */
module CborStandard {
  import opened Prelude
  import opened CborSpec
  import opened CborProofs
  import opened TextStandard

  // ------------------------------------------------------------------- digits

  /** Most significant first: digit i of width base-256 digits of n. */
  ghost predicate DigitsOf(s: Bytes, n: nat)
  {
    forall i | 0 <= i < |s| :: s[i] == n / Pow256(|s| - 1 - i) % 256
  }

  lemma DivideTwice(n: nat, b: nat)
    requires b > 0
    ensures n / 256 / b == n / (256 * b)
  {
    var q, r := n / 256, n % 256;
    var x, y := q / b, q % b;
    assert 256 * b * x == 256 * (b * x);
    Quotient(n, 256 * b, x, 256 * y + r);
  }

  lemma Quotient(n: nat, d: nat, q: nat, r: nat)
    requires d > 0 && n == d * q + r && r < d
    ensures n / d == q
  {
    var z := n / d - q;
    assert d * z == d * (n / d) - d * q;
    AtLeast(d, z);
  }

  lemma AtLeast(d: int, z: int)
    requires d > 0
    ensures (z >= 1 ==> d * z >= d) && (z <= -1 ==> d * z <= -d)
  {
    assert d * z == d * (z - 1) + d == d * (z + 1) - d;
    if z >= 1 { assert d * (z - 1) >= 0; }
    if z <= -1 { assert d * (z + 1) <= 0; }
  }

  lemma {:induction false} BigEndianDigits(n: nat, width: nat)
    ensures DigitsOf(BigEndian(n, width), n)
  {
    if width > 0 {
      BigEndianDigits(n / 256, width - 1);
      var s, high := BigEndian(n, width), BigEndian(n / 256, width - 1);
      forall i | 0 <= i < width ensures s[i] == n / Pow256(width - 1 - i) % 256 {
        if i < width - 1 {
          DivideTwice(n, Pow256(width - 2 - i));
          assert s[i] == high[i];
        }
      }
    }
  }

  lemma {:induction false} MagnitudeDigits(n: nat)
    ensures DigitsOf(Magnitude(n), n) && (n > 0 ==> Magnitude(n) != [] && Magnitude(n)[0] != 0)
    ensures n < Pow256(|Magnitude(n)|)
  {
    if n > 0 {
      MagnitudeDigits(n / 256);
      var s, high := Magnitude(n), Magnitude(n / 256);
      var width := |s|;
      forall i | 0 <= i < width ensures s[i] == n / Pow256(width - 1 - i) % 256 {
        if i < width - 1 {
          DivideTwice(n, Pow256(width - 2 - i));
          assert s[i] == high[i];
        }
      }
      assert Pow256(width) == 256 * Pow256(width - 1);
    }
  }

  // -------------------------------------------------------------------- heads

  /** How many bytes the shortest form of an argument takes after the initial byte. */
  function ArgumentBytes(argument: nat): nat
  {
    if argument < 24 then 0 else if argument < Pow256(1) then 1 else if argument < Pow256(2) then 2
    else if argument < Pow256(4) then 4 else 8
  }

  /** The low five bits of the initial byte: the argument itself, or which width follows. */
  function AdditionalInformation(argument: nat): nat
  {
    match ArgumentBytes(argument)
    case 0 => argument
    case 1 => 24
    case 2 => 25
    case 4 => 26
    case _ => 27
  }

  /** Section 3 with the shortest form of section 4.2.1: major type, additional information, big-endian argument. */
  ghost predicate HeadIs(s: Bytes, major: nat, argument: nat)
  {
    && |s| == 1 + ArgumentBytes(argument)
    && s[0] / 32 == major && s[0] % 32 == AdditionalInformation(argument)
    && DigitsOf(s[1..], argument)
  }

  lemma HeadIsStandard(major: nat, argument: nat)
    requires major < 8 && argument <= UINT64_MAX
    ensures HeadIs(Head(major, argument), major, argument)
  {
    hide DigitsOf, BigEndian;
    Widths();
    var s := Head(major, argument);
    if argument < 24 {
      assert s[1..] == [];
      NoDigits(argument);
    } else {
      var width := ArgumentBytes(argument);
      BigEndianDigits(argument, width);
      assert s[1..] == BigEndian(argument, width);
    }
  }

  lemma NoDigits(n: nat)
    ensures DigitsOf([], n)
  {
  }

  // ------------------------------------------------------------------- values

  /** A head of this major type with the length, then exactly these bytes. */
  ghost predicate Prefixed(s: Bytes, major: nat, length: nat, content: Bytes)
  {
    exists head :: HeadIs(head, major, length) && s == head + content
  }

  /** Major types 0 and 1 through 64 bits; beyond, tags 2 and 3 on the bytes of the magnitude. */
  ghost predicate IntegerIs(s: Bytes, n: int)
  {
    var argument: nat := if n >= 0 then n else -1 - n;
    if argument < Pow256(8) then HeadIs(s, if n >= 0 then 0 else 1, argument)
    else
      exists magnitude ::
        && |s| > 0 && s[0] == 6 * 32 + (if n >= 0 then 2 else 3)
        && Prefixed(s[1..], 2, |magnitude|, magnitude)
        && magnitude != [] && magnitude[0] != 0 && argument < Pow256(|magnitude|) && DigitsOf(magnitude, argument)
  }

  function Flat(parts: seq<Bytes>): Bytes
  {
    if parts == [] then [] else parts[0] + Flat(parts[1..])
  }

  /** Length first, then the first byte in which they differ: section 4.2.3. */
  ghost predicate KeyPrecedes(a: Bytes, b: Bytes)
  {
    |a| < |b| || (|a| == |b| && Precedes(a, b))
  }

  /** All keys of m, once each, in strictly ascending order of their encodings. */
  ghost predicate Ordered(keys: seq<int>, m: map<int, Value>)
  {
    && (forall k :: k in keys <==> k in m) && |keys| == |m|
    && forall i, j | 0 <= i < j < |keys| :: KeyPrecedes(EncInt(keys[i]), EncInt(keys[j]))
  }

  /** The bytes of a value by its kind. */
  ghost predicate Standard(v: Value, s: Bytes)
  {
    match v
    case Null => s == [7 * 32 + 22]
    case Bool(flag) => s == [7 * 32 + (if flag then 21 else 20)]
    case Int(n) => IntegerIs(s, n)
    case Bstr(bytes) => Prefixed(s, 2, |bytes|, bytes)
    case Text(utf8) => Prefixed(s, 3, |utf8|, utf8)
    case List(items) => Prefixed(s, 4, |items|, Flat(seq(|items|, i requires 0 <= i < |items| => Enc(items[i]))))
    case Map(m) =>
      exists keys | Ordered(keys, m) ::
        Prefixed(s, 5, |m|,
          Flat(seq(|keys|, i requires 0 <= i < |keys| => EncInt(keys[i]) + Enc(m[keys[i]]))))
  }

  lemma Prefixes(major: nat, length: nat, content: Bytes)
    requires major < 8 && length <= UINT64_MAX
    ensures Prefixed(Head(major, length) + content, major, length, content)
  {
    hide HeadIs, Head;
    HeadIsStandard(major, length);
  }

  lemma IntegerIsStandard(n: int)
    requires |EncInt(n)| <= UINT64_MAX
    ensures IntegerIs(EncInt(n), n)
  {
    hide HeadIs, DigitsOf, Pow256, Magnitude, Prefixed, Head;
    Widths();
    var argument: nat := if n >= 0 then n else -1 - n;
    if argument <= UINT64_MAX {
      HeadIsStandard(if n >= 0 then 0 else 1, argument);
    } else {
      var magnitude := Magnitude(argument);
      MagnitudeDigits(argument);
      Prefixes(2, |magnitude|, magnitude);
      assert EncInt(n)[1..] == BytesForm(2, magnitude);
    }
  }

  lemma {:induction false} ItemsFlat(items: seq<Value>)
    ensures EncItems(items) == Flat(seq(|items|, i requires 0 <= i < |items| => Enc(items[i])))
  {
    hide Enc;
    var parts := seq(|items|, i requires 0 <= i < |items| => Enc(items[i]));
    if items != [] {
      var rest := items[1..];
      ItemsFlat(rest);
      assert parts[1..] == seq(|rest|, i requires 0 <= i < |rest| => Enc(rest[i]));
    }
  }

  lemma {:induction false} EntriesFlat(v: Value, keys: seq<int>)
    requires v.Map? && forall k | k in keys :: k in v.m
    ensures EncEntries(v, keys) == Flat(seq(|keys|, i requires 0 <= i < |keys| => EncInt(keys[i]) + Enc(v.m[keys[i]])))
  {
    hide Enc, EncInt;
    var parts := seq(|keys|, i requires 0 <= i < |keys| => EncInt(keys[i]) + Enc(v.m[keys[i]]));
    if keys != [] {
      var rest := keys[1..];
      EntriesFlat(v, rest);
      FirstEntry(v, keys);
      assert parts[1..] == seq(|rest|, i requires 0 <= i < |rest| => EncInt(rest[i]) + Enc(v.m[rest[i]]));
    }
  }

  lemma KeyOrderIs(a: int, b: int)
    ensures KeyLess(a, b) <==> KeyPrecedes(EncInt(a), EncInt(b))
  {
    hide EncInt, LexLess, Precedes;
    LexLessMeans(EncInt(a), EncInt(b));
  }

  lemma SortedIsOrdered(m: map<int, Value>)
    ensures Ordered(SortedKeys(m.Keys), m)
  {
    hide SortedKeys, KeyLess, KeyPrecedes;
    var keys := SortedKeys(m.Keys);
    SortedKeysSorted(m.Keys);
    forall k ensures k in keys <==> k in m { assert k in keys <==> k in Elements(keys); }
    forall i, j | 0 <= i < j < |keys| ensures KeyPrecedes(EncInt(keys[i]), EncInt(keys[j])) {
      assert KeyLess(keys[i], keys[j]);
      KeyOrderIs(keys[i], keys[j]);
    }
  }

  /** For every value whose encoding has a length that fits 64 bits: its bytes are the standard's. */
  lemma EncIsStandard(v: Value)
    requires |Enc(v)| <= UINT64_MAX
    ensures Standard(v, Enc(v))
  {
    hide Prefixed, IntegerIs, Flat, Ordered, SortedKeys, EncItems, EncEntries, EncInt, Head;
    match v
    case Null =>
    case Bool(flag) =>
    case Int(n) => IntegerIsStandard(n);
    case Bstr(bytes) => Prefixes(2, |bytes|, bytes);
    case Text(utf8) => Prefixes(3, |utf8|, utf8);
    case List(items) =>
      ItemsFlat(items);
      Prefixes(4, |items|, EncItems(items));
    case Map(m) =>
      var keys := SortedKeys(m.Keys);
      SortedIsOrdered(m);
      OrderedKeys(keys, m);
      EntriesFlat(v, keys);
      Prefixes(5, |m|, EncEntries(v, keys));
  }

  lemma OrderedKeys(keys: seq<int>, m: map<int, Value>)
    requires Ordered(keys, m)
    ensures (forall k | k in keys :: k in m) && |keys| == |m|
  {
    hide KeyPrecedes;
  }
}
