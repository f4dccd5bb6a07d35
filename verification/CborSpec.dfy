/** The canonical CBOR value language: its encoding, and the grammar the decoder accepts. */
module CborSpec {
  import opened Prelude

  const MAX_ENCODED_BYTES: nat := 1024 * 1024
  const MAX_DEPTH: nat := 32
  const MAX_ITEMS: nat := 10_000
  const UINT64_MAX: nat := 0xffff_ffff_ffff_ffff

  /** What a decoder bounds: nesting, items, and any one length. */
  datatype AnyLimits = Limited(depth: nat, items: nat, length: nat)

  type Limits = l: AnyLimits | l.length <= UINT64_MAX witness Limited(0, 0, 0)

  /** The limits of the Kotlin decoder. */
  const KOTLIN: Limits := Limited(MAX_DEPTH, MAX_ITEMS, MAX_ENCODED_BYTES)

  /** A text is held as its UTF-8 bytes, a map as a finite map from integers. */
  datatype Value =
    | Null
    | Bool(flag: bool)
    | Int(n: int)
    | Bstr(bytes: Bytes)
    | Text(utf8: Bytes)
    | List(items: seq<Value>)
    | Map(m: map<int, Value>)

  // ---------------------------------------------------------------- numbers

  function BigEndian(n: nat, width: nat): (s: Bytes)
    ensures |s| == width
  {
    if width == 0 then [] else BigEndian(n / 256, width - 1) + [n % 256]
  }

  /** Shortest big-endian form; empty for zero. */
  function Magnitude(n: nat): (s: Bytes)
    ensures n > 0 ==> |s| > 0 && s[0] != 0
  {
    if n == 0 then [] else Magnitude(n / 256) + [n % 256]
  }

  function FromBigEndian(s: Bytes): nat
  {
    if s == [] then 0 else FromBigEndian(s[..|s| - 1]) * 256 + s[|s| - 1]
  }

  function Pow256(width: nat): (p: nat)
    ensures p > 0
  {
    if width == 0 then 1 else 256 * Pow256(width - 1)
  }

  // --------------------------------------------------------------- encoding

  function Head(major: nat, argument: nat): (s: Bytes)
    requires major < 8
    ensures 1 <= |s| <= 9
  {
    if argument < 24 then [major * 32 + argument]
    else if argument <= 0xff then [major * 32 + 24] + BigEndian(argument, 1)
    else if argument <= 0xffff then [major * 32 + 25] + BigEndian(argument, 2)
    else if argument <= 0xffff_ffff then [major * 32 + 26] + BigEndian(argument, 4)
    else [major * 32 + 27] + BigEndian(argument, 8)
  }

  function BytesForm(major: nat, s: Bytes): Bytes
    requires major < 8
  {
    Head(major, |s|) + s
  }

  function EncInt(n: int): (s: Bytes)
    ensures |s| > 0
  {
    var argument := if n >= 0 then n else -1 - n;
    if argument <= UINT64_MAX then Head(if n >= 0 then 0 else 1, argument)
    else [if n >= 0 then 0xc2 else 0xc3] + BytesForm(2, Magnitude(argument))
  }

  /** Order of map keys: the length-first order of their encodings. */
  predicate KeyLess(a: int, b: int)
  {
    ShortLexLess(EncInt(a), EncInt(b))
  }

  ghost predicate KeySorted(keys: seq<int>)
  {
    forall i, j :: 0 <= i < j < |keys| ==> KeyLess(keys[i], keys[j])
  }

  ghost function Elements(keys: seq<int>): set<int>
  {
    set k | k in keys
  }

  /** Canonical key order, read off as: the first key is below every other. */
  ghost function SortedKeys(keys: set<int>): (s: seq<int>)
    ensures Elements(s) == keys && |s| == |keys|
  {
    if keys == {} then []
    else
      LeastExists(keys);
      var k :| k in keys && forall j | j in keys && j != k :: KeyLess(k, j);
      var rest := SortedKeys(keys - {k});
      assert keys == {k} + (keys - {k});
      assert Elements([k] + rest) == {k} + Elements(rest);
      [k] + rest
  }

  lemma {:induction false} LeastExists(keys: set<int>)
    requires keys != {}
    ensures exists k :: k in keys && forall j | j in keys && j != k :: KeyLess(k, j)
  {
    var x := AnyOf(keys);
    if keys == {x} {
      assert forall j | j in keys && j != x :: KeyLess(x, j);
    } else {
      var others := keys - {x};
      LeastExists(others);
      var k :| k in others && forall j | j in others && j != k :: KeyLess(k, j);
      KeyLessTotal(x, k);
      if KeyLess(x, k) {
        forall j | j in keys && j != x ensures KeyLess(x, j) {
          if j != k {
            assert KeyLess(k, j);
            ShortLexOrder(EncInt(x), EncInt(k), EncInt(j));
          }
        }
      } else {
        assert forall j | j in keys && j != k :: KeyLess(k, j);
      }
    }
  }

  ghost function Enc(v: Value): (s: Bytes)
    ensures |s| > 0
    decreases v, 1
  {
    match v
    case Null => [0xf6]
    case Bool(flag) => [if flag then 0xf5 else 0xf4]
    case Int(n) => EncInt(n)
    case Bstr(bytes) => BytesForm(2, bytes)
    case Text(utf8) => BytesForm(3, utf8)
    case List(items) => Head(4, |items|) + EncItems(items)
    case Map(m) => Head(5, |m|) + EncEntries(v, SortedKeys(m.Keys))
  }

  ghost function EncItems(items: seq<Value>): (s: Bytes)
    ensures |s| >= |items|
    decreases items, 0
  {
    if items == [] then [] else Enc(items[0]) + EncItems(items[1..])
  }

  ghost function EncEntries(v: Value, keys: seq<int>): (s: Bytes)
    requires v.Map? && forall k | k in keys :: k in v.m
    ensures |s| >= |keys|
    decreases v, 0, |keys|
  {
    if keys == [] then [] else EncInt(keys[0]) + Enc(v.m[keys[0]]) + EncEntries(v, keys[1..])
  }

  // ------------------------------------------------- what may be encoded

  ghost predicate TextsValid(v: Value)
  {
    match v
    case Text(utf8) => Utf8Valid(utf8)
    case List(items) => forall x | x in items :: TextsValid(x)
    case Map(m) => forall k | k in m :: TextsValid(m[k])
    case _ => true
  }

  /** The writer's own limits: nesting counted from depth, and every collection's size. */
  ghost predicate Writable(v: Value, depth: nat)
  {
    depth <= MAX_DEPTH &&
    match v
    case Text(utf8) => Utf8Valid(utf8)
    case List(items) => |items| <= MAX_ITEMS && forall x | x in items :: Writable(x, depth + 1)
    case Map(m) => |m| <= MAX_ITEMS && forall k | k in m :: Writable(m[k], depth + 1)
    case _ => true
  }

  // ------------------------------------------------------ decoder grammar

  datatype Parsed<+T> = Bad | Ok(value: T, rest: Bytes, count: nat)

  function ParseArgument(additional: nat, s: Bytes): (r: Parsed<nat>)
    ensures r.Ok? ==> |r.rest| <= |s|
  {
    if additional < 24 then Ok(additional, s, 0)
    else if additional == 24 then TakeNumber(1, s)
    else if additional == 25 then TakeNumber(2, s)
    else if additional == 26 then TakeNumber(4, s)
    else if additional == 27 then TakeNumber(8, s)
    else Bad
  }

  function TakeNumber(width: nat, s: Bytes): Parsed<nat>
  {
    if |s| < width then Bad else Ok(FromBigEndian(s[..width]), s[width..], 0)
  }

  function ParseBytes(additional: nat, s: Bytes, lim: Limits): (r: Parsed<Bytes>)
    ensures r.Ok? ==> |r.rest| <= |s|
  {
    var a := ParseArgument(additional, s);
    if a.Bad? || a.value > lim.length || a.value > |a.rest| then Bad
    else Ok(a.rest[..a.value], a.rest[a.value..], 0)
  }

  function ParseValue(s: Bytes, depth: nat, count: nat, lim: Limits): (r: Parsed<Value>)
    ensures r.Ok? ==> |r.rest| < |s|
    decreases |s|, 0
  {
    if depth > lim.depth || count + 1 > lim.items || s == [] then Bad
    else ParseBody(s[0] / 32, s[0] % 32, s[1..], depth, count + 1, lim)
  }

  /** Everything after the initial byte; count already includes this item. */
  function ParseBody(major: nat, additional: nat, s: Bytes, depth: nat, count: nat, lim: Limits): (r: Parsed<Value>)
    ensures r.Ok? ==> |r.rest| <= |s|
    decreases |s|, 2
  {
    match major
    case 0 => (var a := ParseArgument(additional, s); if a.Bad? then Bad else Ok(Int(a.value), a.rest, count))
    case 1 => (var a := ParseArgument(additional, s); if a.Bad? then Bad else Ok(Int(-1 - a.value), a.rest, count))
    case 2 => (var b := ParseBytes(additional, s, lim); if b.Bad? then Bad else Ok(Bstr(b.value), b.rest, count))
    case 3 => (
      var b := ParseBytes(additional, s, lim);
      if b.Bad? || !Utf8Valid(b.value) then Bad else Ok(Text(b.value), b.rest, count))
    case 4 => (
      var a := ParseArgument(additional, s);
      if a.Bad? || a.value > lim.length then Bad
      else
        var xs := ParseItems(a.value, a.rest, depth + 1, count, lim);
        if xs.Bad? then Bad else Ok(List(xs.value), xs.rest, xs.count))
    case 5 => (
      var a := ParseArgument(additional, s);
      if a.Bad? || a.value > lim.length then Bad
      else
        var es := ParseEntries(a.value, a.rest, depth + 1, count, map[], lim);
        if es.Bad? then Bad else Ok(Map(es.value), es.rest, es.count))
    case 6 => (
      var a := ParseArgument(additional, s);
      if a.Bad? || (a.value != 2 && a.value != 3) then Bad
      else
        var b := ParseValue(a.rest, depth + 1, count, lim);
        if b.Bad? || !b.value.Bstr? then Bad else
        var n := BigNumber(a.value, b.value.bytes);
        if n.None? then Bad else Ok(Int(n.value), b.rest, b.count))
    case _ => if additional == 20 then Ok(Bool(false), s, count)
              else if additional == 21 then Ok(Bool(true), s, count)
              else if additional == 22 then Ok(Null, s, count)
              else Bad
  }

  function BigNumber(tag: nat, magnitude: Bytes): Option<int>
  {
    if magnitude == [] || magnitude[0] == 0 || FromBigEndian(magnitude) <= UINT64_MAX then None
    else Some(if tag == 2 then FromBigEndian(magnitude) else -1 - FromBigEndian(magnitude))
  }

  function ParseItems(n: nat, s: Bytes, depth: nat, count: nat, lim: Limits): (r: Parsed<seq<Value>>)
    ensures r.Ok? ==> |r.rest| <= |s|
    decreases |s|, 1
  {
    if n == 0 then Ok([], s, count)
    else
      var x := ParseValue(s, depth, count, lim);
      if x.Bad? then Bad else
      var xs := ParseItems(n - 1, x.rest, depth, x.count, lim);
      if xs.Bad? then Bad else Ok([x.value] + xs.value, xs.rest, xs.count)
  }

  function ParseEntries(n: nat, s: Bytes, depth: nat, count: nat, acc: map<int, Value>,
          lim: Limits): (r: Parsed<map<int, Value>>)
    ensures r.Ok? ==> |r.rest| <= |s|
    decreases |s|, 1
  {
    if n == 0 then Ok(acc, s, count)
    else
      var k := ParseValue(s, depth, count, lim);
      if k.Bad? || !k.value.Int? || k.value.n in acc then Bad else
      var x := ParseValue(k.rest, depth, k.count, lim);
      if x.Bad? then Bad else
      ParseEntries(n - 1, x.rest, depth, x.count, acc[k.value.n := x.value], lim)
  }

  // --------------------------------------------- the decoder's two budgets

  /** Items as the decoder counts them: keys and bignum bodies included. */
  ghost function Items(v: Value): (c: nat)
    ensures c > 0
    decreases v, 1
  {
    match v
    case Int(n) => IntItems(n)
    case List(items) => 1 + ItemsOf(items)
    case Map(m) => 1 + ItemsIn(v, SortedKeys(m.Keys))
    case _ => 1
  }

  predicate IsBig(n: int)
  {
    n > UINT64_MAX || -1 - n > UINT64_MAX
  }

  function IntItems(n: int): nat
  {
    if IsBig(n) then 2 else 1
  }

  ghost function ItemsOf(items: seq<Value>): nat
    decreases items, 0
  {
    if items == [] then 0 else Items(items[0]) + ItemsOf(items[1..])
  }

  ghost function ItemsIn(v: Value, keys: seq<int>): nat
    requires v.Map? && forall k | k in keys :: k in v.m
    decreases v, 0, |keys|
  {
    if keys == [] then 0 else IntItems(keys[0]) + Items(v.m[keys[0]]) + ItemsIn(v, keys[1..])
  }

  predicate IntDepthFits(n: int, depth: nat, lim: Limits)
  {
    depth <= lim.depth && (IsBig(n) ==> depth < lim.depth)
  }

  /** Nesting as the decoder counts it, starting at depth. */
  ghost predicate DepthFits(v: Value, depth: nat, lim: Limits)
  {
    depth <= lim.depth &&
    match v
    case Int(n) => IntDepthFits(n, depth, lim)
    case List(items) => forall x | x in items :: DepthFits(x, depth + 1, lim)
    case Map(m) => forall k | k in m :: IntDepthFits(k, depth + 1, lim) && DepthFits(m[k], depth + 1, lim)
    case _ => true
  }

  /** Exactly the values a decoder with these limits can return. */
  ghost predicate Decodable(v: Value, lim: Limits)
  {
    TextsValid(v) && DepthFits(v, 0, lim) && Items(v) <= lim.items && |Enc(v)| <= lim.length
  }

  // ------------------------------------------------------- integer encoding

  lemma {:induction false} FromBigEndianInverse(n: nat, width: nat)
    requires n < Pow256(width)
    ensures FromBigEndian(BigEndian(n, width)) == n
  {
    if width > 0 {
      FromBigEndianInverse(n / 256, width - 1);
      var s := BigEndian(n, width);
      assert s[..|s| - 1] == BigEndian(n / 256, width - 1);
    }
  }

  lemma {:induction false} MagnitudeInverse(n: nat)
    ensures FromBigEndian(Magnitude(n)) == n
  {
    if n > 0 {
      MagnitudeInverse(n / 256);
      var s := Magnitude(n);
      assert s[..|s| - 1] == Magnitude(n / 256);
    }
  }

  lemma Widths()
    ensures Pow256(1) == 0x100 && Pow256(2) == 0x1_0000
    ensures Pow256(4) == 0x1_0000_0000 && Pow256(8) == 0x1_0000_0000_0000_0000
  {
    assert Pow256(3) == 256 * Pow256(2);
    assert Pow256(5) == 256 * Pow256(4);
    assert Pow256(6) == 256 * Pow256(5);
    assert Pow256(7) == 256 * Pow256(6);
  }

  /** Reading a head back gives its argument and leaves what followed. */
  lemma HeadInverse(major: nat, argument: nat, rest: Bytes)
    requires major < 8 && argument <= UINT64_MAX
    ensures var s := Head(major, argument) + rest;
            s[0] / 32 == major && ParseArgument(s[0] % 32, s[1..]) == Ok(argument, rest, 0)
  {
    Widths();
    if argument >= 24 {
      var width := if argument <= 0xff then 1 else if argument <= 0xffff then 2 else if argument <= 0xffff_ffff then 4
        else 8;
      var h := Head(major, argument);
      FromBigEndianInverse(argument, width);
      assert (h + rest)[1..][..width] == BigEndian(argument, width);
      assert (h + rest)[1..][width..] == rest;
    } else {
      assert ([major * 32 + argument] + rest)[1..] == rest;
    }
  }

  lemma EncIntInjective(a: int, b: int)
    requires EncInt(a) == EncInt(b)
    ensures a == b
  {
    var s := EncInt(a);
    var x, y := if a >= 0 then a else -1 - a, if b >= 0 then b else -1 - b;
    if x <= UINT64_MAX { HeadInverse(if a >= 0 then 0 else 1, x, []); assert s + [] == s; }
    if y <= UINT64_MAX { HeadInverse(if b >= 0 then 0 else 1, y, []); assert s + [] == s; }
    if x > UINT64_MAX && y > UINT64_MAX {
      BytesFormSuffix(Magnitude(x), Magnitude(y));
      MagnitudeInverse(x);
      MagnitudeInverse(y);
      assert s[1..] == BytesForm(2, Magnitude(x)) == BytesForm(2, Magnitude(y));
    }
  }

  /** Even when a length wraps at eight bytes, equal byte-string forms hold equal strings. */
  lemma BytesFormSuffix(p: Bytes, q: Bytes)
    ensures BytesForm(2, p) == BytesForm(2, q) ==> p == q
  {
    if BytesForm(2, p) == BytesForm(2, q) {
      var s := BytesForm(2, p);
      var hp, hq := Head(2, |p|), Head(2, |q|);
      assert s[0] == hp[0] == hq[0];
      assert |hp| == |hq|;
      assert p == s[|hp|..] && q == s[|hq|..];
    }
  }

  lemma KeyLessTotal(a: int, b: int)
    requires a != b
    ensures KeyLess(a, b) || KeyLess(b, a)
  {
    ShortLexOrder(EncInt(a), EncInt(b), []);
    if EncInt(a) == EncInt(b) { EncIntInjective(a, b); }
  }
}
