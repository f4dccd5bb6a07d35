/** The cursor-based decoder, and what decoding returns. */
module CborDecoder {
  import opened Prelude
  import opened CborSpec
  import opened CborProofs
  import opened CborWriter

  class Decoder {
    const bytes: Bytes
    var offset: nat
    var itemCount: nat

    ghost predicate Valid()
      reads this
    {
      offset <= |bytes|
    }

    function Remaining(): (s: Bytes)
      requires offset <= |bytes|
      reads this
    {
      bytes[offset..]
    }

    constructor (bytes: Bytes)
      ensures this.bytes == bytes && Valid() && offset == 0 && itemCount == 0
    {
      this.bytes := bytes;
      offset, itemCount := 0, 0;
    }

    method ReadBytes(length: nat) returns (r: Option<Bytes>)
      requires Valid()
      modifies this`offset
      ensures Valid()
      ensures r.Some? <==> length <= |old(Remaining())|
      ensures r.Some? ==> r.value == old(Remaining())[..length] && Remaining() == old(Remaining())[length..]
      ensures offset == old(offset) + if r.Some? then length else 0
    {
      if length > |bytes| - offset { return None; }
      r := Some(bytes[offset..offset + length]);
      offset := offset + length;
    }

    method ReadArgument(additional: nat) returns (r: Option<nat>)
      requires Valid()
      modifies this`offset
      ensures Valid() && offset >= old(offset)
      ensures var p := ParseArgument(additional, old(Remaining()));
              (r.Some? <==> p.Ok?) && (p.Ok? ==> r.value == p.value && Remaining() == p.rest)
    {
      if additional < 24 { return Some(additional); }
      if additional > 27 { return None; }
      var width := if additional == 24 then 1 else if additional == 25 then 2 else if additional == 26 then 4 else 8;
      var b := ReadBytes(width);
      if b.None? { return None; }
      r := Some(FromBigEndian(b.value));
    }

    method ReadLength(additional: nat) returns (r: Option<nat>)
      requires Valid()
      modifies this`offset
      ensures Valid() && offset >= old(offset)
      ensures var p := ParseArgument(additional, old(Remaining()));
              (r.Some? <==> p.Ok? && p.value <= MAX_ENCODED_BYTES)
                && (r.Some? ==> r.value == p.value && Remaining() == p.rest)
    {
      r := ReadArgument(additional);
      if r.Some? && r.value > MAX_ENCODED_BYTES { r := None; }
    }

    method ReadString(additional: nat) returns (r: Option<Bytes>)
      requires Valid()
      modifies this`offset
      ensures Valid() && offset >= old(offset)
      ensures var p := ParseBytes(additional, old(Remaining()), KOTLIN);
              (r.Some? <==> p.Ok?) && (p.Ok? ==> r.value == p.value && Remaining() == p.rest)
    {
      var length := ReadLength(additional);
      if length.None? { return None; }
      r := ReadBytes(length.value);
    }

    /** Follows the grammar from the cursor, or fails where the grammar does. */
    ghost predicate Follows<T>(p: Parsed<T>, r: Option<T>)
      requires Valid()
      reads this
    {
      (r.Some? <==> p.Ok?) && (p.Ok? ==> r.value == p.value && Remaining() == p.rest && itemCount == p.count)
    }

    method ReadValue(depth: nat) returns (r: Option<Value>)
      requires Valid()
      modifies this
      ensures Valid() && offset >= old(offset)
      ensures Follows(ParseValue(old(Remaining()), depth, old(itemCount), KOTLIN), r)
      ensures r.Some? ==> offset > old(offset)
      decreases |bytes| - offset, 0
    {
      itemCount := itemCount + 1;
      if depth > MAX_DEPTH || itemCount > MAX_ITEMS { return None; }
      if offset >= |bytes| { return None; }
      var initial := bytes[offset];
      offset := offset + 1;
      assert Remaining() == old(Remaining())[1..];
      r := ReadBody(initial / 32, initial % 32, depth);
    }

    method ReadBody(major: nat, additional: nat, depth: nat) returns (r: Option<Value>)
      requires Valid() && offset > 0
      modifies this
      ensures Valid() && offset >= old(offset)
      ensures Follows(ParseBody(major, additional, old(Remaining()), depth, old(itemCount), KOTLIN), r)
      decreases |bytes| - offset, 2
    {
      hide ParseValue, ParseItems, ParseEntries, ParseArgument, ParseBytes;
      match major
      case 0 =>
        var a := ReadArgument(additional);
        r := if a.Some? then Some(Int(a.value)) else None;
      case 1 =>
        var a := ReadArgument(additional);
        r := if a.Some? then Some(Int(-1 - (a.value as int))) else None;
      case 2 =>
        var b := ReadString(additional);
        r := if b.Some? then Some(Bstr(b.value)) else None;
      case 3 =>
        var b := ReadString(additional);
        r := if b.Some? && Utf8Valid(b.value) then Some(Text(b.value)) else None;
      case 4 =>
        var size := ReadLength(additional);
        if size.None? { return None; }
        var items := ReadItems(size.value, depth + 1);
        r := if items.Some? then Some(List(items.value)) else None;
      case 5 =>
        var size := ReadLength(additional);
        if size.None? { return None; }
        var values := ReadEntries(size.value, depth + 1);
        r := if values.Some? then Some(Map(values.value)) else None;
      case 6 => r := ReadBigNumber(additional, depth);
      case _ =>
        r := if additional == 20 then Some(Bool(false)) else if additional == 21 then Some(Bool(true))
             else if additional == 22 then Some(Null) else None;
    }

    method ReadBigNumber(additional: nat, depth: nat) returns (r: Option<Value>)
      requires Valid()
      modifies this
      ensures Valid() && offset >= old(offset)
      ensures Follows(ParseBody(6, additional, old(Remaining()), depth, old(itemCount), KOTLIN), r)
      decreases |bytes| - offset, 1
    {
      hide ParseValue, ParseItems, ParseEntries, ParseArgument, ParseBytes;
      var tag := ReadArgument(additional);
      if tag.None? || (tag.value != 2 && tag.value != 3) { return None; }
      var body := ReadValue(depth + 1);
      if body.None? || !body.value.Bstr? { return None; }
      var n := BigNumber(tag.value, body.value.bytes);
      r := if n.Some? then Some(Int(n.value)) else None;
    }

    method ReadItems(size: nat, depth: nat) returns (r: Option<seq<Value>>)
      requires Valid()
      modifies this
      ensures Valid() && offset >= old(offset)
      ensures Follows(ParseItems(size, old(Remaining()), depth, old(itemCount), KOTLIN), r)
      decreases |bytes| - offset, 1
    {
      hide ParseValue;
      var items: seq<Value> := [];
      var i := 0;
      ghost var whole := ParseItems(size, Remaining(), depth, itemCount, KOTLIN);
      PrependNothing(whole);
      while i < size
        invariant 0 <= i <= size && Valid() && offset >= old(offset)
        invariant whole == Prepend(items, ParseItems(size - i, Remaining(), depth, itemCount, KOTLIN))
      {
        var x := ReadValue(depth);
        if x.None? { return None; }
        PrependStep(items, x.value, ParseItems(size - i - 1, Remaining(), depth, itemCount, KOTLIN));
        items := items + [x.value];
        i := i + 1;
      }
      r := Some(items);
      assert items + [] == items;
    }

    method ReadEntries(size: nat, depth: nat) returns (r: Option<map<int, Value>>)
      requires Valid()
      modifies this
      ensures Valid() && offset >= old(offset)
      ensures Follows(ParseEntries(size, old(Remaining()), depth, old(itemCount), map[], KOTLIN), r)
      decreases |bytes| - offset, 1
    {
      hide ParseValue;
      var values: map<int, Value> := map[];
      var i := 0;
      while i < size
        invariant 0 <= i <= size && Valid() && offset >= old(offset)
        invariant ParseEntries(size, old(Remaining()), depth, old(itemCount), map[], KOTLIN)
               == ParseEntries(size - i, Remaining(), depth, itemCount, values, KOTLIN)
      {
        var key := ReadValue(depth);
        if key.None? || !key.value.Int? || key.value.n in values { return None; }
        var value := ReadValue(depth);
        if value.None? { return None; }
        values := values[key.value.n := value.value];
        i := i + 1;
      }
      r := Some(values);
    }
  }

  ghost function Prepend(done: seq<Value>, p: Parsed<seq<Value>>): Parsed<seq<Value>>
  {
    if p.Bad? then Bad else Ok(done + p.value, p.rest, p.count)
  }

  lemma PrependNothing(p: Parsed<seq<Value>>)
    ensures Prepend([], p) == p
  {
    if p.Ok? { assert [] + p.value == p.value; }
  }

  lemma PrependStep(done: seq<Value>, x: Value, p: Parsed<seq<Value>>)
    ensures Prepend(done, Prepend([x], p)) == Prepend(done + [x], p)
  {
    if p.Ok? { assert done + ([x] + p.value) == done + [x] + p.value; }
  }

  /** What decoding these bytes returns, if anything. */
  ghost predicate Decodes(bytes: Bytes, v: Value)
  {
    Decodable(v, KOTLIN) && Enc(v) == bytes
  }

  ghost function Decoded(bytes: Bytes): (r: Option<Value>)
    ensures forall v :: r == Some(v) <==> Decodes(bytes, v)
  {
    if exists v :: Decodes(bytes, v) then
      var v :| Decodes(bytes, v);
      DecodesUnique(bytes, v);
      Some(v)
    else None
  }

  lemma DecodesUnique(bytes: Bytes, v: Value)
    requires Decodes(bytes, v)
    ensures forall w :: Decodes(bytes, w) ==> w == v
  {
    forall w | Decodes(bytes, w) ensures w == v { EncInjective(v, w); }
  }

  /**
   * Succeeds exactly on the encodings of values within the limits, and returns that value;
   * so decoding inverts encoding and no two byte strings decode to the same value.
   */
  method DecodeCanonical(bytes: Bytes) returns (r: Option<Value>)
    ensures r == Decoded(bytes)
    ensures forall v :: r == Some(v) <==> Decodes(bytes, v)
  {
    hide Enc, ParseValue, TextsValid, DepthFits, Items, Writable;
    if bytes == [] || |bytes| > MAX_ENCODED_BYTES { return None; }
    var decoder := new Decoder(bytes);
    r := decoder.ReadValue(0);
    DecodingIsExact(bytes);
    if r.None? { return; }
    if decoder.offset != |bytes| { return None; }
    var canonical := EncodeCanonical(r.value);
    if canonical != Some(bytes) { r := None; }
  }

  /** Decoding an encoding gives the value back exactly when it is within the decoder's limits. */
  lemma RoundTrip(v: Value)
    requires TextsValid(v)
    ensures Decoded(Enc(v)) == if Decodable(v, KOTLIN) then Some(v) else None
  {
    hide Enc, TextsValid, DepthFits, Items;
    var r := Decoded(Enc(v));
    if r.Some? {
      assert Decodes(Enc(v), r.value);
      EncInjective(v, r.value);
    } else if Decodable(v, KOTLIN) {
      assert Decodes(Enc(v), v);
    }
  }

  /** The grammar alone, before the re-encoding check: it finds every encoded value. */
  lemma DecodingIsExact(bytes: Bytes)
    requires |bytes| <= MAX_ENCODED_BYTES
    ensures forall v :: Decodes(bytes, v) ==> ParseValue(bytes, 0, 0, KOTLIN) == Ok(v, [], Items(v)) && Writable(v, 0)
    ensures forall v :: TextsValid(v) && Enc(v) == bytes && ParseValue(bytes, 0, 0, KOTLIN).Ok? ==> Decodes(bytes, v)
    ensures forall v :: Writable(v, 0) ==> TextsValid(v)
  {
    hide Enc, ParseValue, TextsValid, DepthFits, Items, Writable;
    forall v | Decodes(bytes, v)
      ensures ParseValue(bytes, 0, 0, KOTLIN) == Ok(v, [], Items(v)) && Writable(v, 0)
    {
      DecodeAfterEncode(v, KOTLIN);
      DecodableIsWritable(v, 0);
    }
    forall v | TextsValid(v) && Enc(v) == bytes && ParseValue(bytes, 0, 0, KOTLIN).Ok?
      ensures Decodes(bytes, v)
    {
      DecodeAfterEncode(v, KOTLIN);
    }
    forall v | Writable(v, 0) ensures TextsValid(v) { WritableTexts(v, 0); }
  }

  lemma {:induction false} WritableTexts(v: Value, depth: nat)
    requires Writable(v, depth)
    ensures TextsValid(v)
    decreases v
  {
    match v
    case List(items) => forall x | x in items ensures TextsValid(x) { WritableTexts(x, depth + 1); }
    case Map(m) => forall k | k in m ensures TextsValid(m[k]) { WritableTexts(m[k], depth + 1); }
    case _ =>
  }
}
