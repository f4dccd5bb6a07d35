/** The shared byte orders and text check, by what they mean and not by how they are computed. */
module TextStandard {
  import opened Prelude

  // -------------------------------------------------------------------- order

  /** The first place where two strings differ decides; a proper prefix comes first. */
  ghost predicate Precedes(a: Bytes, b: Bytes)
  {
    || (exists p | 0 <= p < |a| && p < |b| :: a[..p] == b[..p] && a[p] < b[p])
    || (|a| < |b| && a == b[..|a|])
  }

  lemma {:induction false} LexLessMeans(a: Bytes, b: Bytes)
    ensures LexLess(a, b) <==> Precedes(a, b)
  {
    if a != [] && b != [] {
      LexLessMeans(a[1..], b[1..]);
      if a[0] < b[0] {
        assert a[..0] == b[..0];
      } else if a[0] == b[0] {
        if Precedes(a[1..], b[1..]) { PrecedesLonger(a, b); }
        if Precedes(a, b) { PrecedesShorter(a, b); }
      } else if Precedes(a, b) {
        DiffersFirst(a, b);
      }
    }
  }

  lemma DiffersFirst(a: Bytes, b: Bytes)
    requires a != [] && b != [] && Precedes(a, b)
    ensures a[0] <= b[0]
  {
    if |a| < |b| && a == b[..|a|] {
      assert a[0] == b[..|a|][0];
    } else {
      var p :| 0 <= p < |a| && p < |b| && a[..p] == b[..p] && a[p] < b[p];
      if p > 0 { assert a[..p][0] == b[..p][0]; }
    }
  }

  lemma PrecedesLonger(a: Bytes, b: Bytes)
    requires a != [] && b != [] && a[0] == b[0] && Precedes(a[1..], b[1..])
    ensures Precedes(a, b)
  {
    var x, y := a[1..], b[1..];
    assert a == [a[0]] + x && b == [b[0]] + y;
    if |x| < |y| && x == y[..|x|] {
      assert b[..|a|] == [b[0]] + y[..|x|];
    } else {
      var p :| 0 <= p < |x| && p < |y| && x[..p] == y[..p] && x[p] < y[p];
      assert a[..p + 1] == [a[0]] + x[..p] && b[..p + 1] == [b[0]] + y[..p];
      assert a[p + 1] < b[p + 1];
    }
  }

  lemma PrecedesShorter(a: Bytes, b: Bytes)
    requires a != [] && b != [] && a[0] == b[0] && Precedes(a, b)
    ensures Precedes(a[1..], b[1..])
  {
    var x, y := a[1..], b[1..];
    if |a| < |b| && a == b[..|a|] {
      assert y[..|x|] == b[..|a|][1..] == x;
    } else {
      var p :| 0 <= p < |a| && p < |b| && a[..p] == b[..p] && a[p] < b[p];
      assert x[..p - 1] == a[..p][1..] && y[..p - 1] == b[..p][1..];
      assert x[p - 1] < y[p - 1];
    }
  }

  // --------------------------------------------------------------------- text

  /** A Unicode scalar value: a code point that is not a surrogate. */
  predicate Scalar(u: nat)
  {
    u < 0xd800 || 0xe000 <= u < 0x11_0000
  }

  /** Section 3 of RFC 3629. */
  function EncodeScalar(u: nat): Bytes
    requires Scalar(u)
  {
    if u < 0x80 then [u]
    else if u < 0x800 then [0xc0 + u / 0x40, 0x80 + u % 0x40]
    else if u < 0x1_0000 then [0xe0 + u / 0x1000, 0x80 + u / 0x40 % 0x40, 0x80 + u % 0x40]
    else [0xf0 + u / 0x4_0000, 0x80 + u / 0x1000 % 0x40, 0x80 + u / 0x40 % 0x40, 0x80 + u % 0x40]
  }

  predicate Scalars(us: seq<nat>)
  {
    forall i | 0 <= i < |us| :: Scalar(us[i])
  }

  function EncodeText(us: seq<nat>): Bytes
    requires Scalars(us)
  {
    if us == [] then [] else EncodeScalar(us[0]) + EncodeText(us[1..])
  }

  lemma ScalarFirst(u: nat, rest: Bytes)
    requires Scalar(u)
    ensures var s := EncodeScalar(u) + rest; s != [] && Utf8SequenceLength(s) == |EncodeScalar(u)|
    ensures (EncodeScalar(u) + rest)[|EncodeScalar(u)|..] == rest
  {
    if u >= 0x1_0000 { LongFirst(u); } else if u >= 0x800 { MiddleFirst(u); }
  }

  /** The second byte is where overlong forms and surrogates are told. */
  lemma MiddleFirst(u: nat)
    requires Scalar(u) && 0x800 <= u < 0x1_0000
    ensures 0 <= u / 0x1000 < 16 && (u / 0x1000 == 0 ==> u / 0x40 % 0x40 >= 0x20)
    ensures u / 0x1000 == 13 ==> u / 0x40 % 0x40 < 0x20
  {
  }

  lemma LongFirst(u: nat)
    requires 0x1_0000 <= u < 0x11_0000
    ensures 0 <= u / 0x4_0000 <= 4 && (u / 0x4_0000 == 0 ==> u / 0x1000 % 0x40 >= 0x10)
    ensures u / 0x4_0000 == 4 ==> u / 0x1000 % 0x40 < 0x10
  {
  }

  lemma {:induction false} TextIsValid(us: seq<nat>)
    requires Scalars(us)
    ensures Utf8Valid(EncodeText(us))
  {
    if us != [] {
      TextIsValid(us[1..]);
      ScalarFirst(us[0], EncodeText(us[1..]));
    }
  }

  /** The six-bit digits of a code point. */
  function Joined(a: int, b: int, c: int, d: int): int
  {
    ((a * 0x40 + b) * 0x40 + c) * 0x40 + d
  }

  lemma JoinedDigits(a: nat, b: nat, c: nat, d: nat)
    requires b < 0x40 && c < 0x40 && d < 0x40
    ensures var u := Joined(a, b, c, d);
            u / 0x4_0000 == a && u / 0x1000 % 0x40 == b && u / 0x40 % 0x40 == c && u % 0x40 == d
    ensures a == 0 ==> Joined(a, b, c, d) / 0x1000 == b
    ensures a == b == 0 ==> Joined(a, b, c, d) / 0x40 == c
  {
    var u := Joined(a, b, c, d);
    assert u / 0x40 == (a * 0x40 + b) * 0x40 + c;
    assert u / 0x1000 == a * 0x40 + b;
  }

  /** The scalar value a well-formed sequence stands for. */
  function DecodeScalar(s: Bytes): int
    requires s != [] && 0 < Utf8SequenceLength(s) <= |s|
  {
    match Utf8SequenceLength(s)
    case 1 => s[0]
    case 2 => Joined(0, 0, s[0] - 0xc0, s[1] - 0x80)
    case 3 => Joined(0, s[0] - 0xe0, s[1] - 0x80, s[2] - 0x80)
    case _ => Joined(s[0] - 0xf0, s[1] - 0x80, s[2] - 0x80, s[3] - 0x80)
  }

  lemma DecodedScalar(s: Bytes)
    requires s != [] && 0 < Utf8SequenceLength(s) <= |s|
    ensures DecodeScalar(s) >= 0 && Scalar(DecodeScalar(s))
    ensures EncodeScalar(DecodeScalar(s)) == s[..Utf8SequenceLength(s)]
  {
    match Utf8SequenceLength(s)
    case 1 =>
    case 2 => DecodedTwo(s);
    case 3 => DecodedThree(s);
    case _ => DecodedFour(s);
  }

  lemma DecodedTwo(s: Bytes)
    requires s != [] && Utf8SequenceLength(s) == 2 <= |s|
    ensures DecodeScalar(s) >= 0 && Scalar(DecodeScalar(s)) && EncodeScalar(DecodeScalar(s)) == s[..2]
  {
    JoinedDigits(0, 0, s[0] - 0xc0, s[1] - 0x80);
    assert s[..2] == [s[0], s[1]];
  }

  lemma DecodedThree(s: Bytes)
    requires s != [] && Utf8SequenceLength(s) == 3 <= |s|
    ensures DecodeScalar(s) >= 0 && Scalar(DecodeScalar(s)) && EncodeScalar(DecodeScalar(s)) == s[..3]
  {
    JoinedDigits(0, s[0] - 0xe0, s[1] - 0x80, s[2] - 0x80);
    assert s[..3] == [s[0], s[1], s[2]];
  }

  lemma DecodedFour(s: Bytes)
    requires s != [] && Utf8SequenceLength(s) == 4 <= |s|
    ensures DecodeScalar(s) >= 0 && Scalar(DecodeScalar(s)) && EncodeScalar(DecodeScalar(s)) == s[..4]
  {
    JoinedDigits(s[0] - 0xf0, s[1] - 0x80, s[2] - 0x80, s[3] - 0x80);
    assert s[..4] == [s[0], s[1], s[2], s[3]];
  }

  lemma {:induction false} ValidIsText(s: Bytes) returns (us: seq<nat>)
    requires Utf8Valid(s)
    ensures Scalars(us) && EncodeText(us) == s
    decreases |s|
  {
    us := [];
    if s != [] {
      var n := Utf8SequenceLength(s);
      DecodedScalar(s);
      var rest := ValidIsText(s[n..]);
      us := [DecodeScalar(s)] + rest;
      assert us[1..] == rest && s == s[..n] + s[n..];
    }
  }

  /** The text check accepts exactly the encodings of sequences of scalar values. */
  lemma Utf8Exactly(s: Bytes)
    ensures Utf8Valid(s) <==> exists us :: Scalars(us) && EncodeText(us) == s
  {
    if Utf8Valid(s) { var us := ValidIsText(s); }
    forall us | Scalars(us) && EncodeText(us) == s ensures Utf8Valid(s) { TextIsValid(us); }
  }
}
