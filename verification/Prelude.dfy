/** Shared vocabulary: options, bytes, and the unsigned byte orders both wallets use. */
module Prelude {

  datatype Option<+T> = None | Some(value: T)
  {
    predicate IsFailure() { None? }

    function PropagateFailure<U>(): Option<U>
      requires None?
    {
      None
    }

    function Extract(): T
      requires Some?
    {
      value
    }
  }

  ghost function AnyOf<T>(s: set<T>): (x: T)
    requires s != {}
    ensures x in s
  {
    var x :| x in s; x
  }

  type Byte = b: int | 0 <= b < 256

  type Bytes = seq<Byte>

  /** Unsigned lexicographic order; a proper prefix comes first. */
  predicate LexLess(a: Bytes, b: Bytes)
  {
    if b == [] then false
    else if a == [] then true
    else a[0] < b[0] || (a[0] == b[0] && LexLess(a[1..], b[1..]))
  }

  /** Length-first order of section 4.2.3 of RFC 8949. */
  predicate ShortLexLess(a: Bytes, b: Bytes)
  {
    |a| < |b| || (|a| == |b| && LexLess(a, b))
  }

  lemma {:induction false} LexIrreflexive(a: Bytes)
    ensures !LexLess(a, a)
  {
    if a != [] { LexIrreflexive(a[1..]); }
  }

  lemma {:induction false} LexTransitive(a: Bytes, b: Bytes, c: Bytes)
    requires LexLess(a, b) && LexLess(b, c)
    ensures LexLess(a, c)
  {
    if a != [] && a[0] == b[0] && b[0] == c[0] { LexTransitive(a[1..], b[1..], c[1..]); }
  }

  lemma {:induction false} LexTotal(a: Bytes, b: Bytes)
    ensures a == b || LexLess(a, b) || LexLess(b, a)
  {
    if a != [] && b != [] && a[0] == b[0] {
      LexTotal(a[1..], b[1..]);
      assert a == [a[0]] + a[1..] && b == [b[0]] + b[1..];
    }
  }

  lemma ShortLexOrder(a: Bytes, b: Bytes, c: Bytes)
    ensures !ShortLexLess(a, a)
    ensures ShortLexLess(a, b) && ShortLexLess(b, c) ==> ShortLexLess(a, c)
    ensures a == b || ShortLexLess(a, b) || ShortLexLess(b, a)
  {
    LexIrreflexive(a);
    LexTotal(a, b);
    if LexLess(a, b) && LexLess(b, c) { LexTransitive(a, b, c); }
  }

  /** Two orders are never both true, so neither direction can be mistaken for the other. */
  lemma LexAsymmetric(a: Bytes, b: Bytes)
    requires LexLess(a, b)
    ensures !LexLess(b, a) && a != b
  {
    LexIrreflexive(a);
    if LexLess(b, a) { LexTransitive(a, b, a); }
  }

  /** Well-formed UTF-8 as section 4 of RFC 3629 lists it: no overlong form, no surrogate. */
  predicate Utf8Valid(s: Bytes)
  {
    s == [] || (
      var n := Utf8SequenceLength(s);
      0 < n <= |s| && Utf8Valid(s[n..]))
  }

  /** Length of the well-formed sequence s starts with, or 0. */
  function Utf8SequenceLength(s: Bytes): nat
    requires s != []
  {
    var a := s[0];
    if a < 0x80 then 1
    else if 0xc2 <= a < 0xe0 then if Tail(s, 1, 0x80, 0xbf) then 2 else 0
    else if 0xe0 <= a < 0xf0 then
      if (if a == 0xe0 then Tail(s, 1, 0xa0, 0xbf) else if a == 0xed then Tail(s, 1, 0x80, 0x9f)
        else Tail(s, 1, 0x80, 0xbf))
         && Tail(s, 2, 0x80, 0xbf) then 3 else 0
    else if 0xf0 <= a < 0xf5 then
      if (if a == 0xf0 then Tail(s, 1, 0x90, 0xbf) else if a == 0xf4 then Tail(s, 1, 0x80, 0x8f)
        else Tail(s, 1, 0x80, 0xbf))
         && Tail(s, 2, 0x80, 0xbf) && Tail(s, 3, 0x80, 0xbf) then 4 else 0
    else 0
  }

  predicate Tail(s: Bytes, i: nat, low: int, high: int)
  {
    i < |s| && low <= s[i] <= high
  }

  // ---------------------------------------------------- collecting in a loop

  /** What a walk returns once the elements in done are in front of it. */
  ghost function After<T>(done: seq<T>, rest: Option<seq<T>>): Option<seq<T>>
  {
    if rest.Some? then Some(done + rest.value) else None
  }

  lemma AfterNothing<T>(rest: Option<seq<T>>)
    ensures After([], rest) == rest
  {
    if rest.Some? { assert [] + rest.value == rest.value; }
  }

  lemma AfterStep<T>(done: seq<T>, x: T, rest: Option<seq<T>>)
    ensures After(done + [x], rest) == After(done, if rest.Some? then Some([x] + rest.value) else None)
  {
    if rest.Some? { assert done + [x] + rest.value == done + ([x] + rest.value); }
  }

  lemma AfterEnds<T>(done: seq<T>, last: seq<T>)
    ensures After(done, None) == None && After(done, Some(last)) == Some(done + last)
  {
  }
}
