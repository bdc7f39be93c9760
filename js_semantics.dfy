/**
 * The small part of JavaScript's runtime semantics that the category code leans on:
 * optional values, truthiness of strings, `Math.max`, `Array.prototype.slice` with its
 * negative-index rule, and the decimal rendering of integers used to build store keys.
 */
module JsSemantics {

  /** `undefined`/`null` versus a present value. */
  datatype Option<+T> = None | Some(value: T)

  /** The JavaScript values the category code handles: `undefined`, `null`, strings and
      integers. */
  datatype Value = Undefined | Null | Str(s: string) | Num(n: int)

  /** JavaScript truthiness: `undefined`, `null`, the empty string and 0 are falsy. */
  predicate Truthy(v: Value)
  {
    match v
    case Undefined => false
    case Null => false
    case Str(s) => s != ""
    case Num(n) => n != 0
  }

  /** An optional string as a JavaScript value; an absent one is `undefined`. */
  function StringValue(o: Option<string>): Value
  {
    if o.Some? then Str(o.value) else Undefined
  }

  /** Truthiness of an optional string. */
  predicate TruthyString(o: Option<string>)
  {
    Truthy(StringValue(o))
  }

  function Max(a: int, b: int): (r: int)
    ensures r >= a && r >= b
    ensures r == a || r == b
  {
    if a >= b then a else b
  }

  function Min(a: int, b: int): (r: int)
    ensures r <= a && r <= b
    ensures r == a || r == b
  {
    if a <= b then a else b
  }

  /** No element occurs twice. */
  predicate Distinct<T(==)>(s: seq<T>)
  {
    forall i, j :: 0 <= i < j < |s| ==> s[i] != s[j]
  }

  /** Index normalisation of `slice`: a negative index counts back from the end; the
      result is clamped to `[0, len]`. */
  function SliceIndex(i: int, len: nat): (r: nat)
    ensures r <= len
  {
    if i < 0 then Max(0, len + i) else Min(i, len)
  }

  /** The end bound of `slice`: an omitted end means the length. */
  function SliceEnd(end: Option<int>, len: nat): (r: nat)
    ensures r <= len
  {
    if end.None? then len else SliceIndex(end.value, len)
  }

  /** `s.slice(begin, end)`. */
  function Slice<T>(s: seq<T>, begin: int, end: Option<int>): (r: seq<T>)
    ensures |r| == Max(0, SliceEnd(end, |s|) - SliceIndex(begin, |s|))
    ensures forall k :: 0 <= k < |r| ==> r[k] == s[SliceIndex(begin, |s|) + k]
  {
    var b, e := SliceIndex(begin, |s|), SliceEnd(end, |s|);
    if b < e then s[b..e] else []
  }

  /** The sequence read back to front. */
  function Reversed<T>(s: seq<T>): (r: seq<T>)
    ensures |r| == |s|
    ensures forall k :: 0 <= k < |s| ==> r[k] == s[|s| - 1 - k]
  {
    if s == [] then [] else Reversed(s[1..]) + [s[0]]
  }

  /** Reversal keeps the elements and keeps a duplicate-free sequence duplicate-free. */
  lemma ReversedDistinct<T>(s: seq<T>)
    ensures Distinct(s) ==> Distinct(Reversed(s))
    ensures forall x :: x in Reversed(s) <==> x in s
  {
    var r := Reversed(s);
    forall x | x in s ensures x in r {
      var k :| 0 <= k < |s| && s[k] == x;
      assert r[|s| - 1 - k] == x;
    }
  }

  predicate IsDigit(c: char)
  {
    '0' <= c <= '9'
  }

  predicate AllDigits(s: string)
  {
    forall i :: 0 <= i < |s| ==> IsDigit(s[i])
  }

  function DigitChar(d: nat): (c: char)
    requires d < 10
    ensures IsDigit(c)
  {
    (d + 48) as char
  }

  /** Decimal rendering of a natural number, as `'' + n` produces it. */
  function NatToString(n: nat): (r: string)
    ensures |r| >= 1
    ensures AllDigits(r)
    ensures n >= 10 ==> |r| >= 2
  {
    if n < 10 then [DigitChar(n)] else NatToString(n / 10) + [DigitChar(n % 10)]
  }

  /** Decimal rendering of an integer: a leading `-` for negative numbers. */
  function IntToString(i: int): (r: string)
    ensures |r| >= 1
    ensures (r[0] == '-') <==> i < 0
  {
    if i < 0 then "-" + NatToString(-i) else NatToString(i)
  }

  /** Distinct numbers render to distinct strings. */
  lemma {:induction false} NatToStringInjective(a: nat, b: nat)
    requires NatToString(a) == NatToString(b)
    ensures a == b
  {
    var sa, sb := NatToString(a), NatToString(b);
    if a < 10 && b < 10 {
      assert (a + 48) as char == sa[0] == sb[0] == (b + 48) as char;
    } else if a >= 10 && b >= 10 {
      var pa, pb := NatToString(a / 10), NatToString(b / 10);
      assert sa == pa + [DigitChar(a % 10)] && sb == pb + [DigitChar(b % 10)];
      assert |pa| == |pb|;
      assert pa == sa[..|sa| - 1] == sb[..|sb| - 1] == pb;
      assert DigitChar(a % 10) == sa[|sa| - 1] == sb[|sb| - 1] == DigitChar(b % 10);
      NatToStringInjective(a / 10, b / 10);
    }
  }

  lemma IntToStringInjective(a: int, b: int)
    requires IntToString(a) == IntToString(b)
    ensures a == b
  {
    if a < 0 && b < 0 {
      assert NatToString(-a) == IntToString(a)[1..] == IntToString(b)[1..] == NatToString(-b);
      NatToStringInjective(-a, -b);
    } else if a >= 0 && b >= 0 {
      NatToStringInjective(a, b);
    }
  }

  /** `String(v)`: the text JavaScript renders a value as. */
  function ToJsString(v: Value): string
  {
    match v
    case Undefined => "undefined"
    case Null => "null"
    case Str(s) => s
    case Num(n) => IntToString(n)
  }

  /** `r` is `s` with some elements left out and the rest kept in their order. */
  predicate Subsequence<T(==)>(r: seq<T>, s: seq<T>)
    decreases |s|
  {
    if r == [] then true
    else if s == [] then false
    else (r[0] == s[0] && Subsequence(r[1..], s[1..])) || Subsequence(r, s[1..])
  }
}
