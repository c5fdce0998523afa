/**
 * The JavaScript built-ins the screens rely on, with the semantics the
 * ECMAScript language specification gives them, restricted to the values
 * that occur here (integers, strings, arrays).
 */
module Js {
  import opened Wrappers

  // ---------------------------------------------------------------------
  // Arrays
  // ---------------------------------------------------------------------

  /** `Array.prototype.findIndex`: the first index whose element passes `p`, or -1. */
  function FindIndex<T>(s: seq<T>, p: T -> bool): (r: int)
    ensures -1 <= r < |s|
    ensures r == -1 <==> forall i :: 0 <= i < |s| ==> !p(s[i])
    ensures 0 <= r ==> p(s[r]) && forall j :: 0 <= j < r ==> !p(s[j])
  {
    if s == [] then -1
    else if p(s[0]) then 0
    else
      var k := FindIndex(s[1..], p);
      if k < 0 then -1 else k + 1
  }

  /** `Array.prototype.find`: the first element that passes `p`, if any. */
  function Find<T>(s: seq<T>, p: T -> bool): (r: Option<T>)
    ensures r.None? <==> forall i :: 0 <= i < |s| ==> !p(s[i])
    ensures r.Some? ==> exists i :: 0 <= i < |s| && s[i] == r.value && p(s[i]) && forall j :: 0 <= j < i ==> !p(s[j])
  {
    var k := FindIndex(s, p);
    if k < 0 then None else Some(s[k])
  }

  /** `r` is obtained from `s` by deleting elements, keeping the order of the rest. */
  ghost predicate IsSubsequence<T>(r: seq<T>, s: seq<T>)
    decreases |s|
  {
    if r == [] then true
    else if s == [] then false
    else (r[0] == s[0] && IsSubsequence(r[1..], s[1..])) || IsSubsequence(r, s[1..])
  }

  /** `Array.prototype.filter`: the elements that pass `p`, in their original order. */
  function Filter<T(!new)>(s: seq<T>, p: T -> bool): (r: seq<T>)
    ensures |r| <= |s|
    ensures forall i :: 0 <= i < |r| ==> r[i] in s && p(r[i])
    ensures forall i :: 0 <= i < |s| && p(s[i]) ==> s[i] in r
    ensures IsSubsequence(r, s)
    ensures forall x :: multiset(r)[x] == if p(x) then multiset(s)[x] else 0
  {
    if s == [] then []
    else
      var rest := Filter(s[1..], p);
      var r := if p(s[0]) then [s[0]] + rest else rest;
      FilterCountsStep(s, p, rest, r);
      assert p(s[0]) ==> r[1..] == rest;
      r
  }

  /** One step of `Filter`: the head is counted when it passes. */
  lemma FilterCountsStep<T(!new)>(s: seq<T>, p: T -> bool, rest: seq<T>, r: seq<T>)
    requires s != [] && r == if p(s[0]) then [s[0]] + rest else rest
    requires forall x :: multiset(rest)[x] == if p(x) then multiset(s[1..])[x] else 0
    ensures forall x :: multiset(r)[x] == if p(x) then multiset(s)[x] else 0
  {
    assert s == [s[0]] + s[1..];
    assert multiset(s) == multiset{s[0]} + multiset(s[1..]);
  }

  /**
   * `Array.prototype.slice(start, end)`: a negative bound counts from the
   * end, and both bounds are clipped to the array.
   */
  function Slice<T>(s: seq<T>, start: int, end: int): (r: seq<T>)
    ensures |r| <= |s|
    ensures 0 <= start <= end ==> r == s[Min(start, |s|)..Min(end, |s|)]
    ensures -|s| <= start < 0 && end >= |s| ==> r == s[|s| + start..]
    ensures start <= -|s| && end >= |s| ==> r == s
  {
    var from := RelativeIndex(start, |s|);
    var to := RelativeIndex(end, |s|);
    if from <= to then s[from..to] else []
  }

  /** How `slice` turns a bound into an index of an array of length `len`. */
  function RelativeIndex(k: int, len: nat): (r: nat)
    ensures r <= len
    ensures 0 <= k ==> r == Min(k, len)
    ensures -(len as int) <= k < 0 ==> r == len + k
    ensures k < -(len as int) ==> r == 0
  {
    if k < 0 then (if len + k < 0 then 0 else len + k)
    else if k < len then k else len
  }

  function Min(a: int, b: int): int {
    if a <= b then a else b
  }

  // ---------------------------------------------------------------------
  // Strings and numbers
  // ---------------------------------------------------------------------

  /** `String.prototype.startsWith`. */
  predicate StartsWith(s: string, prefix: string) {
    |prefix| <= |s| && s[..|prefix|] == prefix
  }

  /** The characters `parseInt` skips before a number (white space and line terminators). */
  predicate IsWhiteSpace(c: char) {
    c == '\t' || c == '\n' || c == '\U{B}' || c == '\U{C}' || c == '\r' || c == ' ' ||
    c == '\U{A0}' || c == '\U{1680}' || ('\U{2000}' <= c <= '\U{200A}') ||
    c == '\U{2028}' || c == '\U{2029}' || c == '\U{202F}' || c == '\U{205F}' ||
    c == '\U{3000}' || c == '\U{FEFF}'
  }

  /** `s` without its leading white space. */
  function TrimStart(s: string): (r: string)
    ensures |r| <= |s| && r == s[|s| - |r|..]
    ensures r == [] || !IsWhiteSpace(r[0])
  {
    if s != [] && IsWhiteSpace(s[0]) then TrimStart(s[1..]) else s
  }

  predicate IsDecimalDigit(c: char) {
    '0' <= c <= '9'
  }

  /** A digit of radix 10 or 16, in either case for the letters. */
  predicate IsDigitOf(c: char, radix: nat) {
    if radix == 16 then IsDecimalDigit(c) || 'a' <= c <= 'f' || 'A' <= c <= 'F'
    else IsDecimalDigit(c)
  }

  function DigitValue(c: char): (d: nat)
    requires IsDigitOf(c, 16)
    ensures d < 16
    ensures IsDecimalDigit(c) <==> d < 10
  {
    if IsDecimalDigit(c) then c as int - '0' as int
    else if 'a' <= c <= 'f' then c as int - 'a' as int + 10
    else c as int - 'A' as int + 10
  }

  /** Every character of `s` is a digit of the radix. */
  predicate AllDigits(s: string, radix: nat) {
    forall i :: 0 <= i < |s| ==> IsDigitOf(s[i], radix)
  }

  /** The length of the longest prefix of `s` made of digits of the radix. */
  function DigitPrefixLength(s: string, radix: nat): (n: nat)
    ensures n <= |s|
    ensures AllDigits(s[..n], radix)
    ensures n < |s| ==> !IsDigitOf(s[n], radix)
  {
    if s == [] || !IsDigitOf(s[0], radix) then 0
    else
      var n := 1 + DigitPrefixLength(s[1..], radix);
      assert forall i :: 1 <= i < n ==> s[..n][i] == s[1..][..n - 1][i - 1];
      n
  }

  /** The number a string of digits denotes in the radix (most significant first). */
  function Value(s: string, radix: nat): (v: nat)
    requires radix == 10 || radix == 16
    requires AllDigits(s, radix)
  {
    if s == [] then 0
    else Value(s[..|s| - 1], radix) * radix + DigitValue(s[|s| - 1])
  }

  /**
   * `parseInt(s)` with no radix argument; `None` stands for NaN. Leading
   * white space is skipped, one sign is accepted, a `0x`/`0X` prefix selects
   * radix 16, and the longest run of digits that follows is read.
   */
  function ParseInt(s: string): (r: Option<int>)
    ensures s == [] ==> r.None?
    ensures |s| > 0 && !IsWhiteSpace(s[0]) && s[0] != '-' && s[0] != '+' && !IsDecimalDigit(s[0]) ==> r.None?
  {
    ParseSigned(TrimStart(s))
  }

  /** `parseInt` after the white space: an optional sign, then the magnitude. */
  function ParseSigned(t: string): Option<int> {
    if |t| > 0 && t[0] == '-' then
      match ParseMagnitude(t[1..])
      case Some(v) => Some(-(v as int))
      case None => None
    else if |t| > 0 && t[0] == '+' then ParseMagnitude(t[1..])
    else ParseMagnitude(t)
  }

  /** `parseInt` after the sign: hexadecimal behind `0x`/`0X`, decimal otherwise. */
  function ParseMagnitude(u: string): Option<nat> {
    if |u| >= 2 && u[0] == '0' && (u[1] == 'x' || u[1] == 'X') then ParseDigits(u[2..], 16)
    else ParseDigits(u, 10)
  }

  /** The value of the longest run of digits at the start of `body`; `None` when there is none. */
  function ParseDigits(body: string, radix: nat): Option<nat>
    requires radix == 10 || radix == 16
  {
    var n := DigitPrefixLength(body, radix);
    if n == 0 then None else Some(Value(body[..n], radix))
  }

  /** `parseInt(s) || d`: NaN and 0 are both falsy, so either gives `d`. */
  function OrDefault(v: Option<int>, d: int): (r: int)
    ensures v.Some? && v.value != 0 ==> r == v.value
    ensures v.None? || v.value == 0 ==> r == d
  {
    if v.Some? && v.value != 0 then v.value else d
  }

  /** The digit character for `d` in lower case, as `Number.prototype.toString` writes it. */
  function DigitChar(d: nat): (c: char)
    requires d < 16
    ensures IsDigitOf(c, 16) && DigitValue(c) == d
    ensures d < 10 ==> IsDecimalDigit(c)
  {
    if d < 10 then ('0' as int + d) as char else ('a' as int + d - 10) as char
  }

  /** `String(n)` / `n.toString(radix)` for a natural number: no leading zeros. */
  function ToRadix(n: nat, radix: nat): (s: string)
    requires radix == 10 || radix == 16
    ensures |s| > 0 && AllDigits(s, radix)
    ensures Value(s, radix) == n
    ensures n < radix <==> |s| == 1
    ensures radix <= n < radix * radix ==> |s| == 2
    ensures n > 0 ==> s[0] != '0'
    decreases n
  {
    if n < radix then
      var s := [DigitChar(n)];
      assert s[..0] == [];
      s
    else
      var hi := ToRadix(n / radix, radix);
      var s := hi + [DigitChar(n % radix)];
      assert s[..|s| - 1] == hi;
      s
  }

  /** `n.toString(radix)` for an integer: a minus sign before the magnitude. */
  function IntToRadix(n: int, radix: nat): string
    requires radix == 10 || radix == 16
  {
    if n < 0 then "-" + ToRadix(-n, radix) else ToRadix(n, radix)
  }

  /** `String.prototype.padStart(length, fill)`. */
  function PadStart(s: string, length: nat, fill: char): (r: string)
    ensures |r| == if |s| < length then length else |s|
    ensures r[|r| - |s|..] == s
    ensures forall i :: 0 <= i < |r| - |s| ==> r[i] == fill
  {
    if |s| < length then seq(length - |s|, _ => fill) + s else s
  }

  /**
   * The digits of a decimal string are read back by `parseInt`: a string of
   * decimal digits parses to its value.
   */
  lemma ParseDecimal(s: string)
    requires |s| > 0 && AllDigits(s, 10)
    ensures ParseInt(s) == Some(Value(s, 10))
  {
    assert IsDigitOf(s[0], 10);
    DigitStartsNumber(s);
    assert ParseSigned(s) == ParseMagnitude(s);
    DecimalMagnitude(s);
    AllDigitsPrefix(s, 10);
    assert s[..|s|] == s;
  }

  /** A string starting with a digit has no white space to skip. */
  lemma DigitStartsNumber(s: string)
    requires |s| > 0 && IsDecimalDigit(s[0])
    ensures TrimStart(s) == s
  {
    assert !IsWhiteSpace(s[0]);
  }

  /** Decimal digits carry no `0x` prefix, so they are read in radix 10. */
  lemma DecimalMagnitude(s: string)
    requires |s| > 0 && AllDigits(s, 10)
    ensures ParseMagnitude(s) == ParseDigits(s, 10)
  {
    if |s| >= 2 {
      assert IsDigitOf(s[1], 10);
    }
  }

  /** The digit prefix of a string of digits is the whole string. */
  lemma {:induction false} AllDigitsPrefix(s: string, radix: nat)
    requires AllDigits(s, radix)
    ensures DigitPrefixLength(s, radix) == |s|
  {
    if s != [] {
      assert IsDigitOf(s[0], radix);
      assert AllDigits(s[1..], radix) by {
        forall i | 0 <= i < |s[1..]| ensures IsDigitOf(s[1..][i], radix) {
          assert s[1..][i] == s[i + 1];
        }
      }
      AllDigitsPrefix(s[1..], radix);
    }
  }

  /** A magnitude with the sign `parseInt` read in front of it: a minus negates it. */
  function Signed(sign: string, v: nat): (r: int)
    ensures sign == "-" ==> r == -(v as int)
    ensures sign != "-" ==> r == v
  {
    if sign == "-" then -(v as int) else v
  }

  /** Three pieces joined left to right are the first joined to the other two. */
  lemma JoinThree<T>(a: seq<T>, b: seq<T>, c: seq<T>)
    ensures a + b + c == a + (b + c)
  {
  }

  /** Four pieces joined left to right are the first joined to the other three. */
  lemma JoinFour<T>(a: seq<T>, b: seq<T>, c: seq<T>, d: seq<T>)
    ensures a + b + c + d == a + (b + (c + d))
  {
  }

  /** Five pieces joined left to right are the first joined to the other four. */
  lemma JoinFive<T>(a: seq<T>, b: seq<T>, c: seq<T>, d: seq<T>, e: seq<T>)
    ensures a + b + c + d + e == a + (b + (c + (d + e)))
  {
  }

  /** `parseInt` skips leading white space and reads the rest. */
  lemma ParseAfterSpace(w: string, rest: string)
    requires forall i :: 0 <= i < |w| ==> IsWhiteSpace(w[i])
    requires rest == [] || !IsWhiteSpace(rest[0])
    ensures ParseInt(w + rest) == ParseSigned(rest)
  {
    TrimWhiteSpace(w, rest);
  }

  /** Leading white space is skipped up to the first other character. */
  lemma {:induction false} TrimWhiteSpace(w: string, rest: string)
    requires forall i :: 0 <= i < |w| ==> IsWhiteSpace(w[i])
    requires rest == [] || !IsWhiteSpace(rest[0])
    ensures TrimStart(w + rest) == rest
    decreases |w|
  {
    if w == [] {
      assert w + rest == rest;
    } else {
      assert (w + rest)[1..] == w[1..] + rest;
      TrimWhiteSpace(w[1..], rest);
    }
  }

  /** A run of digits ended by a non-digit, or by the end, is the whole digit prefix. */
  lemma {:induction false} DigitRunPrefix(d: string, t: string, radix: nat)
    requires AllDigits(d, radix)
    requires t == [] || !IsDigitOf(t[0], radix)
    ensures DigitPrefixLength(d + t, radix) == |d|
    decreases |d|
  {
    if d == [] {
      assert d + t == t;
    } else {
      assert (d + t)[0] == d[0] && (d + t)[1..] == d[1..] + t;
      assert AllDigits(d[1..], radix) by {
        forall i | 0 <= i < |d[1..]| ensures IsDigitOf(d[1..][i], radix) {
          assert d[1..][i] == d[i + 1];
        }
      }
      DigitRunPrefix(d[1..], t, radix);
    }
  }

  /** After the white space, one optional sign is read in front of the magnitude. */
  lemma SignedMagnitude(sign: string, u: string)
    requires sign == "" || sign == "+" || sign == "-"
    requires sign == "" ==> |u| > 0 && IsDecimalDigit(u[0])
    ensures ParseSigned(sign + u) ==
      match ParseMagnitude(u)
      case Some(v) => Some(Signed(sign, v))
      case None => None
  {
    if sign != "" {
      assert (sign + u)[0] == sign[0] && (sign + u)[1..] == u;
    } else {
      assert sign + u == u;
    }
  }

  /** A decimal run ended by a non-digit that is not a lone `0` before `x`/`X` is read in radix 10. */
  lemma DecimalRun(d: string, t: string)
    requires |d| > 0 && AllDigits(d, 10)
    requires t == [] || !IsDecimalDigit(t[0])
    requires !(d == "0" && |t| > 0 && (t[0] == 'x' || t[0] == 'X'))
    ensures ParseMagnitude(d + t) == Some(Value(d, 10))
  {
    var u := d + t;
    assert u[0] == d[0];
    if |u| >= 2 && u[0] == '0' {
      if |d| >= 2 {
        assert u[1] == d[1] && IsDigitOf(d[1], 10);
      } else {
        assert d == "0" && u[1] == t[0];
      }
    }
    assert ParseMagnitude(u) == ParseDigits(u, 10);
    DigitRunPrefix(d, t, 10);
    assert u[..|d|] == d;
  }

  /** Behind `0x`/`0X`, a hex run ended by a non-hex-digit is read in radix 16; no run is NaN. */
  lemma HexRun(x: char, h: string, t: string)
    requires x == 'x' || x == 'X'
    requires AllDigits(h, 16)
    requires t == [] || !IsDigitOf(t[0], 16)
    ensures ParseMagnitude(['0', x] + (h + t)) == if h == [] then None else Some(Value(h, 16))
  {
    var u := ['0', x] + (h + t);
    assert u[0] == '0' && u[1] == x && u[2..] == h + t;
    DigitRunPrefix(h, t, 16);
    assert (h + t)[..|h|] == h;
  }

  /**
   * `parseInt` of decimal text: white space, an optional sign, a run of
   * decimal digits, then anything that does not continue the run (and does
   * not turn a lone `0` into a `0x` prefix) reads as the signed run.
   */
  lemma ParseIntDecimal(w: string, sign: string, d: string, t: string)
    requires forall i :: 0 <= i < |w| ==> IsWhiteSpace(w[i])
    requires sign == "" || sign == "+" || sign == "-"
    requires |d| > 0 && AllDigits(d, 10)
    requires t == [] || !IsDecimalDigit(t[0])
    requires !(d == "0" && |t| > 0 && (t[0] == 'x' || t[0] == 'X'))
    ensures ParseInt(w + sign + d + t) == Some(Signed(sign, Value(d, 10)))
  {
    var u := d + t;
    var rest := sign + u;
    JoinFour(w, sign, d, t);
    assert IsDigitOf(d[0], 10) && u[0] == d[0];
    ParseAfterSpace(w, rest);
    SignedMagnitude(sign, u);
    DecimalRun(d, t);
  }

  /**
   * `parseInt` of hexadecimal text: white space, an optional sign, `0x` or
   * `0X`, then a run of hex digits ended by a non-hex-digit reads as the
   * signed run in radix 16; with no hex digit after the prefix it is NaN.
   */
  lemma ParseIntHex(w: string, sign: string, x: char, h: string, t: string)
    requires forall i :: 0 <= i < |w| ==> IsWhiteSpace(w[i])
    requires sign == "" || sign == "+" || sign == "-"
    requires x == 'x' || x == 'X'
    requires AllDigits(h, 16)
    requires t == [] || !IsDigitOf(t[0], 16)
    ensures h == [] ==> ParseInt(w + sign + ['0', x] + h + t).None?
    ensures h != [] ==> ParseInt(w + sign + ['0', x] + h + t) == Some(Signed(sign, Value(h, 16)))
  {
    var u := ['0', x] + (h + t);
    var rest := sign + u;
    JoinFive(w, sign, ['0', x], h, t);
    assert u[0] == '0';
    ParseAfterSpace(w, rest);
    SignedMagnitude(sign, u);
    HexRun(x, h, t);
  }

  /**
   * `parseInt` finds no number when the white space and the optional sign
   * are not followed by a decimal digit: `""`, `"   "`, `"+"`, `"-.5"` and
   * `"- 5"` are all NaN. Without a sign, the text after the white space
   * must not start with a sign either (that one would be read).
   */
  lemma ParseIntNoDigits(w: string, sign: string, t: string)
    requires forall i :: 0 <= i < |w| ==> IsWhiteSpace(w[i])
    requires sign == "" || sign == "+" || sign == "-"
    requires t == [] || !IsDecimalDigit(t[0])
    requires sign == "" ==> t == [] || (!IsWhiteSpace(t[0]) && t[0] != '+' && t[0] != '-')
    ensures ParseInt(w + sign + t).None?
  {
    var rest := sign + t;
    JoinThree(w, sign, t);
    if sign == "" {
      assert rest == t;
    } else {
      assert rest[0] == sign[0] && rest[1..] == t;
    }
    ParseAfterSpace(w, rest);
    assert ParseMagnitude(t) == ParseDigits(t, 10);
    assert t == [] || !IsDigitOf(t[0], 10);
  }

  /** `parseInt(String(n)) === n` for every natural number `n`. */
  lemma ParseIntOfString(n: nat)
    ensures ParseInt(ToRadix(n, 10)) == Some(n)
  {
    ParseDecimal(ToRadix(n, 10));
  }
}
