/**
 * `ensureHex`: a colour the browser reports as `rgb(r, g, b)` is turned
 * into the `#rrggbb` form a colour input accepts; any other string is
 * passed through.
 */
module HexColor {
  import opened Js

  /**
   * `s.match(/\d+/g)`: the maximal runs of ASCII digits in `s`, left to
   * right (an empty list standing for the `null` of no match).
   */
  function DigitRuns(s: string): (r: seq<string>)
    ensures forall k :: 0 <= k < |r| ==> |r[k]| > 0 && AllDigits(r[k], 10)
    decreases |s|
  {
    if s == [] then []
    else if !IsDecimalDigit(s[0]) then DigitRuns(s[1..])
    else
      var n := DigitPrefixLength(s, 10);
      assert n >= 1;
      [s[..n]] + DigitRuns(s[n..])
  }

  /**
   * `parseInt(x).toString(16).padStart(2, '0')` for one run; `NaN` when
   * the run does not parse (which a run of digits always does).
   */
  function Component(run: string): string {
    match ParseInt(run)
    case Some(v) => PadStart(IntToRadix(v, 16), 2, '0')
    case None => "NaN"
  }

  /** A run of digits becomes its value in hexadecimal, padded to two digits. */
  lemma ComponentOfRun(run: string)
    requires |run| > 0 && AllDigits(run, 10)
    ensures Component(run) == HexByte(Value(run, 10))
  {
    ParseDecimal(run);
  }

  /** A number below 256 in hexadecimal, padded to two digits, reads back as itself. */
  lemma PaddedHexByte(v: nat)
    requires v < 256
    ensures var h := HexByte(v);
      |h| == 2 && AllDigits(h, 16) && Value(h, 16) == v
  {
    var t := ToRadix(v, 16);
    var h := PadStart(t, 2, '0');
    if v < 16 {
      assert h == ['0', t[0]];
      assert h[..1] == ['0'] && h[..1][..0] == [];
    }
  }

  /**
   * `ensureHex`: a string starting with `rgb` with at least three digit runs
   * becomes `#` followed by the first three runs in two-digit hexadecimal;
   * everything else comes back unchanged.
   */
  function EnsureHex(color: string): (r: string)
    ensures !StartsWith(color, "rgb") || |DigitRuns(color)| < 3 ==> r == color
    ensures StartsWith(color, "rgb") && |DigitRuns(color)| >= 3 ==>
      r == "#" + Component(DigitRuns(color)[0]) + Component(DigitRuns(color)[1]) + Component(DigitRuns(color)[2])
  {
    if StartsWith(color, "rgb") then
      var runs := DigitRuns(color);
      if |runs| >= 3 then "#" + Component(runs[0]) + Component(runs[1]) + Component(runs[2])
      else color
    else color
  }

  /** The `rgb(r, g, b)` text browsers use for a colour. */
  function Rgb(r: nat, g: nat, b: nat): (s: string)
    ensures StartsWith(s, "rgb")
  {
    "rgb(" + (ToRadix(r, 10) + (", " + (ToRadix(g, 10) + (", " + (ToRadix(b, 10) + ")")))))
  }

  /** Characters without digits in front of `t` add no run. */
  lemma {:induction false} SkipNonDigits(p: string, t: string)
    requires forall i :: 0 <= i < |p| ==> !IsDecimalDigit(p[i])
    ensures DigitRuns(p + t) == DigitRuns(t)
  {
    if p != [] {
      assert (p + t)[0] == p[0] && (p + t)[1..] == p[1..] + t;
      assert DigitRuns(p + t) == DigitRuns(p[1..] + t);
      SkipNonDigits(p[1..], t);
    } else {
      assert p + t == t;
    }
  }

  /** A run of digits followed by a non-digit is read up to that non-digit. */
  lemma {:induction false} RunLength(a: string, t: string)
    requires AllDigits(a, 10)
    requires t == [] || !IsDecimalDigit(t[0])
    ensures DigitPrefixLength(a + t, 10) == |a|
  {
    if a != [] {
      assert (a + t)[1..] == a[1..] + t;
      RunLength(a[1..], t);
    }
  }

  /** A run of digits at the front is the first run, then the runs of the rest. */
  lemma RunThenRest(a: string, t: string)
    requires |a| > 0 && AllDigits(a, 10)
    requires t == [] || !IsDecimalDigit(t[0])
    ensures DigitRuns(a + t) == [a] + DigitRuns(t)
  {
    RunLength(a, t);
    assert (a + t)[..|a|] == a && (a + t)[|a|..] == t;
  }

  /** Non-digits, then a run of digits ended by a non-digit: that run comes first. */
  lemma LeadingRun(p: string, a: string, t: string)
    requires forall i :: 0 <= i < |p| ==> !IsDecimalDigit(p[i])
    requires |a| > 0 && AllDigits(a, 10)
    requires t == [] || !IsDecimalDigit(t[0])
    ensures DigitRuns(p + (a + t)) == [a] + DigitRuns(t)
  {
    SkipNonDigits(p, a + t);
    RunThenRest(a, t);
  }

  /** The digit runs of `rgb(R, G, B)` are R, G and B. */
  lemma RgbRuns(R: string, G: string, B: string)
    requires |R| > 0 && AllDigits(R, 10) && |G| > 0 && AllDigits(G, 10) && |B| > 0 && AllDigits(B, 10)
    ensures DigitRuns("rgb(" + (R + (", " + (G + (", " + (B + ")")))))) == [R, G, B]
  {
    SkipNonDigits(")", []);
    assert ")" + [] == ")";
    var t2 := ", " + (B + ")");
    LeadingRun(", ", B, ")");
    assert DigitRuns(t2) == [B];
    var t1 := ", " + (G + t2);
    LeadingRun(", ", G, t2);
    assert DigitRuns(t1) == [G, B];
    LeadingRun("rgb(", R, t1);
  }

  /** `v.toString(16).padStart(2, '0')`. */
  function HexByte(v: nat): string {
    PadStart(ToRadix(v, 16), 2, '0')
  }

  /**
   * The colour round trip: a colour reported as `rgb(r, g, b)` with
   * components below 256 becomes `#` followed by each component as two
   * hexadecimal digits (which read back as the component, by `PaddedHexByte`).
   */
  lemma RgbToHex(r: nat, g: nat, b: nat)
    requires r < 256 && g < 256 && b < 256
    ensures EnsureHex(Rgb(r, g, b)) == "#" + HexByte(r) + HexByte(g) + HexByte(b)
  {
    var R, G, B := ToRadix(r, 10), ToRadix(g, 10), ToRadix(b, 10);
    RgbRuns(R, G, B);
    ComponentOfRun(R);
    ComponentOfRun(G);
    ComponentOfRun(B);
  }
}
