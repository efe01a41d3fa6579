/** ASCII models of the Python string builtins the PIREP tool relies on:
    `str.strip`, `str.upper`, `\d`, `str(n)`, `str.split`, `str.join`,
    slicing into fixed-width pieces, and the `<` and `^` format alignments. */
module Text {

  // ---------------------------------------------------------------------
  // Character classes
  // ---------------------------------------------------------------------

  /** The ASCII characters for which Python's `str.isspace` holds. */
  predicate IsSpace(c: char)
  {
    c == ' ' || '\t' <= c <= '\r' || '\U{1C}' <= c <= '\U{1F}'
  }

  /** What the regular-expression class `\d` matches, restricted to ASCII. */
  predicate IsDigit(c: char) { '0' <= c <= '9' }

  predicate IsUpperLetter(c: char) { 'A' <= c <= 'Z' }

  predicate IsLowerLetter(c: char) { 'a' <= c <= 'z' }

  predicate AllDigits(s: string) { forall i :: 0 <= i < |s| ==> IsDigit(s[i]) }

  function DigitValue(c: char): (d: nat)
    requires IsDigit(c)
    ensures d < 10
  {
    c as int - '0' as int
  }

  function DigitChar(d: nat): (c: char)
    requires d < 10
    ensures IsDigit(c) && DigitValue(c) == d
  {
    ('0' as int + d) as char
  }

  // ---------------------------------------------------------------------
  // str.strip and str.upper
  // ---------------------------------------------------------------------

  function TrimStart(s: string): (r: string)
  {
    if |s| > 0 && IsSpace(s[0]) then TrimStart(s[1..]) else s
  }

  function TrimEnd(s: string): (r: string)
  {
    if |s| > 0 && IsSpace(s[|s| - 1]) then TrimEnd(s[..|s| - 1]) else s
  }

  /** Python's `s.strip()`: leading and trailing whitespace removed. */
  function Strip(s: string): (r: string)
  {
    TrimEnd(TrimStart(s))
  }

  /** `TrimStart` drops a prefix of whitespace and stops at the first other character. */
  lemma {:induction false} TrimStartShape(s: string)
    ensures |TrimStart(s)| <= |s| && TrimStart(s) == s[|s| - |TrimStart(s)|..]
    ensures TrimStart(s) == [] || !IsSpace(TrimStart(s)[0])
    ensures forall i :: 0 <= i < |s| - |TrimStart(s)| ==> IsSpace(s[i])
  {
    if |s| > 0 && IsSpace(s[0]) {
      TrimStartShape(s[1..]);
    }
  }

  /** `TrimEnd` drops a suffix of whitespace and stops at the last other character. */
  lemma {:induction false} TrimEndShape(s: string)
    ensures |TrimEnd(s)| <= |s| && TrimEnd(s) == s[..|TrimEnd(s)|]
    ensures TrimEnd(s) == [] || !IsSpace(TrimEnd(s)[|TrimEnd(s)| - 1])
    ensures forall i :: |TrimEnd(s)| <= i < |s| ==> IsSpace(s[i])
  {
    if |s| > 0 && IsSpace(s[|s| - 1]) {
      TrimEndShape(s[..|s| - 1]);
    }
  }

  /** A string with no whitespace at either end, as `str.strip` leaves it. */
  predicate Trimmed(s: string)
  {
    s == [] || (!IsSpace(s[0]) && !IsSpace(s[|s| - 1]))
  }

  /** The stripped string is a slice `s[a..b]` of the input with only whitespace
      outside it; it has no whitespace at either end, and it is empty exactly
      when every character of `s` is whitespace. */
  lemma StripShape(s: string)
    ensures |Strip(s)| <= |s|
    ensures exists a, b ::
              0 <= a <= b <= |s| && Strip(s) == s[a..b]
              && (forall i :: 0 <= i < a ==> IsSpace(s[i]))
              && (forall i :: b <= i < |s| ==> IsSpace(s[i]))
    ensures Trimmed(Strip(s))
    ensures Strip(s) == [] <==> forall i :: 0 <= i < |s| ==> IsSpace(s[i])
  {
    TrimStartShape(s);
    TrimEndShape(TrimStart(s));
    StripIsSlice(s);
    if TrimStart(s) == [] {
      StripAllSpace(s);
    } else {
      StripKeepsFirst(s);
    }
  }

  lemma StripIsSlice(s: string)
    ensures exists a, b ::
              0 <= a <= b <= |s| && Strip(s) == s[a..b]
              && (forall i :: 0 <= i < a ==> IsSpace(s[i]))
              && (forall i :: b <= i < |s| ==> IsSpace(s[i]))
  {
    var t := TrimStart(s);
    TrimStartShape(s);
    TrimEndShape(t);
    var a := |s| - |t|;
    var b := a + |Strip(s)|;
    assert Strip(s) == s[a..b];
    forall i | b <= i < |s| ensures IsSpace(s[i]) {
      assert s[i] == t[i - a];
    }
  }

  lemma StripAllSpace(s: string)
    requires TrimStart(s) == []
    ensures Strip(s) == []
    ensures forall i :: 0 <= i < |s| ==> IsSpace(s[i])
  {
    TrimStartShape(s);
  }

  lemma StripKeepsFirst(s: string)
    requires TrimStart(s) != []
    ensures |TrimStart(s)| <= |s|
    ensures Strip(s) != [] && Strip(s)[0] == s[|s| - |TrimStart(s)|] && !IsSpace(Strip(s)[0])
  {
    var t := TrimStart(s);
    TrimStartShape(s);
    TrimEndShape(t);
    assert t[0] == s[|s| - |t|];
  }

  function UpperChar(c: char): (u: char)
    ensures !IsLowerLetter(u)
    ensures IsLowerLetter(c) || u == c
    ensures IsSpace(u) == IsSpace(c)
  {
    if IsLowerLetter(c) then (c as int - 'a' as int + 'A' as int) as char else c
  }

  /** Python's `s.upper()` on ASCII: every lower-case letter mapped to its capital. */
  function Upper(s: string): (r: string)
    ensures |r| == |s|
  {
    seq(|s|, i requires 0 <= i < |s| => UpperChar(s[i]))
  }

  /** A string in which no lower-case letter is left. */
  predicate UpperCase(s: string)
  {
    forall i :: 0 <= i < |s| ==> !IsLowerLetter(s[i])
  }

  /** Upper-casing leaves no lower-case letter, keeps whitespace where it was, and
      is idempotent. */
  lemma UpperIsUpper(s: string)
    ensures forall i :: 0 <= i < |s| ==> Upper(s)[i] == UpperChar(s[i])
    ensures UpperCase(Upper(s))
    ensures Trimmed(s) ==> Trimmed(Upper(s))
    ensures Upper(Upper(s)) == Upper(s)
  {
  }

  // ---------------------------------------------------------------------
  // str(n) for natural numbers, and its inverse
  // ---------------------------------------------------------------------

  /** Python's `str(n)` for `n >= 0`: decimal digits without leading zeros. */
  function NatToString(n: nat): (r: string)
    ensures |r| > 0 && AllDigits(r)
    ensures n > 0 ==> r[0] != '0'
  {
    if n < 10 then [DigitChar(n)] else NatToString(n / 10) + [DigitChar(n % 10)]
  }

  /** The value of a string of decimal digits. */
  function DecimalValue(s: string): (r: nat)
    requires AllDigits(s)
  {
    if s == [] then 0 else 10 * DecimalValue(s[..|s| - 1]) + DigitValue(s[|s| - 1])
  }

  /** `str(n)` names `n`: reading its digits back gives `n`. */
  lemma {:induction false} DecimalOfNatToString(n: nat)
    ensures DecimalValue(NatToString(n)) == n
  {
    var r := NatToString(n);
    if n >= 10 {
      assert r[..|r| - 1] == NatToString(n / 10);
      DecimalOfNatToString(n / 10);
    } else {
      assert r[..|r| - 1] == [];
    }
  }

  // ---------------------------------------------------------------------
  // str.join and str.split
  // ---------------------------------------------------------------------

  /** Python's `sep.join(parts)`. */
  function Join(parts: seq<string>, sep: string): (r: string)
  {
    if |parts| == 0 then ""
    else if |parts| == 1 then parts[0]
    else parts[0] + sep + Join(parts[1..], sep)
  }

  /** The index of the first occurrence of `c` in `s`. */
  function FirstIndex(s: string, c: char): (k: nat)
    requires c in s
    ensures k < |s| && s[k] == c && c !in s[..k]
  {
    if s[0] == c then 0 else 1 + FirstIndex(s[1..], c)
  }

  /** Python's `s.split(c)` for a one-character separator `c`. */
  function SplitOn(s: string, c: char): (parts: seq<string>)
    ensures |parts| >= 1
    decreases |s|
  {
    if c in s then
      var k := FirstIndex(s, c);
      [s[..k]] + SplitOn(s[k + 1..], c)
    else
      [s]
  }

  /** Splitting at `c` loses nothing: no piece holds `c` and re-joining with `c`
      restores the original string. A string without `c` is one piece. */
  lemma {:induction false} SplitOnJoin(s: string, c: char)
    ensures Join(SplitOn(s, c), [c]) == s
    ensures forall i :: 0 <= i < |SplitOn(s, c)| ==> c !in SplitOn(s, c)[i]
    ensures c !in s ==> SplitOn(s, c) == [s]
    decreases |s|
  {
    if c in s {
      var k := FirstIndex(s, c);
      var tail := s[k + 1..];
      SplitOnJoin(tail, c);
      var parts := SplitOn(s, c);
      assert parts == [s[..k]] + SplitOn(tail, c);
      assert parts[1..] == SplitOn(tail, c);
      assert s == s[..k] + [c] + tail;
      forall i | 0 <= i < |parts| ensures c !in parts[i] {
        if i > 0 {
          assert parts[i] == SplitOn(tail, c)[i - 1];
        }
      }
    }
  }

  // ---------------------------------------------------------------------
  // Fixed-width slicing and padding
  // ---------------------------------------------------------------------

  /** Consecutive slices of width `w` taken from the start, the last one possibly
      shorter; no slice at all for the empty string. */
  function Chunks(s: string, w: nat): (r: seq<string>)
    requires w > 0
    decreases |s|
  {
    if |s| == 0 then []
    else if |s| <= w then [s]
    else [s[..w]] + Chunks(s[w..], w)
  }

  /** The concatenation of a sequence of strings. */
  function Concat(ss: seq<string>): (r: string)
  {
    if ss == [] then "" else ss[0] + Concat(ss[1..])
  }

  /** The slices concatenate back to `s`. */
  lemma {:induction false} ChunksConcat(s: string, w: nat)
    requires w > 0
    ensures Concat(Chunks(s, w)) == s
    decreases |s|
  {
    if |s| > w {
      ChunksConcat(s[w..], w);
      assert s == s[..w] + s[w..];
    }
  }

  /** Each slice is non-empty and at most `w` wide, and every slice but the last
      is exactly `w` wide. */
  lemma {:induction false} ChunksWidths(s: string, w: nat)
    requires w > 0
    ensures forall i :: 0 <= i < |Chunks(s, w)| ==> 0 < |Chunks(s, w)[i]| <= w
    ensures forall i :: 0 <= i < |Chunks(s, w)| - 1 ==> |Chunks(s, w)[i]| == w
    decreases |s|
  {
    if |s| > w {
      var rest := s[w..];
      ChunksWidths(rest, w);
      var cs := Chunks(s, w);
      assert cs == [s[..w]] + Chunks(rest, w);
      forall i | 0 <= i < |cs| ensures 0 < |cs[i]| <= w && (i < |cs| - 1 ==> |cs[i]| == w) {
        if i > 0 {
          assert cs[i] == Chunks(rest, w)[i - 1];
        }
      }
    }
  }

  /** `n` copies of `c`. */
  function Repeat(c: char, n: nat): (r: string)
    ensures |r| == n && forall i :: 0 <= i < n ==> r[i] == c
  {
    seq(n, _ => c)
  }

  /** Python's `f"{s:<w}"`: `s` left-aligned and filled with spaces to width `w`;
      a string already `w` wide or wider is left as it is. */
  function PadRight(s: string, w: nat): (r: string)
  {
    if |s| < w then s + Repeat(' ', w - |s|) else s
  }

  lemma PadRightShape(s: string, w: nat)
    ensures |PadRight(s, w)| == if |s| < w then w else |s|
    ensures PadRight(s, w)[..|s|] == s
    ensures forall i :: |s| <= i < |PadRight(s, w)| ==> PadRight(s, w)[i] == ' '
  {
  }

  /** Python's `f"{s:^w}"`: `s` centred in width `w`; of an odd number of fill
      spaces the extra one goes to the right. */
  function Center(s: string, w: nat): (r: string)
  {
    if |s| < w then
      var left := (w - |s|) / 2;
      Repeat(' ', left) + s + Repeat(' ', w - |s| - left)
    else s
  }

  lemma CenterShape(s: string, w: nat)
    ensures |Center(s, w)| == if |s| < w then w else |s|
    ensures |s| < w ==>
      var left := (w - |s|) / 2;
      var right := w - |s| - left;
      Center(s, w)[left..left + |s|] == s && left <= right <= left + 1
    ensures |s| < w ==>
      forall i :: 0 <= i < w && !((w - |s|) / 2 <= i < (w - |s|) / 2 + |s|) ==> Center(s, w)[i] == ' '
  {
  }
}
