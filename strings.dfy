/** The JavaScript string operations the handlers use: `startsWith`,
    `split` on a one-character separator, `join`, and the conversions
    between decimal digit strings and numbers (`parseInt`, `Number`, and
    the rendering of an array index in a zod issue path). */
module Strings {
  import opened Common

  predicate StartsWith(s: string, prefix: string) {
    |prefix| <= |s| && s[..|prefix|] == prefix
  }

  /** Position of the first occurrence of `c` in `s`. */
  function IndexOf(s: string, c: char): (i: nat)
    requires c in s
    ensures i < |s| && s[i] == c && c !in s[..i]
  {
    if s[0] == c then 0 else 1 + IndexOf(s[1..], c)
  }

  /** `s.split(sep)`: the pieces between occurrences of `sep`, in order; a
      string without `sep` (the empty string included) is one piece, and two
      adjacent separators give an empty piece between them. */
  function Split(s: string, sep: char): (parts: seq<string>)
    ensures |parts| >= 1
    ensures forall i :: 0 <= i < |parts| ==> sep !in parts[i]
    decreases |s|
  {
    if sep !in s then [s]
    else
      var i := IndexOf(s, sep);
      [s[..i]] + Split(s[i + 1..], sep)
  }

  /** `parts.join(sep)`. */
  function Join(parts: seq<string>, sep: char): string {
    if |parts| == 0 then ""
    else if |parts| == 1 then parts[0]
    else parts[0] + [sep] + Join(parts[1..], sep)
  }

  lemma {:induction false} JoinSplit(s: string, sep: char)
    ensures Join(Split(s, sep), sep) == s
    decreases |s|
  {
    if sep in s {
      var i := IndexOf(s, sep);
      var rest := s[i + 1..];
      JoinSplit(rest, sep);
      assert Split(s, sep) == [s[..i]] + Split(rest, sep);
      assert s == s[..i] + [sep] + rest;
    }
  }

  lemma {:induction false} SplitJoin(parts: seq<string>, sep: char)
    requires |parts| >= 1
    requires forall i :: 0 <= i < |parts| ==> sep !in parts[i]
    ensures Split(Join(parts, sep), sep) == parts
  {
    if |parts| > 1 {
      var rest := parts[1..];
      SplitJoin(rest, sep);
      var s := parts[0] + [sep] + Join(rest, sep);
      assert sep in s by { assert s[|parts[0]|] == sep; }
      assert IndexOf(s, sep) == |parts[0]| by {
        IndexOfAfterFree(parts[0], sep, Join(rest, sep));
      }
      assert s[..|parts[0]|] == parts[0];
      assert s[|parts[0]| + 1..] == Join(rest, sep);
    }
  }

  lemma {:induction false} IndexOfAfterFree(a: string, sep: char, b: string)
    requires sep !in a
    ensures sep in a + [sep] + b && IndexOf(a + [sep] + b, sep) == |a|
    decreases |a|
  {
    var s := a + [sep] + b;
    assert s[|a|] == sep;
    if |a| > 0 {
      assert s[1..] == a[1..] + [sep] + b;
      IndexOfAfterFree(a[1..], sep, b);
    }
  }

  // ---- string lengths ----

  /** A character outside the Basic Multilingual Plane, which JavaScript
      stores as a surrogate pair. */
  predicate Astral(c: char) { c as int >= 0x1_0000 }

  /** JavaScript's `s.length`, the number of UTF-16 code units: an astral
      character counts twice. zod's `min(n)` on strings compares it. */
  function Utf16Length(s: string): (n: nat)
    ensures |s| <= n <= 2 * |s|
  {
    if s == [] then 0 else Utf16Length(s[..|s| - 1]) + (if Astral(s[|s| - 1]) then 2 else 1)
  }

  /** On text inside the Basic Multilingual Plane, `length` counts
      characters. */
  lemma {:induction false} BmpUtf16Length(s: string)
    requires forall i :: 0 <= i < |s| ==> !Astral(s[i])
    ensures Utf16Length(s) == |s|
  {
    if s != [] {
      var init := s[..|s| - 1];
      assert forall i :: 0 <= i < |init| ==> init[i] == s[i];
      BmpUtf16Length(init);
    }
  }

  /** An emoji followed by one letter has JavaScript length 3. */
  lemma EmojiUtf16Length()
    ensures Utf16Length("\U{1F600}a") == 3
  {
    assert "\U{1F600}a"[..1] == "\U{1F600}";
    assert "\U{1F600}"[..0] == "";
  }

  /** The two variation selectors that validator.js's `isLength` leaves out
      of the count. */
  predicate VariationSelector(c: char) { c == '\U{FE0E}' || c == '\U{FE0F}' }

  /** The length validator.js's `isLength` compares: the UTF-16 length less
      one per surrogate pair and one per variation selector, that is the
      number of characters other than variation selectors. */
  function ValidatorLength(s: string): (n: nat)
    ensures n <= |s|
  {
    if s == [] then 0 else ValidatorLength(s[..|s| - 1]) + (if VariationSelector(s[|s| - 1]) then 0 else 1)
  }

  /** Without variation selectors, `isLength` counts characters. */
  lemma {:induction false} PlainValidatorLength(s: string)
    requires forall i :: 0 <= i < |s| ==> !VariationSelector(s[i])
    ensures ValidatorLength(s) == |s|
  {
    if s != [] {
      var init := s[..|s| - 1];
      assert forall i :: 0 <= i < |init| ==> init[i] == s[i];
      PlainValidatorLength(init);
    }
  }

  // ---- decimal digits ----

  predicate IsDigit(c: char) { '0' <= c <= '9' }

  predicate AllDigits(s: string) {
    forall i :: 0 <= i < |s| ==> IsDigit(s[i])
  }

  function DigitValue(c: char): nat
    requires IsDigit(c)
  {
    c as int - '0' as int
  }

  function DigitChar(d: nat): (c: char)
    requires d < 10
    ensures IsDigit(c) && DigitValue(c) == d
  {
    ('0' as int + d) as char
  }

  /** The value of a string of decimal digits (the empty string is 0). */
  function DecimalValue(s: string): nat
    requires AllDigits(s)
  {
    if s == [] then 0 else DecimalValue(s[..|s| - 1]) * 10 + DigitValue(s[|s| - 1])
  }

  /** The decimal rendering of a natural number, as `String(n)` gives it. */
  function NatToDecimal(n: nat): (s: string)
    ensures |s| >= 1 && AllDigits(s)
  {
    if n < 10 then [DigitChar(n)] else NatToDecimal(n / 10) + [DigitChar(n % 10)]
  }

  lemma {:induction false} DecimalRoundTrip(n: nat)
    ensures DecimalValue(NatToDecimal(n)) == n
  {
    if n >= 10 {
      DecimalRoundTrip(n / 10);
      var s := NatToDecimal(n);
      assert s[..|s| - 1] == NatToDecimal(n / 10);
    }
  }

  /** The longest prefix of `s` made of decimal digits. */
  function LeadingDigits(s: string): (d: string)
    ensures AllDigits(d) && |d| <= |s| && d == s[..|d|]
    ensures |d| < |s| ==> !IsDigit(s[|d|])
  {
    if s == [] || !IsDigit(s[0]) then [] else [s[0]] + LeadingDigits(s[1..])
  }

  /** `parseInt(s)` on a string that starts with its digits: the value of
      the leading digits, and `None` (NaN) when there are none. */
  function ParseIntPrefix(s: string): (r: Option<nat>)
    ensures r.None? <==> (s == [] || !IsDigit(s[0]))
  {
    var d := LeadingDigits(s);
    if d == [] then None else Some(DecimalValue(d))
  }

  lemma ParseIntOfDecimal(n: nat)
    ensures ParseIntPrefix(NatToDecimal(n)) == Some(n)
  {
    var s := NatToDecimal(n);
    AllDigitsLeading(s);
    DecimalRoundTrip(n);
  }

  lemma {:induction false} AllDigitsLeading(s: string)
    requires AllDigits(s)
    ensures LeadingDigits(s) == s
  {
    if s != [] {
      AllDigitsLeading(s[1..]);
    }
  }

  /** A JavaScript number obtained from a string by `Number(s)`. */
  datatype JsNumber = NaN | Finite(value: nat)

  /** `Number(s)` on strings of decimal digits: the empty string converts
      to 0, a digit string to its value, anything else to NaN. */
  function NumberOf(s: string): (r: JsNumber)
    ensures r.Finite? <==> AllDigits(s)
    ensures AllDigits(s) ==> r == Finite(DecimalValue(s))
  {
    if AllDigits(s) then Finite(DecimalValue(s)) else NaN
  }
}
