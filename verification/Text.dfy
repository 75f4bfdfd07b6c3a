/** The Option datatype shared by every module. */
module Options {
  datatype Option<+T> = None | Some(value: T)
}

/** What the adapter uses of Go's strings and strconv packages, on Unicode scalar values. */
module Text {
  import opened Options

  /** unicode.IsSpace. */
  predicate IsSpace(c: char) {
    || '\U{0009}' <= c <= '\U{000D}'
    || c == ' '
    || c == '\U{0085}'
    || c == '\U{00A0}'
    || c == '\U{1680}'
    || '\U{2000}' <= c <= '\U{200A}'
    || c == '\U{2028}'
    || c == '\U{2029}'
    || c == '\U{202F}'
    || c == '\U{205F}'
    || c == '\U{3000}'
  }

  function TrimLeft(s: string): string {
    if s != "" && IsSpace(s[0]) then TrimLeft(s[1..]) else s
  }

  function TrimRight(s: string): string {
    if s != "" && IsSpace(s[|s| - 1]) then TrimRight(s[..|s| - 1]) else s
  }

  function TrimSpace(s: string): string {
    TrimRight(TrimLeft(s))
  }

  /**
   * Simple case folding. Every ASCII letter folds with its other case; the only further
   * characters that fold with an ASCII letter are the long s and the Kelvin sign, so
   * EqualFold is exact whenever one of the two strings is ASCII.
   */
  function FoldChar(c: char): char {
    if 'A' <= c <= 'Z' then (c as int + 32) as char
    else if c == '\U{017F}' then 's'
    else if c == '\U{212A}' then 'k'
    else c
  }

  predicate EqualFold(s: string, t: string) {
    |s| == |t| && forall i | 0 <= i < |s| :: FoldChar(s[i]) == FoldChar(t[i])
  }

  function FirstNonEmpty(a: string, b: string): string {
    if a != "" then a else b
  }

  // Decimal numbers.

  predicate IsDigit(c: char) {
    '0' <= c <= '9'
  }

  function DigitChar(d: nat): char
    requires d < 10
  {
    ('0' as int + d) as char
  }

  function PrintNat(n: nat): string {
    if n < 10 then [DigitChar(n)] else PrintNat(n / 10) + [DigitChar(n % 10)]
  }

  /** The %d verb. */
  function PrintInt(n: int): string {
    if n < 0 then "-" + PrintNat(-n) else PrintNat(n)
  }

  function ParseNat(s: string): Option<int> {
    if s == "" || !IsDigit(s[|s| - 1]) then None
    else
      var d := s[|s| - 1] as int - '0' as int;
      if |s| == 1 then Some(d)
      else
        match ParseNat(s[..|s| - 1])
        case None => None
        case Some(high) => Some(10 * high + d)
  }

  /** A decimal integer with an optional sign, before any range check. */
  function ParseInt(s: string): Option<int> {
    if s != "" && s[0] == '-' then
      match ParseNat(s[1..])
      case None => None
      case Some(n) => Some(-n)
    else if s != "" && s[0] == '+' then ParseNat(s[1..])
    else ParseNat(s)
  }

  const INT64_MIN: int := -0x8000_0000_0000_0000
  const INT64_MAX: int := 0x7FFF_FFFF_FFFF_FFFF

  /** strconv.Atoi on a 64-bit platform: None stands for its error. */
  function Atoi(s: string): Option<int> {
    match ParseInt(s)
    case None => None
    case Some(n) => if INT64_MIN <= n <= INT64_MAX then Some(n) else None
  }

  /** The value an int64 computation leaves after wrapping around. */
  function Wrap64(n: int): int {
    (n + 0x8000_0000_0000_0000) % 0x1_0000_0000_0000_0000 - 0x8000_0000_0000_0000
  }

  predicate AllDigits(s: string) {
    forall i | 0 <= i < |s| :: IsDigit(s[i])
  }

  lemma {:induction false} PrintNatParses(n: nat)
    ensures PrintNat(n) != "" && AllDigits(PrintNat(n))
    ensures ParseNat(PrintNat(n)) == Some(n)
  {
    var s := PrintNat(n);
    if n >= 10 {
      PrintNatParses(n / 10);
      assert s[..|s| - 1] == PrintNat(n / 10);
    }
  }

  lemma PrintIntParses(n: int)
    ensures PrintInt(n) != "" && ParseInt(PrintInt(n)) == Some(n)
    ensures forall i | 0 <= i < |PrintInt(n)| :: IsDigit(PrintInt(n)[i]) || PrintInt(n)[i] == '-'
  {
    PrintNatParses(if n < 0 then -n else n);
    if n < 0 {
      assert PrintInt(n)[1..] == PrintNat(-n);
    }
  }

  // What the functions above mean.

  predicate IsCasePair(upper: char, lower: char) {
    'A' <= upper <= 'Z' && lower as int == upper as int + 32
  }

  lemma FoldsIff(c: char, d: char)
    ensures FoldChar(c) == FoldChar(d)
       <==> || c == d || IsCasePair(c, d) || IsCasePair(d, c)
            || {c, d} <= {'s', 'S', '\U{017F}'} || {c, d} <= {'k', 'K', '\U{212A}'}
  {
  }

  /** A text in lower case, and in upper case, folds with it. */
  function Lower(s: string): string {
    seq(|s|, i requires 0 <= i < |s| => if 'A' <= s[i] <= 'Z' then (s[i] as int + 32) as char else s[i])
  }

  function Upper(s: string): string {
    seq(|s|, i requires 0 <= i < |s| => if 'a' <= s[i] <= 'z' then (s[i] as int - 32) as char else s[i])
  }

  lemma AnyCaseFolds(s: string)
    ensures EqualFold(s, s) && EqualFold(Lower(s), s) && EqualFold(Upper(s), s)
  {
  }

  /** For two texts without the two special characters, folding together is having the same lower case. */
  lemma EqualFoldIff(s: string, t: string)
    requires '\U{017F}' !in s + t && '\U{212A}' !in s + t
    ensures EqualFold(s, t) <==> Lower(s) == Lower(t)
  {
    if |s| == |t| {
      forall i | 0 <= i < |s| ensures FoldChar(s[i]) == FoldChar(t[i]) <==> Lower(s)[i] == Lower(t)[i] {
        assert s[i] in s + t && t[i] in s + t;
      }
      if Lower(s) == Lower(t) {
        forall i | 0 <= i < |s| ensures FoldChar(s[i]) == FoldChar(t[i]) {
          assert Lower(s)[i] == Lower(t)[i];
        }
      }
    }
  }

  predicate IsBlankText(s: string) {
    forall i | 0 <= i < |s| :: IsSpace(s[i])
  }

  /** TrimSpace cuts white space from both ends, all of it, and nothing else. */
  lemma TrimSpaceIs(s: string)
    ensures exists before, after ::
              IsBlankText(before) && IsBlankText(after) && s == before + TrimSpace(s) + after
    ensures TrimSpace(s) != "" ==> !IsSpace(TrimSpace(s)[0]) && !IsSpace(TrimSpace(s)[|TrimSpace(s)| - 1])
  {
    TrimLeftIs(s);
    TrimRightIs(TrimLeft(s));
    var before, after := s[..|s| - |TrimLeft(s)|], TrimLeft(s)[|TrimSpace(s)|..];
    assert s == before + TrimSpace(s) + after;
  }

  lemma {:induction false} TrimLeftIs(s: string)
    ensures |TrimLeft(s)| <= |s| && s[|s| - |TrimLeft(s)|..] == TrimLeft(s)
    ensures IsBlankText(s[..|s| - |TrimLeft(s)|])
    ensures TrimLeft(s) != "" ==> !IsSpace(TrimLeft(s)[0])
  {
    if s != "" && IsSpace(s[0]) {
      TrimLeftIs(s[1..]);
      var n := |s| - |TrimLeft(s)|;
      assert s[1..][n - 1..] == s[n..] && s[..n] == [s[0]] + s[1..][..n - 1];
    }
  }

  lemma {:induction false} TrimRightIs(s: string)
    ensures |TrimRight(s)| <= |s| && s[..|TrimRight(s)|] == TrimRight(s)
    ensures IsBlankText(s[|TrimRight(s)|..])
    ensures TrimRight(s) != "" ==> !IsSpace(TrimRight(s)[|TrimRight(s)| - 1])
  {
    if s != "" && IsSpace(s[|s| - 1]) {
      TrimRightIs(s[..|s| - 1]);
      var n := |TrimRight(s)|;
      assert s[n..] == s[..|s| - 1][n..] + [s[|s| - 1]];
    }
  }

  /** The white space of Unicode, by code point. */
  lemma SpacesAre(c: char)
    ensures IsSpace(c) <==>
              || c as int in {0x09, 0x0A, 0x0B, 0x0C, 0x0D, 0x20, 0x85, 0xA0, 0x1680}
              || 0x2000 <= c as int <= 0x200A
              || c as int in {0x2028, 0x2029, 0x202F, 0x205F, 0x3000}
  {
  }
}
