/** Term normalization strategies used before dictionary lookup
    (pkg/dict/normalize.go). */
module Normalize {
  import opened Text

  /** The three normalizers a dictionary can be configured with. */
  datatype Normalizer = LowercaseAscii | LowercaseUtf8 | NoNormalization

  /** Accent stripping (NFD, drop non-spacing marks, NFC) on the Latin-1 letters:
      the accented letter becomes its base letter; letters without a canonical
      decomposition (æ, ø, ß, ð, þ) and all other characters stay. */
  function BaseLetter(c: char): char {
    if '\U{00C0}' <= c <= '\U{00C5}' then 'A'
    else if c == '\U{00C7}' then 'C'
    else if '\U{00C8}' <= c <= '\U{00CB}' then 'E'
    else if '\U{00CC}' <= c <= '\U{00CF}' then 'I'
    else if c == '\U{00D1}' then 'N'
    else if '\U{00D2}' <= c <= '\U{00D6}' then 'O'
    else if '\U{00D9}' <= c <= '\U{00DC}' then 'U'
    else if c == '\U{00DD}' || c == '\U{0178}' then 'Y'
    else if '\U{00E0}' <= c <= '\U{00E5}' then 'a'
    else if c == '\U{00E7}' then 'c'
    else if '\U{00E8}' <= c <= '\U{00EB}' then 'e'
    else if '\U{00EC}' <= c <= '\U{00EF}' then 'i'
    else if c == '\U{00F1}' then 'n'
    else if '\U{00F2}' <= c <= '\U{00F6}' then 'o'
    else if '\U{00F9}' <= c <= '\U{00FC}' then 'u'
    else if c == '\U{00FD}' || c == '\U{00FF}' then 'y'
    else c
  }

  /** The combining diacritical marks block, all of category Mn. */
  predicate IsCombiningMark(c: char) {
    '\U{0300}' <= c <= '\U{036F}'
  }

  function StripAccents(s: string): string {
    if |s| == 0 then []
    else (if IsCombiningMark(s[0]) then [] else [BaseLetter(s[0])]) + StripAccents(s[1..])
  }

  /** NormalizeLowercaseASCII: lowercase, then strip accents. */
  function LowercaseAsciiOf(s: string): string {
    StripAccents(ToLower(s))
  }

  /** The characters lower-casing leaves alone: everything but the upper-case
      letters of the modelled range. */
  predicate KeptByLower(c: char) {
    !('A' <= c <= 'Z') && !('\U{00C0}' <= c <= '\U{00DE}') && c !in {'\U{0130}', '\U{0178}', '\U{212A}'}
  }

  /** NormalizeLowercaseUTF8: lowercase, accents kept. */
  function LowercaseUtf8Of(s: string): (r: string)
    ensures |r| == |s|
    ensures forall i :: 0 <= i < |s| && KeptByLower(s[i]) ==> r[i] == s[i]
  {
    ToLower(s)
  }

  /** GetNormalizer: the three known modes, and lowercase_ascii for every other
      mode, the empty one included. */
  function GetNormalizer(mode: string): (n: Normalizer)
    ensures mode == "lowercase_utf8" <==> n == LowercaseUtf8
    ensures mode == "none" <==> n == NoNormalization
    ensures mode != "lowercase_utf8" && mode != "none" <==> n == LowercaseAscii
  {
    match mode
    case "lowercase_ascii" => LowercaseAscii
    case "lowercase_utf8" => LowercaseUtf8
    case "none" => NoNormalization
    case _ => LowercaseAscii
  }

  /** Applies a normalizer to a term. NormalizeNone returns its input unchanged. */
  function Apply(n: Normalizer, s: string): (r: string)
    ensures n == NoNormalization ==> r == s
    ensures n == LowercaseUtf8 ==> |r| == |s|
  {
    match n
    case LowercaseAscii => LowercaseAsciiOf(s)
    case LowercaseUtf8 => LowercaseUtf8Of(s)
    case NoNormalization => s
  }

  /** Every mode maps the empty term to the empty term. */
  lemma EmptyStaysEmpty(n: Normalizer)
    ensures Apply(n, "") == ""
  {
  }

  predicate IsAsciiLowerOrOther(c: char) {
    c < '\U{0080}' && !('A' <= c <= 'Z')
  }

  /** On plain ASCII input, NormalizeLowercaseASCII is ASCII lower-casing:
      "DUPONT" becomes "dupont" and "simple" stays "simple". */
  lemma {:induction false} LowercaseAsciiOnAscii(s: string)
    requires IsAscii(s)
    ensures LowercaseAsciiOf(s) == ToLower(s)
    ensures forall i :: 0 <= i < |s| ==> IsAsciiLowerOrOther(LowercaseAsciiOf(s)[i])
  {
    var t := ToLower(s);
    assert forall i :: 0 <= i < |t| ==> t[i] == LowerChar(s[i]) && IsAsciiLowerOrOther(t[i]);
    StripAccentsAscii(t);
  }

  /** Accent stripping leaves ASCII text alone. */
  lemma {:induction false} StripAccentsAscii(t: string)
    requires IsAscii(t)
    ensures StripAccents(t) == t
  {
    if |t| > 0 {
      StripAccentsAscii(t[1..]);
      assert !IsCombiningMark(t[0]) && BaseLetter(t[0]) == t[0];
      assert t == [t[0]] + t[1..];
    }
  }

  lemma {:induction false} StripAccentsIdempotent(s: string)
    ensures StripAccents(StripAccents(s)) == StripAccents(s)
  {
    if |s| > 0 {
      StripAccentsIdempotent(s[1..]);
      var head := if IsCombiningMark(s[0]) then [] else [BaseLetter(s[0])];
      StripAccentsConcat(head, StripAccents(s[1..]));
    }
  }

  lemma {:induction false} StripAccentsConcat(a: string, b: string)
    ensures StripAccents(a + b) == StripAccents(a) + StripAccents(b)
  {
    if |a| > 0 {
      assert (a + b)[1..] == a[1..] + b;
      StripAccentsConcat(a[1..], b);
    } else {
      assert a + b == b;
    }
  }

  lemma {:induction false} LowerStripCommute(s: string)
    ensures ToLower(StripAccents(ToLower(s))) == StripAccents(ToLower(s))
  {
    if |s| > 0 {
      LowerStripCommute(s[1..]);
      assert ToLower(s) == [LowerChar(s[0])] + ToLower(s[1..]);
      StripAccentsConcat([LowerChar(s[0])], ToLower(s[1..]));
      var head := StripAccents([LowerChar(s[0])]);
      var tail := StripAccents(ToLower(s[1..]));
      assert ToLower(head + tail) == ToLower(head) + ToLower(tail);
    }
  }

  /** A key normalized with NormalizeLowercaseASCII is a fixed point of it, so a
      stored key looked up verbatim finds itself. */
  lemma LowercaseAsciiIdempotent(s: string)
    ensures LowercaseAsciiOf(LowercaseAsciiOf(s)) == LowercaseAsciiOf(s)
  {
    LowerStripCommute(s);
    StripAccentsIdempotent(ToLower(s));
  }

  lemma LowerCharIdempotent(c: char)
    ensures LowerChar(LowerChar(c)) == LowerChar(c)
  {
  }

  /** Every normalizer is idempotent: a normalized key normalizes to itself. */
  lemma ApplyIdempotent(n: Normalizer, s: string)
    ensures Apply(n, Apply(n, s)) == Apply(n, s)
  {
    match n
    case LowercaseAscii => LowercaseAsciiIdempotent(s);
    case LowercaseUtf8 =>
      forall i | 0 <= i < |s| ensures ToLower(ToLower(s))[i] == ToLower(s)[i] {
        LowerCharIdempotent(s[i]);
      }
    case NoNormalization =>
  }
}
