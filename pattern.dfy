/** Pattern-based dictionaries: named regular expressions, each optionally
    guarded by a checksum validator (pkg/dict/pattern.go). The regular
    expression engine is not modelled: a compiled expression is its
    MatchString predicate and `regexp.Compile` is a parameter. */
module Pattern {
  import opened Wrappers
  import opened Text
  import opened DictManifest

  /** A compiled regular expression, seen through MatchString. */
  type Regex = string -> bool

  /** regexp.Compile: None for an expression that does not compile. */
  type RegexCompiler = string -> Option<Regex>

  datatype Validator = NoValidator | Mod97 | Luhn | Nir

  datatype CompiledPattern = CompiledPattern(name: string, re: Regex, validator: Validator)

  datatype CompileError =
    | NoPatterns
    | BadRegex(pattern: string)
    | UnknownValidator(pattern: string, validator: string)

  /** The validator a manifest names; the empty name means none. */
  function ValidatorNamed(name: string): (r: Option<Validator>)
    ensures r.None? <==> name !in {"", "mod97", "luhn", "nir"}
    ensures r == Some(NoValidator) <==> name == ""
  {
    match name
    case "" => Some(NoValidator)
    case "mod97" => Some(Mod97)
    case "luhn" => Some(Luhn)
    case "nir" => Some(Nir)
    case _ => None
  }

  /** Why one spec cannot be compiled: its expression first, then its validator. */
  function SpecProblem(spec: PatternSpec, compile: RegexCompiler): Option<CompileError> {
    if compile(spec.regex).None? then Some(BadRegex(spec.name))
    else if ValidatorNamed(spec.validator).None? then Some(UnknownValidator(spec.name, spec.validator))
    else None
  }

  function CompileOne(spec: PatternSpec, compile: RegexCompiler): CompiledPattern
    requires SpecProblem(spec, compile).None?
  {
    CompiledPattern(spec.name, compile(spec.regex).value, ValidatorNamed(spec.validator).value)
  }

  /** Compiles the specs in order, stopping at the first that cannot be
      compiled. */
  function CompileEach(specs: seq<PatternSpec>, compile: RegexCompiler): (r: Result<seq<CompiledPattern>, CompileError>)
    ensures r.Ok? <==> forall i :: 0 <= i < |specs| ==> SpecProblem(specs[i], compile).None?
    ensures r.Ok? ==> |r.value| == |specs|
    ensures r.Ok? ==> forall i :: 0 <= i < |specs| ==> r.value[i] == CompileOne(specs[i], compile)
    ensures r.Err? ==>
              exists i :: 0 <= i < |specs| && SpecProblem(specs[i], compile) == Some(r.error)
                          && forall j :: 0 <= j < i ==> SpecProblem(specs[j], compile).None?
  {
    if |specs| == 0 then Ok([])
    else match SpecProblem(specs[0], compile)
      case Some(e) => Err(e)
      case None =>
        match CompileEach(specs[1..], compile)
        case Err(e) =>
          assert forall j :: 1 <= j < |specs| ==> specs[1..][j - 1] == specs[j];
          Err(e)
        case Ok(rest) =>
          assert forall j :: 1 <= j < |specs| ==> specs[1..][j - 1] == specs[j];
          Ok([CompileOne(specs[0], compile)] + rest)
  }

  /** compilePatterns as a value: no specs at all is an error of its own. */
  function CompileAll(specs: seq<PatternSpec>, compile: RegexCompiler): Result<seq<CompiledPattern>, CompileError> {
    if |specs| == 0 then Err(NoPatterns) else CompileEach(specs, compile)
  }

  /** compilePatterns: no specs is an error; otherwise the first spec with a bad
      expression or an unknown validator is reported, and with none every spec is
      compiled, in order. */
  method CompilePatterns(specs: seq<PatternSpec>, compile: RegexCompiler)
    returns (r: Result<seq<CompiledPattern>, CompileError>)
    ensures r == CompileAll(specs, compile)
    ensures specs == [] ==> r == Err(NoPatterns)
  {
    if |specs| == 0 {
      return Err(NoPatterns);
    }
    var patterns: seq<CompiledPattern> := [];
    for i := 0 to |specs|
      invariant |patterns| == i
      invariant forall j :: 0 <= j < i ==> SpecProblem(specs[j], compile).None?
      invariant forall j :: 0 <= j < i ==> patterns[j] == CompileOne(specs[j], compile)
    {
      var spec := specs[i];
      var re := compile(spec.regex);
      if re.None? {
        FirstProblem(specs, compile, i);
        return Err(BadRegex(spec.name));
      }
      var v: Validator;
      match spec.validator {
        case "" => v := NoValidator;
        case "mod97" => v := Mod97;
        case "luhn" => v := Luhn;
        case "nir" => v := Nir;
        case _ =>
          FirstProblem(specs, compile, i);
          return Err(UnknownValidator(spec.name, spec.validator));
      }
      patterns := patterns + [CompiledPattern(spec.name, re.value, v)];
    }
    var all := CompileEach(specs, compile);
    assert all.Ok? && all.value == patterns;
    return Ok(patterns);
  }

  lemma FirstProblem(specs: seq<PatternSpec>, compile: RegexCompiler, i: int)
    requires 0 <= i < |specs| && SpecProblem(specs[i], compile).Some?
    requires forall j :: 0 <= j < i ==> SpecProblem(specs[j], compile).None?
    ensures CompileEach(specs, compile) == Err(SpecProblem(specs[i], compile).value)
  {
    var r := CompileEach(specs, compile);
    assert r.Err?;
    var k :| 0 <= k < |specs| && SpecProblem(specs[k], compile) == Some(r.error)
             && forall j :: 0 <= j < k ==> SpecProblem(specs[j], compile).None?;
    assert k == i;
  }

  // ---- ISO 7064 MOD 97-10 (IBAN) ----

  predicate IsUpperAlnum(c: char) {
    IsDigit(c) || 'A' <= c <= 'Z'
  }

  predicate AllUpperAlnum(t: string) {
    forall i :: 0 <= i < |t| ==> IsUpperAlnum(t[i])
  }

  function CharValue(c: char): nat
    requires IsUpperAlnum(c)
  {
    if IsDigit(c) then c as int - '0' as int else c as int - 'A' as int + 10
  }

  /** The number an alphanumeric string stands for under MOD 97-10: a digit is
      one decimal place, a letter A..Z is the two-digit number 10..35. */
  function IbanNumber(t: string): nat
    requires AllUpperAlnum(t)
  {
    if |t| == 0 then 0
    else
      var c := t[|t| - 1];
      IbanNumber(t[..|t| - 1]) * (if IsDigit(c) then 10 else 100) + CharValue(c)
  }

  /** The check an IBAN passes: first four characters moved to the end,
      upper-cased, only digits and letters, and the number it stands for is 1
      modulo 97. */
  predicate ValidMod97(s: string) {
    |s| >= 5 &&
    var t := ToUpper(s[4..] + s[..4]);
    AllUpperAlnum(t) && IbanNumber(t) % 97 == 1
  }

  /** The decimal text written for one character. */
  function CharDigits(c: char): (r: string)
    requires IsUpperAlnum(c)
    ensures AllDigits(r) && DigitsValue(r) == CharValue(c)
    ensures |r| == (if IsDigit(c) then 1 else 2)
  {
    if IsDigit(c) then [c]
    else
      var v := c as int - 'A' as int + 10;
      NatDigitsValue(v);
      NatDigits(v)
  }

  /** The decimal string the source builds before handing it to big.Int. */
  function Expand(t: string): (r: string)
    requires AllUpperAlnum(t)
    ensures AllDigits(r)
  {
    if |t| == 0 then [] else Expand(t[..|t| - 1]) + CharDigits(t[|t| - 1])
  }

  /** Parsing the expanded decimal string yields the MOD 97-10 number. */
  lemma {:induction false} ExpandValue(t: string)
    requires AllUpperAlnum(t)
    ensures DigitsValue(Expand(t)) == IbanNumber(t)
  {
    if |t| > 0 {
      var c := t[|t| - 1];
      ExpandValue(t[..|t| - 1]);
      DigitsValueAppend(Expand(t[..|t| - 1]), CharDigits(c));
      assert Pow10(|CharDigits(c)|) == (if IsDigit(c) then 10 else 100);
    }
  }

  lemma ExpandSnoc(t: string, i: int)
    requires 0 <= i < |t| && AllUpperAlnum(t[..i]) && IsUpperAlnum(t[i])
    ensures AllUpperAlnum(t[..i + 1])
    ensures Expand(t[..i + 1]) == Expand(t[..i]) + CharDigits(t[i])
  {
    assert t[..i + 1][..i] == t[..i];
  }

  /** The character loop of validateMod97: the decimal string of an
      upper-case alphanumeric string, or failure at the first other character. */
  method ExpandDigits(upper: string) returns (ok: bool, digits: string)
    ensures ok == AllUpperAlnum(upper)
    ensures ok ==> digits == Expand(upper)
  {
    digits := [];
    for i := 0 to |upper|
      invariant AllUpperAlnum(upper[..i])
      invariant digits == Expand(upper[..i])
    {
      var c := upper[i];
      if '0' <= c <= '9' {
        ExpandSnoc(upper, i);
        assert CharDigits(c) == [c];
        digits := digits + [c];
      } else if 'A' <= c <= 'Z' {
        ExpandSnoc(upper, i);
        assert CharDigits(c) == NatDigits(c as int - 'A' as int + 10);
        digits := digits + NatDigits(c as int - 'A' as int + 10);
      } else {
        assert !IsUpperAlnum(upper[i]);
        return false, [];
      }
    }
    assert upper[..|upper|] == upper;
    ok := true;
  }

  /** validateMod97: builds the decimal string character by character, then
      reduces it modulo 97. */
  method ValidateMod97(s: string) returns (ok: bool)
    ensures ok == ValidMod97(s)
  {
    if |s| < 5 {
      return false;
    }
    var rearranged := s[4..] + s[..4];
    var upper := ToUpper(rearranged);
    var alnum, digits := ExpandDigits(upper);
    if !alnum {
      return false;
    }
    // digits holds at least one decimal digit, so big.Int accepts it.
    ExpandValue(upper);
    var n := DigitsValue(digits);
    ok := n % 97 == 1;
  }

  // ---- Luhn ----

  function DigitValue(c: char): nat
    requires IsDigit(c)
  {
    c as int - '0' as int
  }

  /** One digit's contribution: doubled digits above 9 lose 9. */
  function LuhnTerm(d: nat, doubled: bool): nat {
    if doubled then (if 2 * d > 9 then 2 * d - 9 else 2 * d) else d
  }

  /** The Luhn sum read from the right: the last digit as given, the one before
      it doubled, and so on alternately. */
  function LuhnSum(s: string, doubled: bool): nat
    requires AllDigits(s)
  {
    if |s| == 0 then 0
    else LuhnTerm(DigitValue(s[|s| - 1]), doubled) + LuhnSum(s[..|s| - 1], !doubled)
  }

  /** A non-empty digit string whose Luhn sum is a multiple of 10. */
  predicate ValidLuhn(s: string) {
    |s| > 0 && AllDigits(s) && LuhnSum(s, false) % 10 == 0
  }

  /** The source's left-to-right sum: position i is doubled when i % 2 == parity. */
  function ParitySum(s: string, parity: nat): nat
    requires AllDigits(s)
  {
    if |s| == 0 then 0
    else ParitySum(s[..|s| - 1], parity) + LuhnTerm(DigitValue(s[|s| - 1]), (|s| - 1) % 2 == parity)
  }

  /** Doubling the positions whose parity differs from the length's is doubling
      every second digit counted from the right. */
  lemma {:induction false} ParitySumFromRight(s: string, parity: nat)
    requires AllDigits(s) && parity < 2
    ensures ParitySum(s, parity) == LuhnSum(s, (|s| - 1) % 2 == parity)
  {
    if |s| > 0 {
      ParitySumFromRight(s[..|s| - 1], parity);
    }
  }

  /** validateLuhn: one pass from the left with the doubling parity fixed by the
      length. */
  method ValidateLuhn(s: string) returns (ok: bool)
    ensures ok == ValidLuhn(s)
  {
    if |s| == 0 {
      return false;
    }
    var sum := 0;
    var n := |s|;
    var parity := n % 2;
    for i := 0 to n
      invariant AllDigits(s[..i])
      invariant sum == ParitySum(s[..i], parity)
    {
      assert s[..i + 1][..i] == s[..i];
      if !('0' <= s[i] <= '9') {
        assert !AllDigits(s);
        return false;
      }
      var d := s[i] as int - '0' as int;
      if i % 2 == parity {
        d := d * 2;
        if d > 9 {
          d := d - 9;
        }
      }
      sum := sum + d;
    }
    assert s[..n] == s;
    ParitySumFromRight(s, parity);
    ok := sum % 10 == 0;
  }

  // ---- French NIR ----

  /** The 13-character body with the first "2A" read as 19 and then the first
      "2B" read as 20 (Corsican departments). */
  function CorsicaBody(body: string): (r: string)
    ensures |r| == |body|
  {
    ReplaceFirstSameLength(body, "2A", "19");
    ReplaceFirstSameLength(ReplaceFirst(body, "2A", "19"), "2B", "20");
    ReplaceFirst(ReplaceFirst(body, "2A", "19"), "2B", "20")
  }

  lemma ReplaceFirstSameLength(s: string, pat: string, repl: string)
    requires |pat| > 0 && |repl| == |pat|
    ensures |ReplaceFirst(s, pat, repl)| == |s|
  {
  }

  /** A NIR is 15 characters: a 13-character body that is all digits once the
      Corsican departments are substituted, and a two-digit key equal to
      97 - (body mod 97). */
  predicate ValidNir(s: string) {
    |s| == 15 && AllDigits(s[13..]) &&
    var body := CorsicaBody(s[..13]);
    AllDigits(body) && DigitsValue(s[13..]) == 97 - DigitsValue(body) % 97
  }

  /** Reads a run of decimal digits as the source's two loops do, failing on the
      first non-digit. */
  method ParseDigits(t: string) returns (ok: bool, v: int)
    ensures ok == AllDigits(t)
    ensures ok ==> v == DigitsValue(t)
  {
    v := 0;
    for i := 0 to |t|
      invariant AllDigits(t[..i]) && v == DigitsValue(t[..i])
    {
      var c := t[i];
      if c < '0' || c > '9' {
        assert !AllDigits(t);
        return false, 0;
      }
      assert t[..i + 1][..i] == t[..i];
      v := v * 10 + (c as int - '0' as int);
    }
    assert t[..|t|] == t;
    ok := true;
  }

  /** validateNIR: check key first, then the substituted body. */
  method ValidateNir(s: string) returns (ok: bool)
    ensures ok == ValidNir(s)
  {
    if |s| != 15 {
      return false;
    }
    assert s[13..15] == s[13..];
    var keyOk, key := ParseDigits(s[13..15]);
    if !keyOk {
      return false;
    }
    var body := s[..13];
    body := ReplaceFirst(body, "2A", "19");
    body := ReplaceFirst(body, "2B", "20");
    assert body == CorsicaBody(s[..13]);
    var bodyOk, bodyNum := ParseDigits(body);
    if !bodyOk {
      return false;
    }
    ok := key == 97 - bodyNum % 97;
  }

  /** The key of a valid NIR is between 1 and 97. */
  lemma NirKeyRange(s: string)
    requires ValidNir(s)
    ensures 1 <= DigitsValue(s[13..]) <= 97
  {
  }

  // ---- matching ----

  predicate Check(v: Validator, s: string) {
    match v
    case NoValidator => true
    case Mod97 => ValidMod97(s)
    case Luhn => ValidLuhn(s)
    case Nir => ValidNir(s)
  }

  /** A pattern accepts a cleaned term when its expression matches and its
      validator, if any, agrees. */
  predicate Accepts(p: CompiledPattern, cleaned: string) {
    p.re(cleaned) && Check(p.validator, cleaned)
  }

  method RunValidator(v: Validator, s: string) returns (ok: bool)
    ensures ok == Check(v, s)
  {
    match v {
      case NoValidator => ok := true;
      case Mod97 => ok := ValidateMod97(s);
      case Luhn => ok := ValidateLuhn(s);
      case Nir => ok := ValidateNir(s);
    }
  }

  /** The first pattern at or after `k` that accepts the term. */
  function FirstAccepting(patterns: seq<CompiledPattern>, cleaned: string, k: nat): (r: Option<nat>)
    requires k <= |patterns|
    ensures r.Some? ==> k <= r.value < |patterns| && Accepts(patterns[r.value], cleaned)
    ensures r.Some? ==> forall j :: k <= j < r.value ==> !Accepts(patterns[j], cleaned)
    ensures r.None? ==> forall j :: k <= j < |patterns| ==> !Accepts(patterns[j], cleaned)
    decreases |patterns| - k
  {
    if k == |patterns| then None
    else if Accepts(patterns[k], cleaned) then Some(k)
    else FirstAccepting(patterns, cleaned, k + 1)
  }

  /** The result of match as a value: the name of the first accepting pattern
      on the term with its spaces removed. */
  function MatchOf(patterns: seq<CompiledPattern>, term: string): (string, bool) {
    match FirstAccepting(patterns, RemoveAll(term, ' '), 0)
    case Some(i) => (patterns[i].name, true)
    case None => ("", false)
  }

  /** match: spaces are removed, then patterns are tried in order and the first
      whose expression and validator both accept wins. */
  method Match(patterns: seq<CompiledPattern>, term: string) returns (name: string, ok: bool)
    ensures (name, ok) == MatchOf(patterns, term)
    ensures ok <==> exists i :: 0 <= i < |patterns| && Accepts(patterns[i], RemoveAll(term, ' '))
    ensures ok ==> exists i :: 0 <= i < |patterns| && name == patterns[i].name
                              && Accepts(patterns[i], RemoveAll(term, ' '))
                              && forall j :: 0 <= j < i ==> !Accepts(patterns[j], RemoveAll(term, ' '))
    ensures !ok ==> name == ""
  {
    var cleaned := RemoveAll(term, ' ');
    for i := 0 to |patterns|
      invariant FirstAccepting(patterns, cleaned, 0) == FirstAccepting(patterns, cleaned, i)
    {
      var p := patterns[i];
      if !p.re(cleaned) {
        continue;
      }
      var valid := RunValidator(p.validator, cleaned);
      if !valid {
        continue;
      }
      return p.name, true;
    }
    return "", false;
  }

  /** Spaces anywhere in a term do not change what it matches:
      "FR76 3000 6000 ..." classifies as the unspaced IBAN does. */
  lemma MatchIgnoresSpaces(patterns: seq<CompiledPattern>, a: string, b: string)
    ensures MatchOf(patterns, a + " " + b) == MatchOf(patterns, a + b)
  {
    var sp := " ";
    assert sp[1..] == [];
    assert RemoveAll(sp, ' ') == [];
    RemoveAllConcat(a + sp, b, ' ');
    RemoveAllConcat(a, sp, ' ');
    assert RemoveAll(a + sp, ' ') == RemoveAll(a, ' ');
    RemoveAllConcat(a, b, ' ');
  }
}
