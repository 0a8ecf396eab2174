/** Kubernetes API versions: parsing, canonical rendering, and the two orders on them. */
module Versions {
  import opened Common

  datatype Version =
    | Stable(major: U32)
    | Beta(major: U32, minor: Option<U32>)
    | Alpha(major: U32, minor: Option<U32>)
    | Nonconformant(text: string)

  // ---------------------------------------------------------------- numbers

  predicate IsDigit(c: char) { '0' <= c <= '9' }

  predicate AllDigits(s: string) {
    forall i | 0 <= i < |s| :: IsDigit(s[i])
  }

  function ValueOf(digits: string): nat
    requires AllDigits(digits)
  {
    if digits == "" then 0
    else 10 * ValueOf(digits[..|digits| - 1]) + (digits[|digits| - 1] as int - '0' as int)
  }

  function DigitChar(d: nat): (c: char)
    requires d < 10
    ensures IsDigit(c) && c as int - '0' as int == d
  {
    ('0' as int + d) as char
  }

  /** Decimal digits without leading zeros. */
  function Decimal(n: nat): string {
    if n < 10 then [DigitChar(n)] else Decimal(n / 10) + [DigitChar(n % 10)]
  }

  /** `str::parse::<u32>`: an optional plus, then at least one digit, within range. */
  function ParseU32(s: string): Option<U32> {
    var digits := if s != "" && s[0] == '+' then s[1..] else s;
    if digits != "" && AllDigits(digits) && ValueOf(digits) <= MAX_U32 then Some(ValueOf(digits)) else None
  }

  lemma {:induction false} DecimalParses(n: nat)
    ensures Decimal(n) != "" && AllDigits(Decimal(n)) && ValueOf(Decimal(n)) == n
  {
    if n >= 10 {
      DecimalParses(n / 10);
      assert Decimal(n)[..|Decimal(n)| - 1] == Decimal(n / 10);
    } else {
      assert Decimal(n)[..0] == "";
    }
  }

  lemma ParseDecimal(n: U32)
    ensures ParseU32(Decimal(n)) == Some(n)
  {
    DecimalParses(n);
  }

  // ---------------------------------------------------------------- parsing

  /** The longest prefix of digits. */
  function LeadingDigits(s: string): (d: string)
    ensures d <= s && AllDigits(d)
  {
    if s == "" || !IsDigit(s[0]) then "" else [s[0]] + LeadingDigits(s[1..])
  }

  function ParseMinor(suffix: string, make: Option<U32> -> Version): Option<Version> {
    if suffix == "" then Some(make(None))
    else
      match ParseU32(suffix)
      case None => None
      case Some(minor) => Some(make(Some(minor)))
  }

  /** What follows the major number. */
  function ParseTail(major: U32, tail: string): Option<Version> {
    if tail == "" then Some(Stable(major))
    else if "alpha" <= tail then ParseMinor(tail[5..], minor => Alpha(major, minor))
    else if "beta" <= tail then ParseMinor(tail[4..], minor => Beta(major, minor))
    else None
  }

  function TryParse(v: string): Option<Version> {
    if v == "" || v[0] != 'v' then None
    else
      var rest := v[1..];
      var digits := LeadingDigits(rest);
      match ParseU32(digits)
      case None => None
      case Some(major) => ParseTail(major, rest[|digits|..])
  }

  function Parse(v: string): Version {
    TryParse(v).GetOr(Nonconformant(v))
  }

  function RenderMinor(minor: Option<U32>): string {
    if minor.Some? then Decimal(minor.value) else ""
  }

  function Render(v: Version): string {
    match v
    case Stable(major) => "v" + Decimal(major)
    case Beta(major, minor) => "v" + Decimal(major) + "beta" + RenderMinor(minor)
    case Alpha(major, minor) => "v" + Decimal(major) + "alpha" + RenderMinor(minor)
    case Nonconformant(text) => text
  }

  lemma {:induction false} LeadingDigitsOf(d: string, rest: string)
    requires AllDigits(d) && (rest != "" ==> !IsDigit(rest[0]))
    ensures LeadingDigits(d + rest) == d
  {
    if d == "" {
      assert d + rest == rest;
    } else {
      assert (d + rest)[1..] == d[1..] + rest;
      LeadingDigitsOf(d[1..], rest);
    }
  }

  /** How a spelled-out version parses: digits, a word, and what follows the word. */
  function Meaning(digits: string, word: string, suffix: string): Option<Version> {
    match ParseU32(digits)
    case None => None
    case Some(major) =>
      if word == "alpha" then ParseMinor(suffix, minor => Alpha(major, minor))
      else if word == "beta" then ParseMinor(suffix, minor => Beta(major, minor))
      else Some(Stable(major))
  }

  lemma ParseSpelled(digits: string, word: string, suffix: string)
    requires AllDigits(digits) && word in {"", "alpha", "beta"} && (word == "" ==> suffix == "")
    ensures TryParse("v" + digits + word + suffix) == Meaning(digits, word, suffix)
  {
    var s := "v" + digits + word + suffix;
    var tail := word + suffix;
    assert s[1..] == digits + tail;
    LeadingDigitsOf(digits, tail);
    assert s[1..][|digits|..] == tail;
    if word != "" {
      assert tail[|word|..] == suffix && word <= tail;
      assert word == "beta" ==> tail[0] == 'b';
      assert "alpha"[0] == 'a';
    }
  }

  /** Main result: parsing inverts the canonical rendering of every conformant version. */
  lemma ParseRender(v: Version)
    requires !v.Nonconformant?
    ensures Parse(Render(v)) == v
  {
    ParseDecimal(v.major);
    DecimalParses(v.major);
    match v
    case Stable(major) =>
      ParseSpelled(Decimal(major), "", "");
      assert "v" + Decimal(major) + "" + "" == Render(v);
    case Beta(major, minor) =>
      if minor.Some? { ParseDecimal(minor.value); DecimalParses(minor.value); }
      ParseSpelled(Decimal(major), "beta", RenderMinor(minor));
    case Alpha(major, minor) =>
      if minor.Some? { ParseDecimal(minor.value); DecimalParses(minor.value); }
      ParseSpelled(Decimal(major), "alpha", RenderMinor(minor));
  }

  /** Main result: rendering and parsing again changes nothing, whatever was parsed. */
  lemma ReparseStable(s: string)
    ensures Parse(Render(Parse(s))) == Parse(s)
  {
    if !Parse(s).Nonconformant? {
      ParseRender(Parse(s));
    }
  }

  /** Main result: what the words stand for, with the numbers written in decimal. */
  lemma WordsMean(major: U32, minor: U32)
    ensures Parse("v" + Decimal(major) + "" + "") == Stable(major)
    ensures Parse("v" + Decimal(major) + "beta" + "") == Beta(major, None)
    ensures Parse("v" + Decimal(major) + "alpha" + "") == Alpha(major, None)
    ensures Parse("v" + Decimal(major) + "beta" + Decimal(minor)) == Beta(major, Some(minor))
    ensures Parse("v" + Decimal(major) + "alpha" + Decimal(minor)) == Alpha(major, Some(minor))
  {
    ParseDecimal(major);
    DecimalParses(major);
    ParseDecimal(minor);
    DecimalParses(minor);
    ParseSpelled(Decimal(major), "", "");
    ParseSpelled(Decimal(major), "beta", "");
    ParseSpelled(Decimal(major), "alpha", "");
    ParseSpelled(Decimal(major), "beta", Decimal(minor));
    ParseSpelled(Decimal(major), "alpha", Decimal(minor));
  }

  // ---------------------------------------------------------------- grammar

  /** A number the parser accepts: at least one digit, at most the largest 32-bit value. */
  predicate Number(s: string) {
    s != "" && AllDigits(s) && ValueOf(s) <= MAX_U32
  }

  predicate Minor(s: string) {
    s == "" || Number(s) || (s[0] == '+' && Number(s[1..]))
  }

  ghost predicate Spells(s: string, digits: string, word: string, suffix: string) {
    && s == "v" + digits + word + suffix
    && Number(digits)
    && (word == "alpha" || word == "beta" || (word == "" && suffix == ""))
    && Minor(suffix)
  }

  lemma ParseU32Iff(s: string)
    ensures ParseU32(s).Some? <==> Number(s) || (s != "" && s[0] == '+' && Number(s[1..]))
  {
    if s != "" && s[0] == '+' {
      assert !IsDigit(s[0]);
    }
  }

  lemma DigitsNumber(s: string)
    requires AllDigits(s)
    ensures ParseU32(s).Some? <==> Number(s)
  {
    if s != "" {
      assert IsDigit(s[0]);
    }
  }

  lemma TailSpells(major: U32, tail: string) returns (word: string, suffix: string)
    requires ParseTail(major, tail).Some?
    ensures tail == word + suffix && Minor(suffix)
    ensures word == "alpha" || word == "beta" || (word == "" && suffix == "")
  {
    word := if "alpha" <= tail then "alpha" else if "beta" <= tail then "beta" else "";
    suffix := tail[|word|..];
    ParseU32Iff(suffix);
  }

  lemma Assemble(s: string, digits: string, tail: string, word: string, suffix: string)
    requires s != "" && s[0] == 'v' && s[1..] == digits + tail && tail == word + suffix
    ensures s == "v" + digits + word + suffix
  {
    assert s == "v" + s[1..];
    assert digits + (word + suffix) == digits + word + suffix;
  }

  lemma ParsedParts(s: string) returns (digits: string, tail: string)
    requires TryParse(s).Some?
    ensures s != "" && s[0] == 'v' && s[1..] == digits + tail
    ensures Number(digits) && ParseU32(digits).Some? && ParseTail(ParseU32(digits).value, tail).Some?
  {
    digits := LeadingDigits(s[1..]);
    tail := s[1..][|digits|..];
    DigitsNumber(digits);
  }

  lemma ParsedSpells(s: string) returns (digits: string, word: string, suffix: string)
    requires TryParse(s).Some?
    ensures Spells(s, digits, word, suffix)
  {
    var tail;
    digits, tail := ParsedParts(s);
    word, suffix := TailSpells(ParseU32(digits).value, tail);
    Assemble(s, digits, tail, word, suffix);
  }

  lemma SpelledParses(s: string, digits: string, word: string, suffix: string)
    requires Spells(s, digits, word, suffix)
    ensures TryParse(s).Some? && !TryParse(s).value.Nonconformant?
  {
    DigitsNumber(digits);
    ParseU32Iff(suffix);
    ParseSpelled(digits, word, suffix);
  }

  /** Main result: `Nonconformant` comes out exactly for the strings outside the grammar. */
  lemma ConformantIff(s: string)
    ensures !Parse(s).Nonconformant? <==> exists digits, word, suffix :: Spells(s, digits, word, suffix)
    ensures Parse(s).Nonconformant? ==> Parse(s).text == s
  {
    if TryParse(s).Some? {
      var digits, word, suffix := ParsedSpells(s);
      SpelledParses(s, digits, word, suffix);
    }
    if digits, word, suffix :| Spells(s, digits, word, suffix) {
      SpelledParses(s, digits, word, suffix);
    }
  }

  /** The minor number a suffix stands for; a leading plus and leading zeros do not count. */
  function MinorOf(suffix: string): Option<nat>
    requires Minor(suffix)
  {
    if suffix == "" then None
    else if suffix[0] == '+' then Some(ValueOf(suffix[1..]))
    else Some(ValueOf(suffix))
  }

  lemma PlainParses(digits: string)
    requires Number(digits)
    ensures ParseU32(digits) == Some(ValueOf(digits))
  {
    assert IsDigit(digits[0]);
  }

  lemma MinorParses(suffix: string)
    requires Minor(suffix) && suffix != ""
    ensures ParseU32(suffix).Some? && Some(ParseU32(suffix).value as nat) == MinorOf(suffix)
  {
    if suffix[0] == '+' {
      assert !IsDigit(suffix[0]);
    } else {
      PlainParses(suffix);
    }
  }

  /** Main result: what each string of the grammar parses to, number by number. */
  lemma SpelledMeans(s: string, digits: string, word: string, suffix: string)
    requires Spells(s, digits, word, suffix)
    ensures
      match Parse(s)
      case Stable(major) => word == "" && major == ValueOf(digits)
      case Beta(major, minor) => word == "beta" && major == ValueOf(digits) && minor == MinorOf(suffix)
      case Alpha(major, minor) => word == "alpha" && major == ValueOf(digits) && minor == MinorOf(suffix)
      case Nonconformant(_) => false
  {
    PlainParses(digits);
    ParseSpelled(digits, word, suffix);
    if suffix != "" {
      MinorParses(suffix);
    }
  }
}
