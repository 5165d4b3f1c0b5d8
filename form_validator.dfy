/**
 * The field-type classifier of form_validator.py.
 *
 * Every pattern there is matched with `re.match` and anchored by `^` and `$`.
 * Under `re.match`, `$` matches at the end of the value or just before one
 * final newline, so each pattern accepts its body optionally followed by a
 * single "\n". The fixed-width patterns (phone and the two date shapes)
 * are written as sequences of one-character atoms; the e-mail pattern, whose
 * parts have variable length, is written as an existential split.
 */
module FormValidator {

  // ---------------------------------------------------------------------------
  // Character classes
  // ---------------------------------------------------------------------------

  /** `\d`, restricted to the ASCII digits. */
  predicate IsDigit(c: char) {
    '0' <= c <= '9'
  }

  /** `\s` in a str pattern: exactly the characters for which Python's str.isspace holds. */
  predicate IsSpace(c: char) {
    var n := c as int;
    || 0x09 <= n <= 0x0D
    || 0x1C <= n <= 0x20
    || n == 0x85 || n == 0xA0 || n == 0x1680
    || 0x2000 <= n <= 0x200A
    || n == 0x2028 || n == 0x2029 || n == 0x202F || n == 0x205F || n == 0x3000
  }

  /** `[a-zA-Z]` */
  predicate IsAsciiLetter(c: char) {
    'a' <= c <= 'z' || 'A' <= c <= 'Z'
  }

  /** `[a-zA-Z0-9._%+-]`, the local part of an e-mail address. */
  predicate IsLocalChar(c: char) {
    IsAsciiLetter(c) || IsDigit(c) || c == '.' || c == '_' || c == '%' || c == '+' || c == '-'
  }

  /** `[a-zA-Z0-9.-]`, the domain of an e-mail address. */
  predicate IsDomainChar(c: char) {
    IsAsciiLetter(c) || IsDigit(c) || c == '.' || c == '-'
  }

  predicate All(s: string, p: char -> bool) {
    forall i :: 0 <= i < |s| ==> p(s[i])
  }

  /** Number of occurrences of c in s. */
  function Count(s: string, c: char): nat {
    if s == [] then 0 else Count(s[..|s| - 1], c) + (if s[|s| - 1] == c then 1 else 0)
  }

  // ---------------------------------------------------------------------------
  // Fixed-width patterns
  // ---------------------------------------------------------------------------

  /** One position of a fixed-width pattern: a literal character, `\d` or `\s`. */
  datatype Atom = Lit(c: char) | Digit | Space

  type Pattern = seq<Atom>

  predicate AtomMatches(a: Atom, c: char) {
    match a
    case Lit(x) => c == x
    case Digit => IsDigit(c)
    case Space => IsSpace(c)
  }

  /** The pattern matches the whole of s: one character per atom, each accepted by its atom. */
  predicate MatchesAll(p: Pattern, s: string) {
    |s| == |p| && forall i :: 0 <= i < |p| ==> AtomMatches(p[i], s[i])
  }

  /** `\+7\s\d{3}\s\d{3}\s\d{2}\s\d{2}` */
  const PhonePattern: Pattern :=
    [Lit('+'), Lit('7'), Space, Digit, Digit, Digit, Space, Digit, Digit, Digit,
     Space, Digit, Digit, Space, Digit, Digit]

  /** `\d{2}\.\d{2}\.\d{4}` */
  const DottedDatePattern: Pattern :=
    [Digit, Digit, Lit('.'), Digit, Digit, Lit('.'), Digit, Digit, Digit, Digit]

  /** `\d{4}-\d{2}-\d{2}` */
  const IsoDatePattern: Pattern :=
    [Digit, Digit, Digit, Digit, Lit('-'), Digit, Digit, Lit('-'), Digit, Digit]

  /**
   * `re.match('^' + p + '$', s)`: the pattern matches all of s, or all of s but one
   * final newline (`$` also matches just before a newline that ends the string).
   */
  predicate Matches(p: Pattern, s: string) {
    MatchesAll(p, s) || (|s| > 0 && s[|s| - 1] == '\n' && MatchesAll(p, s[..|s| - 1]))
  }

  /** A match has the pattern's length, plus one for a final newline. */
  lemma MatchesLength(p: Pattern, s: string)
    requires Matches(p, s)
    ensures |s| == |p| || (|s| == |p| + 1 && s[|p|] == '\n')
  {
  }

  // ---------------------------------------------------------------------------
  // Phone
  // ---------------------------------------------------------------------------

  /** validate_phone */
  predicate ValidatePhone(value: string) {
    Matches(PhonePattern, value)
  }

  /** `+7`, a separator, 3 digits, a separator, 3 digits, a separator, 2 digits, a separator, 2 digits. */
  predicate PhoneShape(s: string) {
    && |s| == 16
    && s[0] == '+' && s[1] == '7'
    && IsSpace(s[2]) && IsSpace(s[6]) && IsSpace(s[10]) && IsSpace(s[13])
    && (forall i :: 0 <= i < 16 && i != 0 && i != 1 && i != 2 && i != 6 && i != 10 && i != 13 ==> IsDigit(s[i]))
  }


  lemma PhoneShapeAtoms(s: string)
    requires PhoneShape(s)
    ensures forall i :: 0 <= i < |PhonePattern| ==> AtomMatches(PhonePattern[i], s[i])
  {
    forall i | 0 <= i < 16 ensures AtomMatches(PhonePattern[i], s[i]) {
      if i != 0 && i != 1 && i != 2 && i != 6 && i != 10 && i != 13 {
        assert IsDigit(s[i]);
      }
    }
  }

  lemma AtomsPhoneShape(s: string)
    requires |s| == |PhonePattern|
    requires forall i :: 0 <= i < |PhonePattern| ==> AtomMatches(PhonePattern[i], s[i])
    ensures PhoneShape(s)
  {
    forall i | 0 <= i < 16 && i != 0 && i != 1 && i != 2 && i != 6 && i != 10 && i != 13
      ensures IsDigit(s[i])
    {
      assert AtomMatches(PhonePattern[i], s[i]);
    }
    assert AtomMatches(PhonePattern[0], s[0]) && AtomMatches(PhonePattern[1], s[1]);
    assert AtomMatches(PhonePattern[2], s[2]) && AtomMatches(PhonePattern[6], s[6]);
    assert AtomMatches(PhonePattern[10], s[10]) && AtomMatches(PhonePattern[13], s[13]);
  }

  lemma PhonePatternShape(s: string)
    ensures MatchesAll(PhonePattern, s) <==> PhoneShape(s)
  {
    if PhoneShape(s) {
      PhoneShapeAtoms(s);
    }
    if MatchesAll(PhonePattern, s) {
      AtomsPhoneShape(s);
    }
  }

  /** validate_phone accepts exactly the phone shape, optionally followed by one newline. */
  lemma PhoneIff(value: string)
    ensures ValidatePhone(value) <==>
              PhoneShape(value) || (|value| > 0 && value[|value| - 1] == '\n' && PhoneShape(value[..|value| - 1]))
  {
    PhonePatternShape(value);
    if |value| > 0 {
      PhonePatternShape(value[..|value| - 1]);
    }
  }


  /** An accepted phone has 16 characters (17 with the final newline). */
  lemma PhoneLength(value: string)
    requires ValidatePhone(value)
    ensures |value| == 16 || (|value| == 17 && value[16] == '\n')
  {
    MatchesLength(PhonePattern, value);
  }

  // ---------------------------------------------------------------------------
  // Date
  // ---------------------------------------------------------------------------

  /** The value of one ASCII digit. */
  function DigitValue(c: char): int {
    c as int - '0' as int
  }

  /** `int(s)` for a string of ASCII digits. */
  function DecimalValue(s: string): int {
    if s == [] then 0 else DecimalValue(s[..|s| - 1]) * 10 + DigitValue(s[|s| - 1])
  }

  /** The numeric check shared by both date shapes (no month length, no leap years). */
  predicate InRange(day: int, month: int, year: int) {
    1 <= month <= 12 && 1 <= day <= 31 && year >= 1900
  }

  /**
   * validate_date. After a pattern has matched, `value.split(sep)` cuts the value at
   * the two separator positions and `int` turns each part into its decimal value
   * (a final newline, left on the last part, is stripped by `int`).
   */
  predicate ValidateDate(value: string) {
    if Matches(DottedDatePattern, value) then
      MatchesLength(DottedDatePattern, value);
      InRange(DecimalValue(value[0..2]), DecimalValue(value[3..5]), DecimalValue(value[6..10]))
    else if Matches(IsoDatePattern, value) then
      MatchesLength(IsoDatePattern, value);
      InRange(DecimalValue(value[8..10]), DecimalValue(value[5..7]), DecimalValue(value[0..4]))
    else
      false
  }

  /** `DD.MM.YYYY`: digits everywhere but at the two dots. */
  predicate DottedShape(s: string) {
    && |s| == 10
    && s[2] == '.' && s[5] == '.'
    && (forall i :: 0 <= i < 10 && i != 2 && i != 5 ==> IsDigit(s[i]))
  }

  /** `YYYY-MM-DD`: digits everywhere but at the two dashes. */
  predicate IsoShape(s: string) {
    && |s| == 10
    && s[4] == '-' && s[7] == '-'
    && (forall i :: 0 <= i < 10 && i != 4 && i != 7 ==> IsDigit(s[i]))
  }

  lemma DottedShapeAtoms(s: string)
    requires DottedShape(s)
    ensures forall i :: 0 <= i < |DottedDatePattern| ==> AtomMatches(DottedDatePattern[i], s[i])
  {
    forall i | 0 <= i < 10 ensures AtomMatches(DottedDatePattern[i], s[i]) {
      if i != 2 && i != 5 {
        assert IsDigit(s[i]);
      }
    }
  }

  lemma AtomsDottedShape(s: string)
    requires |s| == |DottedDatePattern|
    requires forall i :: 0 <= i < |DottedDatePattern| ==> AtomMatches(DottedDatePattern[i], s[i])
    ensures DottedShape(s)
  {
    forall i | 0 <= i < 10 && i != 2 && i != 5 ensures IsDigit(s[i]) {
      assert AtomMatches(DottedDatePattern[i], s[i]);
    }
    assert AtomMatches(DottedDatePattern[2], s[2]) && AtomMatches(DottedDatePattern[5], s[5]);
  }

  lemma DottedPatternShape(s: string)
    ensures MatchesAll(DottedDatePattern, s) <==> DottedShape(s)
  {
    if DottedShape(s) {
      DottedShapeAtoms(s);
    }
    if MatchesAll(DottedDatePattern, s) {
      AtomsDottedShape(s);
    }
  }

  lemma IsoShapeAtoms(s: string)
    requires IsoShape(s)
    ensures forall i :: 0 <= i < |IsoDatePattern| ==> AtomMatches(IsoDatePattern[i], s[i])
  {
    forall i | 0 <= i < 10 ensures AtomMatches(IsoDatePattern[i], s[i]) {
      if i != 4 && i != 7 {
        assert IsDigit(s[i]);
      }
    }
  }

  lemma AtomsIsoShape(s: string)
    requires |s| == |IsoDatePattern|
    requires forall i :: 0 <= i < |IsoDatePattern| ==> AtomMatches(IsoDatePattern[i], s[i])
    ensures IsoShape(s)
  {
    forall i | 0 <= i < 10 && i != 4 && i != 7 ensures IsDigit(s[i]) {
      assert AtomMatches(IsoDatePattern[i], s[i]);
    }
    assert AtomMatches(IsoDatePattern[4], s[4]) && AtomMatches(IsoDatePattern[7], s[7]);
  }

  lemma IsoPatternShape(s: string)
    ensures MatchesAll(IsoDatePattern, s) <==> IsoShape(s)
  {
    if IsoShape(s) {
      IsoShapeAtoms(s);
    }
    if MatchesAll(IsoDatePattern, s) {
      AtomsIsoShape(s);
    }
  }

  /** Both characterisations of the date patterns at once, for the value and for the value minus a final newline. */
  lemma DatePatternsShape(value: string)
    ensures Matches(DottedDatePattern, value) <==>
              DottedShape(value) || (|value| > 0 && value[|value| - 1] == '\n' && DottedShape(value[..|value| - 1]))
    ensures Matches(IsoDatePattern, value) <==>
              IsoShape(value) || (|value| > 0 && value[|value| - 1] == '\n' && IsoShape(value[..|value| - 1]))
  {
    DottedPatternShape(value);
    IsoPatternShape(value);
    if |value| > 0 {
      DottedPatternShape(value[..|value| - 1]);
      IsoPatternShape(value[..|value| - 1]);
    }
  }

  /** DecimalValue on the two- and four-character parts of a date, written out digit by digit. */
  lemma DecimalValueDigits(s: string)
    ensures |s| == 2 ==> DecimalValue(s) == 10 * DigitValue(s[0]) + DigitValue(s[1])
    ensures |s| == 4 ==> DecimalValue(s) == 1000 * DigitValue(s[0]) + 100 * DigitValue(s[1])
                                            + 10 * DigitValue(s[2]) + DigitValue(s[3])
  {
    if |s| == 2 {
      var s1 := s[..1];
      assert s1[..0] == [] && s1[0] == s[0];
      assert DecimalValue(s1) == DigitValue(s[0]);
    }
    if |s| == 4 {
      var s3 := s[..3];
      var s2 := s3[..2];
      var s1 := s2[..1];
      assert s1[..0] == [] && s1[0] == s[0] && s2[1] == s[1] && s3[2] == s[2];
      assert DecimalValue(s1) == DigitValue(s[0]);
      assert DecimalValue(s2) == 10 * DigitValue(s[0]) + DigitValue(s[1]);
      assert DecimalValue(s3) == 100 * DigitValue(s[0]) + 10 * DigitValue(s[1]) + DigitValue(s[2]);
    }
  }

  /**
   * A `DD.MM.YYYY` value, optionally followed by one newline, is a date exactly when its
   * numbers are in range; the day is not checked against the month.
   */
  lemma DottedDateIff(s: string)
    requires DottedShape(s)
    ensures ValidateDate(s) <==>
              InRange(10 * DigitValue(s[0]) + DigitValue(s[1]),
                      10 * DigitValue(s[3]) + DigitValue(s[4]),
                      1000 * DigitValue(s[6]) + 100 * DigitValue(s[7]) + 10 * DigitValue(s[8]) + DigitValue(s[9]))
    ensures ValidateDate(s + "\n") <==>
              InRange(10 * DigitValue(s[0]) + DigitValue(s[1]),
                      10 * DigitValue(s[3]) + DigitValue(s[4]),
                      1000 * DigitValue(s[6]) + 100 * DigitValue(s[7]) + 10 * DigitValue(s[8]) + DigitValue(s[9]))
  {
    DecimalValueDigits(s[0..2]);
    DecimalValueDigits(s[3..5]);
    DecimalValueDigits(s[6..10]);
    DatePatternsShape(s);
    var t := s + "\n";
    assert t[..|t| - 1] == s;
    assert t[0..2] == s[0..2] && t[3..5] == s[3..5] && t[6..10] == s[6..10];
    DatePatternsShape(t);
  }

  /** A `YYYY-MM-DD` value, optionally followed by one newline, is a date exactly when its numbers are in range. */
  lemma IsoDateIff(s: string)
    requires IsoShape(s)
    ensures ValidateDate(s) <==>
              InRange(10 * DigitValue(s[8]) + DigitValue(s[9]),
                      10 * DigitValue(s[5]) + DigitValue(s[6]),
                      1000 * DigitValue(s[0]) + 100 * DigitValue(s[1]) + 10 * DigitValue(s[2]) + DigitValue(s[3]))
    ensures ValidateDate(s + "\n") <==>
              InRange(10 * DigitValue(s[8]) + DigitValue(s[9]),
                      10 * DigitValue(s[5]) + DigitValue(s[6]),
                      1000 * DigitValue(s[0]) + 100 * DigitValue(s[1]) + 10 * DigitValue(s[2]) + DigitValue(s[3]))
  {
    DecimalValueDigits(s[8..10]);
    DecimalValueDigits(s[5..7]);
    DecimalValueDigits(s[0..4]);
    assert IsDigit(s[2]);
    DatePatternsShape(s);
    var t := s + "\n";
    assert t[..|t| - 1] == s;
    assert t[0..4] == s[0..4] && t[5..7] == s[5..7] && t[8..10] == s[8..10];
    DatePatternsShape(t);
  }

  /** Every accepted date has one of the two shapes, optionally followed by one newline. */
  lemma DateShape(value: string)
    requires ValidateDate(value)
    ensures || DottedShape(value) || IsoShape(value)
            || (|value| == 11 && value[10] == '\n' && (DottedShape(value[..10]) || IsoShape(value[..10])))
    ensures |value| > 0 && IsDigit(value[0])
  {
    DatePatternsShape(value);
    if !DottedShape(value) && !IsoShape(value) {
      assert value[0] == value[..10][0];
    }
  }

  // ---------------------------------------------------------------------------
  // E-mail
  // ---------------------------------------------------------------------------

  /** The split of b into a local part, `@`, a domain, `.` and a top-level label at positions at and dot. */
  predicate EmailSplit(b: string, at: int, dot: int) {
    && 0 < at && at + 1 < dot && dot + 3 <= |b|
    && b[at] == '@' && b[dot] == '.'
    && All(b[..at], IsLocalChar) && All(b[at + 1..dot], IsDomainChar) && All(b[dot + 1..], IsAsciiLetter)
  }

  /**
   * `[a-zA-Z0-9._%+-]+@[a-zA-Z0-9.-]+\.[a-zA-Z]{2,}` over the whole of b: some split
   * into a local part of one or more characters, `@`, a domain of one or more
   * characters, `.` and a top-level label of at least two letters.
   */
  predicate EmailBody(b: string) {
    exists at, dot | 0 <= at < |b| && 0 <= dot < |b| :: EmailSplit(b, at, dot)
  }

  /** validate_email */
  predicate ValidateEmail(value: string) {
    EmailBody(value) || (|value| > 0 && value[|value| - 1] == '\n' && EmailBody(value[..|value| - 1]))
  }

  /** The part after `@` holds a `.` followed by at least two letters up to its end. */
  predicate HasTopLevelLabel(d: string) {
    exists dot | 0 <= dot && dot + 3 <= |d| :: d[dot] == '.' && All(d[dot + 1..], IsAsciiLetter)
  }

  lemma {:induction false} CountConcat(a: string, b: string, c: char)
    ensures Count(a + b, c) == Count(a, c) + Count(b, c)
    decreases |b|
  {
    if b != [] {
      assert (a + b)[..|a + b| - 1] == a + b[..|b| - 1];
      CountConcat(a, b[..|b| - 1], c);
    } else {
      assert a + b == a;
    }
  }

  lemma {:induction false} CountAbsent(s: string, c: char)
    requires forall i :: 0 <= i < |s| ==> s[i] != c
    ensures Count(s, c) == 0
  {
    if s != [] {
      CountAbsent(s[..|s| - 1], c);
    }
  }

  /** In a split address the `@` at position at is the only one. */
  lemma EmailSplitAtUnique(b: string, at: int, dot: int)
    requires EmailSplit(b, at, dot)
    ensures forall i :: 0 <= i < |b| && i != at ==> b[i] != '@'
  {
    forall i | 0 <= i < |b| && i != at ensures b[i] != '@' {
      if i < at {
        assert IsLocalChar(b[..at][i]);
      } else if i < dot {
        assert IsDomainChar(b[at + 1..dot][i - at - 1]);
      } else if i > dot {
        assert IsAsciiLetter(b[dot + 1..][i - dot - 1]);
      }
    }
  }

  lemma CountSingle(b: string, c: char, at: int)
    requires 0 <= at < |b| && b[at] == c
    requires forall i :: 0 <= i < |b| && i != at ==> b[i] != c
    ensures Count(b, c) == 1
  {
    assert b == b[..at] + [b[at]] + b[at + 1..];
    CountConcat(b[..at] + [b[at]], b[at + 1..], c);
    CountConcat(b[..at], [b[at]], c);
    CountAbsent(b[..at], c);
    CountAbsent(b[at + 1..], c);
  }

  /** What an accepted address body guarantees: exactly one `@`, not first, and a top-level label after it. */
  lemma EmailBodyFacts(b: string)
    requires EmailBody(b)
    ensures Count(b, '@') == 1
    ensures exists at | 0 < at < |b| :: b[at] == '@' && HasTopLevelLabel(b[at + 1..])
  {
    var at, dot :| EmailSplit(b, at, dot);
    EmailSplitAtUnique(b, at, dot);
    CountSingle(b, '@', at);
    var d := b[at + 1..];
    assert d[dot - at - 1] == '.' && d[dot - at..] == b[dot + 1..];
    assert HasTopLevelLabel(d);
  }

  /** What validate_email guarantees, for the value or the value minus one final newline. */
  lemma EmailFacts(value: string)
    requires ValidateEmail(value)
    ensures || (Count(value, '@') == 1 && exists at | 0 < at < |value| :: value[at] == '@' && HasTopLevelLabel(value[at + 1..]))
            || (&& |value| > 0 && value[|value| - 1] == '\n'
                && var b := value[..|value| - 1];
                   Count(b, '@') == 1 && exists at | 0 < at < |b| :: b[at] == '@' && HasTopLevelLabel(b[at + 1..]))
  {
    if EmailBody(value) {
      EmailBodyFacts(value);
    } else {
      EmailBodyFacts(value[..|value| - 1]);
    }
  }

  /** Conversely, a local part, `@`, a domain, `.` and a label of two or more letters always form an address. */
  lemma EmailFromParts(local: string, domain: string, tld: string)
    requires |local| > 0 && All(local, IsLocalChar)
    requires |domain| > 0 && All(domain, IsDomainChar)
    requires |tld| >= 2 && All(tld, IsAsciiLetter)
    ensures ValidateEmail(local + "@" + domain + "." + tld)
  {
    var b := local + "@" + domain + "." + tld;
    var at, dot := |local|, |local| + 1 + |domain|;
    assert b[..at] == local && b[at + 1..dot] == domain && b[dot + 1..] == tld;
    assert b[at] == '@' && b[dot] == '.';
    assert EmailSplit(b, at, dot);
  }

  // ---------------------------------------------------------------------------
  // Classification
  // ---------------------------------------------------------------------------

  /** detect_field_type: the first of date, phone, e-mail that accepts the value, otherwise text. */
  function DetectFieldType(value: string): (r: string)
    ensures r in {"date", "phone", "email", "text"}
    ensures r == "date" <==> ValidateDate(value)
    ensures r == "phone" <==> !ValidateDate(value) && ValidatePhone(value)
    ensures r == "email" <==> !ValidateDate(value) && !ValidatePhone(value) && ValidateEmail(value)
    ensures r == "text" <==> !ValidateDate(value) && !ValidatePhone(value) && !ValidateEmail(value)
  {
    if ValidateDate(value) then "date"
    else if ValidatePhone(value) then "phone"
    else if ValidateEmail(value) then "email"
    else "text"
  }

  /** detect_field_types: the same keys, each value replaced by its label. */
  function DetectFieldTypes(fields: map<string, string>): (r: map<string, string>)
    ensures r.Keys == fields.Keys
    ensures forall k :: k in r ==> r[k] == DetectFieldType(fields[k])
  {
    map k | k in fields :: DetectFieldType(fields[k])
  }

  // ---------------------------------------------------------------------------
  // The three validators never overlap, so the precedence never decides
  // ---------------------------------------------------------------------------

  lemma PhoneShapeHasNoAt(s: string)
    requires PhoneShape(s)
    ensures forall i :: 0 <= i < |s| ==> s[i] != '@'
  {
    forall i | 0 <= i < |s| ensures s[i] != '@' {
      if i != 0 && i != 1 && i != 2 && i != 6 && i != 10 && i != 13 {
        assert IsDigit(s[i]);
      }
    }
  }

  /** An accepted phone starts with `+` and holds no `@`. */
  lemma PhoneFacts(value: string)
    requires ValidatePhone(value)
    ensures |value| > 0 && value[0] == '+'
    ensures forall i :: 0 <= i < |value| ==> value[i] != '@'
  {
    PhoneIff(value);
    if PhoneShape(value) {
      PhoneShapeHasNoAt(value);
    } else {
      var b := value[..|value| - 1];
      PhoneShapeHasNoAt(b);
      assert value[0] == b[0];
      forall i | 0 <= i < |value| ensures value[i] != '@' {
        if i < |b| {
          assert value[i] == b[i];
        }
      }
    }
  }

  lemma DateShapeHasNoAt(s: string)
    requires DottedShape(s) || IsoShape(s)
    ensures forall i :: 0 <= i < |s| ==> s[i] != '@'
  {
    forall i | 0 <= i < |s| ensures s[i] != '@' {
      if DottedShape(s) && i != 2 && i != 5 {
        assert IsDigit(s[i]);
      }
      if IsoShape(s) && i != 4 && i != 7 {
        assert IsDigit(s[i]);
      }
    }
  }

  /** An accepted date holds no `@`. */
  lemma DateHasNoAt(value: string)
    requires ValidateDate(value)
    ensures forall i :: 0 <= i < |value| ==> value[i] != '@'
  {
    DateShape(value);
    if DottedShape(value) || IsoShape(value) {
      DateShapeHasNoAt(value);
    } else {
      var b := value[..10];
      DateShapeHasNoAt(b);
      forall i | 0 <= i < |value| ensures value[i] != '@' {
        if i < |b| {
          assert value[i] == b[i];
        }
      }
    }
  }

  /** An accepted address starts with a local-part character and holds an `@` and, after it, a `.`. */
  lemma EmailHasAt(value: string)
    requires ValidateEmail(value)
    ensures |value| > 0 && IsLocalChar(value[0])
    ensures exists i, j :: 0 <= i < j < |value| && value[i] == '@' && value[j] == '.'
  {
    if EmailBody(value) {
      var at, dot :| EmailSplit(value, at, dot);
      assert EmailSplit(value, at, dot);
      assert IsLocalChar(value[..at][0]);
    } else {
      assert |value| > 0 && EmailBody(value[..|value| - 1]);
      var b := value[..|value| - 1];
      var at, dot :| EmailSplit(b, at, dot);
      assert EmailSplit(b, at, dot);
      assert value[at] == b[at] && value[dot] == b[dot];
      assert IsLocalChar(b[..at][0]) && value[0] == b[0];
    }
  }

  /** No value is accepted by two of the validators. */
  lemma ValidatorsExclusive(value: string)
    ensures ValidateDate(value) ==> !ValidatePhone(value) && !ValidateEmail(value)
    ensures ValidatePhone(value) ==> !ValidateEmail(value)
  {
    if ValidateDate(value) {
      DateShape(value);
      DateHasNoAt(value);
      if ValidatePhone(value) {
        PhoneFacts(value);
      }
      if ValidateEmail(value) {
        EmailHasAt(value);
      }
    }
    if ValidatePhone(value) {
      PhoneFacts(value);
      if ValidateEmail(value) {
        EmailHasAt(value);
      }
    }
  }

  /** Hence each label is given exactly to the values its own validator accepts. */
  lemma DetectFieldTypeOrderFree(value: string)
    ensures DetectFieldType(value) == "phone" <==> ValidatePhone(value)
    ensures DetectFieldType(value) == "email" <==> ValidateEmail(value)
  {
    ValidatorsExclusive(value);
  }

  // ---------------------------------------------------------------------------
  // Examples from test_app.py
  // ---------------------------------------------------------------------------

  // Each example is bound to a local variable first: with a literal argument the
  // verifier would unfold the definitions on it eagerly.

  lemma PhoneExamples()
    ensures ValidatePhone("+7 903 123 45 67") && ValidatePhone("+7 999 888 77 66")
    ensures !ValidatePhone("89031234567") && !ValidatePhone("+79031234567")
    ensures !ValidatePhone("7 903 123 45 67") && !ValidatePhone("+7 903 123 45 6")
    ensures !ValidatePhone("+7 903 123 45 678") && !ValidatePhone("телефон")
  {
    var ok1, ok2 := "+7 903 123 45 67", "+7 999 888 77 66";
    assert PhoneShape(ok1) && PhoneShape(ok2);
    PhoneIff(ok1);
    PhoneIff(ok2);
    var bad := ["89031234567", "+79031234567", "7 903 123 45 67", "+7 903 123 45 6", "+7 903 123 45 678", "телефон"];
    forall i | 0 <= i < |bad| ensures !ValidatePhone(bad[i]) {
      if ValidatePhone(bad[i]) {
        PhoneLength(bad[i]);
      }
    }
    assert !ValidatePhone(bad[0]) && !ValidatePhone(bad[1]) && !ValidatePhone(bad[2]);
    assert !ValidatePhone(bad[3]) && !ValidatePhone(bad[4]) && !ValidatePhone(bad[5]);
  }

  lemma DottedMay27Example()
    ensures ValidateDate("27.05.2025")
  {
    var s := "27.05.2025";
    assert DottedShape(s);
    DottedDateIff(s);
  }

  lemma DottedNewYearExample()
    ensures ValidateDate("01.01.2020")
  {
    var s := "01.01.2020";
    assert DottedShape(s);
    DottedDateIff(s);
  }

  /** No month-length check: the 31st of February passes. */
  lemma DottedFeb31Example()
    ensures ValidateDate("31.02.2020")
  {
    var s := "31.02.2020";
    assert DottedShape(s);
    DottedDateIff(s);
  }

  lemma DottedBadDayExample()
    ensures !ValidateDate("32.05.2025")
  {
    var s := "32.05.2025";
    assert DottedShape(s);
    DottedDateIff(s);
  }

  lemma DottedBadMonthExample()
    ensures !ValidateDate("27.13.2025")
  {
    var s := "27.13.2025";
    assert DottedShape(s);
    DottedDateIff(s);
  }

  lemma DottedDateExamples()
    ensures ValidateDate("27.05.2025") && ValidateDate("01.01.2020") && ValidateDate("31.02.2020")
    ensures !ValidateDate("32.05.2025") && !ValidateDate("27.13.2025")
  {
    DottedMay27Example();
    DottedNewYearExample();
    DottedFeb31Example();
    DottedBadDayExample();
    DottedBadMonthExample();
  }

  lemma IsoMay27Example()
    ensures ValidateDate("2025-05-27")
  {
    var s := "2025-05-27";
    assert IsoShape(s);
    IsoDateIff(s);
  }

  lemma IsoNewYearExample()
    ensures ValidateDate("2020-01-01")
  {
    var s := "2020-01-01";
    assert IsoShape(s);
    IsoDateIff(s);
  }

  lemma IsoDateExamples()
    ensures ValidateDate("2025-05-27") && ValidateDate("2020-01-01")
  {
    IsoMay27Example();
    IsoNewYearExample();
  }

  lemma NonDateExamples()
    ensures !ValidateDate("27/05/2025") && !ValidateDate("2025/05/27")
    ensures !ValidateDate("27.05.25") && !ValidateDate("not-a-date")
  {
    var bad := ["27/05/2025", "2025/05/27", "27.05.25", "not-a-date"];
    forall i | 0 <= i < |bad| ensures !ValidateDate(bad[i]) {
      if ValidateDate(bad[i]) {
        DateShape(bad[i]);
      }
    }
    assert !ValidateDate(bad[0]) && !ValidateDate(bad[1]) && !ValidateDate(bad[2]) && !ValidateDate(bad[3]);
  }

  lemma EmailPlainExample()
    ensures ValidateEmail("test@example.com")
  {
    var l, d, t := "test", "example", "com";
    EmailFromParts(l, d, t);
    assert l + "@" + d + "." + t == "test@example.com";
  }

  lemma EmailSubdomainExample()
    ensures ValidateEmail("user.name@domain.co.uk")
  {
    var l, d, t := "user.name", "domain.co", "uk";
    EmailFromParts(l, d, t);
    assert l + "@" + d + "." + t == "user.name@domain.co.uk";
  }

  lemma EmailTaggedExample()
    ensures ValidateEmail("user+tag@example.org")
  {
    var l, d, t := "user+tag", "example", "org";
    EmailFromParts(l, d, t);
    assert l + "@" + d + "." + t == "user+tag@example.org";
  }

  lemma EmailRejectedExamples()
    ensures !ValidateEmail("invalid") && !ValidateEmail("no-at-sign")
    ensures !ValidateEmail("invalid@") && !ValidateEmail("invalid@domain")
  {
    var s1, s2, s3, s4 := "invalid", "no-at-sign", "invalid@", "invalid@domain";
    if ValidateEmail(s1) { EmailHasAt(s1); }
    if ValidateEmail(s2) { EmailHasAt(s2); }
    if ValidateEmail(s3) { EmailHasAt(s3); }
    if ValidateEmail(s4) { EmailHasAt(s4); }
  }

  lemma EmailAtFirstExample()
    ensures !ValidateEmail("@domain.com")
  {
    var s := "@domain.com";
    if ValidateEmail(s) {
      EmailHasAt(s);
    }
  }

  lemma DetectDateAndPhoneExamples()
    ensures DetectFieldType("27.05.2025") == "date"
    ensures DetectFieldType("2025-05-27") == "date"
    ensures DetectFieldType("+7 903 123 45 67") == "phone"
  {
    DottedDateExamples();
    IsoDateExamples();
    PhoneExamples();
    DetectFieldTypeOrderFree("+7 903 123 45 67");
  }

  lemma DetectEmailExample()
    ensures DetectFieldType("test@example.com") == "email"
  {
    EmailPlainExample();
    DetectFieldTypeOrderFree("test@example.com");
  }

  lemma DetectTextExamples()
    ensures DetectFieldType("plain text") == "text"
    ensures DetectFieldType("12345") == "text"
    ensures DetectFieldType("") == "text"
  {
    var text := ["plain text", "12345", ""];
    forall i | 0 <= i < |text| ensures DetectFieldType(text[i]) == "text" {
      var v := text[i];
      if ValidateDate(v) {
        DateShape(v);
      }
      if ValidatePhone(v) {
        PhoneLength(v);
      }
      if ValidateEmail(v) {
        EmailHasAt(v);
      }
    }
    assert DetectFieldType(text[0]) == "text" && DetectFieldType(text[1]) == "text";
    assert DetectFieldType(text[2]) == "text";
  }

  /** A date-shaped value with an out-of-range day falls through to text. */
  lemma DetectOutOfRangeDateExample()
    ensures DetectFieldType("32.05.2025") == "text"
  {
    var v := "32.05.2025";
    assert DottedShape(v);
    DottedDateIff(v);
    if ValidatePhone(v) {
      PhoneLength(v);
    }
    if ValidateEmail(v) {
      EmailHasAt(v);
    }
  }

  lemma DetectLaterIsoDateExample()
    ensures DetectFieldType("2024-01-15") == "date"
  {
    var s := "2024-01-15";
    assert IsoShape(s);
    IsoDateIff(s);
  }

  /** Each field is classified on its own value: changing one field leaves the other
      fields' types unchanged. */
  lemma DetectFieldTypesUpdate(fields: map<string, string>, k: string, v: string)
    ensures DetectFieldTypes(fields[k := v]) == DetectFieldTypes(fields)[k := DetectFieldType(v)]
  {
    var expected, updated := DetectFieldTypes(fields)[k := DetectFieldType(v)], DetectFieldTypes(fields[k := v]);
    assert updated.Keys == expected.Keys;
    forall j | j in updated ensures updated[j] == expected[j] {
      if j != k {
        assert fields[k := v][j] == fields[j];
      }
    }
  }

  /** Dropping a field drops its type and nothing else. */
  lemma DetectFieldTypesRemove(fields: map<string, string>, k: string)
    ensures DetectFieldTypes(fields - {k}) == DetectFieldTypes(fields) - {k}
  {
    var expected, dropped := DetectFieldTypes(fields) - {k}, DetectFieldTypes(fields - {k});
    assert dropped.Keys == expected.Keys;
    forall j | j in dropped ensures dropped[j] == expected[j] {
      assert (fields - {k})[j] == fields[j];
    }
  }

  /** The five-field form, built one field at a time from the empty form. */
  lemma DetectFieldTypesExample()
    ensures DetectFieldTypes(map["field1" := "27.05.2025", "field2" := "+7 903 123 45 67",
                                 "field3" := "test@example.com", "field4" := "plain text",
                                 "field5" := "2024-01-15"])
         == map["field1" := "date", "field2" := "phone", "field3" := "email",
                "field4" := "text", "field5" := "date"]
  {
    var v1, v2, v3, v4, v5 := "27.05.2025", "+7 903 123 45 67", "test@example.com", "plain text", "2024-01-15";
    DetectDateAndPhoneExamples();
    DetectEmailExample();
    DetectTextExamples();
    DetectLaterIsoDateExample();
    var m0: map<string, string> := map[];
    var m1 := m0["field1" := v1];
    var m2 := m1["field2" := v2];
    var m3 := m2["field3" := v3];
    var m4 := m3["field4" := v4];
    assert DetectFieldTypes(m0) == map[];
    DetectFieldTypesUpdate(m0, "field1", v1);
    DetectFieldTypesUpdate(m1, "field2", v2);
    DetectFieldTypesUpdate(m2, "field3", v3);
    DetectFieldTypesUpdate(m3, "field4", v4);
    DetectFieldTypesUpdate(m4, "field5", v5);
  }
}
