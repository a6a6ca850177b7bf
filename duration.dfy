/**
 * The duration parser of the snapshot manager.
 *
 * A retention or frequency string becomes a whole number of hours. The
 * string is stripped of surrounding white space, then matched (as a prefix,
 * not as the whole string) against an ISO 8601-like grammar
 * `P(#W | [#Y][#M][#D][T[#H]])`, and, when that grammar does not match,
 * against a simplified grammar `[#w] [#d] [#h]` with case-insensitive
 * suffixes. A year is 365 days, a month 30 days and a week 7 days; the
 * result must be greater than zero and must fit in a Python `timedelta`.
 *
 * Each optional group `(?:([0-9]+)L)?` of the two regular expressions is
 * matched greedily: the maximal run of digits is taken and the group matches
 * when the character after it is one of the suffix letters. Since nothing
 * after the groups is anchored, the first attempt of the regular expression
 * engine always succeeds and no backtracking changes the outcome.
 */
module Duration {
  import opened Wrappers

  const HoursPerDay := 24
  const DaysPerYear := 365
  const DaysPerMonth := 30
  const DaysPerWeek := 7
  /** The largest number of days a `timedelta` can hold. */
  const MaxDays := 999_999_999
  /** The first whole number of hours whose day count passes `MaxDays`. */
  const MaxHours := HoursPerDay * (MaxDays + 1)

  /**
   * Why a duration string is refused: neither grammar matched (the source
   * has this branch, but it cannot be taken), the value does not fit in a
   * `timedelta` (an OverflowError in the source), or the value is zero.
   */
  datatype ParseError = CannotParse | Overflow | NotPositive

  /** The fields a match extracts; a group that did not take part reads as 0. */
  datatype Fields = Fields(years: nat, months: nat, weeks: nat, days: nat, hours: nat)

  /** The characters Python treats as white space, both in `str.strip()` and in the class `\s`. */
  predicate IsSpace(c: char) {
    || c == ' '
    || '\t' <= c <= '\r'
    || '\U{1c}' <= c <= '\U{1f}'
    || c == '\U{85}' || c == '\U{a0}' || c == '\U{1680}'
    || '\U{2000}' <= c <= '\U{200a}'
    || c == '\U{2028}' || c == '\U{2029}' || c == '\U{202f}' || c == '\U{205f}' || c == '\U{3000}'
  }

  /** The class `[0-9]`: ASCII digits only. */
  predicate IsDigit(c: char) {
    '0' <= c <= '9'
  }

  predicate AllSpace(s: string) {
    forall i :: 0 <= i < |s| ==> IsSpace(s[i])
  }

  predicate AllDigits(s: string) {
    forall i :: 0 <= i < |s| ==> IsDigit(s[i])
  }

  /** The unit letters a group accepts: one upper-case letter, or a letter in either case (`[Ww]`). */
  datatype Letters = Upper(upper: char) | EitherCase(upper: char, lower: char) {
    predicate Accepts(c: char) {
      c == upper || (EitherCase? && c == lower)
    }

    predicate NoDigits() {
      !IsDigit(upper) && (EitherCase? ==> !IsDigit(lower))
    }

    predicate NoSpaces() {
      !IsSpace(upper) && (EitherCase? ==> !IsSpace(lower))
    }
  }

  // ---------------------------------------------------------------------
  // str.strip()
  // ---------------------------------------------------------------------

  /** `s` without its leading white space. */
  function StripLeft(s: string): (r: string)
    ensures |r| <= |s| && r == s[|s| - |r|..]
    ensures AllSpace(s[..|s| - |r|])
    ensures r == [] || !IsSpace(r[0])
  {
    if |s| > 0 && IsSpace(s[0]) then StripLeft(s[1..]) else s
  }

  /** `s` without its trailing white space. */
  function StripRight(s: string): (r: string)
    ensures |r| <= |s| && r == s[..|r|]
    ensures AllSpace(s[|r|..])
    ensures r == [] || !IsSpace(r[|r| - 1])
  {
    if |s| > 0 && IsSpace(s[|s| - 1]) then
      var r := StripRight(s[..|s| - 1]);
      assert s[|r|..] == s[..|s| - 1][|r|..] + [s[|s| - 1]];
      r
    else s
  }

  /** `s.strip()`: neither end of the result is white space; `StripTrims` states what was removed. */
  function Strip(s: string): (r: string)
    ensures r == [] || (!IsSpace(r[0]) && !IsSpace(r[|r| - 1]))
    ensures |r| <= |s|
    ensures r == [] ==> AllSpace(s)
  {
    StripRight(StripLeft(s))
  }

  /** The stripped string is a slice of `s`, and only white space lies before and after it. */
  lemma {:induction false} StripTrims(s: string)
    ensures exists i, j :: 0 <= i <= j <= |s| && Strip(s) == s[i..j] && AllSpace(s[..i]) && AllSpace(s[j..])
  {
    var left := StripLeft(s);
    var r := StripRight(left);
    var i := |s| - |left|;
    var j := i + |r|;
    assert s[i..j] == left[..|r|];
    assert s[j..] == left[|r|..];
  }

  lemma {:induction false} StripLeftSpaces(ws: string, t: string)
    requires AllSpace(ws)
    ensures StripLeft(ws + t) == StripLeft(t)
    decreases |ws|
  {
    if ws != [] {
      assert (ws + t)[1..] == ws[1..] + t;
      StripLeftSpaces(ws[1..], t);
    } else {
      assert ws + t == t;
    }
  }

  lemma {:induction false} StripRightSpaces(t: string, ws: string)
    requires AllSpace(ws)
    ensures StripRight(t + ws) == StripRight(t)
    decreases |ws|
  {
    if ws != [] {
      var ws' := ws[..|ws| - 1];
      assert (t + ws)[..|t + ws| - 1] == t + ws';
      StripRightSpaces(t, ws');
    } else {
      assert t + ws == t;
    }
  }

  lemma {:induction false} StripLeftAppend(s: string, t: string)
    requires StripLeft(s) != []
    ensures StripLeft(s + t) == StripLeft(s) + t
    decreases |s|
  {
    if IsSpace(s[0]) {
      assert (s + t)[1..] == s[1..] + t;
      StripLeftAppend(s[1..], t);
    }
  }

  lemma {:induction false} StripRightAppend(s: string, t: string)
    requires |s| > 0 && !IsSpace(s[|s| - 1])
    ensures StripRight(s + t) == s + StripRight(t)
    decreases |t|
  {
    if t == [] {
      assert s + t == s;
    } else if IsSpace(t[|t| - 1]) {
      var t' := t[..|t| - 1];
      assert (s + t)[..|s + t| - 1] == s + t';
      StripRightAppend(s, t');
    }
  }

  /** Surrounding white space does not change what is parsed. */
  lemma StripPadded(ws1: string, s: string, ws2: string)
    requires AllSpace(ws1) && AllSpace(ws2)
    ensures Strip(ws1 + s + ws2) == Strip(s)
  {
    assert ws1 + s + ws2 == ws1 + (s + ws2);
    StripLeftSpaces(ws1, s + ws2);
    var left := StripLeft(s);
    if left == [] {
      assert s[..|s|] == s;
      AllSpaceAppend(s, ws2);
      StripLeftAllSpace(s + ws2);
    } else {
      StripLeftAppend(s, ws2);
      StripRightSpaces(left, ws2);
    }
  }

  lemma AllSpaceAppend(a: string, b: string)
    requires AllSpace(a) && AllSpace(b)
    ensures AllSpace(a + b)
  {
    forall i | 0 <= i < |a + b| ensures IsSpace((a + b)[i]) {
      if i < |a| { assert (a + b)[i] == a[i]; } else { assert (a + b)[i] == b[i - |a|]; }
    }
  }

  lemma StripLeftAllSpace(s: string)
    requires AllSpace(s)
    ensures StripLeft(s) == []
  {
    StripLeftSpaces(s, []);
    assert s + [] == s;
  }

  /** Stripping on the left leaves the stripped string followed by white space. */
  lemma {:induction false} StripLeftThenRight(s: string)
    ensures var left, r := StripLeft(s), Strip(s);
      |r| <= |left| && left == r + left[|r|..] && AllSpace(left[|r|..])
  {
    var left := StripLeft(s);
    var r := StripRight(left);
    assert Strip(s) == r;
    SplitAt(left, |r|);
  }

  lemma {:induction false} SplitAt(s: string, k: nat)
    requires k <= |s|
    ensures s == s[..k] + s[k..]
  {
  }

  /** A string that begins and ends with visible characters keeps its front: only `t` loses its trailing white space. */
  lemma StripKeepsFront(s: string, t: string)
    requires |s| > 0 && !IsSpace(s[0]) && !IsSpace(s[|s| - 1])
    ensures Strip(s + t) == s + StripRight(t)
  {
    assert StripLeft(s + t) == s + t;
    StripRightAppend(s, t);
  }

  // ---------------------------------------------------------------------
  // Digit runs and optional groups
  // ---------------------------------------------------------------------

  function DigitValue(c: char): nat
    requires IsDigit(c)
  {
    c as int - '0' as int
  }

  /** The decimal value of a string of digits, as Python's `int()` reads it. */
  function Value(ds: string): nat
    requires AllDigits(ds)
    decreases |ds|
  {
    if ds == [] then 0 else 10 * Value(ds[..|ds| - 1]) + DigitValue(ds[|ds| - 1])
  }

  /** The length of the maximal run of digits at the front of `s`. */
  function LeadingDigits(s: string): (k: nat)
    ensures k <= |s|
    ensures AllDigits(s[..k])
    ensures k == |s| || !IsDigit(s[k])
  {
    if s != [] && IsDigit(s[0]) then
      var k := 1 + LeadingDigits(s[1..]);
      assert forall i :: 0 < i < k ==> s[..k][i] == s[1..][..k - 1][i - 1];
      k
    else 0
  }

  /** What is left of `s` after the regex `\s*`: the maximal run of white space at its front is gone. */
  function SkipSpaces(s: string): string
  {
    StripLeft(s)
  }

  /** What an optional group `(?:([0-9]+)L)?` yields: the group's value and the text after the match. */
  datatype Group = Group(value: nat, rest: string)

  /**
   * The optional group `(?:([0-9]+)L)?` at the front of `s`, with `L` one of
   * `letters`: the maximal run of digits is taken, and the group takes part
   * when a letter follows it. `GroupMatches` states what this means.
   */
  function OptionalGroup(s: string, letters: Letters): (g: Group)
    ensures |g.rest| <= |s|
  {
    var k := LeadingDigits(s);
    if 0 < k < |s| && letters.Accepts(s[k]) then
      Group(Value(s[..k]), s[k + 1..])
    else
      Group(0, s)
  }

  /**
   * When the group takes part, it consumed one or more digits and one
   * letter, and its value is that of the digits; when it does not, no run of
   * digits at the front of `s` is followed by one of the letters, so the
   * regular expression could not have taken it.
   */
  lemma GroupMatches(s: string, letters: Letters)
    requires letters.NoDigits()
    ensures var g := OptionalGroup(s, letters);
      && g.rest == s[|s| - |g.rest|..]
      && (|g.rest| == |s| ==> g.value == 0)
      && (|g.rest| == |s| ==> forall j :: 0 < j < |s| && AllDigits(s[..j]) ==> !letters.Accepts(s[j]))
      && (|g.rest| != |s| ==>
            var k := |s| - |g.rest| - 1;
            1 <= k && AllDigits(s[..k]) && letters.Accepts(s[k]) && g.value == Value(s[..k]))
  {
  }

  // ---------------------------------------------------------------------
  // The two grammars
  // ---------------------------------------------------------------------

  /**
   * The ISO 8601-like regular expression, matched as a prefix. It matches
   * exactly the strings that start with `P`: when `#W` does not follow the
   * `P`, its second alternative can match the empty string.
   */
  function IsoMatch(s: string): (r: Option<Fields>)
    ensures r.Some? <==> |s| > 0 && s[0] == 'P'
    ensures r.Some? && r.value.weeks > 0 ==>
      r.value.years == 0 && r.value.months == 0 && r.value.days == 0 && r.value.hours == 0
  {
    if |s| == 0 || s[0] != 'P' then None
    else
      var w := OptionalGroup(s[1..], Upper('W'));
      if |w.rest| != |s[1..]| then Some(Fields(0, 0, w.value, 0, 0))
      else Some(IsoDateTime(s[1..]))
  }

  /** The second alternative of the ISO grammar, `[#Y][#M][#D][T[#H]]`, after the `P`. */
  function IsoDateTime(s: string): (f: Fields)
    ensures f.weeks == 0
  {
    var y := OptionalGroup(s, Upper('Y'));
    var mo := OptionalGroup(y.rest, Upper('M'));
    var d := OptionalGroup(mo.rest, Upper('D'));
    var h := if d.rest != [] && d.rest[0] == 'T' then OptionalGroup(d.rest[1..], Upper('H')).value else 0;
    Fields(y.value, mo.value, 0, d.value, h)
  }

  /**
   * The simplified regular expression, matched as a prefix: weeks, days and
   * hours in this order, each optional, with white space allowed between
   * them. It matches every string (at worst the empty prefix), and its
   * year and month groups are always empty.
   */
  function SimplifiedMatch(s: string): (r: Option<Fields>)
    ensures r.Some? && r.value.years == 0 && r.value.months == 0
  {
    var w := OptionalGroup(s, EitherCase('W', 'w'));
    var d := OptionalGroup(SkipSpaces(w.rest), EitherCase('D', 'd'));
    var h := OptionalGroup(SkipSpaces(d.rest), EitherCase('H', 'h'));
    Some(Fields(0, 0, w.value, d.value, h.value))
  }

  /** The two grammars tried in order. */
  function MatchPeriod(s: string): (r: Option<Fields>)
    ensures r.Some?
    ensures |s| > 0 && s[0] == 'P' ==> r == IsoMatch(s)
    ensures (|s| == 0 || s[0] != 'P') ==> r.value.years == 0 && r.value.months == 0
  {
    match IsoMatch(s)
    case Some(f) => Some(f)
    case None => SimplifiedMatch(s)
  }

  /** The `timedelta` the fields stand for, in hours. */
  function TotalHours(f: Fields): nat {
    HoursPerDay * (DaysPerYear * f.years + DaysPerMonth * f.months + DaysPerWeek * f.weeks + f.days) + f.hours
  }

  /**
   * Building the `timedelta` and refusing one that is not positive. The
   * `timedelta` overflows when its day count, `hours / HoursPerDay`, passes
   * `MaxDays`, that is from `MaxHours` hours on.
   */
  function Checked(hours: nat): (r: Result<nat, ParseError>)
    ensures r.Success? <==> 0 < hours < MaxHours
    ensures r.Success? ==> r.value == hours
    ensures r != Failure(CannotParse)
  {
    if hours >= MaxHours then Failure(Overflow)
    else if hours == 0 then Failure(NotPositive)
    else Success(hours)
  }

  /**
   * `parse_duration_string`: the duration in whole hours. It never fails
   * because no grammar matched; it fails when the duration is zero or too
   * large for a `timedelta`.
   */
  function ParseDuration(s: string): (r: Result<nat, ParseError>)
    ensures r.Success? ==> 0 < r.value < MaxHours
    ensures r != Failure(CannotParse)
  {
    var m := MatchPeriod(Strip(s));
    if m.None? then Failure(CannotParse) else Checked(TotalHours(m.value))
  }

  // ---------------------------------------------------------------------
  // Writing durations, and reading them back
  // ---------------------------------------------------------------------

  /** One decimal digit. */
  function DigitChar(d: nat): (c: char)
    requires d < 10
    ensures IsDigit(c) && DigitValue(c) == d
  {
    ('0' as int + d) as char
  }

  /** The decimal digits of `n` (no leading zeros): Python's `int()` reads them back as `n`. */
  function Decimal(n: nat): (r: string)
    ensures r != [] && AllDigits(r) && Value(r) == n
    decreases n
  {
    if n < 10 then [DigitChar(n)] else Decimal(n / 10) + [DigitChar(n % 10)]
  }

  /** The number `n` written in decimal, its unit letter, then `rest`. */
  function Token(n: nat, unit: char, rest: string): string {
    Decimal(n) + [unit] + rest
  }

  /** One element of a duration, `#L`, or nothing when the element is omitted. */
  function Element(n: Option<nat>, unit: char): string {
    if n.Some? then Token(n.value, unit, "") else ""
  }

  /** The time part `T#H` of the ISO form, written only when the hours are given. */
  function TimeElement(hours: Option<nat>): string {
    if hours.Some? then "T" + Element(hours, 'H') else ""
  }

  /** The ISO form `P#Y#M#DT#H`, any element of which may be omitted. */
  function IsoText(years: Option<nat>, months: Option<nat>, days: Option<nat>, hours: Option<nat>): string {
    "P" + Element(years, 'Y') + Element(months, 'M') + Element(days, 'D') + TimeElement(hours)
  }

  /** The ISO week form `P#W`. */
  function WeeksText(weeks: nat): string {
    "P" + Token(weeks, 'W', "")
  }

  /**
   * The simplified form `#w #d #h`, any element of which may be omitted,
   * with the given unit letters and the given white space after the places
   * of the first two elements.
   */
  function SimplifiedText(weeks: Option<nat>, days: Option<nat>, hours: Option<nat>, w: char, d: char, h: char, sep1: string, sep2: string): string {
    Element(weeks, w) + sep1 + Element(days, d) + sep2 + Element(hours, h)
  }

  /** The fields a duration written with these elements stands for: an omitted element is 0. */
  function ElementFields(years: Option<nat>, months: Option<nat>, weeks: Option<nat>, days: Option<nat>, hours: Option<nat>): Fields {
    Fields(years.GetOr(0), months.GetOr(0), weeks.GetOr(0), days.GetOr(0), hours.GetOr(0))
  }

  /** Text an ISO duration whose hours are omitted may be followed by without the text being read as more elements. */
  predicate IsoTail(hours: Option<nat>, t: string) {
    hours.Some? || t == [] || (!IsDigit(t[0]) && t[0] != 'T')
  }

  /** Nothing at the front of `s` is a group of `letters`. */
  predicate NoGroup(s: string, letters: Letters) {
    OptionalGroup(s, letters) == Group(0, s)
  }

  /** The text is empty or does not start with `P`: the simplified grammar is the one tried on it. */
  predicate NotIsoStart(s: string) {
    s == [] || s[0] != 'P'
  }

  /** No digit follows the white space at the front of `t`, so no group of the simplified form starts there. */
  predicate NoNumberNext(t: string) {
    var r := SkipSpaces(t);
    r == [] || !IsDigit(r[0])
  }

  /**
   * Text the simplified form may be followed by without the text being read
   * as more elements (the grammar matches a prefix): after omitted hours no
   * digit may come next, and when every element is omitted the text must not
   * start the ISO form.
   */
  predicate SimplifiedTail(weeks: Option<nat>, days: Option<nat>, hours: Option<nat>, t: string) {
    && (hours.None? ==> NoNumberNext(t))
    && (weeks.None? && days.None? && hours.None? ==> NotIsoStart(SkipSpaces(t)))
  }

  lemma {:induction false} TokenAppend(n: nat, unit: char, rest: string, t: string)
    ensures Token(n, unit, rest) + t == Token(n, unit, rest + t)
  {
  }

  /** A token is read by the group of its unit letter, and skipped by every other group. */
  lemma {:induction false} GroupReads(n: nat, c: char, t: string, letters: Letters)
    requires !IsDigit(c)
    ensures OptionalGroup(Token(n, c, t), letters)
         == if letters.Accepts(c) then Group(n, t) else Group(0, Token(n, c, t))
  {
    var ds := Decimal(n);
    var s := Token(n, c, t);
    assert s[..|ds|] == ds;
    assert s[|ds|] == c;
    assert s[|ds| + 1..] == t;
  }

  /** A group does not take part when no digit starts the text. */
  lemma {:induction false} GroupAbsent(s: string, letters: Letters)
    requires s == [] || !IsDigit(s[0])
    ensures OptionalGroup(s, letters) == Group(0, s)
  {
  }

  lemma {:induction false} ElementAppend(n: Option<nat>, unit: char, rest: string)
    ensures n.Some? ==> Element(n, unit) + rest == Token(n.value, unit, rest)
    ensures n.None? ==> Element(n, unit) + rest == rest
  {
    if n.Some? {
      TokenAppend(n.value, unit, "", rest);
    }
  }

  /** An element is read by the group of its unit letter; an omitted one reads as 0. */
  lemma {:induction false} ElementRead(n: Option<nat>, c: char, rest: string, letters: Letters)
    requires !IsDigit(c) && letters.Accepts(c) && NoGroup(rest, letters)
    ensures OptionalGroup(Element(n, c) + rest, letters) == Group(n.GetOr(0), rest)
  {
    ElementAppend(n, c, rest);
    if n.Some? {
      GroupReads(n.value, c, rest, letters);
    }
  }

  /** An element, present or omitted, is passed over by the group of every other letter. */
  lemma {:induction false} ElementSkipped(n: Option<nat>, c: char, rest: string, letters: Letters)
    requires !IsDigit(c) && !letters.Accepts(c) && NoGroup(rest, letters)
    ensures NoGroup(Element(n, c) + rest, letters)
  {
    ElementAppend(n, c, rest);
    if n.Some? {
      GroupReads(n.value, c, rest, letters);
    }
  }

  /** White space followed by a token: `\s*` takes exactly the white space. */
  lemma {:induction false} SpacesBeforeToken(sep: string, n: nat, unit: char, rest: string)
    requires AllSpace(sep)
    ensures SkipSpaces(sep + Token(n, unit, rest)) == Token(n, unit, rest)
  {
    var text := Token(n, unit, rest);
    assert text[0] == Decimal(n)[0];
    StripLeftSpaces(sep, text);
  }

  /** `\s*` takes nothing from a string that does not start with white space. */
  lemma {:induction false} SkipSpacesAtVisible(s: string)
    requires s == [] || !IsSpace(s[0])
    ensures SkipSpaces(s) == s
  {
  }

  /** White space, then an element, then `rest`: `\s*` stops at the element's digits, or skips on into `rest`. */
  lemma {:induction false} SkipToElement(pre: string, n: Option<nat>, c: char, rest: string)
    requires AllSpace(pre)
    ensures n.Some? ==> SkipSpaces(pre + Element(n, c) + rest) == Token(n.value, c, rest)
    ensures n.None? ==> SkipSpaces(pre + Element(n, c) + rest) == SkipSpaces(rest)
    ensures n.Some? ==> NotIsoStart(SkipSpaces(pre + Element(n, c) + rest))
  {
    ElementAppend(n, c, rest);
    assert pre + Element(n, c) + rest == pre + (Element(n, c) + rest);
    if n.Some? {
      SpacesBeforeToken(pre, n.value, c, rest);
      assert Token(n.value, c, rest)[0] == Decimal(n.value)[0];
    } else {
      StripLeftSpaces(pre, rest);
    }
  }

  /** `\s*` then a group, as the simplified grammar reads an element: the value is the element's, and reading goes on in `rest`. */
  lemma {:induction false} ElementReadAfterSpace(pre: string, n: Option<nat>, c: char, rest: string, letters: Letters)
    requires AllSpace(pre) && !IsDigit(c) && letters.Accepts(c)
    requires n.None? ==> NoGroup(SkipSpaces(rest), letters)
    ensures var g := OptionalGroup(SkipSpaces(pre + Element(n, c) + rest), letters);
      g.value == n.GetOr(0) && SkipSpaces(g.rest) == SkipSpaces(rest)
  {
    SkipToElement(pre, n, c, rest);
    if n.Some? {
      GroupReads(n.value, c, rest, letters);
    } else {
      SkipSpacesAtVisible(SkipSpaces(rest));
    }
  }

  /** `\s*` then a group of another letter: an element, present or omitted, is passed over. */
  lemma {:induction false} ElementSkippedAfterSpace(pre: string, n: Option<nat>, c: char, rest: string, letters: Letters)
    requires AllSpace(pre) && !IsDigit(c) && !letters.Accepts(c)
    requires n.None? ==> NoGroup(SkipSpaces(rest), letters)
    ensures NoGroup(SkipSpaces(pre + Element(n, c) + rest), letters)
  {
    SkipToElement(pre, n, c, rest);
    if n.Some? {
      GroupReads(n.value, c, rest, letters);
    }
  }

  /** After the date elements: the time part is read as the hours, and no group of a date letter starts there. */
  lemma {:induction false} TimeElementReads(hours: Option<nat>, t: string)
    requires IsoTail(hours, t)
    ensures var s := TimeElement(hours) + t;
      && (s == [] || !IsDigit(s[0]))
      && (if s != [] && s[0] == 'T' then OptionalGroup(s[1..], Upper('H')).value else 0) == hours.GetOr(0)
  {
    var s := TimeElement(hours) + t;
    if hours.Some? {
      var rest := Token(hours.value, 'H', t);
      assert s == "T" + rest by {
        ElementAppend(hours, 'H', t);
        Assoc("T", Element(hours, 'H'), t);
      }
      assert s[0] == 'T' && s[1..] == rest;
      assert OptionalGroup(rest, Upper('H')).value == hours.value by {
        GroupReads(hours.value, 'H', t, Upper('H'));
      }
    } else {
      assert s == t;
    }
  }

  lemma {:induction false} Assoc(a: string, b: string, c: string)
    ensures a + (b + c) == a + b + c
  {
  }

  /** Six strings joined, regrouped from the right. */
  lemma {:induction false} Regroup(a: string, b: string, c: string, d: string, e: string, f: string)
    ensures a + b + c + d + e + f == a + (b + (c + (d + (e + f))))
  {
  }

  /** The ISO form with `t` after it, written element by element. */
  lemma {:induction false} IsoTextAppend(years: Option<nat>, months: Option<nat>, days: Option<nat>, hours: Option<nat>, t: string)
    ensures IsoText(years, months, days, hours) + t
         == "P" + (Element(years, 'Y') + (Element(months, 'M') + (Element(days, 'D') + (TimeElement(hours) + t))))
  {
    Regroup("P", Element(years, 'Y'), Element(months, 'M'), Element(days, 'D'), TimeElement(hours), t);
  }

  /** No week group starts the date elements of the ISO form, since each element ends with a letter other than `W`. */
  lemma {:induction false} IsoWeeksAbsent(years: Option<nat>, months: Option<nat>, days: Option<nat>, hours: Option<nat>, t: string)
    requires IsoTail(hours, t)
    ensures NoGroup(Element(years, 'Y') + (Element(months, 'M') + (Element(days, 'D') + (TimeElement(hours) + t))), Upper('W'))
  {
    var W := Upper('W');
    var base := TimeElement(hours) + t;
    TimeElementReads(hours, t);
    GroupAbsent(base, W);
    ElementSkipped(days, 'D', base, W);
    ElementSkipped(months, 'M', Element(days, 'D') + base, W);
    ElementSkipped(years, 'Y', Element(months, 'M') + (Element(days, 'D') + base), W);
  }

  /** The year group reads the years element of the ISO form. */
  lemma {:induction false} IsoYearsRead(years: Option<nat>, months: Option<nat>, days: Option<nat>, hours: Option<nat>, t: string)
    requires IsoTail(hours, t)
    ensures var mText := Element(months, 'M') + (Element(days, 'D') + (TimeElement(hours) + t));
      OptionalGroup(Element(years, 'Y') + mText, Upper('Y')) == Group(years.GetOr(0), mText)
  {
    var Y := Upper('Y');
    var base := TimeElement(hours) + t;
    TimeElementReads(hours, t);
    GroupAbsent(base, Y);
    ElementSkipped(days, 'D', base, Y);
    ElementSkipped(months, 'M', Element(days, 'D') + base, Y);
    ElementRead(years, 'Y', Element(months, 'M') + (Element(days, 'D') + base), Y);
  }

  /** The month group reads the months element of the ISO form. */
  lemma {:induction false} IsoMonthsRead(months: Option<nat>, days: Option<nat>, hours: Option<nat>, t: string)
    requires IsoTail(hours, t)
    ensures var dText := Element(days, 'D') + (TimeElement(hours) + t);
      OptionalGroup(Element(months, 'M') + dText, Upper('M')) == Group(months.GetOr(0), dText)
  {
    var M := Upper('M');
    var base := TimeElement(hours) + t;
    TimeElementReads(hours, t);
    GroupAbsent(base, M);
    ElementSkipped(days, 'D', base, M);
    ElementRead(months, 'M', Element(days, 'D') + base, M);
  }

  /** The day group reads the days element of the ISO form. */
  lemma {:induction false} IsoDaysRead(days: Option<nat>, hours: Option<nat>, t: string)
    requires IsoTail(hours, t)
    ensures var base := TimeElement(hours) + t;
      OptionalGroup(Element(days, 'D') + base, Upper('D')) == Group(days.GetOr(0), base)
  {
    var base := TimeElement(hours) + t;
    TimeElementReads(hours, t);
    GroupAbsent(base, Upper('D'));
    ElementRead(days, 'D', base, Upper('D'));
  }

  /** The ISO form with `t` after it is read by the ISO grammar as its elements, an omitted one as 0. */
  lemma {:induction false} IsoTextMatches(years: Option<nat>, months: Option<nat>, days: Option<nat>, hours: Option<nat>, t: string)
    requires IsoTail(hours, t)
    ensures IsoMatch(IsoText(years, months, days, hours) + t) == Some(ElementFields(years, months, None, days, hours))
  {
    var base := TimeElement(hours) + t;
    var dText := Element(days, 'D') + base;
    var mText := Element(months, 'M') + dText;
    var yText := Element(years, 'Y') + mText;
    var s := IsoText(years, months, days, hours) + t;
    assert s[1..] == yText by {
      IsoTextAppend(years, months, days, hours, t);
    }
    IsoWeeksAbsent(years, months, days, hours, t);
    IsoYearsRead(years, months, days, hours, t);
    IsoMonthsRead(months, days, hours, t);
    IsoDaysRead(days, hours, t);
    TimeElementReads(hours, t);
  }

  lemma {:induction false} WeeksTextMatches(weeks: nat, t: string)
    ensures IsoMatch(WeeksText(weeks) + t) == Some(Fields(0, 0, weeks, 0, 0))
  {
    TokenAppend(weeks, 'W', "", t);
    assert WeeksText(weeks) + t == "P" + Token(weeks, 'W', t);
    assert ("P" + Token(weeks, 'W', t))[1..] == Token(weeks, 'W', t);
    GroupReads(weeks, 'W', t, Upper('W'));
  }

  /** The hours element of the simplified form is read by the hour group. */
  lemma {:induction false} SimplifiedHoursRead(hours: Option<nat>, h: char, sep2: string, t: string)
    requires h == 'h' || h == 'H'
    requires AllSpace(sep2)
    requires hours.None? ==> NoNumberNext(t)
    ensures OptionalGroup(SkipSpaces(sep2 + Element(hours, h) + t), EitherCase('H', 'h')).value == hours.GetOr(0)
  {
    var H := EitherCase('H', 'h');
    if hours.None? {
      GroupAbsent(SkipSpaces(t), H);
    }
    ElementReadAfterSpace(sep2, hours, h, t, H);
  }

  /** The days element of the simplified form is read by the day group, which stops before the hours. */
  lemma {:induction false} SimplifiedDaysRead(days: Option<nat>, hours: Option<nat>, d: char, h: char, sep1: string, sep2: string, t: string)
    requires d == 'd' || d == 'D'
    requires h == 'h' || h == 'H'
    requires AllSpace(sep1) && AllSpace(sep2)
    requires hours.None? ==> NoNumberNext(t)
    ensures var r2 := sep2 + Element(hours, h) + t;
      var g := OptionalGroup(SkipSpaces(sep1 + Element(days, d) + r2), EitherCase('D', 'd'));
      g.value == days.GetOr(0) && SkipSpaces(g.rest) == SkipSpaces(r2)
  {
    var D := EitherCase('D', 'd');
    var r2 := sep2 + Element(hours, h) + t;
    if hours.None? {
      GroupAbsent(SkipSpaces(t), D);
    }
    ElementSkippedAfterSpace(sep2, hours, h, t, D);
    ElementReadAfterSpace(sep1, days, d, r2, D);
  }

  /** After the weeks: no week group starts where the days and hours of the simplified form are. */
  lemma {:induction false} SimplifiedNoWeekAfter(days: Option<nat>, hours: Option<nat>, d: char, h: char, sep1: string, sep2: string, t: string)
    requires d == 'd' || d == 'D'
    requires h == 'h' || h == 'H'
    requires AllSpace(sep1) && AllSpace(sep2)
    requires hours.None? ==> NoNumberNext(t)
    ensures NoGroup(SkipSpaces(sep1 + Element(days, d) + (sep2 + Element(hours, h) + t)), EitherCase('W', 'w'))
  {
    var W := EitherCase('W', 'w');
    var r2 := sep2 + Element(hours, h) + t;
    if hours.None? {
      GroupAbsent(SkipSpaces(t), W);
    }
    ElementSkippedAfterSpace(sep2, hours, h, t, W);
    ElementSkippedAfterSpace(sep1, days, d, r2, W);
  }

  /** The weeks element of the simplified form is read by the week group, which stops before the days. */
  lemma {:induction false} SimplifiedWeeksRead(weeks: Option<nat>, days: Option<nat>, hours: Option<nat>, w: char, d: char, h: char, sep1: string, sep2: string, ws1: string, t: string)
    requires w == 'w' || w == 'W'
    requires d == 'd' || d == 'D'
    requires h == 'h' || h == 'H'
    requires AllSpace(sep1) && AllSpace(sep2) && AllSpace(ws1)
    requires hours.None? ==> NoNumberNext(t)
    ensures var r1 := sep1 + Element(days, d) + (sep2 + Element(hours, h) + t);
      var g := OptionalGroup(SkipSpaces(ws1 + Element(weeks, w) + r1), EitherCase('W', 'w'));
      g.value == weeks.GetOr(0) && SkipSpaces(g.rest) == SkipSpaces(r1)
  {
    var r1 := sep1 + Element(days, d) + (sep2 + Element(hours, h) + t);
    SimplifiedNoWeekAfter(days, hours, d, h, sep1, sep2, t);
    ElementReadAfterSpace(ws1, weeks, w, r1, EitherCase('W', 'w'));
  }

  /** The simplified form, with white space before it, does not start with `P` once that white space is gone. */
  lemma {:induction false} SimplifiedStartsNotIso(weeks: Option<nat>, days: Option<nat>, hours: Option<nat>, w: char, d: char, h: char, sep1: string, sep2: string, ws1: string, t: string)
    requires AllSpace(sep1) && AllSpace(sep2) && AllSpace(ws1)
    requires weeks.None? && days.None? && hours.None? ==> NotIsoStart(SkipSpaces(t))
    ensures NotIsoStart(SkipSpaces(ws1 + Element(weeks, w) + (sep1 + Element(days, d) + (sep2 + Element(hours, h) + t))))
  {
    var r2 := sep2 + Element(hours, h) + t;
    var r1 := sep1 + Element(days, d) + r2;
    SkipToElement(sep2, hours, h, t);
    SkipToElement(sep1, days, d, r2);
    SkipToElement(ws1, weeks, w, r1);
  }

  /**
   * The simplified form, with white space before it and any text after it
   * that does not continue the grammar, is read as its elements, an omitted
   * one as 0, once its leading white space is gone; what is read does not
   * start with `P`.
   */
  lemma {:induction false} SimplifiedTextMatches(weeks: Option<nat>, days: Option<nat>, hours: Option<nat>, w: char, d: char, h: char, sep1: string, sep2: string, ws1: string, t: string)
    requires w == 'w' || w == 'W'
    requires d == 'd' || d == 'D'
    requires h == 'h' || h == 'H'
    requires AllSpace(sep1) && AllSpace(sep2) && AllSpace(ws1)
    requires SimplifiedTail(weeks, days, hours, t)
    ensures var s := SkipSpaces(ws1 + SimplifiedText(weeks, days, hours, w, d, h, sep1, sep2) + t);
      NotIsoStart(s) && SimplifiedMatch(s) == Some(ElementFields(None, None, weeks, days, hours))
  {
    SimplifiedTextAppend(weeks, days, hours, w, d, h, sep1, sep2, ws1, t);
    SimplifiedStartsNotIso(weeks, days, hours, w, d, h, sep1, sep2, ws1, t);
    SimplifiedWeeksRead(weeks, days, hours, w, d, h, sep1, sep2, ws1, t);
    SimplifiedDaysRead(days, hours, d, h, sep1, sep2, t);
    SimplifiedHoursRead(hours, h, sep2, t);
  }

  /** Seven strings joined, with the middle five grouped, regrouped around the second. */
  lemma {:induction false} RegroupAround(ws1: string, a: string, sep1: string, b: string, sep2: string, c: string, ws2: string)
    ensures ws1 + (a + sep1 + b + sep2 + c) + ws2 == ws1 + a + (sep1 + b + (sep2 + c + ws2))
  {
  }

  /** The simplified form between white space and a tail, written element by element. */
  lemma {:induction false} SimplifiedTextAppend(weeks: Option<nat>, days: Option<nat>, hours: Option<nat>, w: char, d: char, h: char, sep1: string, sep2: string, ws1: string, t: string)
    ensures ws1 + SimplifiedText(weeks, days, hours, w, d, h, sep1, sep2) + t
         == ws1 + Element(weeks, w) + (sep1 + Element(days, d) + (sep2 + Element(hours, h) + t))
  {
    RegroupAround(ws1, Element(weeks, w), sep1, Element(days, d), sep2, Element(hours, h), t);
  }

  /** Digits stop where white space starts. */
  lemma {:induction false} LeadingDigitsAppend(s: string, ws: string)
    requires ws == [] || !IsDigit(ws[0])
    ensures LeadingDigits(s + ws) == LeadingDigits(s)
    decreases |s|
  {
    if s == [] {
      assert s + ws == ws;
    } else if IsDigit(s[0]) {
      assert (s + ws)[1..] == s[1..] + ws;
      LeadingDigitsAppend(s[1..], ws);
    }
  }

  /** White space after the text changes no group: it only follows the group's rest. */
  lemma {:induction false} GroupIgnoresTrailing(s: string, ws: string, letters: Letters)
    requires AllSpace(ws) && letters.NoSpaces()
    ensures var g := OptionalGroup(s, letters);
      OptionalGroup(s + ws, letters) == Group(g.value, g.rest + ws)
  {
    LeadingDigitsAppend(s, ws);
    var k := LeadingDigits(s);
    if 0 < k < |s| {
      assert (s + ws)[k] == s[k];
      assert (s + ws)[..k] == s[..k];
      assert (s + ws)[k + 1..] == s[k + 1..] + ws;
    } else if 0 < k && ws != [] {
      assert (s + ws)[k] == ws[0];
    }
  }

  /** White space after the text: `\s*` leaves it after what it leaves, or skips it too. */
  lemma {:induction false} SkipIgnoresTrailing(s: string, ws: string)
    requires AllSpace(ws)
    ensures SkipSpaces(s + ws) == SkipSpaces(s) + (if SkipSpaces(s) == [] then [] else ws)
  {
    if StripLeft(s) != [] {
      StripLeftAppend(s, ws);
    } else {
      assert s[..|s|] == s;
      AllSpaceAppend(s, ws);
      StripLeftAllSpace(s + ws);
    }
  }

  /** Trailing white space does not change what the simplified grammar reads. */
  lemma {:induction false} SimplifiedIgnoresTrailing(s: string, ws: string)
    requires AllSpace(ws)
    ensures SimplifiedMatch(s + ws) == SimplifiedMatch(s)
  {
    var W, D, H := EitherCase('W', 'w'), EitherCase('D', 'd'), EitherCase('H', 'h');
    var g1 := OptionalGroup(s, W);
    GroupIgnoresTrailing(s, ws, W);
    SkipIgnoresTrailing(g1.rest, ws);
    var s1 := SkipSpaces(g1.rest);
    var e1: string := if s1 == [] then [] else ws;
    var g2 := OptionalGroup(s1, D);
    GroupIgnoresTrailing(s1, e1, D);
    SkipIgnoresTrailing(g2.rest, e1);
    var s2 := SkipSpaces(g2.rest);
    var e2: string := if s2 == [] then [] else e1;
    GroupIgnoresTrailing(s2, e2, H);
  }

  /**
   * An ISO duration that ends in a visible character, followed by `t`:
   * only the trailing white space of `t` is stripped, and the ISO grammar
   * reads the rest.
   */
  lemma {:induction false} ParseIsoPrefix(text: string, t: string, f: Fields)
    requires |text| > 0 && text[0] == 'P' && !IsSpace(text[|text| - 1])
    requires IsoMatch(text + StripRight(t)) == Some(f)
    ensures ParseDuration(text + t) == Checked(TotalHours(f))
  {
    StripKeepsFront(text, t);
    ParseThroughIso(text + t, f);
  }

  /** White space before a duration is stripped: it changes nothing. */
  lemma {:induction false} ParseAfterSpace(ws: string, s: string)
    requires AllSpace(ws)
    ensures ParseDuration(ws + s) == ParseDuration(s)
  {
    StripLeftSpaces(ws, s);
    ParseChecksTotal(ws + s);
    ParseChecksTotal(s);
  }

  /** A string whose stripped form the ISO grammar reads as `f` parses to the hours of `f`. */
  lemma ParseThroughIso(s: string, f: Fields)
    requires |Strip(s)| > 0 && Strip(s)[0] == 'P' && IsoMatch(Strip(s)) == Some(f)
    ensures ParseDuration(s) == Checked(TotalHours(f))
  {
  }

  /** The letters of the ISO form. */
  predicate IsoLetter(c: char) {
    c == 'P' || c == 'Y' || c == 'M' || c == 'D' || c == 'T' || c == 'H'
  }

  lemma {:induction false} IsoLetterVisible(c: char)
    requires IsoLetter(c)
    ensures !IsSpace(c)
  {
  }

  /** Appending an element, present or omitted, keeps an ISO letter at the end. */
  lemma {:induction false} ElementKeepsLetter(a: string, n: Option<nat>, unit: char)
    requires a != [] && IsoLetter(a[|a| - 1]) && IsoLetter(unit)
    ensures var b := a + Element(n, unit); b != [] && b[0] == a[0] && IsoLetter(b[|b| - 1])
  {
    if n.Some? {
      var e := Token(n.value, unit, "");
      assert (a + e)[|a + e| - 1] == e[|e| - 1];
    } else {
      assert a + Element(n, unit) == a;
    }
  }

  /** The time part, present or omitted, keeps an ISO letter at the end. */
  lemma {:induction false} TimeKeepsLetter(a: string, hours: Option<nat>)
    requires a != [] && IsoLetter(a[|a| - 1])
    ensures var b := a + TimeElement(hours); b != [] && b[0] == a[0] && IsoLetter(b[|b| - 1])
  {
    if hours.Some? {
      ElementKeepsLetter(a + "T", hours, 'H');
      Assoc(a, "T", Element(hours, 'H'));
    } else {
      assert a + TimeElement(hours) == a;
    }
  }

  lemma {:induction false} IsoTextEnds(years: Option<nat>, months: Option<nat>, days: Option<nat>, hours: Option<nat>)
    ensures var text := IsoText(years, months, days, hours);
      text[0] == 'P' && !IsSpace(text[|text| - 1])
  {
    var y := "P" + Element(years, 'Y');
    var m := y + Element(months, 'M');
    var d := m + Element(days, 'D');
    assert y != [] && y[0] == 'P' && IsoLetter(y[|y| - 1]) by {
      ElementKeepsLetter("P", years, 'Y');
    }
    assert m != [] && m[0] == 'P' && IsoLetter(m[|m| - 1]) by {
      ElementKeepsLetter(y, months, 'M');
    }
    assert d != [] && d[0] == 'P' && IsoLetter(d[|d| - 1]) by {
      ElementKeepsLetter(m, days, 'D');
    }
    var text := d + TimeElement(hours);
    assert text != [] && text[0] == 'P' && IsoLetter(text[|text| - 1]) by {
      TimeKeepsLetter(d, hours);
    }
    assert !IsSpace(text[|text| - 1]) by {
      IsoLetterVisible(text[|text| - 1]);
    }
    assert IsoText(years, months, days, hours) == text;
  }

  /**
   * Any element of the ISO form may be omitted, and any text after it that
   * does not continue the grammar is ignored. White space before it is
   * ignored too, by `ParseAfterSpace`.
   */
  lemma {:induction false} ParseIsoText(years: Option<nat>, months: Option<nat>, days: Option<nat>, hours: Option<nat>, t: string)
    requires IsoTail(hours, t)
    ensures ParseDuration(IsoText(years, months, days, hours) + t)
         == Checked(TotalHours(ElementFields(years, months, None, days, hours)))
  {
    var text := IsoText(years, months, days, hours);
    var f := ElementFields(years, months, None, days, hours);
    IsoTextEnds(years, months, days, hours);
    IsoTextMatches(years, months, days, hours, StripRight(t));
    ParseIsoPrefix(text, t, f);
  }

  /** A week duration excludes the other fields; any text after it (`P1WT3H`) is ignored. */
  lemma {:induction false} ParseWeeksText(weeks: nat, t: string)
    ensures ParseDuration(WeeksText(weeks) + t) == Checked(TotalHours(Fields(0, 0, weeks, 0, 0)))
  {
    var text := WeeksText(weeks);
    var f := Fields(0, 0, weeks, 0, 0);
    assert text[0] == 'P' && !IsSpace(text[|text| - 1]) by {
      assert text[|text| - 1] == 'W';
    }
    assert IsoMatch(text + StripRight(t)) == Some(f) by {
      WeeksTextMatches(weeks, StripRight(t));
    }
    ParseIsoPrefix(text, t, f);
  }

  /**
   * Any element of the simplified form may be omitted; unit letters are of
   * either case, white space before and between the elements is ignored, and
   * so is any text after them that does not continue the grammar.
   */
  lemma {:induction false} ParseSimplifiedText(weeks: Option<nat>, days: Option<nat>, hours: Option<nat>, w: char, d: char, h: char, sep1: string, sep2: string, ws1: string, t: string)
    requires w == 'w' || w == 'W'
    requires d == 'd' || d == 'D'
    requires h == 'h' || h == 'H'
    requires AllSpace(sep1) && AllSpace(sep2) && AllSpace(ws1)
    requires SimplifiedTail(weeks, days, hours, t)
    ensures ParseDuration(ws1 + SimplifiedText(weeks, days, hours, w, d, h, sep1, sep2) + t)
         == Checked(TotalHours(ElementFields(None, None, weeks, days, hours)))
  {
    var x := ws1 + SimplifiedText(weeks, days, hours, w, d, h, sep1, sep2) + t;
    var f := ElementFields(None, None, weeks, days, hours);
    var left := StripLeft(x);
    var core := Strip(x);
    assert NotIsoStart(left) && SimplifiedMatch(left) == Some(f) by {
      SimplifiedTextMatches(weeks, days, hours, w, d, h, sep1, sep2, ws1, t);
    }
    assert SimplifiedMatch(core) == Some(f) by {
      StripLeftThenRight(x);
      SimplifiedIgnoresTrailing(core, left[|core|..]);
    }
    assert MatchPeriod(core) == Some(f) by {
      assert core == [] || core[0] == left[0];
    }
    ParseChecksTotal(x);
  }

  /**
   * A string that, once stripped, starts with neither `P` nor a digit
   * matches the simplified grammar with every group empty, so the result
   * is the zero duration, which is refused.
   */
  lemma {:induction false} ParseNoNumber(s: string)
    requires var t := Strip(s); t == [] || (t[0] != 'P' && !IsDigit(t[0]))
    ensures ParseDuration(s) == Failure(NotPositive)
  {
    NoNumberPeriod(Strip(s));
    ParseChecksTotal(s);
  }

  lemma {:induction false} NoNumberPeriod(t: string)
    requires t == [] || (t[0] != 'P' && !IsDigit(t[0]) && !IsSpace(t[0]))
    ensures MatchPeriod(t) == Some(Fields(0, 0, 0, 0, 0))
  {
    GroupAbsent(t, EitherCase('W', 'w'));
    SkipSpacesAtVisible(t);
    GroupAbsent(t, EitherCase('D', 'd'));
    GroupAbsent(t, EitherCase('H', 'h'));
  }

  /**
   * Apart from overflow, the only failure: the duration is refused as not
   * positive exactly when every group the grammar read is empty (or zero).
   */
  lemma ZeroWhenAllEmpty(s: string)
    ensures var f := MatchPeriod(Strip(s)).value;
      ParseDuration(s) == Failure(NotPositive) <==> f.years == f.months == f.weeks == f.days == f.hours == 0
  {
    var f := MatchPeriod(Strip(s)).value;
    assert ParseDuration(s) == Checked(TotalHours(f)) by {
      ParseChecksTotal(s);
    }
    assert Checked(TotalHours(f)) == Failure(NotPositive) <==> TotalHours(f) == 0;
    assert TotalHours(f) == 0 <==> f.years == f.months == f.weeks == f.days == f.hours == 0;
  }

  /** The duration is the total of whatever the grammars read, refused when it is zero or too large. */
  lemma ParseChecksTotal(s: string)
    ensures ParseDuration(s) == Checked(TotalHours(MatchPeriod(Strip(s)).value))
  {
  }

  /** ISO unit letters are upper case only: `P#d` reads no group, so it is the zero duration. */
  lemma ParseIsoLowerCase(days: nat)
    ensures ParseDuration("P" + Token(days, 'd', "")) == Failure(NotPositive)
  {
    var body := Token(days, 'd', "");
    var text := "P" + body;
    var f := Fields(0, 0, 0, 0, 0);
    assert text[|text| - 1] == 'd';
    assert IsoMatch(text + StripRight("")) == Some(f) by {
      assert text + StripRight("") == text;
      assert text[1..] == body;
      GroupReads(days, 'd', "", Upper('W'));
      GroupReads(days, 'd', "", Upper('Y'));
      GroupReads(days, 'd', "", Upper('M'));
      GroupReads(days, 'd', "", Upper('D'));
    }
    ParseIsoPrefix(text, "", f);
    assert text + "" == text;
  }

  // Instances of the two forms

  /** `#d` alone, in either case, as in the default retention `14d` (336 hours). */
  lemma {:induction false} ParseDaysOnly(days: nat, d: char)
    requires d == 'd' || d == 'D'
    ensures ParseDuration(Token(days, d, "")) == Checked(HoursPerDay * days)
  {
    ParseDaysThenText(days, d, "");
  }

  /** `#d` then text with no number next, such as `14days`: the grammar reads a prefix, so the text is ignored. */
  lemma {:induction false} ParseDaysThenText(days: nat, d: char, t: string)
    requires d == 'd' || d == 'D'
    requires NoNumberNext(t)
    ensures ParseDuration(Token(days, d, t)) == Checked(HoursPerDay * days)
  {
    var x := "" + SimplifiedText(None, Some(days), None, 'w', d, 'h', "", "") + t;
    var f := ElementFields(None, None, None, Some(days), None);
    calc {
      ParseDuration(Token(days, d, t));
    == { DaysText(days, d, t); }
      ParseDuration(x);
    == { ParseSimplifiedText(None, Some(days), None, 'w', d, 'h', "", "", "", t); }
      Checked(TotalHours(f));
    == { assert TotalHours(f) == HoursPerDay * days; }
      Checked(HoursPerDay * days);
    }
  }

  lemma {:induction false} DaysText(days: nat, d: char, t: string)
    ensures Token(days, d, t) == "" + SimplifiedText(None, Some(days), None, 'w', d, 'h', "", "") + t
  {
    SimplifiedTextAppend(None, Some(days), None, 'w', d, 'h', "", "", "", t);
    var r2 := "" + Element(None, 'h') + t;
    assert r2 == t;
    var r1 := "" + Element(Some(days), d) + r2;
    assert r1 == Token(days, d, t) by {
      ElementAppend(Some(days), d, t);
    }
    assert "" + Element(None, 'w') + r1 == r1;
  }

  lemma {:induction false} IsoYearsText(years: nat)
    ensures "P" + Token(years, 'Y', "") == IsoText(Some(years), None, None, None) + ""
  {
  }

  lemma {:induction false} IsoDaysText(days: nat)
    ensures "P" + Token(days, 'D', "") == IsoText(None, None, Some(days), None) + ""
  {
  }

  lemma {:induction false} IsoHoursText(hours: nat)
    ensures "PT" + Token(hours, 'H', "") == IsoText(None, None, None, Some(hours)) + ""
  {
  }

  lemma {:induction false} DaysHoursText(days: nat, hours: nat, t: string)
    ensures Token(days, 'd', Token(hours, 'h', t)) == "" + SimplifiedText(None, Some(days), Some(hours), 'w', 'd', 'h', "", "") + t
  {
    SimplifiedTextAppend(None, Some(days), Some(hours), 'w', 'd', 'h', "", "", "", t);
    var r2 := "" + Element(Some(hours), 'h') + t;
    assert r2 == Token(hours, 'h', t) by {
      ElementAppend(Some(hours), 'h', t);
    }
    var r1 := "" + Element(Some(days), 'd') + r2;
    assert r1 == Token(days, 'd', Token(hours, 'h', t)) by {
      ElementAppend(Some(days), 'd', Token(hours, 'h', t));
    }
    assert "" + Element(None, 'w') + r1 == r1;
  }

  /** `#d#h` then any text, such as `1d12h30m`: the grammar ends at the hours, so the minutes are ignored. */
  lemma {:induction false} ParseDaysHoursThenText(days: nat, hours: nat, t: string)
    ensures ParseDuration(Token(days, 'd', Token(hours, 'h', t))) == Checked(HoursPerDay * days + hours)
  {
    var x := "" + SimplifiedText(None, Some(days), Some(hours), 'w', 'd', 'h', "", "") + t;
    var f := ElementFields(None, None, None, Some(days), Some(hours));
    calc {
      ParseDuration(Token(days, 'd', Token(hours, 'h', t)));
    == { DaysHoursText(days, hours, t); }
      ParseDuration(x);
    == { ParseSimplifiedText(None, Some(days), Some(hours), 'w', 'd', 'h', "", "", "", t); }
      Checked(TotalHours(f));
    == { assert TotalHours(f) == HoursPerDay * days + hours; }
      Checked(HoursPerDay * days + hours);
    }
  }

  /** `P#Y` alone: years of 365 days. */
  lemma {:induction false} ParseYearsOnly(years: nat)
    ensures ParseDuration("P" + Token(years, 'Y', "")) == Checked(HoursPerDay * DaysPerYear * years)
  {
    var x := IsoText(Some(years), None, None, None) + "";
    var f := ElementFields(Some(years), None, None, None, None);
    calc {
      ParseDuration("P" + Token(years, 'Y', ""));
    == { IsoYearsText(years); }
      ParseDuration(x);
    == { ParseIsoText(Some(years), None, None, None, ""); }
      Checked(TotalHours(f));
    == { assert TotalHours(f) == HoursPerDay * DaysPerYear * years; }
      Checked(HoursPerDay * DaysPerYear * years);
    }
  }

  /** `P#D` alone: days. */
  lemma {:induction false} ParseIsoDaysOnly(days: nat)
    ensures ParseDuration("P" + Token(days, 'D', "")) == Checked(HoursPerDay * days)
  {
    var x := IsoText(None, None, Some(days), None) + "";
    var f := ElementFields(None, None, None, Some(days), None);
    calc {
      ParseDuration("P" + Token(days, 'D', ""));
    == { IsoDaysText(days); }
      ParseDuration(x);
    == { ParseIsoText(None, None, Some(days), None, ""); }
      Checked(TotalHours(f));
    == { assert TotalHours(f) == HoursPerDay * days; }
      Checked(HoursPerDay * days);
    }
  }

  /** `PT#H` alone: hours, with every date element omitted. */
  lemma {:induction false} ParseHoursOnly(hours: nat)
    ensures ParseDuration("PT" + Token(hours, 'H', "")) == Checked(hours)
  {
    var x := IsoText(None, None, None, Some(hours)) + "";
    var f := ElementFields(None, None, None, None, Some(hours));
    calc {
      ParseDuration("PT" + Token(hours, 'H', ""));
    == { IsoHoursText(hours); }
      ParseDuration(x);
    == { ParseIsoText(None, None, None, Some(hours), ""); }
      Checked(TotalHours(f));
    == { assert TotalHours(f) == hours; }
      Checked(hours);
    }
  }

  /** `P#WT#H`: a week group ends the ISO match, so the hours after it are ignored. */
  lemma {:induction false} ParseWeekThenHours(weeks: nat, hours: nat)
    ensures ParseDuration(WeeksText(weeks) + "T" + Token(hours, 'H', "")) == Checked(HoursPerDay * DaysPerWeek * weeks)
  {
    var x := WeeksText(weeks) + ("T" + Token(hours, 'H', ""));
    var f := Fields(0, 0, weeks, 0, 0);
    calc {
      ParseDuration(WeeksText(weeks) + "T" + Token(hours, 'H', ""));
    == { Assoc(WeeksText(weeks), "T", Token(hours, 'H', "")); }
      ParseDuration(x);
    == { ParseWeeksText(weeks, "T" + Token(hours, 'H', "")); }
      Checked(TotalHours(f));
    == { assert TotalHours(f) == HoursPerDay * DaysPerWeek * weeks; }
      Checked(HoursPerDay * DaysPerWeek * weeks);
    }
  }

  /** The default retention `14d` is two weeks: 336 hours. */
  lemma ParseFourteenDays()
    ensures ParseDuration("14d") == Success(336)
  {
    assert Decimal(14) == "14";
    assert Token(14, 'd', "") == "14d";
    ParseDaysOnly(14, 'd');
  }

  /** `14days` is read as its prefix `14d`: 336 hours. */
  lemma ParseFourteenDaysSpelledOut()
    ensures ParseDuration("14days") == Success(336)
  {
    assert Decimal(14) == "14";
    assert Token(14, 'd', "ays") == "14days";
    assert NoNumberNext("ays") by {
      SkipSpacesAtVisible("ays");
    }
    ParseDaysThenText(14, 'd', "ays");
  }

  /** `1d12h30m` is read as its prefix `1d12h`: 36 hours. */
  lemma ParseDayHoursMinutes()
    ensures ParseDuration("1d12h30m") == Success(36)
  {
    assert Decimal(1) == "1";
    assert Decimal(12) == "12";
    assert Token(1, 'd', Token(12, 'h', "30m")) == "1d12h30m";
    ParseDaysHoursThenText(1, 12, "30m");
  }

  /** A year is 365 days: `P1Y` is 8760 hours. */
  lemma ParseOneYear()
    ensures ParseDuration("P1Y") == Success(8760)
  {
    assert Decimal(1) == "1";
    assert "P" + Token(1, 'Y', "") == "P1Y";
    ParseYearsOnly(1);
  }

  /** `P1D` is 24 hours. */
  lemma ParseOneDay()
    ensures ParseDuration("P1D") == Success(24)
  {
    assert Decimal(1) == "1";
    assert "P" + Token(1, 'D', "") == "P1D";
    ParseIsoDaysOnly(1);
  }

  /** `P0D` is the zero duration, which is refused. */
  lemma ParseZeroDays()
    ensures ParseDuration("P0D") == Failure(NotPositive)
  {
    assert Decimal(0) == "0";
    assert "P" + Token(0, 'D', "") == "P0D";
    ParseIsoDaysOnly(0);
  }

  /** `P1W` is 168 hours. */
  lemma ParseOneWeek()
    ensures ParseDuration("P1W") == Success(168)
  {
    assert Decimal(1) == "1";
    assert WeeksText(1) + "" == "P1W";
    ParseWeeksText(1, "");
  }
}
