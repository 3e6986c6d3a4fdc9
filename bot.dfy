/** The command layer of BossTrackerBot: reading the `next` command's time
    argument with TIME_REGEX, validating the `level` command's argument, and
    laying out the `help` text. The regular expression is modelled by the
    order in which a backtracking matcher tries its alternatives and optional
    groups, so each result is the match Ruby's engine reports. */
module Bot {
  import opened Optional
  import opened Text
  import Durations
  import Tracker
  import Channel

  // ---------------------------------------------------------------------
  // Whitespace and the argument string
  // ---------------------------------------------------------------------

  /** Ruby's `\s` (and the blanks `to_i` skips): space, tab, newline,
      vertical tab, form feed and carriage return. */
  predicate IsSpace(c: char) {
    c == ' ' || '\t' <= c <= '\r'
  }

  /** `parts.join`: the arguments glued with no separator. */
  function Concat(parts: seq<string>): string {
    if parts == [] then "" else parts[0] + Concat(parts[1..])
  }

  /** `s.gsub(/\s/, '')`: every whitespace character removed, the others kept
      in order. */
  function StripSpace(s: string): (r: string)
    ensures |r| <= |s|
    ensures forall i :: 0 <= i < |r| ==> !IsSpace(r[i])
  {
    if s == [] then ""
    else (if IsSpace(s[0]) then "" else [s[0]]) + StripSpace(s[1..])
  }

  lemma ConcatOne(w: string)
    ensures Concat([w]) == w
  {
    assert [w][1..] == [];
  }

  lemma {:induction false} ConcatAppend(a: seq<string>, b: seq<string>)
    ensures Concat(a + b) == Concat(a) + Concat(b)
  {
    if a != [] {
      var ab := a + b;
      assert ab != [] && ab[0] == a[0] && ab[1..] == a[1..] + b;
      ConcatAppend(a[1..], b);
      assert Concat(ab) == a[0] + (Concat(a[1..]) + Concat(b));
    } else {
      assert a + b == b;
    }
  }

  lemma {:induction false} StripSpaceAppend(a: string, b: string)
    ensures StripSpace(a + b) == StripSpace(a) + StripSpace(b)
  {
    if a != [] {
      var ab := a + b;
      assert ab != [] && ab[0] == a[0] && ab[1..] == a[1..] + b;
      StripSpaceAppend(a[1..], b);
      var h := if IsSpace(a[0]) then "" else [a[0]];
      assert StripSpace(ab) == h + (StripSpace(a[1..]) + StripSpace(b));
    } else {
      assert a + b == b;
    }
  }

  /** A string with no whitespace is left as it is. */
  lemma {:induction false} StripSpaceKeeps(s: string)
    requires forall i :: 0 <= i < |s| ==> !IsSpace(s[i])
    ensures StripSpace(s) == s
  {
    if s != [] {
      StripSpaceKeeps(s[1..]);
      assert s == [s[0]] + s[1..];
    }
  }

  // ---------------------------------------------------------------------
  // TIME_REGEX
  // ---------------------------------------------------------------------

  /** The named groups of a match: `h` and `m` are nil when their optional
      group took no part in the match; `s` is always set. */
  datatype Captures = Captures(h: Option<string>, m: Option<string>, s: string)

  /** The two alternatives of TIME_REGEX: "5h15m23s" and "5:15:23". */
  datatype Form = Suffixed | Colon

  /** The character that closes the hour or minutes group: `h`/`m` in the
      suffixed form, `.` or `:` in the colon form. */
  predicate ClosesHour(f: Form, c: char) {
    if f == Suffixed then c == 'h' else c == '.' || c == ':'
  }

  predicate ClosesMinutes(f: Form, c: char) {
    if f == Suffixed then c == 'm' else c == '.' || c == ':'
  }

  /** `\d{1,2}` followed by `\z`. */
  predicate OneOrTwoDigits(w: string) {
    1 <= |w| <= 2 && AllDigits(w)
  }

  /** The digit shapes of each group: one digit for the hour, one or two for
      the minutes and the seconds. */
  predicate GroupsShaped(c: Captures) {
    && (c.h.Some? ==> |c.h.value| == 1 && AllDigits(c.h.value))
    && (c.m.Some? ==> OneOrTwoDigits(c.m.value))
    && OneOrTwoDigits(c.s)
  }

  /** `(?<s>\d{1,2})s\z` or `(?<s>\d{1,2})\z` on what is left of the input. */
  function SecondsGroup(f: Form, w: string): (r: Option<string>)
    ensures r.Some? ==> OneOrTwoDigits(r.value)
  {
    if f == Suffixed then
      if |w| >= 2 && w[|w| - 1] == 's' && OneOrTwoDigits(w[..|w| - 1]) then Some(w[..|w| - 1]) else None
    else
      if OneOrTwoDigits(w) then Some(w) else None
  }

  /** The minutes group taken, with two digits tried before one, followed by
      the seconds group. */
  function MinutesTaken(f: Form, w: string): (r: Option<(string, string)>)
    ensures r.Some? ==> OneOrTwoDigits(r.value.0) && OneOrTwoDigits(r.value.1)
  {
    if |w| >= 3 && AllDigits(w[..2]) && ClosesMinutes(f, w[2]) && SecondsGroup(f, w[3..]).Some? then
      Some((w[..2], SecondsGroup(f, w[3..]).value))
    else if |w| >= 2 && AllDigits(w[..1]) && ClosesMinutes(f, w[1]) && SecondsGroup(f, w[2..]).Some? then
      Some((w[..1], SecondsGroup(f, w[2..]).value))
    else None
  }

  /** `(?:(?<m>\d{1,2})M)?` and the seconds group: the optional group is tried
      first, and skipped only when taking it leaves no match. */
  function MinutesGroup(f: Form, w: string): (r: Option<(Option<string>, string)>)
    ensures r.Some? ==> (r.value.0.Some? ==> OneOrTwoDigits(r.value.0.value)) && OneOrTwoDigits(r.value.1)
  {
    if MinutesTaken(f, w).Some? then
      Some((Some(MinutesTaken(f, w).value.0), MinutesTaken(f, w).value.1))
    else if SecondsGroup(f, w).Some? then Some((None, SecondsGroup(f, w).value))
    else None
  }

  /** One alternative of TIME_REGEX matched against the whole input: the
      optional one-digit hour group first, then the rest. */
  function Alternative(f: Form, w: string): (r: Option<Captures>)
    ensures r.Some? ==> GroupsShaped(r.value)
  {
    if |w| >= 2 && IsDigit(w[0]) && ClosesHour(f, w[1]) && MinutesGroup(f, w[2..]).Some? then
      Some(Captures(Some(w[..1]), MinutesGroup(f, w[2..]).value.0, MinutesGroup(f, w[2..]).value.1))
    else if MinutesGroup(f, w).Some? then
      Some(Captures(None, MinutesGroup(f, w).value.0, MinutesGroup(f, w).value.1))
    else None
  }

  /** `TIME_REGEX.match(w)`: the suffixed alternative first, then the colon
      one. */
  function TimeRegexMatch(w: string): (r: Option<Captures>)
    ensures r.Some? ==> GroupsShaped(r.value)
  {
    if Alternative(Suffixed, w).Some? then Alternative(Suffixed, w) else Alternative(Colon, w)
  }

  // ---------------------------------------------------------------------
  // Ruby's String#to_i
  // ---------------------------------------------------------------------

  function DropLeadingSpace(s: string): (r: string)
    ensures |r| <= |s|
  {
    if s != [] && IsSpace(s[0]) then DropLeadingSpace(s[1..]) else s
  }

  /** The digits at the head of `s`, where a single underscore between two
      digits is skipped over. */
  function LeadingDigits(s: string): (r: string)
    ensures AllDigits(r)
  {
    if s == [] || !IsDigit(s[0]) then ""
    else if |s| >= 3 && s[1] == '_' && IsDigit(s[2]) then [s[0]] + LeadingDigits(s[2..])
    else [s[0]] + LeadingDigits(s[1..])
  }

  /** The optional base-10 radix prefix "0d" (or "0D") that `to_i` skips
      after the sign. */
  function DropRadixPrefix(s: string): (r: string)
    ensures |r| <= |s|
  {
    if |s| >= 2 && s[0] == '0' && (s[1] == 'd' || s[1] == 'D') then s[2..] else s
  }

  /** `s.to_i`: leading blanks, an optional sign, an optional "0d" prefix,
      then the leading digits; text with no leading number is 0. */
  function ToI(s: string): int {
    var t := DropLeadingSpace(s);
    if t != [] && t[0] == '-' then 0 - DigitsValue(LeadingDigits(DropRadixPrefix(t[1..])))
    else if t != [] && t[0] == '+' then DigitsValue(LeadingDigits(DropRadixPrefix(t[1..])))
    else DigitsValue(LeadingDigits(DropRadixPrefix(t)))
  }

  lemma {:induction false} LeadingDigitsOfDigits(s: string)
    requires AllDigits(s)
    ensures LeadingDigits(s) == s
  {
    if s != [] {
      LeadingDigitsOfDigits(s[1..]);
      assert s == [s[0]] + s[1..];
    }
  }

  /** A string of digits reads as the number it denotes. */
  lemma ToIOfDigits(s: string)
    requires 1 <= |s| && AllDigits(s)
    ensures ToI(s) == DigitsValue(s)
  {
    assert IsDigit(s[0]);
    assert DropLeadingSpace(s) == s;
    assert |s| >= 2 ==> IsDigit(s[1]);
    assert DropRadixPrefix(s) == s;
    LeadingDigitsOfDigits(s);
  }

  /** `n.to_s.to_i == n`. */
  lemma ToIRoundTrip(n: nat)
    ensures ToI(NatToString(n)) == n
  {
    ToIOfDigits(NatToString(n));
    NatToStringRoundTrip(n);
  }

  /** A number written with the radix prefix, as in "0d50", reads as the
      number. */
  lemma ToIRadixPrefix(n: nat)
    ensures ToI("0d" + NatToString(n)) == n
    ensures ToI("0D" + NatToString(n)) == n
  {
    var digits := NatToString(n);
    ToIRoundTrip(n);
    assert ToI(digits) == DigitsValue(LeadingDigits(digits)) by {
      ToIOfDigits(digits);
      LeadingDigitsOfDigits(digits);
    }
    forall p | p == "0d" || p == "0D"
      ensures ToI(p + digits) == n
    {
      assert DropLeadingSpace(p + digits) == p + digits;
      assert DropRadixPrefix(p + digits) == digits;
    }
  }

  /** Text that does not open with a blank, a sign or a digit reads as 0. */
  lemma ToINonNumeric(s: string)
    requires s != [] && !IsDigit(s[0]) && !IsSpace(s[0]) && s[0] != '-' && s[0] != '+'
    ensures ToI(s) == 0
  {
  }

  // ---------------------------------------------------------------------
  // parse_time
  // ---------------------------------------------------------------------

  /** The hash `parse_time` returns: `hour` and `minute` only when their group
      matched. */
  datatype TimeStruct = TimeStruct(hour: Option<int>, minute: Option<int>, second: int)

  function ToIOption(s: Option<string>): Option<int> {
    if s.Some? then Some(ToI(s.value)) else None
  }

  function FromCaptures(c: Captures): TimeStruct {
    TimeStruct(ToIOption(c.h), ToIOption(c.m), ToI(c.s))
  }

  /** The match of TIME_REGEX against text already stripped of whitespace,
      read into the time hash. */
  function MatchTime(w: string): Option<TimeStruct> {
    if TimeRegexMatch(w).Some? then Some(FromCaptures(TimeRegexMatch(w).value)) else None
  }

  /** `parse_time(args)`: nil when the arguments, joined and stripped of
      whitespace, do not match TIME_REGEX. */
  function ParseTime(args: seq<string>): Option<TimeStruct> {
    MatchTime(StripSpace(Concat(args)))
  }

  /** `time(time_struct)`, the hash read as keywords as Ruby 2 does: the
      seconds a parsed time stands for, absent fields counting as 0. */
  function Seconds(t: TimeStruct): int {
    Durations.Time(t.hour.GetOr(0), t.minute.GetOr(0), t.second)
  }

  /** The bounds the regex puts on each field: a one-digit hour, at most two
      digits of minutes and of seconds. */
  predicate InRange(t: TimeStruct) {
    && (t.hour.Some? ==> 0 <= t.hour.value < 10)
    && (t.minute.Some? ==> 0 <= t.minute.value < 100)
    && 0 <= t.second < 100
  }

  lemma DigitsBelow(s: string)
    requires 1 <= |s| <= 2 && AllDigits(s)
    ensures 0 <= ToI(s) < if |s| == 1 then 10 else 100
  {
    ToIOfDigits(s);
    var p := s[..|s| - 1];
    assert AllDigits(p);
    if |s| == 2 {
      assert p[..0] == [];
      assert DigitsValue(p) < 10;
    } else {
      assert p == [];
    }
  }

  /** Captures of the right shape read into a time within the bounds. */
  lemma ShapedInRange(c: Captures)
    requires GroupsShaped(c)
    ensures InRange(FromCaptures(c))
  {
    DigitsBelow(c.s);
    if c.m.Some? {
      DigitsBelow(c.m.value);
    }
    if c.h.Some? {
      DigitsBelow(c.h.value);
    }
  }

  /** Whatever parses lies within the regex's digit bounds. */
  lemma ParseTimeInRange(args: seq<string>)
    requires ParseTime(args).Some?
    ensures InRange(ParseTime(args).value)
  {
    ShapedInRange(TimeRegexMatch(StripSpace(Concat(args))).value);
  }

  /** The arguments may be split anywhere: only their concatenation counts. */
  lemma ParseTimeJoins(a: seq<string>, b: seq<string>)
    ensures ParseTime(a + b) == ParseTime([Concat(a) + Concat(b)])
  {
    ConcatAppend(a, b);
    ConcatOne(Concat(a) + Concat(b));
  }

  /** A whitespace character anywhere in the input changes nothing. */
  lemma ParseTimeIgnoresSpace(a: string, c: char, b: string)
    requires IsSpace(c)
    ensures ParseTime([a + [c] + b]) == ParseTime([a + b])
  {
    StripSpaceAppend(a + [c], b);
    StripSpaceAppend(a, [c]);
    StripSpaceAppend(a, b);
    assert StripSpace([c]) == "";
    ConcatOne(a + [c] + b);
    ConcatOne(a + b);
    assert StripSpace(a + [c] + b) == StripSpace(a + b);
  }

  /** Whitespace alone strips to nothing. */
  lemma {:induction false} StripSpaceOfBlanks(s: string)
    requires forall i :: 0 <= i < |s| ==> IsSpace(s[i])
    ensures StripSpace(s) == ""
  {
    if s != [] {
      StripSpaceOfBlanks(s[1..]);
    }
  }

  /** Arguments made of whitespace alone join and strip to nothing. */
  lemma {:induction false} StripBlankArguments(args: seq<string>)
    requires forall j, i :: 0 <= j < |args| && 0 <= i < |args[j]| ==> IsSpace(args[j][i])
    ensures StripSpace(Concat(args)) == ""
  {
    if args != [] {
      StripBlankArguments(args[1..]);
      StripSpaceOfBlanks(args[0]);
      StripSpaceAppend(args[0], Concat(args[1..]));
    }
  }

  /** No arguments, or arguments of nothing but whitespace, never parse. */
  lemma ParseTimeEmpty(args: seq<string>)
    requires forall j, i :: 0 <= j < |args| && 0 <= i < |args[j]| ==> IsSpace(args[j][i])
    ensures ParseTime(args) == None
  {
    StripBlankArguments(args);
  }

  // ---------------------------------------------------------------------
  // Writing a time in either documented form
  // ---------------------------------------------------------------------

  function HourCloser(f: Form): char {
    if f == Suffixed then 'h' else ':'
  }

  function MinutesCloser(f: Form): char {
    if f == Suffixed then 'm' else ':'
  }

  function SecondsText(f: Form, n: nat): string {
    NatToString(n) + (if f == Suffixed then "s" else "")
  }

  /** A time written in one form: "5h15m23s" or "5:15:23", each field that
      is present followed by its closer. */
  function FormText(f: Form, t: TimeStruct): string
    requires InRange(t)
  {
    (if t.hour.Some? then NatToString(t.hour.value) + [HourCloser(f)] else "")
    + (if t.minute.Some? then NatToString(t.minute.value) + [MinutesCloser(f)] else "")
    + SecondsText(f, t.second)
  }

  /** The suffixed form, e.g. "5h15m23s". */
  function SuffixedText(t: TimeStruct): string
    requires InRange(t)
  {
    FormText(Suffixed, t)
  }

  /** The colon form of the usage line `h:mm:ss`, e.g. "4:15:23" or "21:15":
      the fields present, separated by colons, the last one the seconds. */
  function ColonText(t: TimeStruct): string
    requires InRange(t)
  {
    FormText(Colon, t)
  }

  /** The times the colon form can write: an hour only together with
      minutes. */
  predicate ColonWritable(t: TimeStruct) {
    InRange(t) && (t.hour.Some? ==> t.minute.Some?)
  }

  function DigitsOf(x: Option<int>): Option<string>
    requires x.Some? ==> 0 <= x.value
  {
    if x.Some? then Some(NatToString(x.value)) else None
  }

  lemma Field(n: nat)
    requires n < 100
    ensures OneOrTwoDigits(NatToString(n))
    ensures n < 10 <==> |NatToString(n)| == 1
    ensures ToI(NatToString(n)) == n
  {
    ToIRoundTrip(n);
    if n >= 10 {
      assert NatToString(n) == NatToString(n / 10) + [DigitChar(n % 10)];
    }
  }

  lemma SecondsTextFacts(f: Form, n: nat)
    requires n < 100
    ensures SecondsGroup(f, SecondsText(f, n)) == Some(NatToString(n))
    ensures forall i :: 0 <= i < |SecondsText(f, n)| ==>
      IsDigit(SecondsText(f, n)[i]) || SecondsText(f, n)[i] == 's'
    ensures IsDigit(SecondsText(f, n)[0])
    ensures f == Colon ==> IsDigit(SecondsText(f, n)[|SecondsText(f, n)| - 1])
  {
    Field(n);
    var w := SecondsText(f, n);
    if f == Suffixed {
      assert w[..|w| - 1] == NatToString(n);
    } else {
      assert w == NatToString(n);
    }
  }

  /** Unfolding the minutes group when the text opens with one or two digits
      and a closer. */
  lemma MinutesTakenOf(f: Form, d: string, c: char, tail: string)
    requires OneOrTwoDigits(d) && ClosesMinutes(f, c) && SecondsGroup(f, tail).Some?
    ensures MinutesTaken(f, d + [c] + tail) == Some((d, SecondsGroup(f, tail).value))
  {
    var w := d + [c] + tail;
    if |d| == 2 {
      assert w[..2] == d && w[2] == c && w[3..] == tail;
    } else {
      assert w[..1] == d && w[1] == c && w[2..] == tail;
      assert !AllDigits(w[..2]) by {
        assert w[..2][1] == c;
      }
    }
  }

  /** Unfolding the minutes group when no closer follows one or two digits. */
  lemma MinutesSkipped(f: Form, tail: string)
    requires SecondsGroup(f, tail).Some?
    requires forall i :: 0 <= i < |tail| ==> !ClosesMinutes(f, tail[i])
    ensures MinutesTaken(f, tail).None?
    ensures MinutesGroup(f, tail) == Some((None, SecondsGroup(f, tail).value))
  {
  }

  /** Unfolding an alternative whose text opens with a digit and an hour
      closer, when the rest matches. */
  lemma AlternativeWithHour(f: Form, hd: string, c: char, rest: string)
    requires |hd| == 1 && AllDigits(hd) && ClosesHour(f, c) && MinutesGroup(f, rest).Some?
    ensures Alternative(f, hd + [c] + rest) ==
      Some(Captures(Some(hd), MinutesGroup(f, rest).value.0, MinutesGroup(f, rest).value.1))
  {
    var w := hd + [c] + rest;
    assert w[..1] == hd && w[1] == c && w[2..] == rest;
  }

  /** Unfolding an alternative whose second character closes no hour. */
  lemma AlternativeWithoutHour(f: Form, w: string)
    requires |w| < 2 || !ClosesHour(f, w[1])
    ensures Alternative(f, w) ==
      if MinutesGroup(f, w).Some? then Some(Captures(None, MinutesGroup(f, w).value.0, MinutesGroup(f, w).value.1))
      else None
  {
  }

  /** The minutes group read from a written time's minutes and seconds. */
  lemma MinutesGroupOf(f: Form, t: TimeStruct)
    requires InRange(t)
    ensures var rest := (if t.minute.Some? then NatToString(t.minute.value) + [MinutesCloser(f)] else "")
                        + SecondsText(f, t.second);
      MinutesGroup(f, rest) == Some((DigitsOf(t.minute), NatToString(t.second)))
  {
    SecondsTextFacts(f, t.second);
    var tail := SecondsText(f, t.second);
    if t.minute.Some? {
      Field(t.minute.value);
      MinutesTakenOf(f, NatToString(t.minute.value), MinutesCloser(f), tail);
    } else {
      assert forall i :: 0 <= i < |tail| ==> !ClosesMinutes(f, tail[i]);
      MinutesSkipped(f, tail);
      assert "" + tail == tail;
    }
  }

  /** What each alternative makes of a time written in its own form. The
      hour group is tried first, so in the colon form a lone single-digit
      minutes field is taken as the hour. */
  lemma AlternativeOf(f: Form, t: TimeStruct)
    requires InRange(t)
    ensures Alternative(f, FormText(f, t)) ==
      if f == Colon && t.hour.None? && t.minute.Some? && t.minute.value < 10
      then Some(Captures(DigitsOf(t.minute), None, NatToString(t.second)))
      else Some(Captures(DigitsOf(t.hour), DigitsOf(t.minute), NatToString(t.second)))
  {
    if t.hour.Some? {
      AlternativeOfHour(f, t);
    } else if t.minute.Some? && f == Colon && t.minute.value < 10 {
      AlternativeOfShortMinutes(t);
    } else if t.minute.Some? {
      AlternativeOfMinutes(f, t);
    } else {
      AlternativeOfSeconds(f, t);
    }
  }

  lemma AlternativeOfHour(f: Form, t: TimeStruct)
    requires InRange(t) && t.hour.Some?
    ensures Alternative(f, FormText(f, t)) ==
      Some(Captures(DigitsOf(t.hour), DigitsOf(t.minute), NatToString(t.second)))
  {
    var rest := (if t.minute.Some? then NatToString(t.minute.value) + [MinutesCloser(f)] else "")
                + SecondsText(f, t.second);
    MinutesGroupOf(f, t);
    Field(t.hour.value);
    assert FormText(f, t) == NatToString(t.hour.value) + [HourCloser(f)] + rest;
    AlternativeWithHour(f, NatToString(t.hour.value), HourCloser(f), rest);
  }

  lemma AlternativeOfShortMinutes(t: TimeStruct)
    requires InRange(t) && t.hour.None? && t.minute.Some? && t.minute.value < 10
    ensures Alternative(Colon, FormText(Colon, t)) ==
      Some(Captures(DigitsOf(t.minute), None, NatToString(t.second)))
  {
    SecondsTextFacts(Colon, t.second);
    var tail := SecondsText(Colon, t.second);
    var d := NatToString(t.minute.value);
    Field(t.minute.value);
    assert FormText(Colon, t) == d + [':'] + tail;
    MinutesSkipped(Colon, tail);
    AlternativeWithHour(Colon, d, ':', tail);
  }

  lemma AlternativeOfMinutes(f: Form, t: TimeStruct)
    requires InRange(t) && t.hour.None? && t.minute.Some?
    requires f == Suffixed || t.minute.value >= 10
    ensures Alternative(f, FormText(f, t)) ==
      Some(Captures(None, DigitsOf(t.minute), NatToString(t.second)))
  {
    var tail := SecondsText(f, t.second);
    var d := NatToString(t.minute.value);
    var w := FormText(f, t);
    assert w == d + [MinutesCloser(f)] + tail;
    assert MinutesGroup(f, w) == Some((DigitsOf(t.minute), NatToString(t.second))) by {
      MinutesGroupOf(f, t);
    }
    assert !ClosesHour(f, w[1]) by {
      Field(t.minute.value);
      MinutesOpenNoHour(f, d, tail);
    }
    AlternativeWithoutHour(f, w);
  }

  /** Two digits, or one digit and the suffixed minutes closer, close no
      hour with their second character. */
  lemma MinutesOpenNoHour(f: Form, d: string, tail: string)
    requires OneOrTwoDigits(d) && (f == Suffixed || |d| == 2)
    ensures !ClosesHour(f, (d + [MinutesCloser(f)] + tail)[1])
  {
    var w := d + [MinutesCloser(f)] + tail;
    if |d| == 2 {
      assert w[1] == d[1];
    } else {
      assert w[1] == MinutesCloser(f);
    }
  }

  lemma AlternativeOfSeconds(f: Form, t: TimeStruct)
    requires InRange(t) && t.hour.None? && t.minute.None?
    ensures Alternative(f, FormText(f, t)) == Some(Captures(None, None, NatToString(t.second)))
  {
    SecondsTextFacts(f, t.second);
    MinutesGroupOf(f, t);
    var w := FormText(f, t);
    assert w == SecondsText(f, t.second);
    assert |w| < 2 || !ClosesHour(f, w[1]);
    AlternativeWithoutHour(f, w);
  }

  /** A written time holds no whitespace, so parsing it is matching it. */
  lemma ParseWritten(f: Form, t: TimeStruct)
    requires InRange(t)
    ensures StripSpace(Concat([FormText(f, t)])) == FormText(f, t)
  {
    var w := FormText(f, t);
    SecondsTextFacts(f, t.second);
    if t.hour.Some? {
      Field(t.hour.value);
    }
    if t.minute.Some? {
      Field(t.minute.value);
    }
    assert forall i :: 0 <= i < |w| ==> !IsSpace(w[i]);
    StripSpaceKeeps(w);
    ConcatOne(w);
  }

  lemma CapturesRead(t: TimeStruct)
    requires InRange(t)
    ensures FromCaptures(Captures(DigitsOf(t.hour), DigitsOf(t.minute), NatToString(t.second))) == t
  {
    Field(t.second);
    if t.hour.Some? {
      Field(t.hour.value);
    }
    if t.minute.Some? {
      Field(t.minute.value);
    }
  }

  /** The suffixed alternative only matches text that ends in `s`. */
  lemma SuffixedEndsInS(w: string)
    requires Alternative(Suffixed, w).Some?
    ensures w != [] && w[|w| - 1] == 's'
  {
    var v := if |w| >= 2 && IsDigit(w[0]) && ClosesHour(Suffixed, w[1]) && MinutesGroup(Suffixed, w[2..]).Some? then w[2..] else w;
    assert MinutesGroup(Suffixed, v).Some?;
    var u := if MinutesTaken(Suffixed, v).Some? then
               (if |v| >= 3 && AllDigits(v[..2]) && v[2] == 'm' && SecondsGroup(Suffixed, v[3..]).Some? then v[3..] else v[2..])
             else v;
    assert SecondsGroup(Suffixed, u).Some?;
    assert u[|u| - 1] == v[|v| - 1] == w[|w| - 1];
  }

  /** Nothing in the colon form ends in `s`, so the suffixed alternative
      never takes it. */
  lemma SuffixedMissesColon(t: TimeStruct)
    requires InRange(t)
    ensures Alternative(Suffixed, ColonText(t)).None?
  {
    SecondsTextFacts(Colon, t.second);
    var w := ColonText(t);
    var s := SecondsText(Colon, t.second);
    assert w[|w| - 1] == s[|s| - 1];
    if Alternative(Suffixed, w).Some? {
      SuffixedEndsInS(w);
    }
  }

  /** Round trip of the suffixed form: "5h15m23s", "15m0s", "7s" and every
      other time within the bounds parse back to the fields written. */
  lemma SuffixedRoundTrip(t: TimeStruct)
    requires InRange(t)
    ensures ParseTime([SuffixedText(t)]) == Some(t)
  {
    AlternativeOf(Suffixed, t);
    CapturesRead(t);
    ParseWritten(Suffixed, t);
  }

  /** As written, the colon form reads back whenever the first field is not
      a lone single-digit minute: "4:15:23", "21:15" and "7" do. */
  lemma ColonRoundTripAsWritten(t: TimeStruct)
    requires ColonWritable(t)
    requires !(t.hour.None? && t.minute.Some? && t.minute.value < 10)
    ensures ParseTime([ColonText(t)]) == Some(t)
  {
    AlternativeOf(Colon, t);
    SuffixedMissesColon(t);
    CapturesRead(t);
    ParseWritten(Colon, t);
  }

  /** "5:15", five minutes and fifteen seconds in the usage line's `h:mm:ss`
      layout, is read as five hours and fifteen seconds. */
  lemma ShortMinutesReadAsHours()
    ensures ColonText(TimeStruct(None, Some(5), 15)) == "5:15"
    ensures ParseTime(["5:15"]) == Some(TimeStruct(Some(5), None, 15))
    ensures Seconds(ParseTime(["5:15"]).value) == 5 * 3600 + 15
  {
    var t := TimeStruct(None, Some(5), 15);
    assert NatToString(5) == "5";
    assert NatToString(15) == "15" by {
      assert NatToString(15) == NatToString(1) + [DigitChar(5)];
    }
    AlternativeOf(Colon, t);
    SuffixedMissesColon(t);
    ParseWritten(Colon, t);
    Field(5);
    Field(15);
  }

  lemma TwoDigits(n: nat)
    requires 10 <= n < 100
    ensures NatToString(n) == [DigitChar(n / 10), DigitChar(n % 10)]
  {
    assert NatToString(n) == NatToString(n / 10) + [DigitChar(n % 10)];
  }

  /** The usage line's examples read as it says: "4:15:23" is 4h 15m 23s,
      "21:15" is 21m 15s, and the suffixed "5h15m23s" matches "5:15:23". */
  lemma UsageExamples()
    ensures ParseTime(["4:15:23"]) == Some(TimeStruct(Some(4), Some(15), 23))
    ensures ParseTime(["21:15"]) == Some(TimeStruct(None, Some(21), 15))
    ensures ParseTime(["5h15m23s"]) == Some(TimeStruct(Some(5), Some(15), 23))
    ensures Seconds(TimeStruct(Some(4), Some(15), 23)) == 15323
    ensures Seconds(TimeStruct(None, Some(21), 15)) == 1275
  {
    TwoDigits(15);
    TwoDigits(21);
    TwoDigits(23);
    assert NatToString(4) == "4" && NatToString(5) == "5";
    var a := TimeStruct(Some(4), Some(15), 23);
    var b := TimeStruct(None, Some(21), 15);
    var c := TimeStruct(Some(5), Some(15), 23);
    assert ColonText(a) == "4:15:23";
    assert ColonText(b) == "21:15";
    assert SuffixedText(c) == "5h15m23s";
    ColonRoundTripAsWritten(a);
    ColonRoundTripAsWritten(b);
    SuffixedRoundTrip(c);
  }

  // ---------------------------------------------------------------------
  // The colon form as the usage line documents it
  // ---------------------------------------------------------------------

  /** The colon alternative with the hour group nested inside the minutes
      group, `(?:(?:(?<h>\d)[.:])?(?<m>\d{1,2})[.:])?(?<s>\d{1,2})`, so that
      fields are assigned from the right: one field is seconds, two are
      minutes and seconds, three are hours, minutes and seconds. */
  function ColonFromRight(w: string): Option<Captures> {
    if |w| >= 2 && IsDigit(w[0]) && ClosesHour(Colon, w[1]) && MinutesTaken(Colon, w[2..]).Some? then
      Some(Captures(Some(w[..1]), Some(MinutesTaken(Colon, w[2..]).value.0), MinutesTaken(Colon, w[2..]).value.1))
    else if MinutesTaken(Colon, w).Some? then
      Some(Captures(None, Some(MinutesTaken(Colon, w).value.0), MinutesTaken(Colon, w).value.1))
    else if SecondsGroup(Colon, w).Some? then
      Some(Captures(None, None, SecondsGroup(Colon, w).value))
    else None
  }

  function MatchTimeFromRight(w: string): Option<TimeStruct> {
    var c := if Alternative(Suffixed, w).Some? then Alternative(Suffixed, w) else ColonFromRight(w);
    if c.Some? then Some(FromCaptures(c.value)) else None
  }

  /** `parse_time` with the colon form read from the right. */
  function ParseTimeFromRight(args: seq<string>): Option<TimeStruct> {
    MatchTimeFromRight(StripSpace(Concat(args)))
  }

  /** The corrected colon alternative differs from the written one only by
      reading a lone hour as the minutes; it accepts the same inputs. */
  lemma ColonFromRightRelabels(w: string)
    ensures ColonFromRight(w).Some? <==> Alternative(Colon, w).Some?
    ensures Alternative(Colon, w).Some? ==>
      ColonFromRight(w).value ==
        (var c := Alternative(Colon, w).value;
         if c.h.Some? && c.m.None? then Captures(None, c.h, c.s) else c)
  {
    if |w| >= 2 && IsDigit(w[0]) && ClosesHour(Colon, w[1]) && MinutesGroup(Colon, w[2..]).Some? {
      if MinutesTaken(Colon, w[2..]).None? {
        assert !AllDigits(w[..2]) by {
          assert w[..2][1] == w[1];
        }
        assert MinutesTaken(Colon, w).Some?;
      }
    }
  }

  /** The colon alternative only matches text that ends in a digit. */
  lemma ColonEndsInDigit(w: string)
    requires Alternative(Colon, w).Some?
    ensures w != [] && IsDigit(w[|w| - 1])
  {
    var v := if |w| >= 2 && IsDigit(w[0]) && ClosesHour(Colon, w[1]) && MinutesGroup(Colon, w[2..]).Some? then w[2..] else w;
    assert MinutesGroup(Colon, v).Some?;
    var u := if MinutesTaken(Colon, v).Some? then
               (if |v| >= 3 && AllDigits(v[..2]) && ClosesMinutes(Colon, v[2]) && SecondsGroup(Colon, v[3..]).Some? then v[3..] else v[2..])
             else v;
    assert SecondsGroup(Colon, u).Some?;
    assert u[|u| - 1] == v[|v| - 1] == w[|w| - 1];
  }

  /** The corrected parser accepts the same inputs as the written one, and
      differs from it only on a colon-form input with a lone hour, which it
      reads as minutes. */
  lemma ParseTimeFromRightRelabels(args: seq<string>)
    ensures ParseTimeFromRight(args).Some? <==> ParseTime(args).Some?
    ensures ParseTime(args).Some? ==>
      ParseTimeFromRight(args).value ==
        (var t := ParseTime(args).value;
         var w := StripSpace(Concat(args));
         if t.hour.Some? && t.minute.None? && w[|w| - 1] != 's' then TimeStruct(None, t.hour, t.second) else t)
  {
    var w := StripSpace(Concat(args));
    ColonFromRightRelabels(w);
    if Alternative(Suffixed, w).Some? {
      SuffixedEndsInS(w);
    } else if Alternative(Colon, w).Some? {
      ColonEndsInDigit(w);
    }
  }

  /** Round trip of the colon form as documented: every time the `h:mm:ss`
      layout can write parses back to its fields, "5:15" included. */
  lemma ColonRoundTripFromRight(t: TimeStruct)
    requires ColonWritable(t)
    ensures ParseTimeFromRight([ColonText(t)]) == Some(t)
  {
    AlternativeOf(Colon, t);
    SuffixedMissesColon(t);
    CapturesRead(t);
    ParseWritten(Colon, t);
    ColonFromRightRelabels(ColonText(t));
  }

  /** The suffixed form is unaffected by the correction. */
  lemma SuffixedRoundTripFromRight(t: TimeStruct)
    requires InRange(t)
    ensures ParseTimeFromRight([SuffixedText(t)]) == Some(t)
  {
    AlternativeOf(Suffixed, t);
    CapturesRead(t);
    ParseWritten(Suffixed, t);
  }

  // ---------------------------------------------------------------------
  // The `next` command
  // ---------------------------------------------------------------------

  const TIME_UPDATED := "Boss time updated"

  /** `next`: a time that parses is handed to the tracker's `set_next` and
      acknowledged; `None` when it does not parse. */
  function NextCommandStep(s: Tracker.State, args: seq<string>, now: int): Option<Tracker.State> {
    var t := ParseTimeFromRight(args);
    if t.Some? then Some(Tracker.SendStep(Tracker.SetNextStep(s, Seconds(t.value), now), TIME_UPDATED)) else None
  }

  lemma NextCommandKeepsInv(s: Tracker.State, args: seq<string>, now: int)
    requires Tracker.Inv(s)
    ensures NextCommandStep(s, args, now).Some? <==> ParseTime(args).Some?
    ensures NextCommandStep(s, args, now).Some? ==> Tracker.Inv(NextCommandStep(s, args, now).value)
  {
    ParseTimeFromRightRelabels(args);
    var t := ParseTimeFromRight(args);
    if t.Some? {
      Tracker.SetNextPreservesInv(s, Seconds(t.value), now);
      Tracker.SendKeepsInv(Tracker.SetNextStep(s, Seconds(t.value), now), TIME_UPDATED);
    }
  }

  // ---------------------------------------------------------------------
  // The `level` command
  // ---------------------------------------------------------------------

  const MIN_LEVEL := 1
  const MAX_LEVEL := 999
  const LEVEL_REFUSED := "Given level must be a valid number"

  /** What `level` does with its first argument. */
  datatype LevelAction = PrintLevel | SetLevel(level: int) | Refuse(reply: string)

  function LevelCommand(arg: Option<string>): LevelAction {
    if arg.None? then PrintLevel
    else
      var n := ToI(arg.value);
      if n < MIN_LEVEL || n > MAX_LEVEL then Refuse(LEVEL_REFUSED) else SetLevel(n)
  }

  /** A level is set exactly when the argument reads as a number in
      1..999, and then it is that number; with no argument the level is
      printed; anything else is refused with the one reply. */
  lemma LevelCommandCases(arg: Option<string>)
    ensures LevelCommand(arg) == PrintLevel <==> arg.None?
    ensures LevelCommand(arg).SetLevel? <==> arg.Some? && MIN_LEVEL <= ToI(arg.value) <= MAX_LEVEL
    ensures LevelCommand(arg).SetLevel? ==> LevelCommand(arg).level == ToI(arg.value)
    ensures LevelCommand(arg).Refuse? ==> LevelCommand(arg).reply == LEVEL_REFUSED
  {
  }

  /** Every level in range, written out, is accepted as itself. */
  lemma LevelAccepted(n: nat)
    requires MIN_LEVEL <= n <= MAX_LEVEL
    ensures LevelCommand(Some(NatToString(n))) == SetLevel(n)
  {
    ToIRoundTrip(n);
  }

  /** A level in range written with the radix prefix, as in `level 0d50`,
      is accepted too. */
  lemma LevelRadixPrefix(n: nat)
    requires MIN_LEVEL <= n <= MAX_LEVEL
    ensures LevelCommand(Some("0d" + NatToString(n))) == SetLevel(n)
  {
    ToIRadixPrefix(n);
  }

  /** Zero, negative and four-digit levels are refused. */
  lemma LevelOutOfRange(n: int)
    requires n < MIN_LEVEL || n > MAX_LEVEL
    ensures LevelCommand(Some(IntToString(n))) == Refuse(LEVEL_REFUSED)
  {
    if n >= 0 {
      ToIRoundTrip(n);
    } else {
      ToIRoundTrip(-n);
      assert IntToString(n)[1..] == NatToString(-n);
    }
  }

  /** Non-numeric text reads as 0 and is refused. */
  lemma LevelNonNumeric(arg: string)
    requires arg != [] && !IsDigit(arg[0]) && !IsSpace(arg[0]) && arg[0] != '-' && arg[0] != '+'
    ensures LevelCommand(Some(arg)) == Refuse(LEVEL_REFUSED)
  {
    ToINonNumeric(arg);
  }

  /** The command on the tracker: print, set, or reply with the refusal. */
  function LevelCommandStep(s: Tracker.State, arg: Option<string>): Tracker.State {
    match LevelCommand(arg)
    case PrintLevel => Tracker.PrintLevelStep(s)
    case SetLevel(n) => Tracker.SetLevelStep(s, n)
    case Refuse(reply) => Tracker.SendStep(s, reply)
  }

  /** The level command keeps the tracker's invariant, and never leaves a
      level outside 1..999 when there was none outside it before; a refusal
      changes nothing but the channel. */
  lemma LevelCommandKeepsRange(s: Tracker.State, arg: Option<string>)
    requires Tracker.Inv(s)
    requires s.level.Some? ==> MIN_LEVEL <= s.level.value <= MAX_LEVEL
    ensures Tracker.Inv(LevelCommandStep(s, arg))
    ensures var r := LevelCommandStep(s, arg);
      r.level.Some? ==> MIN_LEVEL <= r.level.value <= MAX_LEVEL
    ensures LevelCommand(arg).Refuse? ==>
      LevelCommandStep(s, arg) == s.(outbox := s.outbox + [Channel.Sent(LEVEL_REFUSED)])
  {
    match LevelCommand(arg)
    case PrintLevel =>
      Tracker.SendKeepsInv(s, Tracker.BonusMessageText(s.level));
    case SetLevel(n) =>
      Tracker.SetLevelKeepsInv(s, n);
    case Refuse(reply) =>
      Tracker.SendKeepsInv(s, reply);
  }

  // ---------------------------------------------------------------------
  // `help`
  // ---------------------------------------------------------------------

  /** An entry of COMMANDS: its name and, when it has one, its description. */
  datatype Command = Command(name: string, description: Option<string>)

  /** COMMANDS, in their declared order; `next`'s description quotes the
      prefix. */
  function Commands(prefix: string): seq<Command> {
    [ Command("help", Some("Get you some help")),
      Command("kill", Some("Marks the boss as killed and starts a new timer")),
      Command("next", Some("Sets the next boss time. Usage: '" + prefix + "next 5:15:12'")),
      Command("history", Some("Show the kill history")),
      Command("level", Some("Get and set the current boss level")),
      Command("timer", Some("Display the next boss time")) ]
  }

  /** `COMMANDS.keys.map(&:size).max`, 0 for no commands (Ruby's nil width
      pads nothing). */
  function MaxNameLength(cs: seq<Command>): (l: nat)
    ensures forall i :: 0 <= i < |cs| ==> |cs[i].name| <= l
    ensures cs != [] ==> exists i :: 0 <= i < |cs| && |cs[i].name| == l
  {
    if cs == [] then 0
    else
      var l := MaxNameLength(cs[1..]);
      if |cs[0].name| >= l then |cs[0].name|
      else
        assert exists i :: 1 <= i < |cs| && |cs[i].name| == l by {
          var j :| 0 <= j < |cs[1..]| && |cs[1..][j].name| == l;
          assert |cs[j + 1].name| == l;
        }
        l
  }

  /** Whether `help` lists a command: not `help` itself, and only with a
      description. */
  predicate Listed(c: Command) {
    c.name != "help" && c.description.Some?
  }

  function ListedCommands(cs: seq<Command>): seq<Command> {
    if cs == [] then []
    else (if Listed(cs[0]) then [cs[0]] else []) + ListedCommands(cs[1..])
  }

  /** A command is listed exactly when it is in the table and listable. */
  lemma {:induction false} ListedCommandsSpec(cs: seq<Command>, c: Command)
    ensures c in ListedCommands(cs) <==> c in cs && Listed(c)
  {
    if cs != [] {
      ListedCommandsSpec(cs[1..], c);
      assert cs == [cs[0]] + cs[1..];
    }
  }

  /** `"#{PREFIX}%-#{l}s - #{description}" % command`. */
  function HelpRow(prefix: string, c: Command, width: nat): string
    requires c.description.Some?
  {
    prefix + PadRight(c.name, width) + " - " + c.description.value
  }

  lemma ListedHaveDescriptions(cs: seq<Command>)
    ensures forall i :: 0 <= i < |ListedCommands(cs)| ==> Listed(ListedCommands(cs)[i])
  {
    forall i | 0 <= i < |ListedCommands(cs)| ensures Listed(ListedCommands(cs)[i]) {
      ListedCommandsSpec(cs, ListedCommands(cs)[i]);
    }
  }

  /** The lines `help` writes: the opening fence, one row per listed
      command, the closing fence. */
  function HelpLines(prefix: string, cs: seq<Command>): seq<string> {
    var listed := ListedCommands(cs);
    var width := MaxNameLength(cs);
    ListedHaveDescriptions(cs);
    ["```js"] + seq(|listed|, i requires 0 <= i < |listed| => HelpRow(prefix, listed[i], width)) + ["```"]
  }

  /** The shape of a row of `help`: the prefix, then the name, then " - "
      in column `w`. */
  predicate RowShaped(row: string, prefix: string, name: string, w: nat) {
    && |prefix| + |name| <= w
    && |row| >= w + 3
    && row[..|prefix|] == prefix
    && row[|prefix|..|prefix| + |name|] == name
    && row[w..w + 3] == " - "
  }

  /** One row of `help`, for a name no longer than the width, is so shaped,
      with " - " just past the padded name. */
  lemma HelpRowLayout(prefix: string, c: Command, width: nat)
    requires c.description.Some? && |c.name| <= width
    ensures RowShaped(HelpRow(prefix, c, width), prefix, c.name, |prefix| + width)
  {
    var pad := PadRight(c.name, width);
    var row := prefix + pad + " - " + c.description.value;
    assert row == (prefix + pad) + (" - " + c.description.value);
    assert row[|prefix|..|prefix| + |c.name|] == pad[..|c.name|];
    assert row[|prefix| + width..|prefix| + width + 3] == (" - " + c.description.value)[..3];
  }

  /** A listed command's name fits the width of the table it comes from. */
  lemma ListedNameFits(cs: seq<Command>, c: Command)
    requires c in ListedCommands(cs)
    ensures |c.name| <= MaxNameLength(cs) && c.description.Some?
  {
    ListedCommandsSpec(cs, c);
    var k :| 0 <= k < |cs| && cs[k] == c;
  }

  /** The lines of `help`: the fences around one row per listed command, in
      order, each opening with the prefix and the name, and every " - " in
      the same column, the width of the longest command name. */
  lemma HelpLayout(prefix: string, cs: seq<Command>)
    ensures var lines := HelpLines(prefix, cs);
      && |lines| == |ListedCommands(cs)| + 2
      && lines[0] == "```js" && lines[|lines| - 1] == "```"
    ensures var lines := HelpLines(prefix, cs);
      forall i :: 1 <= i < |lines| - 1 ==>
        RowShaped(lines[i], prefix, ListedCommands(cs)[i - 1].name, |prefix| + MaxNameLength(cs))
  {
    var lines := HelpLines(prefix, cs);
    var listed := ListedCommands(cs);
    var width := MaxNameLength(cs);
    forall i | 1 <= i < |lines| - 1
      ensures RowShaped(lines[i], prefix, listed[i - 1].name, |prefix| + width)
    {
      var c := listed[i - 1];
      ListedNameFits(cs, c);
      HelpRowLayout(prefix, c, width);
      assert lines[i] == HelpRow(prefix, c, width);
    }
  }

  /** Line `i` of `help`, between the fences, is the row of the `i`-th listed
      command. */
  lemma HelpLineAt(prefix: string, cs: seq<Command>, i: nat)
    requires 1 <= i <= |ListedCommands(cs)|
    ensures Listed(ListedCommands(cs)[i - 1])
    ensures HelpLines(prefix, cs)[i] == HelpRow(prefix, ListedCommands(cs)[i - 1], MaxNameLength(cs))
  {
    ListedHaveDescriptions(cs);
  }

  /** The longest name in the bot's table is `history`, seven letters. */
  lemma CommandsWidth(prefix: string)
    ensures MaxNameLength(Commands(prefix)) == 7
  {
    var cs := Commands(prefix);
    assert MaxNameLength(cs[5..]) == 5;
    assert MaxNameLength(cs[4..]) == 5;
    assert MaxNameLength(cs[3..]) == 7;
    assert MaxNameLength(cs[2..]) == 7;
    assert MaxNameLength(cs[1..]) == 7;
  }

  /** Every command but `help` is listed, in the table's order. */
  lemma CommandsListed(prefix: string)
    ensures ListedCommands(Commands(prefix)) == Commands(prefix)[1..]
  {
    var cs := Commands(prefix);
    assert ListedCommands(cs[5..]) == [cs[5]];
    assert ListedCommands(cs[4..]) == [cs[4], cs[5]];
    assert ListedCommands(cs[3..]) == [cs[3], cs[4], cs[5]];
    assert ListedCommands(cs[2..]) == [cs[2], cs[3], cs[4], cs[5]];
    assert ListedCommands(cs[1..]) == [cs[1], cs[2], cs[3], cs[4], cs[5]];
  }

  /** For the bot's own table: five rows between the fences, one per
      command but `help`, in order, with names padded to seven columns. */
  lemma HelpOfCommands(prefix: string)
    ensures |HelpLines(prefix, Commands(prefix))| == 7
    ensures forall i :: 1 <= i < 6 ==>
      RowShaped(HelpLines(prefix, Commands(prefix))[i], prefix, Commands(prefix)[i].name, |prefix| + 7)
  {
    var cs := Commands(prefix);
    CommandsWidth(prefix);
    CommandsListed(prefix);
    HelpLayout(prefix, cs);
  }

  /** Two rows of the bot's own table written out. */
  lemma HelpRowsOfCommands(prefix: string)
    ensures |HelpLines(prefix, Commands(prefix))| == 7
    ensures HelpLines(prefix, Commands(prefix))[1] == prefix + "kill   " + " - " + "Marks the boss as killed and starts a new timer"
    ensures HelpLines(prefix, Commands(prefix))[3] == prefix + "history" + " - " + "Show the kill history"
  {
    var cs := Commands(prefix);
    CommandsWidth(prefix);
    CommandsListed(prefix);
    HelpLineAt(prefix, cs, 1);
    HelpLineAt(prefix, cs, 3);
    assert PadRight("kill", 7) == "kill   ";
    assert PadRight("history", 7) == "history";
  }
}
