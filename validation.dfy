/** Validation of POST /api/users/:_id/exercises: the duration must be a run
    of decimal digits, the date either the empty string or `DDDD-DD-DD`, and
    when both fail the duration's error is the one reported.

    The two regular expressions are modelled as patterns (`NumPattern`,
    `DatePattern`) with an anchored matcher, and each is proved to accept
    exactly the strings a plain character-by-character description admits. */
module Validation {
  import opened Records

  predicate IsDigit(c: char)
  {
    '0' <= c <= '9'
  }

  predicate AllDigits(s: string)
  {
    forall i :: 0 <= i < |s| ==> IsDigit(s[i])
  }

  // ---------------------------------------------------------------------
  // The regular expressions
  // ---------------------------------------------------------------------

  /** One piece of an anchored pattern: `[0-9]` repeated at least `min` and,
      when `max` is present, at most `max` times; or one literal character. */
  datatype Piece = DigitRun(min: nat, max: Option<nat>) | Literal(c: char)

  /** `/^[0-9]+$/` */
  const NumPattern: seq<Piece> := [DigitRun(1, None)]

  /** `/^[0-9]{4}\-[0-9]{2}\-[0-9]{2}$/` */
  const DatePattern: seq<Piece> :=
    [DigitRun(4, Some(4)), Literal('-'), DigitRun(2, Some(2)), Literal('-'), DigitRun(2, Some(2))]

  /** `RegExp.prototype.test` for a pattern anchored by `^` and `$`: the
      whole of `s` matches `p`. */
  predicate Matches(p: seq<Piece>, s: string)
    decreases |p|, 1, 0
  {
    if p == [] then s == []
    else match p[0]
      case Literal(c) => |s| > 0 && s[0] == c && Matches(p[1..], s[1..])
      case DigitRun(_, _) => MatchesRun(p, s, 0)
  }

  /** Backtracking over the length of the digit run that opens `p`: the
      first `n` characters of `s` are digits already taken by the run; either
      the run ends here and the rest of the pattern matches the rest of `s`,
      or the run takes one more digit. */
  predicate MatchesRun(p: seq<Piece>, s: string, n: nat)
    requires p != [] && p[0].DigitRun? && n <= |s|
    decreases |p|, 0, |s| - n
  {
    var run := p[0];
    || (run.min <= n && (run.max.None? || n <= run.max.value) && Matches(p[1..], s[n..]))
    || (n < |s| && (run.max.None? || n < run.max.value) && IsDigit(s[n]) && MatchesRun(p, s, n + 1))
  }

  /** What `/^[0-9]+$/` accepts: a non-empty string of digits. */
  predicate IsDigits(s: string)
  {
    |s| > 0 && AllDigits(s)
  }

  /** What the date pattern accepts: ten characters, dashes at positions 4
      and 7, digits everywhere else. */
  predicate IsDateShape(s: string)
  {
    && |s| == 10
    && s[4] == '-' && s[7] == '-'
    && forall i :: 0 <= i < 10 && i != 4 && i != 7 ==> IsDigit(s[i])
  }

  /** Backtracking over the `[0-9]+` run of `/^[0-9]+$/` with `n`
      characters taken. */
  lemma {:induction false} UnboundedRun(s: string, n: nat)
    requires n <= |s|
    ensures MatchesRun(NumPattern, s, n) <==> |s| >= 1 && forall i :: n <= i < |s| ==> IsDigit(s[i])
    decreases |s| - n
  {
    assert NumPattern[0] == DigitRun(1, None) && NumPattern[1..] == [];
    assert |s[n..]| == |s| - n;
    if n < |s| {
      UnboundedRun(s, n + 1);
    }
  }

  /** `/^[0-9]+$/` accepts exactly the non-empty digit strings. */
  lemma NumPatternAccepts(s: string)
    ensures Matches(NumPattern, s) <==> IsDigits(s)
  {
    UnboundedRun(s, 0);
  }

  /** A run of exactly `k` digits, `n` of them taken, followed by `rest`. */
  lemma {:induction false} FixedRunFrom(k: nat, rest: seq<Piece>, s: string, n: nat)
    requires n <= k && n <= |s|
    ensures MatchesRun([DigitRun(k, Some(k))] + rest, s, n)
            <==> |s| >= k && (forall i :: n <= i < k ==> IsDigit(s[i])) && Matches(rest, s[k..])
    decreases k - n
  {
    var p := [DigitRun(k, Some(k))] + rest;
    assert p[0] == DigitRun(k, Some(k)) && p[1..] == rest;
    if n < k && n < |s| {
      FixedRunFrom(k, rest, s, n + 1);
    }
  }

  /** A run of exactly `k` digits followed by `rest`. */
  lemma FixedRun(k: nat, rest: seq<Piece>, s: string)
    ensures Matches([DigitRun(k, Some(k))] + rest, s)
            <==> |s| >= k && (forall i :: 0 <= i < k ==> IsDigit(s[i])) && Matches(rest, s[k..])
  {
    var p := [DigitRun(k, Some(k))] + rest;
    assert p[0] == DigitRun(k, Some(k));
    FixedRunFrom(k, rest, s, 0);
  }

  /** A run of exactly `k` digits at position `at` of `s`, then `rest`. */
  lemma RunAt(k: nat, rest: seq<Piece>, s: string, at: nat)
    requires at <= |s|
    ensures Matches([DigitRun(k, Some(k))] + rest, s[at..])
            <==> |s| >= at + k && (forall i :: at <= i < at + k ==> IsDigit(s[i])) && Matches(rest, s[at + k..])
  {
    FixedRun(k, rest, s[at..]);
    if |s| >= at + k {
      assert s[at..][k..] == s[at + k..];
      assert forall i :: at <= i < at + k ==> s[at..][i - at] == s[i];
    }
  }

  /** The character `c` at position `at` of `s`, then `rest`. */
  lemma LiteralAt(c: char, rest: seq<Piece>, s: string, at: nat)
    requires at <= |s|
    ensures Matches([Literal(c)] + rest, s[at..]) <==> |s| > at && s[at] == c && Matches(rest, s[at + 1..])
  {
  }

  /** The pieces of the date pattern from position `k` on. */
  function DateTail(k: nat): (tail: seq<Piece>)
    requires k <= 5
  {
    DatePattern[k..]
  }

  /** The date pattern, one piece at a time. */
  lemma DatePatternTails()
    ensures DatePattern == [DigitRun(4, Some(4))] + DateTail(1)
    ensures DateTail(1) == [Literal('-')] + DateTail(2)
    ensures DateTail(2) == [DigitRun(2, Some(2))] + DateTail(3)
    ensures DateTail(3) == [Literal('-')] + DateTail(4)
    ensures DateTail(4) == [DigitRun(2, Some(2))] + []
  {
  }

  /** The date pattern accepts exactly the strings of the `DDDD-DD-DD` shape. */
  lemma DatePatternAccepts(s: string)
    ensures Matches(DatePattern, s) <==> IsDateShape(s)
  {
    DatePatternTails();
    assert s[0..] == s;
    RunAt(4, DateTail(1), s, 0);
    if |s| >= 4 { LiteralAt('-', DateTail(2), s, 4); }
    if |s| >= 5 { RunAt(2, DateTail(3), s, 5); }
    if |s| >= 7 { LiteralAt('-', DateTail(4), s, 7); }
    if |s| >= 8 {
      RunAt(2, [], s, 8);
    }
    if |s| >= 10 {
      assert |s[10..]| == |s| - 10;
    }
  }

  // ---------------------------------------------------------------------
  // The decision
  // ---------------------------------------------------------------------

  /** The two rejections, in the order the handler tests them. */
  datatype Rejection = InvalidDuration | InvalidDate

  /** The text of the `error` field of a rejection's body. */
  function ErrorText(e: Rejection): (t: string)
    ensures t == "Invalid Duration" <==> e == InvalidDuration
    ensures t == "Invalid Date" <==> e == InvalidDate
  {
    match e
    case InvalidDuration => "Invalid Duration"
    case InvalidDate => "Invalid Date"
  }

  /** Where an accepted request's date comes from: the empty string stands
      for the current day; a `DDDD-DD-DD` text names a calendar day. */
  datatype DateSource = Today | CalendarDay(day: string)

  /** A form field as `RegExp.prototype.test` sees it: a missing field is
      the value `undefined`, which `test` turns into the text "undefined". */
  function TestedText(field: Option<string>): (text: string)
  {
    if field.None? then "undefined" else field.value
  }

  /** The handler's three-way `if`: accept when the duration test passes and
      the date test passes or the date is the empty string; otherwise reject
      the duration if its test fails, and the date if not. */
  function Validate(duration: Option<string>, date: Option<string>): (r: Result<DateSource, Rejection>)
    ensures r.Ok? <==> IsDigits(TestedText(duration)) && (IsDateShape(TestedText(date)) || date == Some(""))
    ensures !IsDigits(TestedText(duration)) ==> r == Err(InvalidDuration)
    ensures IsDigits(TestedText(duration)) && r.Err? ==> r == Err(InvalidDate)
    ensures r == Ok(Today) <==> IsDigits(TestedText(duration)) && date == Some("")
    ensures r.Ok? && r.value.CalendarDay? ==> date == Some(r.value.day) && IsDateShape(r.value.day)
    ensures r.Ok? ==> duration.Some?
  {
    NumPatternAccepts(TestedText(duration));
    DatePatternAccepts(TestedText(date));
    var durationOk := Matches(NumPattern, TestedText(duration));
    var dateOk := Matches(DatePattern, TestedText(date));
    if durationOk && (dateOk || date == Some("")) then
      if date == Some("") then Ok(Today) else Ok(CalendarDay(date.value))
    else if !durationOk then Err(InvalidDuration)
    else Err(InvalidDate)
  }

  /** The day text stored for an accepted request, `date.toDateString()`:
      `today` is the current day already rendered; `render(t)` renders
      `new Date(t)`, and a calendar day is read as local midnight. */
  function StoredDate(src: DateSource, today: string, render: string -> string): (day: string)
  {
    match src
    case Today => today
    case CalendarDay(day) => render(day + "T00:00")
  }

  /** A duration with a non-digit in it is rejected before the date is looked at. */
  lemma RejectsMixedDuration()
    ensures Validate(Some("12abc"), Some("2023-02-15")) == Err(InvalidDuration)
    ensures Validate(Some("12abc"), Some("not a date")) == Err(InvalidDuration)
  {
    assert !IsDigit("12abc"[2]);
  }

  /** The date pattern checks the shape only: month 13, day 40 passes it. */
  lemma AcceptsShapeOnly()
    ensures Validate(Some("30"), Some("2023-13-40")) == Ok(CalendarDay("2023-13-40"))
  {
  }

  /** A request without a date field is rejected: only the empty string
      stands for "today". */
  lemma MissingDateRejected(duration: string)
    requires IsDigits(duration)
    ensures Validate(Some(duration), None) == Err(InvalidDate)
  {
  }
}
