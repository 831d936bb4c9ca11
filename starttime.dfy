/**
 * Formatting of an activity's `start_datetime` (bot.py, `process_and_post_events`).
 *
 * A missing or empty timestamp gives "Va savoir!". Otherwise the trailing 'Z's are
 * stripped and the rest is given to `datetime.fromisoformat`. A parse failure gives
 * "C'est Buggué", and a parsed time is written with `strftime("%d/%m/%Y %H:%M")`.
 * The ISO parser is a parameter of the model (`IsoParser`). `ReadsCanonical` says
 * what any faithful parser does on the canonical `YYYY-MM-DDTHH:MM:SS` shape.
 */
module StartTime {
  import opened Wrappers
  import opened Digits

  /** The text used when the activity carries no start time. */
  const Unknown := "Va savoir!"
  /** The text used when the start time cannot be parsed. */
  const Buggy := "C'est Buggué"

  /** The fields of a parsed `datetime` that the bot reads or validates. */
  datatype DateTime = DateTime(year: nat, month: nat, day: nat, hour: nat, minute: nat, second: nat)

  /** `datetime.fromisoformat`, with `None` for a `ValueError`. */
  type IsoParser = string -> Option<DateTime>

  function DigitChar(d: nat): (c: char)
    requires d < 10
    ensures IsDigit(c)
  {
    (d + '0' as int) as char
  }

  function DigitValue(c: char): (d: nat)
    requires IsDigit(c)
    ensures d < 10 && DigitChar(d) == c
  {
    (c as int - '0' as int) as nat
  }

  /** `str.rstrip('Z')`: drop every trailing 'Z'. */
  function RStripZ(s: string): (r: string)
    ensures r <= s
    ensures r == [] || r[|r| - 1] != 'Z'
    ensures forall k :: |r| <= k < |s| ==> s[k] == 'Z'
    decreases |s|
  {
    if s != [] && s[|s| - 1] == 'Z' then RStripZ(s[..|s| - 1]) else s
  }

  /** The number a string of decimal digits denotes. */
  function Num(t: string): nat
    requires AllDigits(t)
  {
    if t == [] then 0 else 10 * Num(t[..|t| - 1]) + DigitValue(t[|t| - 1])
  }

  /**
   * The decimal digits of n, left-padded with zeros to at least `width`
   * characters (what `strftime` does for %d, %m, %Y, %H and %M).
   */
  function Padded(n: nat, width: nat): (r: string)
    ensures AllDigits(r) && |r| >= width && |r| >= 1
    ensures Num(r) == n
    decreases n, width
  {
    if n < 10 && width <= 1 then [DigitChar(n)]
    else
      var r := Padded(n / 10, if width == 0 then 0 else width - 1) + [DigitChar(n % 10)];
      assert r[..|r| - 1] == Padded(n / 10, if width == 0 then 0 else width - 1);
      r
  }

  /** `strftime("%d/%m/%Y %H:%M")`. */
  function Strftime(t: DateTime): string {
    Padded(t.day, 2) + "/" + Padded(t.month, 2) + "/" + Padded(t.year, 4) + " "
      + Padded(t.hour, 2) + ":" + Padded(t.minute, 2)
  }

  /** The date-and-time text of an announcement and of its thread name. */
  function Format(start: Option<string>, parse: IsoParser): string {
    if start.None? || start.value == "" then Unknown
    else match parse(RStripZ(start.value))
      case None => Buggy
      case Some(t) => Strftime(t)
  }

  // ---------------------------------------------------------------------
  // The canonical shape YYYY-MM-DDTHH:MM:SS
  // ---------------------------------------------------------------------

  predicate Canonical(s: string) {
    && |s| == 19
    && AllDigits(s[0..4]) && s[4] == '-' && AllDigits(s[5..7]) && s[7] == '-'
    && AllDigits(s[8..10]) && s[10] == 'T' && AllDigits(s[11..13]) && s[13] == ':'
    && AllDigits(s[14..16]) && s[16] == ':' && AllDigits(s[17..19])
  }

  function Fields(s: string): DateTime
    requires Canonical(s)
  {
    DateTime(Num(s[0..4]), Num(s[5..7]), Num(s[8..10]), Num(s[11..13]), Num(s[14..16]), Num(s[17..19]))
  }

  predicate IsLeapYear(y: nat) {
    (y % 4 == 0 && y % 100 != 0) || y % 400 == 0
  }

  function DaysInMonth(y: nat, m: nat): nat
    requires 1 <= m <= 12
  {
    if m == 2 then (if IsLeapYear(y) then 29 else 28)
    else if m == 4 || m == 6 || m == 9 || m == 11 then 30
    else 31
  }

  /** The ranges `datetime` accepts. */
  predicate ValidDate(t: DateTime) {
    && 1 <= t.year <= 9999
    && 1 <= t.month <= 12
    && 1 <= t.day <= DaysInMonth(t.year, t.month)
    && t.hour < 24 && t.minute < 60 && t.second < 60
  }

  /** A parser that reads the canonical shape the way `fromisoformat` does. */
  ghost predicate ReadsCanonical(parse: IsoParser) {
    forall s :: Canonical(s) ==> parse(s) == if ValidDate(Fields(s)) then Some(Fields(s)) else None
  }

  /** A parser for the canonical shape only, rejecting everything else. */
  function CanonicalParse(s: string): (r: Option<DateTime>)
    ensures r.Some? ==> Canonical(s) && ValidDate(r.value)
  {
    if Canonical(s) && ValidDate(Fields(s)) then Some(Fields(s)) else None
  }

  // ---------------------------------------------------------------------
  // Lemmas
  // ---------------------------------------------------------------------

  /** Writing the number a digit string denotes, padded to its length, gives the string back. */
  lemma {:induction false} PaddedNum(t: string)
    requires AllDigits(t) && |t| >= 1
    ensures Padded(Num(t), |t|) == t
    decreases |t|
  {
    var init, last := t[..|t| - 1], t[|t| - 1];
    var n := Num(t);
    assert n == 10 * Num(init) + DigitValue(last);
    if |t| == 1 {
      assert init == [];
    } else {
      PaddedNum(init);
      assert n / 10 == Num(init) && n % 10 == DigitValue(last);
      assert t == init + [last];
    }
  }

  lemma CanonicalParseReadsCanonical()
    ensures ReadsCanonical(CanonicalParse)
  {
  }

  /** Formatted text only ever consists of digits, '/', ' ' and ':'. */
  lemma StrftimeCharacters(t: DateTime)
    ensures forall k :: 0 <= k < |Strftime(t)| ==> var c := Strftime(t)[k];
      IsDigit(c) || c == '/' || c == ' ' || c == ':'
  {
  }

  /**
   * The three outcomes of the formatting, each recognisable from the text:
   * "Va savoir!" exactly when the timestamp is missing or empty, "C'est Buggué"
   * exactly when the stripped timestamp does not parse, and the `strftime`
   * text of the parsed time otherwise.
   */
  lemma FormatOutcomes(start: Option<string>, parse: IsoParser)
    ensures Format(start, parse) == Unknown <==> start.None? || start.value == ""
    ensures Format(start, parse) == Buggy <==>
      start.Some? && start.value != "" && parse(RStripZ(start.value)).None?
    ensures start.Some? && start.value != "" && parse(RStripZ(start.value)).Some? ==>
      Format(start, parse) == Strftime(parse(RStripZ(start.value)).value)
  {
    if start.Some? && start.value != "" && parse(RStripZ(start.value)).Some? {
      var r := Format(start, parse);
      StrftimeCharacters(parse(RStripZ(start.value)).value);
      assert r[1] != Unknown[1];
      assert r[0] != Buggy[0];
    }
  }

  lemma StripCanonical(c: string, s: string)
    requires Canonical(c) && (s == c || s == c + "Z")
    ensures RStripZ(s) == c
  {
    assert IsDigit(c[18]) by { assert c[18] == c[17..19][1]; }
    if s == c + "Z" {
      assert s[..|s| - 1] == c;
    }
  }

  /**
   * A canonical timestamp, with or without its 'Z', that denotes a real
   * date is rewritten as DD/MM/YYYY HH:MM by rearranging its own digits.
   */
  lemma FormatCanonical(c: string, s: string, parse: IsoParser)
    requires Canonical(c) && ValidDate(Fields(c)) && ReadsCanonical(parse)
    requires s == c || s == c + "Z"
    ensures Format(Some(s), parse) == c[8..10] + "/" + c[5..7] + "/" + c[0..4] + " " + c[11..13] + ":" + c[14..16]
  {
    StripCanonical(c, s);
    assert parse(c) == Some(Fields(c));
    StrftimeOfFields(c);
  }

  lemma StrftimeOfFields(c: string)
    requires Canonical(c)
    ensures Strftime(Fields(c)) == c[8..10] + "/" + c[5..7] + "/" + c[0..4] + " " + c[11..13] + ":" + c[14..16]
  {
    PaddedNum(c[0..4]);
    PaddedNum(c[5..7]);
    PaddedNum(c[8..10]);
    PaddedNum(c[11..13]);
    PaddedNum(c[14..16]);
  }

  /** A canonical timestamp naming a day that does not exist reads "C'est Buggué". */
  lemma FormatCanonicalInvalid(c: string, s: string, parse: IsoParser)
    requires Canonical(c) && !ValidDate(Fields(c)) && ReadsCanonical(parse)
    requires s == c || s == c + "Z"
    ensures Format(Some(s), parse) == Buggy
  {
    StripCanonical(c, s);
    assert parse(c).None?;
  }
}
