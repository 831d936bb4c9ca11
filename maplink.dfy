/**
 * Destination extraction in `get_travel_time` (bot.py).
 *
 * The bot runs `re.search(r'q=(\d+\.\d+),(\d+\.\d+)', link)`. Because a digit
 * is never '.' nor ',', the only freedom the regex engine has is how much of
 * the last digit run to take, and it is greedy. The search is therefore a scan
 * for the first position where `MatchAt` succeeds. `MatchesRegexAt` states the
 * regex's language independently, and the lemmas connect the two.
 */
module MapLink {
  import opened Wrappers
  import opened Digits

  /** What the bot returns when the link holds no coordinates. */
  const InvalidLink := "Invalid Google Maps link"
  /** What the bot returns when the directions service does not answer 200. */
  const NoTravelTime := "Unable to calculate travel time"

  /** The language of `\d+\.\d+`: digits, one dot, digits. */
  ghost predicate IsDecimal(t: string) {
    exists k :: 0 < k < |t| - 1 && t[k] == '.' && AllDigits(t[..k]) && AllDigits(t[k + 1..])
  }

  /** `q=(\d+\.\d+),(\d+\.\d+)` matches at position i with groups g1 and g2. */
  ghost predicate MatchesRegexAt(s: string, i: nat, g1: string, g2: string) {
    && i + 3 + |g1| + |g2| <= |s|
    && s[i] == 'q' && s[i + 1] == '='
    && s[i + 2..i + 2 + |g1|] == g1
    && s[i + 2 + |g1|] == ','
    && s[i + 3 + |g1|..i + 3 + |g1| + |g2|] == g2
    && IsDecimal(g1)
    && IsDecimal(g2)
  }

  /** A match object: where it starts, and its two groups. */
  datatype Match = Match(start: nat, latitude: string, longitude: string)

  /** Length of the longest run of digits starting at i. */
  function DigitRun(s: string, i: nat): (n: nat)
    requires i <= |s|
    ensures i + n <= |s|
    ensures AllDigits(s[i..i + n])
    ensures i + n == |s| || !IsDigit(s[i + n])
    decreases |s| - i
  {
    if i < |s| && IsDigit(s[i]) then
      var n := 1 + DigitRun(s, i + 1);
      assert s[i..i + n][1..] == s[i + 1..i + n];
      AllDigitsCons(s[i..i + n]);
      n
    else 0
  }

  lemma AllDigitsCons(t: string)
    requires t != [] && IsDigit(t[0]) && AllDigits(t[1..])
    ensures AllDigits(t)
  {
    forall k | 0 <= k < |t| ensures IsDigit(t[k]) {
      if k > 0 {
        assert t[k] == t[1..][k - 1];
      }
    }
  }

  /** End of the greedy `\d+\.\d+` starting at i, if one starts there. */
  function DecimalEnd(s: string, i: nat): Option<nat>
    requires i <= |s|
  {
    var n := DigitRun(s, i);
    if n == 0 || i + n == |s| || s[i + n] != '.' then None
    else
      var m := DigitRun(s, i + n + 1);
      if m == 0 then None else Some(i + n + 1 + m)
  }

  /** What the regex engine yields when it tries position i. */
  function MatchAt(s: string, i: nat): (r: Option<Match>)
    requires i <= |s|
    ensures r.Some? ==> r.value.start == i
  {
    if i + 2 > |s| || s[i] != 'q' || s[i + 1] != '=' then None
    else match DecimalEnd(s, i + 2)
      case None => None
      case Some(e1) =>
        if e1 == |s| || s[e1] != ',' then None
        else match DecimalEnd(s, e1 + 1)
          case None => None
          case Some(e2) => Some(Match(i, s[i + 2..e1], s[e1 + 1..e2]))
  }

  /** `re.search` from position i on: the first position where a match starts. */
  function SearchFrom(s: string, i: nat): (r: Option<Match>)
    requires i <= |s|
    ensures r.Some? ==> i <= r.value.start <= |s| && MatchAt(s, r.value.start) == r
    ensures r.Some? ==> forall j :: i <= j < r.value.start ==> MatchAt(s, j).None?
    ensures r.None? ==> forall j :: i <= j <= |s| ==> MatchAt(s, j).None?
    decreases |s| - i
  {
    var here := MatchAt(s, i);
    if here.Some? then here
    else if i == |s| then None
    else
      var r := SearchFrom(s, i + 1);
      assert forall j :: i <= j <= i ==> MatchAt(s, j).None?;
      r
  }

  function Search(s: string): Option<Match> {
    SearchFrom(s, 0)
  }

  /** The `destination` string built from the match groups, if any. */
  function Destination(link: string): Option<string> {
    match Search(link)
    case None => None
    case Some(m) => Some(m.latitude + "," + m.longitude)
  }

  /** The part of the directions response the bot reads. */
  datatype Directions = Directions(status: int, duration: string)

  /**
   * `get_travel_time`: the directions service is the oracle `route`,
   * asked with the destination extracted from the link.
   */
  function TravelTime(link: string, route: string -> Directions): string {
    match Destination(link)
    case None => InvalidLink
    case Some(d) =>
      var reply := route(d);
      if reply.status == 200 then reply.duration else NoTravelTime
  }

  // ---------------------------------------------------------------------
  // Digit runs
  // ---------------------------------------------------------------------

  /** A digit run ended by a non-digit (or the end) is exactly the maximal run. */
  lemma {:induction false} DigitRunExact(s: string, i: nat, k: nat)
    requires i + k <= |s|
    requires AllDigits(s[i..i + k])
    requires i + k == |s| || !IsDigit(s[i + k])
    ensures DigitRun(s, i) == k
    decreases k
  {
    if k > 0 {
      assert IsDigit(s[i..i + k][0]);
      assert s[i + 1..i + k] == s[i..i + k][1..];
      DigitRunExact(s, i + 1, k - 1);
    }
  }

  /** The maximal run is at least as long as any run of digits present. */
  lemma {:induction false} DigitRunAtLeast(s: string, i: nat, k: nat)
    requires i + k <= |s|
    requires AllDigits(s[i..i + k])
    ensures DigitRun(s, i) >= k
    decreases k
  {
    if k > 0 {
      assert IsDigit(s[i..i + k][0]);
      assert s[i + 1..i + k] == s[i..i + k][1..];
      DigitRunAtLeast(s, i + 1, k - 1);
    }
  }

  // ---------------------------------------------------------------------
  // The scan agrees with the regex
  // ---------------------------------------------------------------------

  /** A decimal found by the scan is in the language of `\d+\.\d+`, and is greedy. */
  lemma DecimalEndSound(s: string, a: nat)
    requires a <= |s|
    requires DecimalEnd(s, a).Some?
    ensures var e := DecimalEnd(s, a).value;
      a <= e <= |s| && IsDecimal(s[a..e]) && (e == |s| || !IsDigit(s[e]))
  {
    var e := DecimalEnd(s, a).value;
    var n := DigitRun(s, a);
    var g := s[a..e];
    assert g[..n] == s[a..a + n];
    assert g[n + 1..] == s[a + n + 1..e];
    assert g[n] == '.';
  }

  /**
   * A decimal of the regex's language written at a is seen by the scan, which
   * ends at or after it, and exactly at its end when a non-digit follows it.
   */
  lemma DecimalEndComplete(s: string, a: nat, g: string)
    requires a + |g| <= |s| && s[a..a + |g|] == g && IsDecimal(g)
    ensures DecimalEnd(s, a).Some?
    ensures DecimalEnd(s, a).value >= a + |g|
    ensures a + |g| == |s| || !IsDigit(s[a + |g|]) ==> DecimalEnd(s, a).value == a + |g|
  {
    var k := DecimalWitness(s, a, g);
    var f := a + k + 1;
    DigitRunAtLeast(s, f, |g| - k - 1);
    DecimalEndOf(s, a, k, DigitRun(s, f));
    if a + |g| == |s| || !IsDigit(s[a + |g|]) {
      DigitRunExact(s, f, |g| - k - 1);
    }
  }

  /** The scan from a, once both digit runs are known. */
  lemma DecimalEndOf(s: string, a: nat, n: nat, m: nat)
    requires a + n < |s| && DigitRun(s, a) == n > 0 && s[a + n] == '.'
    requires DigitRun(s, a + n + 1) == m > 0
    ensures DecimalEnd(s, a) == Some(a + n + 1 + m)
  {
  }

  /** Where the dot of a decimal written at a lies, with its digits on both sides in s. */
  lemma DecimalWitness(s: string, a: nat, g: string) returns (k: nat)
    requires a + |g| <= |s| && s[a..a + |g|] == g && IsDecimal(g)
    ensures 0 < k < |g| - 1
    ensures DigitRun(s, a) == k && s[a + k] == '.'
    ensures AllDigits(s[a + k + 1..a + |g|])
  {
    k :| 0 < k < |g| - 1 && g[k] == '.' && AllDigits(g[..k]) && AllDigits(g[k + 1..]);
    var f := a + k + 1;
    assert AllDigits(s[a..a + k]) && s[a + k] == '.' by {
      var t := s[a..a + |g|];
      assert s[a..a + k] == t[..k];
      assert s[a + k] == t[k];
    }
    assert AllDigits(s[f..a + |g|]) by {
      var t := s[a..a + |g|];
      assert s[f..a + |g|] == t[k + 1..];
    }
    DigitRunExact(s, a, k);
    DigitRunAtLeast(s, f, |g| - k - 1);
  }

  /** Every match the scan reports is a match of the regex, and its last digit run is maximal. */
  lemma MatchAtSound(s: string, i: nat)
    requires i <= |s|
    requires MatchAt(s, i).Some?
    ensures var m := MatchAt(s, i).value;
      && MatchesRegexAt(s, i, m.latitude, m.longitude)
      && var e := i + 3 + |m.latitude| + |m.longitude|;
         e == |s| || !IsDigit(s[e])
  {
    var e1, e2 := MatchAtParts(s, i);
    DecimalEndSound(s, i + 2);
    DecimalEndSound(s, e1 + 1);
    MatchesRegexAtOf(s, i, e1, e2);
  }

  /** Where the two decimals of a match found at i end. */
  lemma MatchAtParts(s: string, i: nat) returns (e1: nat, e2: nat)
    requires i <= |s|
    requires MatchAt(s, i).Some?
    ensures i + 2 <= |s| && s[i] == 'q' && s[i + 1] == '='
    ensures DecimalEnd(s, i + 2) == Some(e1) && e1 < |s| && s[e1] == ','
    ensures DecimalEnd(s, e1 + 1) == Some(e2)
    ensures MatchAt(s, i) == Some(Match(i, s[i + 2..e1], s[e1 + 1..e2]))
  {
    e1 := DecimalEnd(s, i + 2).value;
    e2 := DecimalEnd(s, e1 + 1).value;
  }

  /** The regex matches at i when two decimals sit around the comma at e1. */
  lemma MatchesRegexAtOf(s: string, i: nat, e1: nat, e2: nat)
    requires i + 2 <= e1 < e2 <= |s|
    requires s[i] == 'q' && s[i + 1] == '=' && s[e1] == ','
    requires IsDecimal(s[i + 2..e1]) && IsDecimal(s[e1 + 1..e2])
    ensures MatchesRegexAt(s, i, s[i + 2..e1], s[e1 + 1..e2])
    ensures i + 3 + |s[i + 2..e1]| + |s[e1 + 1..e2]| == e2
  {
  }

  /**
   * Every match of the regex at i is found by the scan at i, with the same
   * first group; the scan's second group extends the regex's (greedy).
   */
  lemma MatchAtComplete(s: string, i: nat, g1: string, g2: string)
    requires MatchesRegexAt(s, i, g1, g2)
    ensures MatchAt(s, i).Some?
    ensures MatchAt(s, i).value.latitude == g1
    ensures g2 <= MatchAt(s, i).value.longitude
    ensures var e := i + 3 + |g1| + |g2|;
      e == |s| || !IsDigit(s[e]) ==> MatchAt(s, i).value.longitude == g2
  {
    var e1 := i + 2 + |g1|;
    var b := e1 + 1;
    assert s[e1] == ',';
    DecimalEndComplete(s, i + 2, g1);
    DecimalEndComplete(s, b, g2);
    var e2 := DecimalEnd(s, b).value;
    MatchAtOf(s, i, e1, e2);
    assert s[b..e2][..|g2|] == s[b..b + |g2|];
  }

  /** The scan at i, once both of its decimals are known. */
  lemma MatchAtOf(s: string, i: nat, e1: nat, e2: nat)
    requires i + 2 <= |s| && s[i] == 'q' && s[i + 1] == '='
    requires DecimalEnd(s, i + 2) == Some(e1) && e1 < |s| && s[e1] == ','
    requires DecimalEnd(s, e1 + 1) == Some(e2)
    ensures MatchAt(s, i) == Some(Match(i, s[i + 2..e1], s[e1 + 1..e2]))
  {
  }

  /**
   * The search reports the leftmost position at which the regex matches, and
   * the groups are that match's text, unchanged.
   */
  lemma SearchIsLeftmost(s: string)
    requires Search(s).Some?
    ensures var m := Search(s).value;
      && MatchesRegexAt(s, m.start, m.latitude, m.longitude)
      && forall j: nat, g1, g2 :: j < m.start ==> !MatchesRegexAt(s, j, g1, g2)
  {
    var m := Search(s).value;
    MatchAtSound(s, m.start);
    forall j: nat, g1, g2 | j < m.start ensures !MatchesRegexAt(s, j, g1, g2) {
      if MatchesRegexAt(s, j, g1, g2) {
        MatchAtComplete(s, j, g1, g2);
      }
    }
  }

  /** The search fails exactly when the regex matches nowhere in the link. */
  lemma SearchFailsIffNoMatch(s: string)
    ensures Search(s).None? <==> forall j: nat, g1, g2 :: !MatchesRegexAt(s, j, g1, g2)
  {
    if Search(s).None? {
      forall j: nat, g1, g2 ensures !MatchesRegexAt(s, j, g1, g2) {
        if MatchesRegexAt(s, j, g1, g2) {
          MatchAtComplete(s, j, g1, g2);
        }
      }
    } else {
      SearchIsLeftmost(s);
    }
  }

  // ---------------------------------------------------------------------
  // What get_travel_time does with a link
  // ---------------------------------------------------------------------

  /** A link in which the regex matches nowhere yields the fixed invalid-link text. */
  lemma NoMatchIsInvalidLink(link: string, route: string -> Directions)
    requires forall j: nat, g1, g2 :: !MatchesRegexAt(link, j, g1, g2)
    ensures Destination(link).None?
    ensures TravelTime(link, route) == InvalidLink
  {
    SearchFailsIffNoMatch(link);
  }

  /**
   * Given the leftmost, greedy regex match, the destination is its latitude
   * text, a comma and its longitude text, and the directions oracle is asked
   * for exactly that destination.
   */
  lemma DestinationOfLeftmostMatch(link: string, i: nat, g1: string, g2: string, route: string -> Directions)
    requires MatchesRegexAt(link, i, g1, g2)
    requires forall j: nat, h1, h2 :: j < i ==> !MatchesRegexAt(link, j, h1, h2)
    requires var e := i + 3 + |g1| + |g2|; e == |link| || !IsDigit(link[e])
    ensures Destination(link) == Some(g1 + "," + g2)
    ensures TravelTime(link, route) ==
      if route(g1 + "," + g2).status == 200 then route(g1 + "," + g2).duration else NoTravelTime
  {
    SearchFailsIffNoMatch(link);
    SearchIsLeftmost(link);
    var m := Search(link).value;
    assert m.start == i;
    MatchAtComplete(link, i, g1, g2);
  }

  /**
   * The destination is made of digits, dots and one comma only: a coordinate
   * written with a minus sign never reaches the directions service.
   */
  lemma DestinationIsUnsigned(link: string)
    requires Destination(link).Some?
    ensures forall k :: 0 <= k < |Destination(link).value| ==>
      var c := Destination(link).value[k]; IsDigit(c) || c == '.' || c == ','
  {
    var m := Search(link).value;
    MatchAtSound(link, m.start);
    assert IsDecimal(m.latitude) && IsDecimal(m.longitude);
    var d := Destination(link).value;
    forall k | 0 <= k < |d| ensures IsDigit(d[k]) || d[k] == '.' || d[k] == ',' {
      DecimalCharacters(m.latitude);
      DecimalCharacters(m.longitude);
      if k < |m.latitude| {
        assert d[k] == m.latitude[k];
      } else if k > |m.latitude| {
        assert d[k] == m.longitude[k - |m.latitude| - 1];
      }
    }
  }

  lemma DecimalCharacters(t: string)
    requires IsDecimal(t)
    ensures forall k :: 0 <= k < |t| ==> IsDigit(t[k]) || t[k] == '.'
  {
    var p :| 0 < p < |t| - 1 && t[p] == '.' && AllDigits(t[..p]) && AllDigits(t[p + 1..]);
    forall k | 0 <= k < |t| ensures IsDigit(t[k]) || t[k] == '.' {
      if k < p {
        assert t[k] == t[..p][k];
      } else if k > p {
        assert t[k] == t[p + 1..][k - p - 1];
      }
    }
  }

  /** A link whose every `q=` is followed by a minus sign is an invalid link. */
  lemma NegativeLatitudeIsInvalidLink(link: string, route: string -> Directions)
    requires forall i :: 0 <= i < |link| - 2 && link[i] == 'q' && link[i + 1] == '=' ==> link[i + 2] == '-'
    ensures TravelTime(link, route) == InvalidLink
  {
    forall j: nat, g1, g2 ensures !MatchesRegexAt(link, j, g1, g2) {
      if MatchesRegexAt(link, j, g1, g2) {
        MatchStartsWithDigit(link, j, g1, g2);
      }
    }
    NoMatchIsInvalidLink(link, route);
  }

  lemma MatchStartsWithDigit(s: string, i: nat, g1: string, g2: string)
    requires MatchesRegexAt(s, i, g1, g2)
    ensures IsDigit(s[i + 2])
  {
    DecimalCharacters(g1);
    var p :| 0 < p < |g1| - 1 && g1[p] == '.' && AllDigits(g1[..p]) && AllDigits(g1[p + 1..]);
    assert g1[0] == g1[..p][0];
    assert s[i + 2] == s[i + 2..i + 2 + |g1|][0];
  }
}
