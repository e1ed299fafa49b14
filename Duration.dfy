/**
 * parse_duration_to_seconds: the time-only subset of the ISO 8601 duration
 * format with designators, PT[nH][nM][nS], read with a full-string match
 * and converted to a total number of seconds.
 */
module Duration {
  import opened Wrappers

  const InvalidFormat := "Invalid ISO 8601 duration format"

  predicate IsDigit(c: char) { '0' <= c <= '9' }

  predicate AllDigits(s: string) { forall i :: 0 <= i < |s| ==> IsDigit(s[i]) }

  /** The decimal value of a digit string, leading zeros allowed, as int() reads it. */
  function DigitsValue(s: string): nat
    requires AllDigits(s)
  {
    if s == [] then 0 else DigitsValue(s[..|s| - 1]) * 10 + (s[|s| - 1] as int - '0' as int)
  }

  /** The digit strings captured by the three groups of the pattern; None for a group that did not take part. */
  datatype Fields = Fields(hours: Option<string>, minutes: Option<string>, seconds: Option<string>)

  /** A group either did not take part or captured one or more digits. */
  predicate ValidGroup(g: Option<string>) {
    g.None? || (|g.value| > 0 && AllDigits(g.value))
  }

  predicate ValidFields(f: Fields) {
    ValidGroup(f.hours) && ValidGroup(f.minutes) && ValidGroup(f.seconds)
  }

  /** The text a group matches: its digits followed by its designator, or nothing. */
  function Designated(g: Option<string>, designator: char): string {
    if g.None? then [] else g.value + [designator]
  }

  /** The duration string whose match yields the given groups. */
  function Compose(f: Fields): string {
    "PT" + Designated(f.hours, 'H') + Designated(f.minutes, 'M') + Designated(f.seconds, 'S')
  }

  /** A group's number, counting an absent group as 0 (the `or 0` of the source). */
  function GroupValue(g: Option<string>): nat
    requires ValidGroup(g)
  {
    if g.None? then 0 else DigitsValue(g.value)
  }

  function TotalSeconds(f: Fields): nat
    requires ValidFields(f)
  {
    GroupValue(f.hours) * 3600 + GroupValue(f.minutes) * 60 + GroupValue(f.seconds)
  }

  /** The strings the pattern ^PT(?:(\d+)H)?(?:(\d+)M)?(?:(\d+)S)?$ matches. */
  ghost predicate IsDurationString(s: string) {
    exists f :: ValidFields(f) && Compose(f) == s
  }

  /** The length of the longest run of digits at the start of s. */
  function DigitRun(s: string): (n: nat)
    ensures n <= |s| && AllDigits(s[..n])
    ensures n < |s| ==> !IsDigit(s[n])
  {
    if s == [] || !IsDigit(s[0]) then 0
    else
      var n := 1 + DigitRun(s[1..]);
      assert s[..n] == [s[0]] + s[1..][..n - 1];
      n
  }

  /**
   * One optional group (\d+)X: it takes part when s starts with digits
   * followed by the designator; otherwise it is skipped and nothing is consumed.
   * (Backtracking into a shorter digit run cannot help, as a digit would then follow it.)
   */
  function MatchGroup(s: string, designator: char): (r: (Option<string>, string))
    requires !IsDigit(designator)
    ensures ValidGroup(r.0) && s == Designated(r.0, designator) + r.1
  {
    var n := DigitRun(s);
    if 0 < n < |s| && s[n] == designator then
      assert s == s[..n] + [designator] + s[n + 1..];
      (Some(s[..n]), s[n + 1..])
    else (None, s)
  }

  /** re.match of the pattern against the whole string: the captured groups, or None when it does not match. */
  function MatchDuration(s: string): (r: Option<Fields>)
    ensures r.Some? ==> ValidFields(r.value) && Compose(r.value) == s
  {
    if |s| < 2 || s[..2] != "PT" then None
    else
      var gh := MatchGroup(s[2..], 'H');
      var gm := MatchGroup(gh.1, 'M');
      var gs := MatchGroup(gm.1, 'S');
      if gs.1 != [] then None
      else
        var f := Fields(gh.0, gm.0, gs.0);
        Reassemble(s, Designated(gh.0, 'H'), Designated(gm.0, 'M'), Designated(gs.0, 'S'), gh.1, gm.1);
        Some(f)
  }

  /** The prefix and the three matched pieces put back together give the whole string. */
  lemma Reassemble(s: string, a: string, b: string, c: string, rest1: string, rest2: string)
    requires |s| >= 2 && s[..2] == "PT"
    requires s[2..] == a + rest1 && rest1 == b + rest2 && rest2 == c + []
    ensures s == "PT" + a + b + c
  {
    assert s == s[..2] + s[2..];
  }

  /** parse_duration_to_seconds: hours * 3600 + minutes * 60 + seconds, or the ValueError. */
  function ParseDurationToSeconds(s: string): (r: Result<nat>)
    ensures r.Ok? ==> exists f :: ValidFields(f) && Compose(f) == s && r.value == TotalSeconds(f)
    ensures r.Err? ==> r.message == InvalidFormat
  {
    match MatchDuration(s)
    case None => Err(InvalidFormat)
    case Some(f) => Ok(TotalSeconds(f))
  }

  /** A group that takes part is read back with its digits, and the rest is left over. */
  lemma MatchGroupTakes(ds: string, designator: char, rest: string)
    requires !IsDigit(designator) && |ds| > 0 && AllDigits(ds)
    ensures MatchGroup(ds + [designator] + rest, designator) == (Some(ds), rest)
  {
    var s := ds + [designator] + rest;
    DigitRunOfGroup(ds, [designator] + rest);
    assert s == ds + ([designator] + rest);
    assert s[|ds|] == designator;
    assert s[..|ds|] == ds;
    assert s[|ds| + 1..] == rest;
  }

  /** A group followed by text that does not start with digits and then the same designator. */
  lemma MatchGroupOf(g: Option<string>, designator: char, rest: string)
    requires !IsDigit(designator) && ValidGroup(g)
    requires var n := DigitRun(rest); !(0 < n < |rest| && rest[n] == designator)
    ensures MatchGroup(Designated(g, designator) + rest, designator) == (g, rest)
  {
    if g.Some? {
      MatchGroupTakes(g.value, designator, rest);
    } else {
      assert Designated(g, designator) + rest == rest;
    }
  }

  /** A run of digits ends where a non-digit starts. */
  lemma {:induction false} DigitRunOfGroup(ds: string, rest: string)
    requires AllDigits(ds) && (rest == [] || !IsDigit(rest[0]))
    ensures DigitRun(ds + rest) == |ds|
  {
    if ds != [] {
      assert (ds + rest)[1..] == ds[1..] + rest;
      DigitRunOfGroup(ds[1..], rest);
    }
  }

  /** The text after a group never lets an earlier optional group take part. */
  lemma NoEarlierGroup(g: Option<string>, designator: char, rest: string, earlier: char)
    requires ValidGroup(g) && !IsDigit(designator) && earlier != designator
    requires g.None? ==> rest == []
    ensures var t := Designated(g, designator) + rest;
      var n := DigitRun(t); !(0 < n < |t| && t[n] == earlier)
  {
    if g.Some? {
      var t := Designated(g, designator) + rest;
      assert t == g.value + ([designator] + rest);
      DigitRunOfGroup(g.value, [designator] + rest);
    }
  }

  /** Completeness: every string of the form PT[nH][nM][nS] matches, with exactly its groups. */
  lemma {:induction false} MatchDurationComplete(f: Fields)
    requires ValidFields(f)
    ensures MatchDuration(Compose(f)) == Some(f)
  {
    var s := Compose(f);
    var ts := Designated(f.seconds, 'S');
    var tm := Designated(f.minutes, 'M') + ts;
    var th := Designated(f.hours, 'H') + tm;
    assert s == "PT" + th;
    assert s[..2] == "PT" && s[2..] == th;
    // The seconds group is followed by the end of the string.
    MatchGroupOf(f.seconds, 'S', []);
    assert ts + [] == ts;
    // The minutes group is followed by the seconds text, which cannot be taken as minutes.
    NoEarlierGroup(f.seconds, 'S', [], 'M');
    assert ts == Designated(f.seconds, 'S') + [];
    MatchGroupOf(f.minutes, 'M', ts);
    // The hours group is followed by the minutes and seconds text.
    if f.minutes.Some? {
      NoEarlierGroup(f.minutes, 'M', ts, 'H');
    } else {
      NoEarlierGroup(f.seconds, 'S', [], 'H');
    }
    MatchGroupOf(f.hours, 'H', tm);
  }

  /** Every string of the form PT[nH][nM][nS] parses to h * 3600 + m * 60 + s. */
  lemma ParseComplete(f: Fields)
    requires ValidFields(f)
    ensures ParseDurationToSeconds(Compose(f)) == Ok(TotalSeconds(f))
  {
    MatchDurationComplete(f);
  }

  /** The parser fails exactly on the strings outside the grammar, and then with the ValueError message. */
  lemma ParseFailsExactlyOutsideGrammar(s: string)
    ensures ParseDurationToSeconds(s).Err? <==> !IsDurationString(s)
    ensures ParseDurationToSeconds(s).Err? ==> ParseDurationToSeconds(s) == Err(InvalidFormat)
  {
    if IsDurationString(s) {
      var f :| ValidFields(f) && Compose(f) == s;
      MatchDurationComplete(f);
    }
  }

  /** The groups are determined by the string, so a matching string has one reading. */
  lemma ParseUnique(f: Fields, g: Fields)
    requires ValidFields(f) && ValidFields(g) && Compose(f) == Compose(g)
    ensures f == g
  {
    MatchDurationComplete(f);
    MatchDurationComplete(g);
  }

  lemma ParseFiveMinutes()
    ensures ParseDurationToSeconds("PT5M") == Ok(300)
  {
    var f := Fields(None, Some("5"), None);
    assert Compose(f) == "PT5M";
    ParseComplete(f);
    assert "5"[..0] == [];
  }

  lemma ParseHourAndHalf()
    ensures ParseDurationToSeconds("PT1H30M") == Ok(5400)
  {
    var f := Fields(Some("1"), Some("30"), None);
    assert DigitsValue("1") == 1 by { assert "1"[..0] == []; }
    assert DigitsValue("30") == 30 by {
      assert "30"[..1] == "3" && "3"[..0] == [];
      assert DigitsValue("3") == 3;
    }
    assert Compose(f) == "PT1H30M";
    ParseComplete(f);
  }

  lemma ParseFortyFiveSeconds()
    ensures ParseDurationToSeconds("PT45S") == Ok(45)
  {
    var f := Fields(None, None, Some("45"));
    assert DigitsValue("45") == 45 by {
      assert "45"[..1] == "4" && "4"[..0] == [];
      assert DigitsValue("4") == 4;
    }
    assert Compose(f) == "PT45S";
    ParseComplete(f);
  }

  /** All groups absent: "PT" alone is accepted and means zero seconds. */
  lemma ParseBarePrefix()
    ensures ParseDurationToSeconds("PT") == Ok(0)
  {
    var f := Fields(None, None, None);
    assert Compose(f) == "PT";
    ParseComplete(f);
  }

  lemma ParseRejectsMissingPrefix()
    ensures ParseDurationToSeconds("") == Err(InvalidFormat)
    ensures ParseDurationToSeconds("5M") == Err(InvalidFormat)
  {
    assert "5M"[..2][0] == '5';
  }
}
