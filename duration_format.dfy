/**
 * The display helpers of the front end's utils/index.js: `formatDuration`,
 * which renders a Django duration string in words, and `getTimeSince`,
 * which renders the time since a completion. For `getTimeSince` the
 * `moment` duration arithmetic is left to the caller: its minute total and
 * its day, hour and minute components are parameters.
 */
module DurationFormat {
  import opened Common
  import opened Text

  // ---------------------------------------------------------------- formatDuration

  /** `${days} ${hours} ${minutes}` in words: singular only for the day text "1" or a count of exactly 1. */
  function DurationWords(days: string, hours: JsNum, minutes: JsNum): string {
    (if days == "1" then "1 day" else days + " days") + " " +
    (if hours == Num(1) then "1 hour" else JsNumToString(hours) + " hours") + " " +
    (if minutes == Num(1) then "1 minute" else JsNumToString(minutes) + " minutes")
  }

  /**
   * `formatDuration`: "Never" for a missing or empty duration; otherwise the
   * days are the text before a space ("0" without one), and hours and
   * minutes are the first two `:` fields read with `Number`. Seconds are
   * ignored.
   */
  function FormatDuration(duration: Option<string>): string {
    if duration.None? || duration.value == "" then "Never"
    else
      var text := duration.value;
      var days := if ' ' in text then Split(text, ' ')[0] else "0";
      var time := if ' ' in text then Split(text, ' ')[1] else text;
      var fields := Split(time, ':');
      DurationWords(days, JsNumber(fields[0]), if |fields| >= 2 then JsNumber(fields[1]) else Undefined)
  }

  /** The words always hold a space, so "Never" means exactly a missing or empty duration. */
  lemma FormatDurationNever(duration: Option<string>)
    ensures FormatDuration(duration) == "Never" <==> duration.None? || duration == Some("")
  {
    if duration.Some? && duration.value != "" {
      var text := duration.value;
      var days := if ' ' in text then Split(text, ' ')[0] else "0";
      var time := if ' ' in text then Split(text, ' ')[1] else text;
      var fields := Split(time, ':');
      var hours, minutes := JsNumber(fields[0]), if |fields| >= 2 then JsNumber(fields[1]) else Undefined;
      var front := if days == "1" then "1 day" else days + " days";
      var w := DurationWords(days, hours, minutes);
      assert w[|front|] == ' ';
      assert ' ' !in "Never";
    }
  }

  /** With a space, the days are the text before it and the clock the text after it. */
  lemma FormatDurationWithDays(dayText: string, clock: string)
    requires ' ' !in dayText && ' ' !in clock
    ensures var fields := Split(clock, ':');
      FormatDuration(Some(dayText + " " + clock))
        == DurationWords(dayText, JsNumber(fields[0]), if |fields| >= 2 then JsNumber(fields[1]) else Undefined)
  {
    var text := dayText + " " + clock;
    assert ' ' in text by {
      assert text[|dayText|] == ' ';
    }
    assert Split(text, ' ') == [dayText, clock] by {
      assert Join([dayText, clock], ' ') == text;
      SplitJoin([dayText, clock], ' ');
    }
    FormatDurationOfSplit(text, dayText, clock);
  }

  /** A text with a space formats from the two pieces it splits into there. */
  lemma FormatDurationOfSplit(text: string, dayText: string, clock: string)
    requires ' ' in text && Split(text, ' ') == [dayText, clock]
    ensures var fields := Split(clock, ':');
      FormatDuration(Some(text)) == DurationWords(dayText, JsNumber(fields[0]), if |fields| >= 2 then JsNumber(fields[1]) else Undefined)
  {
  }

  /** Without a space, the days are "0" and the whole text is the clock. */
  lemma FormatDurationWithoutDays(clock: string)
    requires clock != "" && ' ' !in clock
    ensures var fields := Split(clock, ':');
      FormatDuration(Some(clock)) == DurationWords("0", JsNumber(fields[0]), if |fields| >= 2 then JsNumber(fields[1]) else Undefined)
  {
  }

  // ---------------------------------------------------------------- getTimeSince

  /** A count and its unit, singular for a count of exactly 1. */
  function UnitPhrase(n: int, singular: string, plural: string): string {
    if n == 1 then "1 " + singular else IntToString(n) + " " + plural
  }

  /**
   * The day phrase as written: the day count is a number and is compared
   * with the string "1", which never matches, so every count is plural.
   */
  function DayPhraseAsWritten(days: int): string {
    IntToString(days) + " days"
  }

  /** The nonzero components, largest first. */
  function TimeSinceParts(dayPhrase: string, days: int, hours: int, minutes: int): seq<string> {
    (if days != 0 then [dayPhrase] else []) +
    (if hours != 0 then [UnitPhrase(hours, "hour", "hours")] else []) +
    (if minutes != 0 then [UnitPhrase(minutes, "minute", "minutes")] else [])
  }

  /** What `getTimeSince` shows: "Just now" under a minute or with no nonzero component, else the components and " ago". */
  function TimeSinceText(asMinutes: real, days: int, hours: int, minutes: int): string {
    var parts := TimeSinceParts(DayPhraseAsWritten(days), days, hours, minutes);
    if asMinutes < 1.0 || parts == [] then "Just now" else Join(parts, ' ') + " ago"
  }

  /**
   * `getTimeSince`, built as the source builds it: each nonzero component
   * is appended with a leading space (none for the days), the result is
   * trimmed and " ago" is appended.
   */
  method GetTimeSince(asMinutes: real, days: int, hours: int, minutes: int) returns (output: string)
    ensures output == TimeSinceText(asMinutes, days, hours, minutes)
  {
    if asMinutes < 1.0 {
      return "Just now";
    }
    var dayPart, hourPart, minutePart := DayPhraseAsWritten(days), UnitPhrase(hours, "hour", "hours"), UnitPhrase(minutes, "minute", "minutes");
    output := AppendComponents(dayPart, hourPart, minutePart, days != 0, hours != 0, minutes != 0);
    TimeSinceTextCases(asMinutes, days, hours, minutes);
    if output == "" {
      assert days == 0 && hours == 0 && minutes == 0;
      return "Just now";
    }
    DayPhraseEnds(days);
    PhraseEnds(hours, "hour", "hours");
    PhraseEnds(minutes, "minute", "minutes");
    TrimmedIsJoin(dayPart, hourPart, minutePart, days != 0, hours != 0, minutes != 0);
    output := Strip(output);
    output := output + " ago";
  }

  /** The successive `+=` of `getTimeSince`: the day phrase bare, the others after a space. */
  method AppendComponents(dayPart: string, hourPart: string, minutePart: string, hasDays: bool, hasHours: bool, hasMinutes: bool)
    returns (output: string)
    requires dayPart != [] && hourPart != [] && minutePart != []
    ensures output == (if hasDays then dayPart else "") + (if hasHours then " " + hourPart else "") + (if hasMinutes then " " + minutePart else "")
    ensures output == "" <==> !hasDays && !hasHours && !hasMinutes
  {
    ghost var d := if hasDays then dayPart else "";
    ghost var h := if hasHours then " " + hourPart else "";
    ghost var m := if hasMinutes then " " + minutePart else "";
    output := "";
    if hasDays {
      output := output + dayPart;
    }
    if hasHours {
      output := output + " " + hourPart;
    } else {
      assert output + h == output;
    }
    assert output == d + h;
    if hasMinutes {
      output := output + " " + minutePart;
    } else {
      assert output + m == output;
    }
  }

  /** `TimeSinceText` at or past one minute, by whether any component is nonzero. */
  lemma TimeSinceTextCases(asMinutes: real, days: int, hours: int, minutes: int)
    requires asMinutes >= 1.0
    ensures days == 0 && hours == 0 && minutes == 0 ==> TimeSinceText(asMinutes, days, hours, minutes) == "Just now"
    ensures days != 0 || hours != 0 || minutes != 0 ==>
      TimeSinceText(asMinutes, days, hours, minutes) == Join(
        (if days != 0 then [DayPhraseAsWritten(days)] else []) +
        (if hours != 0 then [UnitPhrase(hours, "hour", "hours")] else []) +
        (if minutes != 0 then [UnitPhrase(minutes, "minute", "minutes")] else []), ' ') + " ago"
  {
  }

  /** Each phrase starts with a digit or a sign and ends with a letter. */
  lemma PhraseEnds(n: int, singular: string, plural: string)
    requires singular != "" && plural != "" && !IsSpace(singular[|singular| - 1]) && !IsSpace(plural[|plural| - 1])
    ensures var p := UnitPhrase(n, singular, plural); |p| > 0 && !IsSpace(p[0]) && !IsSpace(p[|p| - 1])
  {
  }

  lemma DayPhraseEnds(days: int)
    ensures var p := DayPhraseAsWritten(days); |p| > 0 && !IsSpace(p[0]) && !IsSpace(p[|p| - 1])
  {
  }

  /** Trimming away the leading space of the appended phrases leaves them joined by single spaces. */
  lemma TrimmedIsJoin(d: string, h: string, m: string, hasD: bool, hasH: bool, hasM: bool)
    requires |d| > 0 && !IsSpace(d[0]) && !IsSpace(d[|d| - 1])
    requires |h| > 0 && !IsSpace(h[0]) && !IsSpace(h[|h| - 1])
    requires |m| > 0 && !IsSpace(m[0]) && !IsSpace(m[|m| - 1])
    requires hasD || hasH || hasM
    ensures var built := (if hasD then d else "") + (if hasH then " " + h else "") + (if hasM then " " + m else "");
      Strip(built) == Join((if hasD then [d] else []) + (if hasH then [h] else []) + (if hasM then [m] else []), ' ')
  {
    if hasD {
      TrimmedWithDays(d, h, m, hasD, hasH, hasM);
    } else {
      TrimmedWithoutDays(d, h, m, hasD, hasH, hasM);
    }
  }

  lemma TrimmedWithDays(d: string, h: string, m: string, hasD: bool, hasH: bool, hasM: bool)
    requires |d| > 0 && !IsSpace(d[0]) && !IsSpace(d[|d| - 1])
    requires |h| > 0 && !IsSpace(h[0]) && !IsSpace(h[|h| - 1])
    requires |m| > 0 && !IsSpace(m[0]) && !IsSpace(m[|m| - 1])
    requires hasD
    ensures var built := (if hasD then d else "") + (if hasH then " " + h else "") + (if hasM then " " + m else "");
      Strip(built) == Join((if hasD then [d] else []) + (if hasH then [h] else []) + (if hasM then [m] else []), ' ')
  {
    var joined := Join((if hasD then [d] else []) + (if hasH then [h] else []) + (if hasM then [m] else []), ' ');
    PhraseJoinEnds(d, h, m, hasD, hasH, hasM);
    JoinOfPhrases(d, h, m, hasH, hasM);
    StripUnspaced(joined);
  }

  lemma TrimmedWithoutDays(d: string, h: string, m: string, hasD: bool, hasH: bool, hasM: bool)
    requires |h| > 0 && !IsSpace(h[0]) && !IsSpace(h[|h| - 1])
    requires |m| > 0 && !IsSpace(m[0]) && !IsSpace(m[|m| - 1])
    requires !hasD && (hasH || hasM)
    ensures var built := (if hasD then d else "") + (if hasH then " " + h else "") + (if hasM then " " + m else "");
      Strip(built) == Join((if hasD then [d] else []) + (if hasH then [h] else []) + (if hasM then [m] else []), ' ')
  {
    var parts := (if hasH then [h] else []) + (if hasM then [m] else []);
    var joined := Join(parts, ' ');
    PhraseJoinEnds(h, h, m, false, hasH, hasM);
    assert parts == (if false then [h] else []) + (if hasH then [h] else []) + (if hasM then [m] else []);
    assert parts == (if hasD then [d] else []) + (if hasH then [h] else []) + (if hasM then [m] else []);
    assert (if hasD then d else "") + (if hasH then " " + h else "") + (if hasM then " " + m else "") == " " + joined by {
      if hasH {
        JoinOfPhrases(h, m, m, hasM, false);
      } else {
        assert parts == [m];
      }
    }
    StripOneSpace(joined);
  }

  /** The join of the present phrases starts and ends without white space. */
  lemma PhraseJoinEnds(d: string, h: string, m: string, hasD: bool, hasH: bool, hasM: bool)
    requires |d| > 0 && !IsSpace(d[0]) && !IsSpace(d[|d| - 1])
    requires |h| > 0 && !IsSpace(h[0]) && !IsSpace(h[|h| - 1])
    requires |m| > 0 && !IsSpace(m[0]) && !IsSpace(m[|m| - 1])
    requires hasD || hasH || hasM
    ensures var j := Join((if hasD then [d] else []) + (if hasH then [h] else []) + (if hasM then [m] else []), ' ');
      |j| > 0 && !IsSpace(j[0]) && !IsSpace(j[|j| - 1])
  {
    var parts := (if hasD then [d] else []) + (if hasH then [h] else []) + (if hasM then [m] else []);
    assert forall i :: 0 <= i < |parts| ==> parts[i] == d || parts[i] == h || parts[i] == m;
    JoinEnds(parts);
  }

  /** `first` followed by the optional phrases, each after a space, is their join. */
  lemma JoinOfPhrases(first: string, h: string, m: string, hasH: bool, hasM: bool)
    ensures first + (if hasH then " " + h else "") + (if hasM then " " + m else "")
         == Join([first] + (if hasH then [h] else []) + (if hasM then [m] else []), ' ')
  {
    var parts := [first] + (if hasH then [h] else []) + (if hasM then [m] else []);
    if hasH && hasM {
      assert parts == [first, h, m];
      assert parts[1..] == [h, m] && parts[1..][1..] == [m];
      assert Join([h, m], ' ') == h + [' '] + m;
      assert Join(parts, ' ') == first + [' '] + (h + [' '] + m);
    } else if hasH || hasM {
      var x := if hasH then h else m;
      assert parts == [first, x];
      assert parts[1..] == [x];
      assert Join(parts, ' ') == first + [' '] + x;
    } else {
      assert parts == [first];
    }
  }

  /** A join of phrases that start and end without white space starts and ends without it too. */
  lemma {:induction false} JoinEnds(parts: seq<string>)
    requires parts != []
    requires forall i :: 0 <= i < |parts| ==> |parts[i]| > 0 && !IsSpace(parts[i][0]) && !IsSpace(parts[i][|parts[i]| - 1])
    ensures var j := Join(parts, ' '); |j| > 0 && !IsSpace(j[0]) && !IsSpace(j[|j| - 1])
  {
    if |parts| > 1 {
      JoinEnds(parts[1..]);
    }
  }

  lemma StripOneSpace(t: string)
    requires |t| > 0 && !IsSpace(t[0]) && !IsSpace(t[|t| - 1])
    ensures Strip(" " + t) == t
  {
    assert (" " + t)[1..] == t;
    assert StripLeft(" " + t) == StripLeft(t) == t;
    assert StripRight(t) == t;
  }

  /** As written, a day count of 1 is rendered "1 days". */
  lemma TimeSinceOneDayAsWritten(asMinutes: real, hours: int, minutes: int)
    requires asMinutes >= 1.0
    ensures TimeSinceText(asMinutes, 1, hours, minutes)[..6] == "1 days"
  {
    var parts := TimeSinceParts(DayPhraseAsWritten(1), 1, hours, minutes);
    assert parts[0] == "1 days";
    JoinPrefix(parts);
  }

  /** A join begins with its first part. */
  lemma JoinPrefix(parts: seq<string>)
    requires parts != []
    ensures |Join(parts, ' ')| >= |parts[0]| && Join(parts, ' ')[..|parts[0]|] == parts[0]
  {
  }

  /** Corrected: the day count treated like hours and minutes. */
  function TimeSinceIntended(asMinutes: real, days: int, hours: int, minutes: int): string {
    var parts := TimeSinceParts(UnitPhrase(days, "day", "days"), days, hours, minutes);
    if asMinutes < 1.0 || parts == [] then "Just now" else Join(parts, ' ') + " ago"
  }

  /** With the correction, a day count of 1 reads "1 day", followed by a space and not by an "s". */
  lemma TimeSinceOneDayIntended(asMinutes: real, hours: int, minutes: int)
    requires asMinutes >= 1.0
    ensures var r := TimeSinceIntended(asMinutes, 1, hours, minutes);
      |r| > 5 && r[..5] == "1 day" && r[5] == ' '
  {
    var parts := TimeSinceParts(UnitPhrase(1, "day", "days"), 1, hours, minutes);
    assert parts[0] == "1 day";
    JoinPrefix(parts);
    var j := Join(parts, ' ');
    if |parts| > 1 {
      assert j == parts[0] + [' '] + Join(parts[1..], ' ');
      assert j[5] == ' ';
    } else {
      assert j == "1 day";
    }
    var r := j + " ago";
    assert r[..5] == j[..5];
  }

  /** Under one minute, or with every component zero, both versions show "Just now"; otherwise they end in " ago". */
  lemma TimeSinceShape(asMinutes: real, days: int, hours: int, minutes: int)
    ensures asMinutes < 1.0 || (days == 0 && hours == 0 && minutes == 0) ==>
      TimeSinceText(asMinutes, days, hours, minutes) == "Just now" &&
      TimeSinceIntended(asMinutes, days, hours, minutes) == "Just now"
    ensures asMinutes >= 1.0 && (days != 0 || hours != 0 || minutes != 0) ==>
      var r := TimeSinceText(asMinutes, days, hours, minutes);
      |r| >= 4 && r[|r| - 4..] == " ago" && !IsSpace(r[0])
  {
    var parts := TimeSinceParts(DayPhraseAsWritten(days), days, hours, minutes);
    if asMinutes >= 1.0 && parts != [] {
      PhraseEnds(hours, "hour", "hours");
      PhraseEnds(minutes, "minute", "minutes");
      JoinEnds(parts);
    }
  }
}
