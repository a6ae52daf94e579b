/**
 * The small formatters: the `mm:ss` countdown text (script.js:568-572 and
 * src/components/FocusTools.tsx:137-141, which agree), the 12-hour clock of
 * script.js:65-72, and the hour-of-day task suggestion (script.js:92-106 and
 * src/components/TaskManager.tsx:120-134, which agree).
 */
module TimeFormat {
  import opened Wrappers

  predicate IsDigit(c: char) { '0' <= c <= '9' }

  predicate AllDigits(s: string) { forall i :: 0 <= i < |s| ==> IsDigit(s[i]) }

  function DigitChar(d: nat): (c: char)
    requires d < 10
    ensures IsDigit(c)
  {
    "0123456789"[d]
  }

  function DigitValue(c: char): (d: nat)
    requires IsDigit(c)
    ensures d < 10
  {
    (c as int - '0' as int) as nat
  }

  /** `n.toString()` for a non-negative integer: decimal, no leading zero. */
  function Digits(n: nat): (s: string)
    ensures 1 <= |s| && AllDigits(s)
    ensures |s| > 1 ==> s[0] != '0'
    ensures n < 10 <==> |s| == 1
    ensures n < 100 ==> |s| <= 2
  {
    if n < 10 then [DigitChar(n)] else Digits(n / 10) + [DigitChar(n % 10)]
  }

  /** The value a string of decimal digits denotes; the reference for `Digits`. */
  function Value(s: string): nat
    requires AllDigits(s)
  {
    if |s| == 0 then 0 else Value(s[..|s| - 1]) * 10 + DigitValue(s[|s| - 1])
  }

  /** Printing a number and reading it back gives the number. */
  lemma {:induction false} ValueOfDigits(n: nat)
    ensures Value(Digits(n)) == n
  {
    var s := Digits(n);
    if n >= 10 {
      ValueOfDigits(n / 10);
      assert s[..|s| - 1] == Digits(n / 10);
    }
  }

  /** Leading zeros do not change the value. */
  lemma {:induction false} ValueIgnoresLeadingZero(s: string)
    requires AllDigits(s)
    ensures AllDigits("0" + s) && Value("0" + s) == Value(s)
    decreases |s|
  {
    var z := "0" + s;
    assert AllDigits(z) by {
      forall i | 0 <= i < |z| ensures IsDigit(z[i]) {
        if i > 0 { assert z[i] == s[i - 1]; }
      }
    }
    if |s| > 0 {
      ValueIgnoresLeadingZero(s[..|s| - 1]);
      assert z[..|z| - 1] == "0" + s[..|s| - 1];
    }
  }

  /** `padStart(2, "0")` */
  function PadStart2(s: string): (r: string)
    ensures |r| == if |s| < 2 then 2 else |s|
    ensures r[|r| - |s|..] == s
    ensures forall i :: 0 <= i < |r| - |s| ==> r[i] == '0'
  {
    if |s| == 0 then "00" else if |s| == 1 then "0" + s else s
  }

  lemma PadKeepsValue(s: string)
    requires AllDigits(s)
    ensures AllDigits(PadStart2(s)) && Value(PadStart2(s)) == Value(s)
  {
    if |s| == 1 {
      ValueIgnoresLeadingZero(s);
    } else if |s| == 0 {
      ValueIgnoresLeadingZero("0");
    }
  }

  /** `formatTimeDisplay` / `formatTime`: minutes and seconds, each padded to two digits. */
  function FormatTime(seconds: nat): (r: string)
    ensures |r| >= 5 && r[|r| - 3] == ':'
    ensures seconds < 100 * 60 ==> |r| == 5
  {
    var m, s := PadStart2(Digits(seconds / 60)), PadStart2(Digits(seconds % 60));
    assert seconds < 100 * 60 ==> seconds / 60 < 100;
    m + ":" + s
  }

  /** Reads an `m…m:ss` text back into seconds; the reference for `FormatTime`. */
  function ParseTime(t: string): Option<nat>
  {
    if |t| < 4 || t[|t| - 3] != ':' then None
    else
      var m, s := t[..|t| - 3], t[|t| - 2..];
      if AllDigits(m) && AllDigits(s) && Value(s) < 60 then Some(Value(m) * 60 + Value(s)) else None
  }

  /** Where the minutes, the colon and the seconds sit in `m:ss`. */
  lemma JoinedParts(m: string, sec: string)
    requires |sec| == 2
    ensures var t := m + ":" + sec;
            |t| == |m| + 3 && t[|t| - 3] == ':' && t[..|t| - 3] == m && t[|t| - 2..] == sec
  {
    var t := m + ":" + sec;
    assert t[..|t| - 3] == m;
    assert t[|t| - 2..] == sec;
  }

  lemma ParseJoined(t: string, m: string, sec: string)
    requires t == m + ":" + sec
    requires 1 <= |m| && AllDigits(m) && |sec| == 2 && AllDigits(sec) && Value(sec) < 60
    ensures ParseTime(t) == Some(Value(m) * 60 + Value(sec))
  {
    JoinedParts(m, sec);
  }

  /** The displayed text determines the seconds: minutes times sixty plus seconds below sixty. */
  lemma FormatTimeRoundTrip(seconds: nat)
    ensures ParseTime(FormatTime(seconds)) == Some(seconds)
  {
    var q, r := seconds / 60, seconds % 60;
    var m, sec := PadStart2(Digits(q)), PadStart2(Digits(r));
    ValueOfDigits(q);
    ValueOfDigits(r);
    PadKeepsValue(Digits(q));
    PadKeepsValue(Digits(r));
    assert Value(m) == q && Value(sec) == r;
    ParseJoined(FormatTime(seconds), m, sec);
  }

  datatype Meridiem = AM | PM

  /** `hours >= 12 ? 'PM' : 'AM'` */
  function MeridiemOf(hours: nat): Meridiem
  {
    if hours >= 12 then PM else AM
  }

  /** `hours % 12 || 12`: noon and midnight show as 12. */
  function Hour12(hours: nat): (h: nat)
    requires hours < 24
    ensures 1 <= h <= 12
    ensures h % 12 == hours % 12
  {
    if hours % 12 == 0 then 12 else hours % 12
  }

  /** The 24-hour hour a 12-hour reading denotes; the reference for `Hour12`. */
  function To24(h: nat, m: Meridiem): nat
    requires 1 <= h <= 12
  {
    (if h == 12 then 0 else h) + (if m == PM then 12 else 0)
  }

  /** The 12-hour reading loses nothing: hour and meridiem give back the hour. */
  lemma Hour12RoundTrip(hours: nat)
    requires hours < 24
    ensures To24(Hour12(hours), MeridiemOf(hours)) == hours
  {
  }

  lemma To24RoundTrip(h: nat, m: Meridiem)
    requires 1 <= h <= 12
    ensures To24(h, m) < 24
    ensures Hour12(To24(h, m)) == h && MeridiemOf(To24(h, m)) == m
  {
  }

  /** `n < 10 ? '0' + n : n` on the clock's minutes and seconds. */
  function ClockPad(n: nat): (r: string)
    ensures AllDigits(r)
    ensures n < 100 ==> |r| == 2
  {
    if n < 10 then "0" + Digits(n) else Digits(n)
  }

  /** The padded digits read back as the number. */
  lemma ClockPadValue(n: nat)
    ensures Value(ClockPad(n)) == n
  {
    ValueOfDigits(n);
    if n < 10 {
      ValueIgnoresLeadingZero(Digits(n));
    }
  }

  /** For a minute or second the clock's padding is the countdown's padding. */
  lemma ClockPadIsPadStart(n: nat)
    requires n < 60
    ensures ClockPad(n) == PadStart2(Digits(n))
    ensures |ClockPad(n)| == 2
  {
  }

  /** `h:mm:ss AM` from its parts, and where each part sits in the text. */
  function JoinClock(hh: string, mm: string, ss: string, ap: string): (r: string)
    requires |mm| == 2 && |ss| == 2 && |ap| == 2
    ensures |r| == |hh| + 9
    ensures r[..|r| - 9] == hh
    ensures r[|r| - 9..|r| - 3] == ":" + mm + ":" + ss
    ensures r[|r| - 3] == ' '
    ensures r[|r| - 2..] == ap
  {
    var mid := ":" + mm + ":" + ss;
    var r := hh + mid + " " + ap;
    assert r[..|hh|] == hh;
    assert r[|hh|..|hh| + 6] == mid;
    assert r[|hh| + 7..] == ap;
    r
  }

  /** The clock text `h:mm:ss AM`: the 12-hour hour without padding, the two-digit
      minutes and seconds, a space and the meridiem. */
  function ClockText(hours: nat, minutes: nat, seconds: nat): (r: string)
    requires hours < 24 && minutes < 60 && seconds < 60
    ensures |r| >= 10
    ensures r[..|r| - 9] == Digits(Hour12(hours))
    ensures r[|r| - 9..|r| - 3] == ":" + ClockPad(minutes) + ":" + ClockPad(seconds)
    ensures r[|r| - 3] == ' '
    ensures r[|r| - 2..] == (if hours < 12 then "AM" else "PM")
  {
    JoinClock(Digits(Hour12(hours)), ClockPad(minutes), ClockPad(seconds),
              if MeridiemOf(hours) == PM then "PM" else "AM")
  }

  /** Where the two fields of `:mm:ss` sit. */
  lemma FieldsShape(a: string, b: string)
    requires |a| == 2 && |b| == 2
    ensures (":" + a + ":" + b)[1..3] == a && (":" + a + ":" + b)[4..6] == b
  {
  }

  /** The hour digits and the meridiem determine the hour. */
  lemma ClockHourInjective(h1: nat, h2: nat)
    requires h1 < 24 && h2 < 24
    requires Digits(Hour12(h1)) == Digits(Hour12(h2)) && (h1 < 12 <==> h2 < 12)
    ensures h1 == h2
  {
    ValueOfDigits(Hour12(h1));
    ValueOfDigits(Hour12(h2));
    Hour12RoundTrip(h1);
    Hour12RoundTrip(h2);
  }

  /** The padded digits determine the number. */
  lemma ClockPadInjective(n1: nat, n2: nat)
    requires ClockPad(n1) == ClockPad(n2)
    ensures n1 == n2
  {
    ClockPadValue(n1);
    ClockPadValue(n2);
  }

  /** The clock text determines the time it shows. */
  lemma ClockTextInjective(h1: nat, m1: nat, s1: nat, h2: nat, m2: nat, s2: nat)
    requires h1 < 24 && m1 < 60 && s1 < 60 && h2 < 24 && m2 < 60 && s2 < 60
    requires ClockText(h1, m1, s1) == ClockText(h2, m2, s2)
    ensures h1 == h2 && m1 == m2 && s1 == s2
  {
    assert (if h1 < 12 then "AM" else "PM") == (if h2 < 12 then "AM" else "PM");
    assert h1 < 12 <==> h2 < 12 by {
      assert "AM" != "PM";
    }
    ClockHourInjective(h1, h2);
    var a1, b1, a2, b2 := ClockPad(m1), ClockPad(s1), ClockPad(m2), ClockPad(s2);
    FieldsShape(a1, b1);
    FieldsShape(a2, b2);
    assert ":" + a1 + ":" + b1 == ":" + a2 + ":" + b2;
    ClockPadInjective(m1, m2);
    ClockPadInjective(s1, s2);
  }

  /** The five suggestions, in the order of the day. */
  datatype Suggestion = Planning | FocusedWork | Collaborative | WrapUp | LightTasks

  function Rank(s: Suggestion): nat
  {
    match s
    case Planning => 0
    case FocusedWork => 1
    case Collaborative => 2
    case WrapUp => 3
    case LightTasks => 4
  }

  /** The hours at which the suggestion changes. */
  const Thresholds: seq<int> := [9, 12, 15, 18]

  /** How many thresholds an hour has reached; the reference for `SuggestionFor`. */
  function Reached(hour: int, ts: seq<int>): nat
  {
    if |ts| == 0 then 0 else (if ts[0] <= hour then 1 else 0) + Reached(hour, ts[1..])
  }

  lemma ReachedThresholds(hour: int)
    ensures Reached(hour, Thresholds) ==
              (if hour < 9 then 0 else if hour < 12 then 1 else if hour < 15 then 2 else if hour < 18 then 3 else 4)
  {
    var a := if hour < 9 then 0 else 1;
    var b := if hour < 12 then 0 else 1;
    var c := if hour < 15 then 0 else 1;
    var d := if hour < 18 then 0 else 1;
    assert [18][1..] == [];
    assert Reached(hour, [18]) == d;
    assert [15, 18][1..] == [18];
    assert Reached(hour, [15, 18]) == c + d;
    assert [12, 15, 18][1..] == [15, 18];
    assert Reached(hour, [12, 15, 18]) == b + c + d;
    assert Thresholds[1..] == [12, 15, 18];
  }

  /** `updateSuggestion` / `getTaskSuggestion`: the first bucket whose bound exceeds the hour. */
  function SuggestionFor(hour: int): (s: Suggestion)
    ensures Rank(s) == Reached(hour, Thresholds)
  {
    ReachedThresholds(hour);
    if hour < 9 then Planning
    else if hour < 12 then FocusedWork
    else if hour < 15 then Collaborative
    else if hour < 18 then WrapUp
    else LightTasks
  }

  /** Later in the day never brings an earlier suggestion. */
  lemma SuggestionMonotone(h1: int, h2: int)
    requires h1 <= h2
    ensures Rank(SuggestionFor(h1)) <= Rank(SuggestionFor(h2))
  {
  }

  /** The text shown for each suggestion, in rank order. */
  const Messages: seq<string> := [
    "Morning is perfect for planning your day and tackling challenging tasks.",
    "Mid-morning is great for focused work. Consider your high-priority tasks.",
    "After lunch, focus on collaborative tasks or meetings while your energy is stable.",
    "Late afternoon is ideal for wrapping up tasks and planning tomorrow.",
    "Evening is perfect for light tasks, reading, or learning new skills."]

  /** The text shown for a suggestion. */
  function Message(s: Suggestion): string
  {
    Messages[Rank(s)]
  }

  /** The suggestion changes from one hour to the next exactly at a threshold. */
  lemma SuggestionChangesAtThresholds(h: int)
    ensures SuggestionFor(h) != SuggestionFor(h + 1) <==> h + 1 in Thresholds
  {
  }

  /** The five texts are pairwise different. */
  lemma MessagesTableDistinct(i: nat, j: nat)
    requires i < j < |Messages|
    ensures Messages[i] != Messages[j]
  {
  }

  /** Different suggestions show different texts. */
  lemma MessagesDistinct(a: Suggestion, b: Suggestion)
    ensures Message(a) == Message(b) <==> a == b
  {
    if Rank(a) < Rank(b) {
      MessagesTableDistinct(Rank(a), Rank(b));
    } else if Rank(b) < Rank(a) {
      MessagesTableDistinct(Rank(b), Rank(a));
    }
  }
}
