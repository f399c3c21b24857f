/**
 * The ffmpeg fallback of `get_media_length`: reading the duration out of the
 * diagnostic text ffmpeg writes to stderr. Running ffmpeg is not modelled;
 * its output arrives here as a string.
 */
module Probe {
  import opened Wrappers
  import opened Text
  import opened Numbers

  const Marker := "Duration:"

  datatype ProbeError =
    | NoDurationLine           // no line mentions the marker
    | BadDuration(text: string) // the first such line does not hold `h:m:s` numbers

  predicate MentionsDuration(line: string)
  {
    Contains(line, Marker)
  }

  /** The time text of a line that holds the marker: after it, up to the next comma, stripped. */
  function TimeText(line: string): (r: string)
    requires MentionsDuration(line)
    ensures ',' !in r
  {
    var field := Before(After(line, Marker), Marker);
    BeforeLacks(field, ',');
    StripKeeps(Before(field, ","), ',');
    Strip(Before(field, ","))
  }

  /** `h, m, s = text.split(':')`, then `float(h) * 3600 + float(m) * 60 + float(s)`. */
  function ClockSeconds(text: string): (r: Option<real>)
    ensures r.Some? ==> |Split(text, ':')| == 3
  {
    var parts := Split(text, ':');
    if |parts| != 3 then None
    else match (ParseFloat(parts[0]), ParseFloat(parts[1]), ParseFloat(parts[2]))
      case (Some(h), Some(m), Some(s)) => Some(h * 3600.0 + m * 60.0 + s)
      case _ => None
  }

  /** The duration held by one line that mentions the marker. */
  function LineDuration(line: string): (r: Result<real, ProbeError>)
    requires MentionsDuration(line)
    ensures r.Err? ==> r.error == BadDuration(TimeText(line))
    ensures r.Ok? <==> ClockSeconds(TimeText(line)).Some?
    ensures r.Ok? ==> r.value == ClockSeconds(TimeText(line)).value
  {
    match ClockSeconds(TimeText(line))
    case Some(d) => Ok(d)
    case None => Err(BadDuration(TimeText(line)))
  }

  /** A time text without any `:`, such as ffmpeg's `N/A`, does not unpack into three fields: the line is an error. */
  lemma NoColonNoDuration(line: string)
    requires MentionsDuration(line) && ':' !in TimeText(line)
    ensures LineDuration(line) == Err(BadDuration(TimeText(line)))
  {
    SplitPlain(TimeText(line), ':');
  }

  /** The duration ffmpeg reports: read from the first line that mentions the marker. */
  function ProbeDuration(output: string): (r: Result<real, ProbeError>)
    ensures r == Err(NoDurationLine)
        <==> forall k :: 0 <= k < |Split(output, '\n')| ==> !MentionsDuration(Split(output, '\n')[k])
  {
    var lines := Split(output, '\n');
    match FirstWhere(lines, MentionsDuration, 0)
    case None => Err(NoDurationLine)
    case Some(k) => LineDuration(lines[k])
  }

  /** The line-by-line scan of ffmpeg's output, returning at the first line that mentions the marker. */
  method ParseProbeOutput(output: string) returns (r: Result<real, ProbeError>)
    ensures r == ProbeDuration(output)
  {
    var lines := Split(output, '\n');
    var k := 0;
    while k < |lines|
      invariant k <= |lines|
      invariant forall j :: 0 <= j < k ==> !MentionsDuration(lines[j])
    {
      if MentionsDuration(lines[k]) {
        var text := TimeText(lines[k]);
        var seconds := ClockSeconds(text);
        r := if seconds.Some? then Ok(seconds.value) else Err(BadDuration(text));
        FirstMarkedLine(lines, k);
        return;
      }
      k := k + 1;
    }
    r := Err(NoDurationLine);
  }

  lemma FirstMarkedLine(lines: seq<string>, k: nat)
    requires k < |lines| && MentionsDuration(lines[k])
    requires forall j :: 0 <= j < k ==> !MentionsDuration(lines[j])
    ensures FirstWhere(lines, MentionsDuration, 0) == Some(k)
  {
    FirstWhereAt(lines, MentionsDuration, k);
  }

  /** Characters of a time stamp such as `00:03:25.47`. */
  predicate ClockChar(c: char)
  {
    IsDigit(c) || c == ':' || c == '.'
  }

  lemma MarkerStartsWithD(s: string, i: nat)
    requires OccursAt(s, Marker, i)
    ensures i < |s| && s[i] == 'D'
  {
    assert s[i..i + |Marker|][0] == s[i];
  }

  lemma MarkerAfterIndent(indent: string, rest: string)
    requires forall k :: 0 <= k < |indent| ==> IsSpace(indent[k])
    ensures MentionsDuration(indent + Marker + rest)
    ensures After(indent + Marker + rest, Marker) == rest
  {
    var line := indent + Marker + rest;
    assert OccursAt(line, Marker, |indent|) by {
      assert line[|indent|..|indent| + |Marker|] == Marker;
    }
    var i := IndexOf(line, Marker).value;
    MarkerStartsWithD(line, i);
    assert line[|indent| + |Marker|..] == rest;
  }

  /** Cutting at a later marker keeps the time stamp and the comma after it. */
  lemma CutKeepsClock(clock: string, tail: string)
    requires forall k :: 0 <= k < |clock| ==> ClockChar(clock[k])
    ensures var y := Before(" " + clock + "," + tail, Marker);
      |y| > |clock| + 1 && y[..|clock| + 2] == " " + clock + ","
  {
    var rest := " " + clock + "," + tail;
    var y := Before(rest, Marker);
    if |y| <= |clock| + 1 {
      MarkerStartsWithD(rest, |y|);
    }
    assert y[..|clock| + 2] == rest[..|clock| + 2];
  }

  /** The first comma after a time stamp ends it. */
  lemma CommaEndsClock(clock: string, y: string)
    requires forall k :: 0 <= k < |clock| ==> ClockChar(clock[k])
    requires |y| > |clock| + 1 && y[..|clock| + 2] == " " + clock + ","
    ensures Before(y, ",") == " " + clock
  {
    var n := |clock| + 1;
    assert y[n] == ',';
    assert OccursAt(y, ",", n) by {
      assert y[n..n + 1] == [y[n]];
    }
    var i := IndexOf(y, ",").value;
    assert y[i..i + 1][0] == y[i];
    assert y[..n] == " " + clock;
  }

  /** The time text of an ffmpeg duration line is the time stamp it shows. */
  lemma TimeTextOfLine(indent: string, clock: string, tail: string)
    requires forall k :: 0 <= k < |indent| ==> IsSpace(indent[k])
    requires |clock| > 0 && IsDigit(clock[0]) && IsDigit(clock[|clock| - 1])
    requires forall k :: 0 <= k < |clock| ==> ClockChar(clock[k])
    ensures MentionsDuration(indent + Marker + " " + clock + "," + tail)
    ensures TimeText(indent + Marker + " " + clock + "," + tail) == clock
  {
    var rest := " " + clock + "," + tail;
    assert indent + Marker + " " + clock + "," + tail == indent + Marker + rest;
    MarkerAfterIndent(indent, rest);
    CutKeepsClock(clock, tail);
    CommaEndsClock(clock, Before(rest, Marker));
    StripPadded(" ", clock, "");
    assert " " + clock + "" == " " + clock;
  }

  /** The seconds denoted by the time stamp `hh:mm:ss.ff`. */
  function ClockValue(hh: string, mm: string, ss: string, ff: string): real
    requires AllDigits(hh) && AllDigits(mm) && AllDigits(ss) && AllDigits(ff)
  {
    DigitsValue(hh) as real * 3600.0 + DigitsValue(mm) as real * 60.0 + DecimalValue(ss, ff)
  }

  /** `hh:mm:ss.ff` reads back as hours, minutes and seconds summed in seconds. */
  lemma ClockSecondsOf(hh: string, mm: string, ss: string, ff: string)
    requires |hh| > 0 && AllDigits(hh) && |mm| > 0 && AllDigits(mm)
    requires |ss| > 0 && AllDigits(ss) && AllDigits(ff)
    ensures ClockSeconds(hh + ":" + mm + ":" + ss + "." + ff) == Some(ClockValue(hh, mm, ss, ff))
  {
    var sec := ss + "." + ff;
    SecondsHaveNoColon(ss, ff);
    ClockFields(hh, mm, sec);
    assert hh + ":" + mm + ":" + ss + "." + ff == hh + ":" + mm + ":" + sec;
    ClockOfDigitFields(hh + ":" + mm + ":" + ss + "." + ff, hh, mm, ss, ff,
                       DigitsValue(hh) as real, DigitsValue(mm) as real, DecimalValue(ss, ff));
  }

  lemma ClockOfDigitFields(text: string, hh: string, mm: string, ss: string, ff: string, h: real, m: real, z: real)
    requires |hh| > 0 && AllDigits(hh) && |mm| > 0 && AllDigits(mm)
    requires |ss| > 0 && AllDigits(ss) && AllDigits(ff)
    requires Split(text, ':') == [hh, mm, ss + "." + ff]
    requires h == DigitsValue(hh) as real && m == DigitsValue(mm) as real && z == DecimalValue(ss, ff)
    ensures ClockSeconds(text) == Some(h * 3600.0 + m * 60.0 + z)
  {
    var sec := ss + "." + ff;
    assert ParseFloat(hh) == Some(h) by { ParseWhole(hh); }
    assert ParseFloat(mm) == Some(m) by { ParseWhole(mm); }
    assert ParseFloat(sec) == Some(z) by { ParseFraction(ss, ff); }
    ClockFromFields(text, hh, mm, sec, h, m, z);
  }

  lemma ClockFromFields(text: string, a: string, b: string, c: string, x: real, y: real, z: real)
    requires Split(text, ':') == [a, b, c]
    requires ParseFloat(a) == Some(x) && ParseFloat(b) == Some(y) && ParseFloat(c) == Some(z)
    ensures ClockSeconds(text) == Some(x * 3600.0 + y * 60.0 + z)
  {
  }

  lemma SecondsHaveNoColon(ss: string, ff: string)
    requires AllDigits(ss) && AllDigits(ff)
    ensures ':' !in ss + "." + ff
  {
    var sec := ss + "." + ff;
    assert forall k :: 0 <= k < |sec| ==> sec[k] == '.' || IsDigit(sec[k]);
  }

  /** A time stamp splits at its two colons into exactly three fields. */
  lemma ClockFields(hh: string, mm: string, sec: string)
    requires AllDigits(hh) && AllDigits(mm) && ':' !in sec
    ensures Split(hh + ":" + mm + ":" + sec, ':') == [hh, mm, sec]
  {
    var parts := [hh, mm, sec];
    assert parts[1..] == [mm, sec] && parts[1..][1..] == [sec];
    calc {
      JoinWith(parts, ':');
      hh + [':'] + JoinWith([mm, sec], ':');
      hh + [':'] + (mm + [':'] + sec);
      { assert [':'] == ":"; }
      hh + ":" + mm + ":" + sec;
    }
    SplitJoin(parts, ':');
  }

  /** The text ffmpeg prints for a time stamp: `hh:mm:ss.ff`. */
  function Clock(hh: string, mm: string, ss: string, ff: string): string
  {
    hh + ":" + mm + ":" + ss + "." + ff
  }

  lemma ClockTextChars(hh: string, mm: string, ss: string, ff: string)
    requires |hh| > 0 && AllDigits(hh) && AllDigits(mm) && AllDigits(ss) && |ff| > 0 && AllDigits(ff)
    ensures var clock := Clock(hh, mm, ss, ff);
      |clock| > 0 && IsDigit(clock[0]) && IsDigit(clock[|clock| - 1])
      && forall k :: 0 <= k < |clock| ==> ClockChar(clock[k])
  {
    var clock := Clock(hh, mm, ss, ff);
    assert clock[0] == hh[0];
    assert clock[|clock| - 1] == ff[|ff| - 1];
    forall k | 0 <= k < |clock|
      ensures ClockChar(clock[k])
    {
      if k < |hh| {
        assert clock[k] == hh[k];
      } else if k == |hh| || k == |hh| + 1 + |mm| {
        assert clock[k] == ':';
      } else if k < |hh| + 1 + |mm| {
        assert clock[k] == mm[k - |hh| - 1];
      } else if k < |hh| + 2 + |mm| + |ss| {
        assert clock[k] == ss[k - |hh| - 2 - |mm|];
      } else if k == |hh| + 2 + |mm| + |ss| {
        assert clock[k] == '.';
      } else {
        assert clock[k] == ff[k - |hh| - 3 - |mm| - |ss|];
      }
    }
  }

  /**
   * A line `<indent>Duration: hh:mm:ss.ff,<tail>` yields the time stamp's
   * value in seconds.
   */
  lemma LineDurationOf(indent: string, hh: string, mm: string, ss: string, ff: string, tail: string)
    requires forall k :: 0 <= k < |indent| ==> IsSpace(indent[k])
    requires |hh| > 0 && AllDigits(hh) && |mm| > 0 && AllDigits(mm)
    requires |ss| > 0 && AllDigits(ss) && |ff| > 0 && AllDigits(ff)
    ensures MentionsDuration(indent + Marker + " " + Clock(hh, mm, ss, ff) + "," + tail)
    ensures LineDuration(indent + Marker + " " + Clock(hh, mm, ss, ff) + "," + tail)
         == Ok(ClockValue(hh, mm, ss, ff))
  {
    ClockTextChars(hh, mm, ss, ff);
    TimeTextOfLine(indent, Clock(hh, mm, ss, ff), tail);
    ClockSecondsOf(hh, mm, ss, ff);
  }

  /**
   * ffmpeg's output read as lines: the duration comes from the first line
   * that mentions the marker, whatever follows it.
   */
  lemma ProbeReadsFirstMarkedLine(lines: seq<string>, k: nat)
    requires forall j :: 0 <= j < |lines| ==> '\n' !in lines[j]
    requires k < |lines| && MentionsDuration(lines[k])
    requires forall j :: 0 <= j < k ==> !MentionsDuration(lines[j])
    ensures ProbeDuration(JoinWith(lines, '\n')) == LineDuration(lines[k])
  {
    SplitJoin(lines, '\n');
    FirstWhereAt(lines, MentionsDuration, k);
  }

  /**
   * Output whose first marked line is `<indent>Duration: hh:mm:ss.ff,<tail>`
   * has that time stamp's value as its duration.
   */
  lemma ProbeDurationOf(lines: seq<string>, k: nat,
                        indent: string, hh: string, mm: string, ss: string, ff: string, tail: string)
    requires forall j :: 0 <= j < |lines| ==> '\n' !in lines[j]
    requires k < |lines| && lines[k] == indent + Marker + " " + Clock(hh, mm, ss, ff) + "," + tail
    requires forall j :: 0 <= j < k ==> !MentionsDuration(lines[j])
    requires forall i :: 0 <= i < |indent| ==> IsSpace(indent[i])
    requires |hh| > 0 && AllDigits(hh) && |mm| > 0 && AllDigits(mm)
    requires |ss| > 0 && AllDigits(ss) && |ff| > 0 && AllDigits(ff)
    ensures ProbeDuration(JoinWith(lines, '\n')) == Ok(ClockValue(hh, mm, ss, ff))
  {
    LineDurationOf(indent, hh, mm, ss, ff, tail);
    ProbeReadsFirstMarkedLine(lines, k);
  }

  /** Output in which no line mentions the marker has no duration. */
  lemma ProbeWithoutMarker(lines: seq<string>)
    requires |lines| >= 1
    requires forall j :: 0 <= j < |lines| ==> '\n' !in lines[j] && !MentionsDuration(lines[j])
    ensures ProbeDuration(JoinWith(lines, '\n')) == Err(NoDurationLine)
  {
    SplitJoin(lines, '\n');
  }
}
