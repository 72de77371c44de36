/** The video-lessons page: the grade/subject filter over the loaded videos
    and the `m:ss` rendering of a video's duration. */
module Videos {
  import opened Common

  datatype Video = Video(
    id: int, gradeId: int, subjectId: int, title: string, description: string,
    videoUrl: string, thumbnailUrl: string, duration: int, views: int)

  /** The filter predicate: a set grade (subject) filter drops the videos of
      other grades (subjects). */
  predicate KeepVideo(v: Video, grade: Option<int>, subject: Option<int>) {
    if IsSetNumber(grade) && v.gradeId != grade.value then false
    else if IsSetNumber(subject) && v.subjectId != subject.value then false
    else true
  }

  function FilteredVideos(videos: seq<Video>, grade: Option<int>, subject: Option<int>): seq<Video> {
    Filter(videos, v => KeepVideo(v, grade, subject))
  }

  /** The shown list keeps the order of `videos` and holds exactly the videos
      matching every filter in force. */
  lemma FilteredVideosSpec(videos: seq<Video>, grade: Option<int>, subject: Option<int>)
    ensures IsSubsequence(FilteredVideos(videos, grade, subject), videos)
    ensures forall v :: multiset(FilteredVideos(videos, grade, subject))[v] == if KeepVideo(v, grade, subject) then multiset(videos)[v] else 0
    ensures forall v :: v in FilteredVideos(videos, grade, subject) <==>
              v in videos && (!IsSetNumber(grade) || v.gradeId == grade.value)
                          && (!IsSetNumber(subject) || v.subjectId == subject.value)
  {
    var keep := v => KeepVideo(v, grade, subject);
    FilterIsSubsequence(videos, keep);
    forall v ensures multiset(Filter(videos, keep))[v] == if keep(v) then multiset(videos)[v] else 0 {
      FilterCounts(videos, keep, v);
    }
    forall v ensures v in Filter(videos, keep) <==> v in videos && keep(v) {
      FilterMembership(videos, keep, v);
    }
  }

  /** With both filters reset to null the whole list is shown. */
  lemma UnfilteredShowsAll(videos: seq<Video>)
    ensures FilteredVideos(videos, None, None) == videos
  {
    FilterAllKept(videos, v => KeepVideo(v, None, None));
  }

  // ---------------------------------------------------------------------
  // Duration text
  // ---------------------------------------------------------------------

  /** JavaScript `a % b` for b > 0: the remainder takes the sign of `a`. */
  function JsRemainder(a: int, b: int): (r: int)
    requires b > 0
    ensures a >= 0 ==> r == a % b
  {
    if a >= 0 then a % b else -((-a) % b)
  }

  /** JavaScript `s.padStart(2, '0')`. */
  function PadStart2(s: string): (r: string)
    ensures |s| >= 2 ==> r == s
    ensures |s| < 2 ==> |r| == 2 && r[2 - |s|..] == s
  {
    if |s| >= 2 then s else seq(2 - |s|, _ => '0') + s
  }

  /** `${Math.floor(s / 60)}:${(s % 60).toString().padStart(2, '0')}`. */
  function FormatDuration(seconds: int): string {
    IntToString(seconds / 60) + ":" + PadStart2(IntToString(JsRemainder(seconds, 60)))
  }

  /** For a duration of s >= 0 seconds: the minutes' digits, one ':', and the
      seconds as exactly two digits, the minutes and seconds recombining to s. */
  lemma FormatDurationShape(seconds: nat)
    ensures var mins, secs := seconds / 60, seconds % 60;
            mins * 60 + secs == seconds && 0 <= secs < 60 &&
            FormatDuration(seconds) == NatToString(mins) + ":" + [DigitChar(secs / 10), DigitChar(secs % 10)]
  {
    var secs := seconds % 60;
    var t := NatToString(secs);
    if secs < 10 {
      assert t == [DigitChar(secs)];
      assert PadStart2(t) == ['0'] + t;
    } else {
      assert t == NatToString(secs / 10) + [DigitChar(secs % 10)];
    }
  }

  /** Reads a "m:ss" text back into seconds. */
  function ParseDuration(t: string): Option<nat> {
    if |t| >= 4 && t[|t| - 3] == ':' then ParseParts(t[..|t| - 3], t[|t| - 2..]) else None
  }

  /** Minutes' digits and two seconds' digits below 60, as seconds. */
  function ParseParts(mins: string, secs: string): Option<nat> {
    if AllDigits(mins) && AllDigits(secs) && DigitsValue(secs) < 60
    then Some(DigitsValue(mins) * 60 + DigitsValue(secs))
    else None
  }

  lemma TwoDigits(secs: nat)
    requires secs < 60
    ensures var ss := [DigitChar(secs / 10), DigitChar(secs % 10)];
            AllDigits(ss) && DigitsValue(ss) == secs
  {
    var ss := [DigitChar(secs / 10), DigitChar(secs % 10)];
    assert ss[..1] == [DigitChar(secs / 10)] && ss[..1][..0] == [];
    assert DigitsValue(ss[..1]) == secs / 10;
  }

  lemma ParseJoined(m: string, ss: string)
    requires |m| >= 1 && AllDigits(m) && |ss| == 2 && AllDigits(ss) && DigitsValue(ss) < 60
    ensures ParseDuration(m + ":" + ss) == Some(DigitsValue(m) * 60 + DigitsValue(ss))
  {
    var t := m + ":" + ss;
    JoinedParts(m, ss);
    assert ParseDuration(t) == ParseParts(m, ss);
    PartsValue(m, ss);
  }

  lemma PartsValue(mins: string, secs: string)
    requires AllDigits(mins) && AllDigits(secs) && DigitsValue(secs) < 60
    ensures ParseParts(mins, secs) == Some(DigitsValue(mins) * 60 + DigitsValue(secs))
  {
  }

  /** The parts `ParseDuration` cuts out of m + ":" + ss are m and ss. */
  lemma JoinedParts(m: string, ss: string)
    requires |m| >= 1 && |ss| == 2
    ensures var t := m + ":" + ss;
            |t| >= 4 && t[|t| - 3] == ':' && t[..|t| - 3] == m && t[|t| - 2..] == ss
  {
    var t := m + ":" + ss;
    assert t[..|m|] == m;
    assert t[|m| + 1..] == ss;
  }

  /** The duration text determines the duration. */
  lemma DurationRoundTrip(seconds: nat)
    ensures ParseDuration(FormatDuration(seconds)) == Some(seconds)
  {
    FormatDurationShape(seconds);
    var mins, secs := seconds / 60, seconds % 60;
    TwoDigits(secs);
    DigitsValueOfNatToString(mins);
    ParseJoined(NatToString(mins), [DigitChar(secs / 10), DigitChar(secs % 10)]);
  }

  lemma SixtyFiveSeconds()
    ensures FormatDuration(65) == "1:05"
  {
    FormatDurationShape(65);
  }

  /** A negative duration keeps JavaScript's signed remainder: -5 renders as "-1:-5". */
  lemma NegativeDuration()
    ensures FormatDuration(-5) == "-1:-5"
  {
  }
}
