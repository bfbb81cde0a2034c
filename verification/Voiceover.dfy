/**
 The two schedulers of scripts/add_voiceover.py, over exact reals (the source rounds its results
 for printing; rounding is not part of this model).
 */
module Voiceover {

  /** Minimum silence between two spoken lines, in seconds. */
  const MIN_PAUSE: real := 0.45
  /** Two segments closer than this are joined. */
  const JOIN_TOLERANCE: real := 0.01

  datatype Result<T> = Ok(value: T) | NameError

  /** A caption cue: its timestamp and the hold recorded for it (0 when there is none). */
  datatype Cue = Cue(t: real, hold: real)

  /** A half-open stretch of the source video. */
  datatype Span = Span(start: real, end: real)

  predicate Within(s: Span, x: real) { s.start <= x <= s.end }

  datatype Plan = Plan(segments: seq<Span>, times: seq<real>)

  function Max(a: real, b: real): real { if a >= b then a else b }

  function Min(a: real, b: real): real { if a <= b then a else b }

  // ---------------------------------------------------------------- cue scheduling

  /** What a listener needs: nothing is spoken early and lines are MIN_PAUSE apart. */
  ghost predicate Audible(placed: seq<real>, times: seq<real>, durations: seq<real>) {
    && |placed| <= |times| && |placed| <= |durations|
    && (forall i :: 0 <= i < |placed| ==> times[i] <= placed[i])
    && (forall i :: 0 < i < |placed| ==> placed[i - 1] + durations[i - 1] + MIN_PAUSE <= placed[i])
  }

  /**
   The schedule is audible, and each cue that was moved starts exactly one pause after the line
   before it. Iterating stops at the shorter list.
   */
  method ScheduleWithoutOverlap(times: seq<real>, durations: seq<real>) returns (placed: seq<real>)
    ensures |placed| == if |times| <= |durations| then |times| else |durations|
    ensures Audible(placed, times, durations)
    ensures placed != [] ==> placed[0] == times[0]
    ensures forall i :: 0 < i < |placed| && placed[i] != times[i]
              ==> placed[i] == placed[i - 1] + durations[i - 1] + MIN_PAUSE
  {
    placed := [];
    var previousEnd := 0.0;
    var i := 0;
    while i < |times| && i < |durations|
      invariant 0 <= i <= |times| && i <= |durations| && |placed| == i
      invariant Audible(placed, times, durations)
      invariant i > 0 ==> placed[0] == times[0] && previousEnd == placed[i - 1] + durations[i - 1]
      invariant forall k :: 0 < k < i && placed[k] != times[k]
                  ==> placed[k] == placed[k - 1] + durations[k - 1] + MIN_PAUSE
    {
      var adjusted := if placed != [] then Max(times[i], previousEnd + MIN_PAUSE) else times[i];
      placed := placed + [adjusted];
      previousEnd := adjusted + durations[i];
      i := i + 1;
    }
  }

  /**
   Optimality: a schedule with the contract of ScheduleWithoutOverlap starts every cue no later
   than any other audible schedule of the same cues.
   */
  lemma {:induction false} ScheduleIsEarliest(placed: seq<real>, other: seq<real>, times: seq<real>,
                                              durations: seq<real>, i: nat)
    requires Audible(placed, times, durations) && Audible(other, times, durations)
    requires |placed| == |other| && i < |placed|
    requires placed[0] == times[0]
    requires forall k :: 0 < k < |placed| && placed[k] != times[k]
               ==> placed[k] == placed[k - 1] + durations[k - 1] + MIN_PAUSE
    ensures placed[i] <= other[i]
  {
    if i > 0 {
      ScheduleIsEarliest(placed, other, times, durations, i - 1);
    }
  }

  // ---------------------------------------------------------------- caption windows

  /** Where the caption of cue i ends: after its hold or its speech, but inside the video. */
  function CueEnd(cues: seq<Cue>, durations: seq<real>, videoLen: real, i: nat): real
    requires i < |cues| && i < |durations|
  {
    Min(cues[i].t + Max(cues[i].hold, durations[i]), videoLen)
  }

  /** Instant x is covered by the caption of cue i. */
  predicate OnScreen(cues: seq<Cue>, durations: seq<real>, videoLen: real, i: nat, x: real) {
    i < |cues| && i < |durations| && cues[i].t <= x <= CueEnd(cues, durations, videoLen, i)
  }

  function Zipped(cues: seq<Cue>, durations: seq<real>): nat {
    if |cues| <= |durations| then |cues| else |durations|
  }

  /** Sorted cues inside a non-empty video, each with a positive hold. */
  ghost predicate Recorded(cues: seq<Cue>, videoLen: real) {
    && 0.0 < videoLen
    && (forall i :: 0 <= i < |cues| ==> 0.0 <= cues[i].t <= videoLen && 0.0 < cues[i].hold)
    && (forall i, j :: 0 <= i < j < |cues| ==> cues[i].t <= cues[j].t)
  }

  /** Spans inside [0, limit], in order, with a gap between any two. */
  ghost predicate Ordered(spans: seq<Span>, limit: real) {
    && (forall k :: 0 <= k < |spans| ==> 0.0 <= spans[k].start <= spans[k].end <= limit)
    && (forall j, k :: 0 <= j < k < |spans| ==> spans[j].end < spans[k].start)
  }

  ghost predicate Inside(inner: Span, outer: Span) {
    outer.start <= inner.start && inner.end <= outer.end
  }

  ghost predicate LiesIn(inner: Span, spans: seq<Span>) {
    exists k :: 0 <= k < |spans| && Inside(inner, spans[k])
  }

  /** The windows are exactly the union of the captions of the first n cues. */
  ghost predicate UnionOfCaptions(windows: seq<Span>, cues: seq<Cue>, durations: seq<real>, videoLen: real, n: nat)
    requires n <= |cues| && n <= |durations|
  {
    && (forall i :: 0 <= i < n ==> LiesIn(Span(cues[i].t, CueEnd(cues, durations, videoLen, i)), windows))
    && (forall k, x :: 0 <= k < |windows| && Within(windows[k], x)
          ==> exists i :: 0 <= i < n && OnScreen(cues, durations, videoLen, i, x))
  }

  method CaptionWindows(cues: seq<Cue>, durations: seq<real>, videoLen: real) returns (r: Result<seq<Span>>)
    ensures r.NameError? <==> exists i :: 0 <= i < Zipped(cues, durations) && cues[i].hold == 0.0
    ensures r.Ok? && Recorded(cues, videoLen) ==>
              && Ordered(r.value, videoLen)
              && UnionOfCaptions(r.value, cues, durations, videoLen, Zipped(cues, durations))
              && (r.value != [] ==> 0.0 < r.value[0].end)
  {
    var windows: seq<Span> := [];
    var i := 0;
    while i < |cues| && i < |durations|
      invariant 0 <= i <= Zipped(cues, durations)
      invariant forall k :: 0 <= k < i ==> cues[k].hold != 0.0
      invariant Recorded(cues, videoLen) ==> WindowsUpTo(windows, cues, durations, videoLen, i)
    {
      if cues[i].hold == 0.0 {
        return NameError;
      }
      var start := cues[i].t;
      var end := Min(start + Max(cues[i].hold, durations[i]), videoLen);
      var placed := PlaceCaption(windows, Span(start, end));
      if Recorded(cues, videoLen) {
        GrowWindows(windows, placed, cues, durations, videoLen, i);
      }
      windows, i := placed, i + 1;
    }
    r := Ok(windows);
  }

  method PlaceCaption(before: seq<Span>, caption: Span) returns (windows: seq<Span>)
    ensures windows == Grown(before, caption)
  {
    windows := before;
    if windows != [] && caption.start <= windows[|windows| - 1].end {
      var last := |windows| - 1;
      windows := windows[last := windows[last].(end := Max(windows[last].end, caption.end))];
    } else {
      windows := windows + [caption];
    }
  }

  /** A caption joined to the last window, or opening a new one. */
  function Grown(windows: seq<Span>, caption: Span): seq<Span> {
    var last := |windows| - 1;
    if windows != [] && caption.start <= windows[last].end
    then windows[last := windows[last].(end := Max(windows[last].end, caption.end))]
    else windows + [caption]
  }

  /** The windows after the first i cues. */
  ghost predicate WindowsUpTo(windows: seq<Span>, cues: seq<Cue>, durations: seq<real>, videoLen: real, i: nat)
    requires i <= |cues| && i <= |durations|
  {
    && Ordered(windows, videoLen)
    && (windows == [] <==> i == 0)
    && (windows != [] ==> windows[|windows| - 1].start <= cues[i - 1].t && 0.0 < windows[0].end)
    && UnionOfCaptions(windows, cues, durations, videoLen, i)
  }

  lemma GrowWindows(before: seq<Span>, after: seq<Span>, cues: seq<Cue>, durations: seq<real>, videoLen: real, i: nat)
    requires i < |cues| && i < |durations| && Recorded(cues, videoLen)
    requires WindowsUpTo(before, cues, durations, videoLen, i)
    requires after == Grown(before, Span(cues[i].t, CueEnd(cues, durations, videoLen, i)))
    ensures WindowsUpTo(after, cues, durations, videoLen, i + 1)
  {
    GrowOrdered(before, Span(cues[i].t, CueEnd(cues, durations, videoLen, i)), videoLen);
    GrowUnion(before, after, cues, durations, videoLen, i);
  }

  lemma GrowOrdered(before: seq<Span>, caption: Span, videoLen: real)
    requires Ordered(before, videoLen) && 0.0 <= caption.start <= caption.end <= videoLen
    requires before != [] ==> before[|before| - 1].start <= caption.start && 0.0 < before[0].end
    requires 0.0 < caption.end
    ensures var after := Grown(before, caption);
            Ordered(after, videoLen) && after != [] && 0.0 < after[0].end && after[|after| - 1].start <= caption.start
  {
  }

  /** Adding the caption of cue i to its last window, or as a new window, extends the union by that caption. */
  lemma GrowUnion(before: seq<Span>, after: seq<Span>, cues: seq<Cue>, durations: seq<real>, videoLen: real, i: nat)
    requires i < |cues| && i < |durations|
    requires Ordered(before, videoLen) && UnionOfCaptions(before, cues, durations, videoLen, i)
    requires cues[i].t <= CueEnd(cues, durations, videoLen, i)
    requires before != [] ==> before[|before| - 1].start <= cues[i].t
    requires after == Grown(before, Span(cues[i].t, CueEnd(cues, durations, videoLen, i)))
    ensures UnionOfCaptions(after, cues, durations, videoLen, i + 1)
  {
    var last := |after| - 1;
    forall j | 0 <= j <= i
      ensures LiesIn(Span(cues[j].t, CueEnd(cues, durations, videoLen, j)), after)
    {
      if j == i {
        assert Inside(Span(cues[j].t, CueEnd(cues, durations, videoLen, j)), after[last]);
      } else {
        var k :| 0 <= k < |before| && Inside(Span(cues[j].t, CueEnd(cues, durations, videoLen, j)), before[k]);
        assert Inside(Span(cues[j].t, CueEnd(cues, durations, videoLen, j)), after[k]);
      }
    }
    forall k, x | 0 <= k < |after| && Within(after[k], x)
      ensures exists j :: 0 <= j < i + 1 && OnScreen(cues, durations, videoLen, j, x)
    {
      if k < |before| && Within(before[k], x) {
        var j :| 0 <= j < i && OnScreen(cues, durations, videoLen, j, x);
      } else {
        assert OnScreen(cues, durations, videoLen, i, x);
      }
    }
  }

  // ---------------------------------------------------------------- the time map

  /** How much of a span lies before instant x. */
  function Clip(s: Span, x: real): real {
    if x <= s.start then 0.0 else if x >= s.end then s.end - s.start else x - s.start
  }

  /** How much of the video before instant x is kept: the meaning of a timestamp in the tightened output. */
  function Kept(segments: seq<Span>, x: real): real {
    if segments == [] then 0.0
    else
      var last := |segments| - 1;
      Kept(segments[..last], x) + Clip(segments[last], x)
  }

  /** The map never runs backwards and never stretches time. */
  lemma {:induction false} KeptIsMonotoneAndShort(segments: seq<Span>, limit: real, x: real, y: real)
    requires Ordered(segments, limit) && x <= y
    ensures Kept(segments, x) <= Kept(segments, y) <= Kept(segments, x) + (y - x)
  {
    if segments != [] {
      var last := |segments| - 1;
      var rest, s := segments[..last], segments[last].start;
      KeptIsMonotoneAndShort(rest, limit, x, y);
      if s < y {
        KeptPast(rest, s, y);
        if x <= s {
          KeptIsMonotoneAndShort(rest, limit, x, s);
        } else {
          KeptPast(rest, s, x);
        }
      }
    }
  }

  /** Instants past the end of every segment have the same time. */
  lemma {:induction false} KeptPast(segments: seq<Span>, x: real, y: real)
    requires forall k :: 0 <= k < |segments| ==> segments[k].start <= segments[k].end <= x
    requires x <= y
    ensures Kept(segments, x) == Kept(segments, y)
  {
    if segments != [] {
      KeptPast(segments[..|segments| - 1], x, y);
    }
  }

  /** Segments that start at or after x do not count. */
  lemma {:induction false} KeptBefore(segments: seq<Span>, n: nat, x: real)
    requires n <= |segments|
    requires forall k :: n <= k < |segments| ==> x <= segments[k].start
    ensures Kept(segments, x) == Kept(segments[..n], x)
  {
    if n < |segments| {
      var last := |segments| - 1;
      KeptBefore(segments[..last], n, x);
      assert segments[..last][..n] == segments[..n];
    } else {
      assert segments[..n] == segments;
    }
  }

  /** Inside one kept segment the output plays at the speed of the video. */
  lemma {:induction false} KeptIsExactInside(segments: seq<Span>, limit: real, k: nat, x: real, y: real)
    requires Ordered(segments, limit) && k < |segments|
    requires segments[k].start <= x <= y <= segments[k].end
    ensures Kept(segments, y) - Kept(segments, x) == y - x
  {
    KeptBefore(segments, k + 1, x);
    KeptBefore(segments, k + 1, y);
    var head := segments[..k + 1];
    assert head[..k] == segments[..k];
    KeptPast(segments[..k], x, y);
  }

  /** Moving the end of the last segment outwards, or adding one after x, leaves the time of x alone. */
  lemma KeptStable(segments: seq<Span>, end: real, x: real)
    requires segments != [] && x <= segments[|segments| - 1].end <= end
    ensures Kept(segments[|segments| - 1 := segments[|segments| - 1].(end := end)], x) == Kept(segments, x)
  {
    var last := |segments| - 1;
    assert segments[last := segments[last].(end := end)][..last] == segments[..last];
  }

  lemma KeptAppend(segments: seq<Span>, s: Span, x: real)
    ensures Kept(segments + [s], x) == Kept(segments, x) + Clip(s, x)
  {
    assert (segments + [s])[..|segments|] == segments;
  }

  // ---------------------------------------------------------------- cutting dead air

  /**
   How much of a silent stretch between two windows survives: all of it up to maxGap, or up to the join tolerance more.
   */
  function KeptGap(gap: real, maxGap: real): real {
    if gap <= maxGap + JOIN_TOLERANCE then gap else maxGap
  }

  /**
   When window k starts in the tightened output, counted window by window: the lengths of the windows
   before it plus the surviving silence before each.
   */
  function OutputStart(windows: seq<Span>, maxGap: real, k: nat): real
    requires k < |windows|
    decreases k, 0
  {
    if k == 0 then Min(windows[0].start, maxGap)
    else OutputEnd(windows, maxGap, k - 1) + KeptGap(windows[k].start - windows[k - 1].end, maxGap)
  }

  function OutputEnd(windows: seq<Span>, maxGap: real, k: nat): real
    requires k < |windows|
    decreases k, 1
  {
    OutputStart(windows, maxGap, k) + (windows[k].end - windows[k].start)
  }

  /** Window k survives whole, in one segment, and the silence before it is cut as KeptGap says. */
  ghost predicate WindowKept(segments: seq<Span>, windows: seq<Span>, maxGap: real, k: nat)
    requires k < |windows|
  {
    && LiesIn(windows[k], segments)
    && Kept(segments, windows[k].start) == OutputStart(windows, maxGap, k)
    && Kept(segments, windows[k].end) == OutputEnd(windows, maxGap, k)
  }

  ghost predicate WindowsKept(segments: seq<Span>, windows: seq<Span>, maxGap: real, n: nat)
    requires n <= |windows|
  {
    forall k :: 0 <= k < n ==> WindowKept(segments, windows, maxGap, k)
  }

  /** Segments are kept apart by more than the join tolerance, and none is empty. */
  ghost predicate Separated(segments: seq<Span>) {
    && (forall k :: 0 <= k < |segments| ==> segments[k].start < segments[k].end)
    && (forall k :: 0 < k < |segments| ==> segments[k - 1].end + JOIN_TOLERANCE < segments[k].start)
  }

  /**
   What CaptionWindows delivers for recorded cues, and a positive gap (the script tightens only when it is positive).
   */
  ghost predicate Tightenable(windows: seq<Span>, videoLen: real, maxGap: real) {
    Ordered(windows, videoLen) && 0.0 < maxGap && (windows != [] ==> 0.0 < windows[0].end)
  }

  /** The loop invariant of KeepSegments after i windows. */
  ghost predicate CutUpTo(segments: seq<Span>, windows: seq<Span>, videoLen: real, maxGap: real, i: nat)
    requires i <= |windows|
  {
    && (segments == [] <==> i == 0)
    && (segments != [] ==> segments[|segments| - 1].end == windows[i - 1].end)
    && Ordered(segments, videoLen) && Separated(segments)
    && WindowsKept(segments, windows, maxGap, i)
  }

  method KeepSegments(windows: seq<Span>, videoLen: real, maxGap: real) returns (segments: seq<Span>)
    ensures Tightenable(windows, videoLen, maxGap) ==> Tightened(segments, windows, videoLen, maxGap)
  {
    segments := [];
    var cursor := 0.0;
    var i := 0;
    while i < |windows|
      invariant 0 <= i <= |windows|
      invariant Tightenable(windows, videoLen, maxGap) ==>
                  && cursor == (if i == 0 then 0.0 else windows[i - 1].end)
                  && CutUpTo(segments, windows, videoLen, maxGap, i)
    {
      var start, end := windows[i].start, windows[i].end;
      var segStart := if start - cursor > maxGap then Max(cursor, start - maxGap) else cursor;
      if end <= segStart {
        i := i + 1;
        continue;
      }
      if segments != [] && segStart <= segments[|segments| - 1].end + JOIN_TOLERANCE {
        var last := |segments| - 1;
        var joined := segments[last := segments[last].(end := Max(segments[last].end, end))];
        if Tightenable(windows, videoLen, maxGap) {
          JoinWindow(segments, joined, windows, videoLen, maxGap, i);
        }
        segments := joined;
      } else {
        var longer := segments + [Span(segStart, end)];
        if Tightenable(windows, videoLen, maxGap) {
          StartSegment(segments, longer, Span(segStart, end), windows, videoLen, maxGap, i);
        }
        segments := longer;
      }
      cursor := end;
      i := i + 1;
    }
    segments := ExtendTail(segments, cursor, windows, videoLen, maxGap);
  }

  /** At most maxGap of silence after the last window. */
  method ExtendTail(cut: seq<Span>, cursor: real, ghost windows: seq<Span>, videoLen: real, maxGap: real)
      returns (segments: seq<Span>)
    requires Tightenable(windows, videoLen, maxGap) ==>
               && cursor == (if windows == [] then 0.0 else windows[|windows| - 1].end)
               && CutUpTo(cut, windows, videoLen, maxGap, |windows|)
    ensures Tightenable(windows, videoLen, maxGap) ==> Tightened(segments, windows, videoLen, maxGap)
  {
    segments := cut;
    var tailEnd := Min(cursor + maxGap, videoLen);
    if Tightenable(windows, videoLen, maxGap) && windows != [] {
      TailKept(segments, windows, videoLen, maxGap, tailEnd);
      var last := |segments| - 1;
      assert tailEnd == cursor ==> segments[last := segments[last].(end := tailEnd)] == segments;
    }
    if segments != [] && tailEnd > cursor {
      var last := |segments| - 1;
      segments := segments[last := segments[last].(end := tailEnd)];
    }
  }

  lemma JoinWindow(segments: seq<Span>, after: seq<Span>, windows: seq<Span>, videoLen: real, maxGap: real, i: nat)
    requires Tightenable(windows, videoLen, maxGap) && 0 < i < |windows|
    requires CutUpTo(segments, windows, videoLen, maxGap, i)
    requires windows[i].start - windows[i - 1].end <= maxGap + JOIN_TOLERANCE
    requires var last := |segments| - 1;
             after == segments[last := segments[last].(end := Max(segments[last].end, windows[i].end))]
    ensures CutUpTo(after, windows, videoLen, maxGap, i + 1)
  {
    ExtendKept(segments, windows[i].end, windows, videoLen, maxGap, i);
    assert WindowKept(after, windows, maxGap, i - 1);
    NextWindowKept(after, windows, videoLen, maxGap, i);
  }

  lemma StartSegment(segments: seq<Span>, after: seq<Span>, s: Span, windows: seq<Span>, videoLen: real, maxGap: real,
                     i: nat)
    requires Tightenable(windows, videoLen, maxGap) && i < |windows|
    requires CutUpTo(segments, windows, videoLen, maxGap, i)
    requires s.end == windows[i].end && s.start < s.end
    requires s.start == var cursor := if i == 0 then 0.0 else windows[i - 1].end;
                        if windows[i].start - cursor > maxGap then windows[i].start - maxGap else cursor
    requires segments != [] ==> segments[|segments| - 1].end + JOIN_TOLERANCE < s.start
    requires after == segments + [s]
    ensures CutUpTo(after, windows, videoLen, maxGap, i + 1)
  {
    AppendKept(segments, s, windows, videoLen, maxGap, i);
  }

  /** What is kept after an instant of the last segment is the rest of that segment. */
  lemma KeptToTheEnd(segments: seq<Span>, videoLen: real, x: real)
    requires segments != [] && Ordered(segments, videoLen) && Within(segments[|segments| - 1], x)
    ensures Kept(segments, videoLen) == Kept(segments, x) + (segments[|segments| - 1].end - x)
  {
    var last := |segments| - 1;
    KeptIsExactInside(segments, videoLen, last, x, segments[last].end);
    KeptPast(segments, segments[last].end, videoLen);
  }

  /** Extending the last segment over the tail leaves it ordered and separated. */
  lemma ExtendOrdered(segments: seq<Span>, end: real, videoLen: real)
    requires segments != [] && Ordered(segments, videoLen) && Separated(segments)
    requires segments[|segments| - 1].end <= end <= videoLen
    ensures var after := segments[|segments| - 1 := segments[|segments| - 1].(end := end)];
            Ordered(after, videoLen) && Separated(after)
  {
  }

  lemma TailKept(segments: seq<Span>, windows: seq<Span>, videoLen: real, maxGap: real, end: real)
    requires Tightenable(windows, videoLen, maxGap) && windows != []
    requires CutUpTo(segments, windows, videoLen, maxGap, |windows|)
    requires end == Min(windows[|windows| - 1].end + maxGap, videoLen)
    ensures Tightened(segments[|segments| - 1 := segments[|segments| - 1].(end := end)], windows, videoLen, maxGap)
  {
    var after := segments[|segments| - 1 := segments[|segments| - 1].(end := end)];
    ExtendKept(segments, end, windows, videoLen, maxGap, |windows|);
    ExtendOrdered(segments, end, videoLen);
    assert WindowKept(after, windows, maxGap, |windows| - 1);
    KeptToTheEnd(after, videoLen, windows[|windows| - 1].end);
  }

  /** The result of the cut: every window whole, silence cut exactly as KeptGap says, and at most maxGap of tail. */
  ghost predicate Tightened(segments: seq<Span>, windows: seq<Span>, videoLen: real, maxGap: real) {
    && Ordered(segments, videoLen) && Separated(segments)
    && WindowsKept(segments, windows, maxGap, |windows|)
    && (windows == [] ==> segments == [])
    && (windows != [] ==>
          var last := |windows| - 1;
          Kept(segments, videoLen) == OutputEnd(windows, maxGap, last) + Min(maxGap, videoLen - windows[last].end))
  }

  /** Extending the last segment keeps what was said of the windows before its old end. */
  lemma ExtendKept(segments: seq<Span>, end: real, windows: seq<Span>, videoLen: real, maxGap: real, n: nat)
    requires segments != [] && Ordered(segments, videoLen) && segments[|segments| - 1].end <= end
    requires Ordered(windows, videoLen) && n <= |windows|
    requires n > 0 ==> windows[n - 1].end <= segments[|segments| - 1].end
    requires WindowsKept(segments, windows, maxGap, n)
    ensures WindowsKept(segments[|segments| - 1 := segments[|segments| - 1].(end := end)], windows, maxGap, n)
  {
    var last := |segments| - 1;
    var after := segments[last := segments[last].(end := end)];
    forall k | 0 <= k < n
      ensures WindowKept(after, windows, maxGap, k)
    {
      assert WindowKept(segments, windows, maxGap, k);
      var j :| 0 <= j < |segments| && Inside(windows[k], segments[j]);
      assert Inside(windows[k], after[j]);
      KeptStable(segments, end, windows[k].start);
      KeptStable(segments, end, windows[k].end);
    }
  }

  /** A window reached by extending the last segment survives whole, and so does the silence before it. */
  lemma NextWindowKept(segments: seq<Span>, windows: seq<Span>, videoLen: real, maxGap: real, n: nat)
    requires segments != [] && Ordered(segments, videoLen) && Ordered(windows, videoLen) && 0 < n < |windows|
    requires WindowKept(segments, windows, maxGap, n - 1)
    requires segments[|segments| - 1].start <= windows[n - 1].end && segments[|segments| - 1].end == windows[n].end
    requires windows[n].start - windows[n - 1].end <= maxGap + JOIN_TOLERANCE
    ensures WindowKept(segments, windows, maxGap, n)
  {
    var last := |segments| - 1;
    assert Inside(windows[n], segments[last]);
    KeptIsExactInside(segments, videoLen, last, windows[n - 1].end, windows[n].start);
    KeptIsExactInside(segments, videoLen, last, windows[n].start, windows[n].end);
  }

  lemma AppendKeepsOne(segments: seq<Span>, s: Span, windows: seq<Span>, maxGap: real, k: nat)
    requires k < |windows| && WindowKept(segments, windows, maxGap, k)
    requires windows[k].start <= s.start && windows[k].end <= s.start
    ensures WindowKept(segments + [s], windows, maxGap, k)
  {
    var j :| 0 <= j < |segments| && Inside(windows[k], segments[j]);
    assert Inside(windows[k], (segments + [s])[j]);
    KeptAppend(segments, s, windows[k].start);
    KeptAppend(segments, s, windows[k].end);
  }

  /** A window reached by a new segment survives whole, with the silence the segment starts with. */
  lemma AppendKept(segments: seq<Span>, s: Span, windows: seq<Span>, videoLen: real, maxGap: real, n: nat)
    requires Ordered(segments, videoLen) && Ordered(windows, videoLen) && n < |windows|
    requires WindowsKept(segments, windows, maxGap, n) && (segments == [] <==> n == 0)
    requires segments != [] ==> segments[|segments| - 1].end == windows[n - 1].end < s.start
    requires s.start <= windows[n].start && s.end == windows[n].end
    requires windows[n].start - s.start ==
             if n == 0 then Min(windows[0].start, maxGap) else KeptGap(windows[n].start - windows[n - 1].end, maxGap)
    ensures WindowsKept(segments + [s], windows, maxGap, n + 1)
  {
    forall k | 0 <= k < n
      ensures WindowKept(segments + [s], windows, maxGap, k)
    {
      assert WindowKept(segments, windows, maxGap, k);
      assert k < n - 1 ==> windows[k].end < windows[n - 1].start;
      AppendKeepsOne(segments, s, windows, maxGap, k);
    }
    KeptAppend(segments, s, windows[n].start);
    KeptAppend(segments, s, windows[n].end);
    assert Inside(windows[n], (segments + [s])[|segments|]);
    if n > 0 {
      assert WindowKept(segments, windows, maxGap, n - 1);
      KeptPast(segments, windows[n - 1].end, windows[n].start);
      KeptPast(segments, windows[n - 1].end, windows[n].end);
    }
    assert WindowKept(segments + [s], windows, maxGap, n);
  }

  // ---------------------------------------------------------------- the whole plan

  /** The new timestamp of instant t, found by walking the (non-empty) segments. */
  method MapInstant(segments: seq<Span>, t: real) returns (mapped: real)
    requires forall k :: 0 <= k < |segments| ==> segments[k].start < segments[k].end
    ensures forall limit :: Ordered(segments, limit) ==> mapped == Kept(segments, t)
  {
    var elapsed := 0.0;
    mapped := 0.0;
    var i := 0;
    while i < |segments|
      invariant 0 <= i <= |segments|
      invariant mapped == elapsed == Kept(segments[..i], t)
    {
      var s := segments[i];
      assert segments[..i + 1][..i] == segments[..i];
      if t >= s.end {
        elapsed := elapsed + (s.end - s.start);
        mapped := elapsed;
      } else {
        mapped := if t >= s.start then elapsed + (t - s.start) else elapsed;
        forall limit | Ordered(segments, limit)
          ensures mapped == Kept(segments, t)
        {
          KeptBefore(segments, i + 1, t);
        }
        return;
      }
      i := i + 1;
    }
    assert segments[..i] == segments;
  }

  /**
   The contract of the whole plan: the kept segments are ordered, apart and inside the video; every
   caption lies in one of them; the silence between captions is cut exactly as Tightened says; and
   each new timestamp is the length kept before the old one.
   */
  ghost predicate FaithfulPlan(plan: Plan, cues: seq<Cue>, durations: seq<real>, videoLen: real, maxGap: real) {
    && (exists windows :: Ordered(windows, videoLen)
          && UnionOfCaptions(windows, cues, durations, videoLen, Zipped(cues, durations))
          && Tightened(plan.segments, windows, videoLen, maxGap))
    && |plan.times| == |cues|
    && (forall i :: 0 <= i < |cues| ==> plan.times[i] == Kept(plan.segments, cues[i].t))
  }

  method PlanTighten(cues: seq<Cue>, durations: seq<real>, videoLen: real, maxGap: real) returns (r: Result<Plan>)
    ensures r.NameError? <==> exists i :: 0 <= i < Zipped(cues, durations) && cues[i].hold == 0.0
    ensures r.Ok? ==> |r.value.times| == |cues|
    ensures r.Ok? && Recorded(cues, videoLen) && 0.0 < maxGap ==>
              FaithfulPlan(r.value, cues, durations, videoLen, maxGap)
  {
    var w := CaptionWindows(cues, durations, videoLen);
    if w.NameError? {
      return NameError;
    }
    var segments := KeepSegments(w.value, videoLen, maxGap);
    var merged: seq<Span> := [];
    var k := 0;
    while k < |segments|
      invariant 0 <= k <= |segments|
      invariant forall j :: 0 <= j < |merged| ==> merged[j].start < merged[j].end
      invariant Separated(segments) ==> merged == segments[..k]
    {
      if segments[k].end > segments[k].start {
        merged := merged + [segments[k]];
      }
      k := k + 1;
    }
    var times: seq<real> := [];
    var i := 0;
    while i < |cues|
      invariant 0 <= i == |times| <= |cues|
      invariant forall limit :: Ordered(merged, limit) ==>
                  forall j :: 0 <= j < i ==> times[j] == Kept(merged, cues[j].t)
    {
      var mapped := MapInstant(merged, cues[i].t);
      times := times + [mapped];
      i := i + 1;
    }
    r := Ok(Plan(merged, times));
    if Recorded(cues, videoLen) && 0.0 < maxGap {
      assert Tightenable(w.value, videoLen, maxGap);
      assert merged == segments;
      assert Ordered(merged, videoLen);
    }
  }

  /**
   A faithful plan moves no cue past another and no cue later, keeps the distance between two instants
   of one caption, and never keeps more of the video than its own length.
   */
  lemma FaithfulPlanIsTimeMap(plan: Plan, cues: seq<Cue>, durations: seq<real>, videoLen: real, maxGap: real, i: nat,
                              j: nat)
    requires Recorded(cues, videoLen) && 0.0 < maxGap && FaithfulPlan(plan, cues, durations, videoLen, maxGap)
    requires i <= j < |cues|
    ensures 0.0 <= plan.times[i] <= plan.times[j] <= plan.times[i] + (cues[j].t - cues[i].t)
    ensures plan.times[i] <= cues[i].t
    ensures j < Zipped(cues, durations) && cues[j].t <= CueEnd(cues, durations, videoLen, i) ==>
              plan.times[j] == plan.times[i] + (cues[j].t - cues[i].t)
  {
    var segments := plan.segments;
    KeptIsMonotoneAndShort(segments, videoLen, cues[i].t, cues[j].t);
    KeptIsMonotoneAndShort(segments, videoLen, 0.0, cues[i].t);
    KeptBefore(segments, 0, 0.0);
    if j < Zipped(cues, durations) && cues[j].t <= CueEnd(cues, durations, videoLen, i) {
      var windows :| Ordered(windows, videoLen)
        && UnionOfCaptions(windows, cues, durations, videoLen, Zipped(cues, durations))
        && Tightened(segments, windows, videoLen, maxGap);
      var w :| 0 <= w < |windows| && Inside(Span(cues[i].t, CueEnd(cues, durations, videoLen, i)), windows[w]);
      assert WindowKept(segments, windows, maxGap, w);
      var k :| 0 <= k < |segments| && Inside(windows[w], segments[k]);
      KeptIsExactInside(segments, videoLen, k, cues[i].t, cues[j].t);
    }
  }
}
