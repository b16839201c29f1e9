/** The streaming stop-sequence filter: emits text as early as is safe and cuts it at the first
    stop sequence, whatever the chunks look like. */
module StopFilter {
  import opened Common

  // --- one-shot truncation ---------------------------------------------------------------

  predicate IsAt(text: string, stop: string, at: nat) {
    at + |stop| <= |text| && text[at..at + |stop|] == stop
  }

  /** `str::find`: the first position of `stop` in `text`, at `from` or later. */
  function FindFrom(text: string, stop: string, from: nat): Option<nat>
    decreases |text| - from
  {
    if from + |stop| > |text| then None
    else if text[from..from + |stop|] == stop then Some(from)
    else if from == |text| then None
    else FindFrom(text, stop, from + 1)
  }

  lemma {:induction false} FindFromFound(text: string, stop: string, from: nat)
    ensures var r := FindFrom(text, stop, from);
            (r.Some? ==> from <= r.value && IsAt(text, stop, r.value) &&
                         forall p: nat | from <= p < r.value :: !IsAt(text, stop, p)) &&
            (r == None ==> forall p: nat | from <= p :: !IsAt(text, stop, p))
    decreases |text| - from
  {
    if from + |stop| <= |text| && text[from..from + |stop|] != stop && from != |text| {
      FindFromFound(text, stop, from + 1);
      forall p: nat | from <= p && IsAt(text, stop, p) ensures from + 1 <= p {}
    }
  }

  predicate Occurs(text: string, stops: seq<string>, at: nat) {
    exists i | 0 <= i < |stops| :: IsAt(text, stops[i], at)
  }

  /** The least of the first positions of all stop sequences. */
  function FirstStop(text: string, stops: seq<string>): Option<nat> {
    if stops == [] then None
    else match (FindFrom(text, stops[0], 0), FirstStop(text, stops[1..]))
      case (None, other) => other
      case (Some(p), None) => Some(p)
      case (Some(p), Some(q)) => Some(if p <= q then p else q)
  }

  function Truncate(text: string, stops: seq<string>): string {
    FirstStopFound(text, stops);
    match FirstStop(text, stops)
    case None => text
    case Some(p) => text[..p]
  }

  /** The minimum over the stop sequences is the first place where any of them occurs. */
  lemma {:induction false} FirstStopFound(text: string, stops: seq<string>)
    ensures FirstStop(text, stops).Some? ==>
              FirstStop(text, stops).value <= |text| && Occurs(text, stops, FirstStop(text, stops).value) &&
              forall p: nat | p < FirstStop(text, stops).value :: !Occurs(text, stops, p)
    ensures FirstStop(text, stops) == None ==> forall p: nat :: !Occurs(text, stops, p)
  {
    if stops != [] {
      FirstStopFound(text, stops[1..]);
      FindFromFound(text, stops[0], 0);
      forall p: nat ensures Occurs(text, stops, p) <==> IsAt(text, stops[0], p) || Occurs(text, stops[1..], p) {
        OccursCons(text, stops, p);
      }
    }
  }

  lemma {:induction false} OccursCons(text: string, stops: seq<string>, p: nat)
    requires stops != []
    ensures Occurs(text, stops, p) <==> IsAt(text, stops[0], p) || Occurs(text, stops[1..], p)
  {
    if Occurs(text, stops, p) {
      var i :| 0 <= i < |stops| && IsAt(text, stops[i], p);
      if i > 0 {
        assert stops[1..][i - 1] == stops[i];
      }
    }
    if Occurs(text, stops[1..], p) {
      var i :| 0 <= i < |stops[1..]| && IsAt(text, stops[1..][i], p);
      assert stops[i + 1] == stops[1..][i];
    }
  }

  lemma {:induction false} FirstStopIsNone(text: string, stops: seq<string>)
    requires forall p: nat :: !Occurs(text, stops, p)
    ensures FirstStop(text, stops) == None
  {
    FirstStopFound(text, stops);
  }

  lemma {:induction false} FirstStopIs(text: string, stops: seq<string>, at: nat)
    requires Occurs(text, stops, at) && forall p: nat | p < at :: !Occurs(text, stops, p)
    ensures FirstStop(text, stops) == Some(at)
  {
    FirstStopFound(text, stops);
  }

  // --- held-back text ------------------------------------------------------------------------

  predicate EndsWith(text: string, suffix: string) {
    |suffix| <= |text| && text[|text| - |suffix|..] == suffix
  }

  /** The last `n` characters of the text may be the beginning of a stop sequence. */
  predicate Held(text: string, stops: seq<string>, n: nat) {
    0 < n <= |text| && exists i | 0 <= i < |stops| :: n <= |stops[i]| && EndsWith(text, stops[i][..n])
  }

  /** The longest prefix of `stop`, of at most `n` characters, that ends the text. */
  function LongestPrefix(text: string, stop: string, n: nat): nat
    requires n <= |stop|
  {
    if n == 0 then 0 else if EndsWith(text, stop[..n]) then n else LongestPrefix(text, stop, n - 1)
  }

  lemma {:induction false} LongestPrefixFound(text: string, stop: string, n: nat)
    requires n <= |stop|
    ensures var r := LongestPrefix(text, stop, n);
            r <= n && r <= |text| && (r > 0 ==> EndsWith(text, stop[..r])) &&
            forall m | r < m <= n :: !EndsWith(text, stop[..m])
  {
    if n > 0 && !EndsWith(text, stop[..n]) {
      LongestPrefixFound(text, stop, n - 1);
    }
  }

  function Keep(text: string, stops: seq<string>): nat {
    if stops == [] then 0
    else
      var here, rest := LongestPrefix(text, stops[0], |stops[0]|), Keep(text, stops[1..]);
      if here >= rest then here else rest
  }

  lemma {:induction false} HeldCons(text: string, stops: seq<string>, n: nat)
    requires stops != []
    ensures Held(text, stops, n) <==>
            (0 < n <= |text| && n <= |stops[0]| && EndsWith(text, stops[0][..n])) || Held(text, stops[1..], n)
  {
    if Held(text, stops, n) {
      var i :| 0 <= i < |stops| && n <= |stops[i]| && EndsWith(text, stops[i][..n]);
      if i > 0 {
        assert stops[1..][i - 1] == stops[i];
      }
    }
    if Held(text, stops[1..], n) {
      var i :| 0 <= i < |stops[1..]| && n <= |stops[1..][i]| && EndsWith(text, stops[1..][i][..n]);
      assert stops[i + 1] == stops[1..][i];
    }
  }

  /** What is kept back is the longest suffix that may still grow into a stop sequence. */
  lemma {:induction false} KeepIsLongest(text: string, stops: seq<string>)
    ensures Keep(text, stops) <= |text|
    ensures Keep(text, stops) > 0 ==> Held(text, stops, Keep(text, stops))
    ensures forall n: nat | n > Keep(text, stops) :: !Held(text, stops, n)
  {
    if stops != [] {
      KeepIsLongest(text, stops[1..]);
      LongestPrefixFound(text, stops[0], |stops[0]|);
      forall n: nat
        ensures Held(text, stops, n) <==>
                (0 < n <= |text| && n <= |stops[0]| && EndsWith(text, stops[0][..n])) || Held(text, stops[1..], n)
      {
        HeldCons(text, stops, n);
      }
    }
  }

  lemma {:induction false} KeepIs(text: string, stops: seq<string>, n: nat)
    requires n > 0 ==> Held(text, stops, n)
    requires forall m: nat | m > n :: !Held(text, stops, m)
    ensures Keep(text, stops) == n
  {
    KeepIsLongest(text, stops);
  }

  // --- the filter ------------------------------------------------------------------------------

  datatype Update = Update(text: string, stopped: bool)

  /** One push: the update and the new pending text. */
  function Push(stops: seq<string>, pending: string, chunk: string): (Update, string) {
    var text := pending + chunk;
    FirstStopFound(text, stops);
    KeepIsLongest(text, stops);
    match FirstStop(text, stops)
    case Some(at) => (Update(text[..at], true), "")
    case None =>
      var emit := |text| - Keep(text, stops);
      (Update(text[..emit], false), text[emit..])
  }

  class TextStopFilter {
    const stops: seq<string>
    var pending: string

    constructor (stops: seq<string>)
      ensures this.stops == stops && pending == ""
    {
      this.stops := stops;
      pending := "";
    }

    method PushChunk(chunk: string) returns (update: Update)
      modifies this`pending
      ensures (update, pending) == Push(stops, old(pending), chunk)
    {
      pending := pending + chunk;
      FirstStopFound(pending, stops);
      KeepIsLongest(pending, stops);
      var at := FirstStop(pending, stops);
      if at.Some? {
        update := Update(pending[..at.value], true);
        pending := "";
        return;
      }
      var emit := |pending| - Keep(pending, stops);
      update := Update(pending[..emit], false);
      pending := pending[emit..];
    }

    method Finish() returns (rest: string)
      modifies this`pending
      ensures rest == old(pending) && pending == ""
    {
      rest := pending;
      pending := "";
    }
  }

  /** Feeding chunks until the filter stops or the chunks run out. */
  datatype Run = Run(emitted: string, pending: string, stopped: bool, consumed: string)

  function Feed(stops: seq<string>, run: Run, chunks: seq<string>): Run
    decreases |chunks|
  {
    if chunks == [] || run.stopped then run
    else
      var (update, pending) := Push(stops, run.pending, chunks[0]);
      Feed(stops, Run(run.emitted + update.text, pending, update.stopped, run.consumed + chunks[0]), chunks[1..])
  }

  function Start(): Run {
    Run("", "", false, "")
  }

  // --- invariant of the running filter -----------------------------------------------------------

  ghost predicate NonEmpty(stops: seq<string>) {
    forall i | 0 <= i < |stops| :: stops[i] != ""
  }

  /** Nothing has matched yet, and pending is exactly the longest suffix that might. */
  ghost predicate Running(stops: seq<string>, run: Run) {
    run.consumed == run.emitted + run.pending && FirstStop(run.consumed, stops) == None &&
    |run.pending| == Keep(run.consumed, stops)
  }

  ghost predicate Consistent(stops: seq<string>, run: Run) {
    if run.stopped then run.emitted == Truncate(run.consumed, stops) && FirstStop(run.consumed, stops).Some?
    else Running(stops, run)
  }

  /** A match that begins inside `text` ends inside it too, or a stop sequence has begun there. */
  lemma {:induction false} MatchAcross(text: string, chunk: string, stops: seq<string>, at: nat)
    requires Occurs(text + chunk, stops, at) && at < |text|
    ensures Occurs(text, stops, at) || Held(text, stops, |text| - at)
  {
    var i :| 0 <= i < |stops| && IsAt(text + chunk, stops[i], at);
    var stop, n := stops[i], |text| - at;
    if at + |stop| <= |text| {
      assert text[at..at + |stop|] == (text + chunk)[at..at + |stop|];
      assert IsAt(text, stop, at);
    } else {
      assert stop[..n] == (text + chunk)[at..at + |stop|][..n] == text[at..];
      assert EndsWith(text, stop[..n]);
    }
  }

  /** What a running filter knows, without naming the functions that found it out. */
  ghost predicate Quiet(stops: seq<string>, run: Run) {
    run.consumed == run.emitted + run.pending && (forall p: nat :: !Occurs(run.consumed, stops, p)) &&
    forall n: nat | n > |run.pending| :: !Held(run.consumed, stops, n)
  }

  lemma {:induction false} RunningIsQuiet(stops: seq<string>, run: Run)
    requires Running(stops, run)
    ensures Quiet(stops, run)
  {
    FirstStopFound(run.consumed, stops);
    KeepIsLongest(run.consumed, stops);
  }

  /** A match that begins in text already emitted would have been held back. */
  lemma {:induction false} NoMatchInEmitted(stops: seq<string>, run: Run, chunk: string, at: nat)
    requires Quiet(stops, run) && Occurs(run.consumed + chunk, stops, at)
    ensures at >= |run.emitted|
  {
    if at < |run.consumed| {
      MatchAcross(run.consumed, chunk, stops, at);
    }
  }

  lemma {:induction false} OccursShift(head: string, tail: string, stops: seq<string>, at: nat)
    ensures Occurs(head + tail, stops, |head| + at) <==> Occurs(tail, stops, at)
  {
    forall i | 0 <= i < |stops| ensures IsAt(head + tail, stops[i], |head| + at) <==> IsAt(tail, stops[i], at) {
      if at + |stops[i]| <= |tail| {
        assert (head + tail)[|head| + at..|head| + at + |stops[i]|] == tail[at..at + |stops[i]|];
      }
    }
  }

  lemma {:induction false} OccursOnlyInPending(stops: seq<string>, run: Run, chunk: string, at: nat)
    requires Quiet(stops, run)
    ensures Occurs(run.consumed + chunk, stops, at) <==>
              at >= |run.emitted| && Occurs(run.pending + chunk, stops, at - |run.emitted|)
  {
    assert run.consumed + chunk == run.emitted + (run.pending + chunk);
    if Occurs(run.consumed + chunk, stops, at) {
      NoMatchInEmitted(stops, run, chunk, at);
    }
    if at >= |run.emitted| {
      OccursShift(run.emitted, run.pending + chunk, stops, at - |run.emitted|);
    }
  }

  /** The first stop in all consumed text is the first stop in the pending text, shifted. */
  lemma {:induction false} FirstStopShifts(stops: seq<string>, run: Run, chunk: string)
    requires Running(stops, run)
    ensures FirstStop(run.consumed + chunk, stops) == Shifted(FirstStop(run.pending + chunk, stops), |run.emitted|)
  {
    RunningIsQuiet(stops, run);
    QuietShifts(stops, run, chunk);
  }

  function Shifted(at: Option<nat>, offset: nat): Option<nat> {
    match at
    case None => None
    case Some(p) => Some(offset + p)
  }

  lemma {:induction false} QuietShifts(stops: seq<string>, run: Run, chunk: string)
    requires Quiet(stops, run)
    ensures FirstStop(run.consumed + chunk, stops) == Shifted(FirstStop(run.pending + chunk, stops), |run.emitted|)
  {
    match FirstStop(run.pending + chunk, stops) {
      case None => NoneShifts(stops, run, chunk);
      case Some(p) => SomeShifts(stops, run, chunk, p);
    }
  }

  lemma {:induction false} NoneShifts(stops: seq<string>, run: Run, chunk: string)
    requires Quiet(stops, run) && FirstStop(run.pending + chunk, stops) == None
    ensures FirstStop(run.consumed + chunk, stops) == None
  {
    FirstStopFound(run.pending + chunk, stops);
    NowhereShifts(stops, run, chunk, run.pending + chunk);
    FirstStopIsNone(run.consumed + chunk, stops);
  }

  lemma {:induction false} SomeShifts(stops: seq<string>, run: Run, chunk: string, p: nat)
    requires Quiet(stops, run) && FirstStop(run.pending + chunk, stops) == Some(p)
    ensures FirstStop(run.consumed + chunk, stops) == Some(|run.emitted| + p)
  {
    FirstStopFound(run.pending + chunk, stops);
    FirstPlaceShifts(stops, run, chunk, run.pending + chunk, p);
    FirstStopIs(run.consumed + chunk, stops, |run.emitted| + p);
  }

  lemma {:induction false} NowhereShifts(stops: seq<string>, run: Run, chunk: string, tail: string)
    requires Quiet(stops, run) && tail == run.pending + chunk && forall q: nat :: !Occurs(tail, stops, q)
    ensures forall q: nat :: !Occurs(run.consumed + chunk, stops, q)
  {
    forall q: nat ensures !Occurs(run.consumed + chunk, stops, q) {
      OccursOnlyInPending(stops, run, chunk, q);
    }
  }

  lemma {:induction false} FirstPlaceShifts(stops: seq<string>, run: Run, chunk: string, tail: string, p: nat)
    requires Quiet(stops, run) && tail == run.pending + chunk
    requires Occurs(tail, stops, p) && forall q: nat | q < p :: !Occurs(tail, stops, q)
    ensures Occurs(run.consumed + chunk, stops, |run.emitted| + p)
    ensures forall q: nat | q < |run.emitted| + p :: !Occurs(run.consumed + chunk, stops, q)
  {
    OccursOnlyInPending(stops, run, chunk, |run.emitted| + p);
    forall q: nat | q < |run.emitted| + p ensures !Occurs(run.consumed + chunk, stops, q) {
      OccursOnlyInPending(stops, run, chunk, q);
    }
  }

  lemma {:induction false} HeldShift(head: string, tail: string, stops: seq<string>, n: nat)
    requires n <= |tail|
    ensures Held(head + tail, stops, n) <==> Held(tail, stops, n)
  {
    assert (head + tail)[|head + tail| - n..] == tail[|tail| - n..];
  }

  lemma {:induction false} HeldShortens(text: string, chunk: string, stops: seq<string>, n: nat)
    requires Held(text + chunk, stops, n) && n > |chunk|
    ensures Held(text, stops, n - |chunk|)
  {
    var i :| 0 <= i < |stops| && n <= |stops[i]| && EndsWith(text + chunk, stops[i][..n]);
    var m := n - |chunk|;
    assert stops[i][..m] == stops[i][..n][..m] == (text + chunk)[|text + chunk| - n..][..m] == text[|text| - m..];
    assert EndsWith(text, stops[i][..m]);
  }

  /** What must be kept of all consumed text can be computed from the pending text alone. */
  lemma {:induction false} KeepShifts(stops: seq<string>, run: Run, chunk: string)
    requires Running(stops, run)
    ensures Keep(run.consumed + chunk, stops) == Keep(run.pending + chunk, stops)
  {
    var head, tail := run.emitted, run.pending + chunk;
    assert run.consumed + chunk == head + tail;
    KeepIsLongest(tail, stops);
    KeepIsLongest(run.consumed, stops);
    var n := Keep(tail, stops);
    HeldShift(head, tail, stops, n);
    forall m: nat | m > n ensures !Held(head + tail, stops, m) {
      if Held(head + tail, stops, m) {
        if m <= |tail| {
          HeldShift(head, tail, stops, m);
        } else {
          HeldShortens(run.consumed, chunk, stops, m);
        }
      }
    }
    KeepIs(head + tail, stops, n);
  }

  lemma {:induction false} PushStops(stops: seq<string>, run: Run, chunk: string)
    requires Running(stops, run) && Push(stops, run.pending, chunk).0.stopped
    ensures run.emitted + Push(stops, run.pending, chunk).0.text == Truncate(run.consumed + chunk, stops)
    ensures FirstStop(run.consumed + chunk, stops).Some?
  {
    FirstStopShifts(stops, run, chunk);
    var text := run.pending + chunk;
    var at := FirstStopFoundAt(text, stops);
    CutLater(run.emitted, run.pending, chunk, at);
  }

  lemma {:induction false} FirstStopFoundAt(text: string, stops: seq<string>) returns (at: nat)
    requires FirstStop(text, stops).Some?
    ensures FirstStop(text, stops) == Some(at) && at <= |text|
  {
    FirstStopFound(text, stops);
    at := FirstStop(text, stops).value;
  }

  lemma {:induction false} CutLater(emitted: string, pending: string, chunk: string, n: nat)
    requires n <= |pending + chunk|
    ensures (emitted + pending + chunk)[..|emitted| + n] == emitted + (pending + chunk)[..n]
  {
    assert emitted + pending + chunk == emitted + (pending + chunk);
  }

  lemma {:induction false} PushContinues(stops: seq<string>, run: Run, chunk: string)
    requires Running(stops, run) && !Push(stops, run.pending, chunk).0.stopped
    ensures var (update, pending) := Push(stops, run.pending, chunk);
            Running(stops, Run(run.emitted + update.text, pending, false, run.consumed + chunk))
  {
    FirstStopShifts(stops, run, chunk);
    KeepShifts(stops, run, chunk);
    var text := run.pending + chunk;
    KeepIsLongest(text, stops);
    Recut(run.emitted, run.pending, chunk, |text| - Keep(text, stops));
  }

  lemma {:induction false} Recut(emitted: string, pending: string, chunk: string, n: nat)
    requires n <= |pending + chunk|
    ensures emitted + pending + chunk == emitted + (pending + chunk)[..n] + (pending + chunk)[n..]
  {
    assert pending + chunk == (pending + chunk)[..n] + (pending + chunk)[n..];
  }

  lemma {:induction false} PushKeeps(stops: seq<string>, run: Run, chunk: string)
    requires Running(stops, run)
    ensures var (update, pending) := Push(stops, run.pending, chunk);
            Consistent(stops, Run(run.emitted + update.text, pending, update.stopped, run.consumed + chunk))
  {
    if Push(stops, run.pending, chunk).0.stopped {
      PushStops(stops, run, chunk);
    } else {
      PushContinues(stops, run, chunk);
    }
  }

  lemma {:induction false} FeedKeeps(stops: seq<string>, run: Run, chunks: seq<string>)
    requires Consistent(stops, run)
    ensures Consistent(stops, Feed(stops, run, chunks))
    decreases |chunks|
  {
    if chunks != [] && !run.stopped {
      PushKeeps(stops, run, chunks[0]);
      var (update, pending) := Push(stops, run.pending, chunks[0]);
      FeedKeeps(stops, Run(run.emitted + update.text, pending, update.stopped, run.consumed + chunks[0]), chunks[1..]);
    }
  }

  lemma {:induction false} StartConsistent(stops: seq<string>)
    requires NonEmpty(stops)
    ensures Running(stops, Start())
  {
    FirstStopFound("", stops);
    KeepIsLongest("", stops);
  }

  // --- theorems ------------------------------------------------------------------------------------

  /** For every chunking: on stopping, the emitted text is the truncation of all consumed text;
      before that, it is that truncation minus exactly the pending text, which `finish` emits. */
  lemma {:induction false} StreamingEqualsTruncation(stops: seq<string>, chunks: seq<string>)
    requires NonEmpty(stops)
    ensures var run := Feed(stops, Start(), chunks);
            if run.stopped then run.emitted == Truncate(run.consumed, stops)
            else run.emitted + run.pending == Truncate(run.consumed, stops)
  {
    StartConsistent(stops);
    FeedKeeps(stops, Start(), chunks);
  }

  /** It stops exactly when a stop sequence has occurred in what it consumed. */
  lemma StopsWhenOccurs(stops: seq<string>, chunks: seq<string>)
    requires NonEmpty(stops)
    ensures var run := Feed(stops, Start(), chunks);
            run.stopped <==> exists at: nat :: Occurs(run.consumed, stops, at)
  {
    StartConsistent(stops);
    FeedKeeps(stops, Start(), chunks);
    FirstStopFound(Feed(stops, Start(), chunks).consumed, stops);
  }

  /** Until it stops, the filter is as eager as possible: no continuation can take back what it
      emitted, and anything longer would be taken back by some continuation. */
  lemma {:induction false} EmittedIsLongestSafe(stops: seq<string>, chunks: seq<string>, candidate: string)
    requires NonEmpty(stops) && !Feed(stops, Start(), chunks).stopped
    ensures var run := Feed(stops, Start(), chunks);
            (forall more: string :: run.emitted <= Truncate(run.consumed + more, stops)) &&
            ((forall more: string :: candidate <= Truncate(run.consumed + more, stops)) ==>
             |candidate| <= |run.emitted|)
  {
    StartConsistent(stops);
    FeedKeeps(stops, Start(), chunks);
    var run := Feed(stops, Start(), chunks);
    forall more: string ensures run.emitted <= Truncate(run.consumed + more, stops) {
      EmittedStays(stops, run, more);
    }
    if forall more: string :: candidate <= Truncate(run.consumed + more, stops) {
      var more := Completion(stops, run);
      assert candidate <= Truncate(run.consumed + more, stops);
    }
  }

  lemma {:induction false} EmittedStays(stops: seq<string>, run: Run, more: string)
    requires Running(stops, run)
    ensures run.emitted <= Truncate(run.consumed + more, stops)
  {
    FirstStopShifts(stops, run, more);
    CutBehind(run.consumed + more, run.emitted, stops);
  }

  lemma {:induction false} CutBehind(text: string, head: string, stops: seq<string>)
    requires head <= text && (FirstStop(text, stops).Some? ==> |head| <= FirstStop(text, stops).value)
    ensures head <= Truncate(text, stops)
  {
    FirstStopFound(text, stops);
  }

  /** A continuation that cuts the text right after what was emitted. */
  lemma {:induction false} Completion(stops: seq<string>, run: Run) returns (more: string)
    requires Running(stops, run)
    ensures |Truncate(run.consumed + more, stops)| <= |run.emitted|
  {
    KeepIsLongest(run.consumed, stops);
    if run.pending == "" {
      more := "";
      assert run.consumed + more == run.consumed;
    } else {
      more := Completed(run.emitted, run.pending, stops);
      CutAtOccurrence(run.consumed + more, stops, |run.emitted|);
    }
  }

  lemma {:induction false} Completed(head: string, tail: string, stops: seq<string>) returns (more: string)
    requires Held(head + tail, stops, |tail|)
    ensures Occurs(head + tail + more, stops, |head|)
  {
    var i :| 0 <= i < |stops| && |tail| <= |stops[i]| && EndsWith(head + tail, stops[i][..|tail|]);
    more := stops[i][|tail|..];
    assert (head + tail)[|head|..] == tail;
    CompletedAt(head, tail, stops[i]);
  }

  lemma {:induction false} CompletedAt(head: string, tail: string, stop: string)
    requires |tail| <= |stop| && stop[..|tail|] == tail
    ensures IsAt(head + tail + stop[|tail|..], stop, |head|)
  {
    var more := stop[|tail|..];
    assert head + tail + more == head + (tail + more);
    assert tail + more == stop;
  }

  lemma {:induction false} CutAtOccurrence(text: string, stops: seq<string>, at: nat)
    requires Occurs(text, stops, at)
    ensures |Truncate(text, stops)| <= at
  {
    FirstStopFound(text, stops);
  }

  /** After a stop, later text can only move the cut further left, never right. */
  lemma {:induction false} LaterTextCutsEarlier(stops: seq<string>, text: string, more: string)
    requires FirstStop(text, stops).Some?
    ensures Truncate(text + more, stops) <= Truncate(text, stops)
  {
    FirstStopFound(text, stops);
    FirstStopFound(text + more, stops);
    var at := FirstStop(text, stops).value;
    var i :| 0 <= i < |stops| && IsAt(text, stops[i], at);
    assert (text + more)[at..at + |stops[i]|] == text[at..at + |stops[i]|];
    assert Occurs(text + more, stops, at);
  }

  /** It can really move: with overlapping stop sequences the emitted text is the truncation of
      the text consumed so far, not of everything that would have arrived. */
  lemma {:induction false} OverlappingStopsLookBack()
    ensures var stops := ["abcd", "bc"];
            var run := Feed(stops, Start(), ["abc", "d"]);
            run.stopped && run.emitted == "a" && Truncate("abcd", stops) == ""
  {
    var stops := ["abcd", "bc"];
    assert stops[1..] == ["bc"];
    assert "abc"[1..3] == "bc";
    assert IsAt("abc", stops[1], 1);
    forall p: nat | p < 1 ensures !Occurs("abc", stops, p) {
      assert "abc"[0..2][0] == 'a';
    }
    FirstStopIs("abc", stops, 1);
    assert "" + "abc" == "abc";
    assert IsAt("abcd", stops[0], 0);
    FirstStopIs("abcd", stops, 0);
  }

  // --- when the chunking cannot be seen at all -------------------------------------------------

  /** All text that would have arrived. */
  function Join(chunks: seq<string>): string {
    if chunks == [] then "" else chunks[0] + Join(chunks[1..])
  }

  /** What a caller has been shown once the stream ended: emitted text, and pending text if
      nothing matched. */
  function ShownText(run: Run): string {
    if run.stopped then run.emitted else run.emitted + run.pending
  }

  /** Without its last character, no stop sequence contains a stop sequence except at its start.
      A caller can evaluate this before streaming. */
  predicate NoInnerStop(stops: seq<string>) {
    forall i | 0 <= i < |stops| :: ClearInside(stops[i], stops)
  }

  predicate ClearInside(stop: string, stops: seq<string>) {
    stop != "" ==> FirstStop(stop[..|stop| - 1], stops) in {None, Some(0)}
  }

  /** Feeding consumes a prefix of the whole text, all of it unless the filter stopped. */
  lemma {:induction false} FeedConsumes(stops: seq<string>, run: Run, chunks: seq<string>) returns (rest: string)
    ensures Feed(stops, run, chunks).consumed + rest == run.consumed + Join(chunks)
    ensures !Feed(stops, run, chunks).stopped ==> rest == ""
    decreases |chunks|
  {
    if chunks == [] || run.stopped {
      rest := Join(chunks);
    } else {
      var (update, pending) := Push(stops, run.pending, chunks[0]);
      rest := FeedConsumes(stops, Run(run.emitted + update.text, pending, update.stopped, run.consumed + chunks[0]),
                           chunks[1..]);
      assert run.consumed + chunks[0] + Join(chunks[1..]) == run.consumed + Join(chunks);
    }
  }

  /** A shortest stop sequence among those that occur at a place. */
  lemma {:induction false} ShortestStop(text: string, stops: seq<string>, at: nat, n: nat) returns (i: nat)
    requires n <= |stops| && exists j | 0 <= j < n :: IsAt(text, stops[j], at)
    ensures i < n && IsAt(text, stops[i], at)
    ensures forall j | 0 <= j < n && IsAt(text, stops[j], at) :: |stops[i]| <= |stops[j]|
  {
    i := n - 1;
    if exists j | 0 <= j < n - 1 :: IsAt(text, stops[j], at) {
      var k := ShortestStop(text, stops, at, n - 1);
      if !IsAt(text, stops[n - 1], at) || |stops[k]| <= |stops[n - 1]| {
        i := k;
      }
    }
  }

  /** Two occurrences in one text: the later one lies properly inside the earlier one. */
  lemma {:induction false} InsideAt(text: string, outer: string, inner: string, at: nat, later: nat)
    requires IsAt(text, outer, at) && IsAt(text, inner, later) && at <= later && later + |inner| < at + |outer|
    ensures IsAt(outer[..|outer| - 1], inner, later - at)
  {
    var head, from := outer[..|outer| - 1], later - at;
    forall i | 0 <= i < |inner| ensures head[from..from + |inner|][i] == inner[i] {
      assert outer[from + i] == text[at..at + |outer|][from + i] == text[later + i];
      assert inner[i] == text[later..later + |inner|][i] == text[later + i];
    }
  }

  lemma {:induction false} PrefixAt(text: string, outer: string, inner: string, at: nat)
    requires IsAt(text, outer, at) && outer != "" && IsAt(outer[..|outer| - 1], inner, 0)
    ensures IsAt(text, inner, at) && |inner| < |outer|
  {
    assert text[at..at + |inner|] == text[at..at + |outer|][..|inner|];
  }

  lemma {:induction false} StaysAt(text: string, more: string, stop: string, at: nat)
    requires at + |stop| <= |text|
    ensures IsAt(text + more, stop, at) <==> IsAt(text, stop, at)
  {
    assert (text + more)[at..at + |stop|] == text[at..at + |stop|];
  }

  /** If later text moved the cut, a stop sequence would have another one properly inside. */
  lemma {:induction false} CutStays(stops: seq<string>, text: string, more: string)
    requires NonEmpty(stops) && NoInnerStop(stops) && FirstStop(text, stops).Some?
    ensures FirstStop(text + more, stops) == FirstStop(text, stops)
  {
    var p := FirstStopFoundAt(text, stops);
    FirstStopFound(text, stops);
    var t :| 0 <= t < |stops| && IsAt(text, stops[t], p);
    StaysAt(text, more, stops[t], p);
    assert Occurs(text + more, stops, p);
    forall q: nat | q < p ensures !Occurs(text + more, stops, q) {
      if Occurs(text + more, stops, q) {
        EarlierCut(stops, text, more, p, t, q);
      }
    }
    FirstStopIs(text + more, stops, p);
  }

  lemma {:induction false} EarlierCut(stops: seq<string>, text: string, more: string, p: nat, t: nat, q: nat)
    requires NonEmpty(stops) && NoInnerStop(stops) && t < |stops| && IsAt(text, stops[t], p) && q < p
    requires Occurs(text + more, stops, q)
    ensures Occurs(text, stops, q)
  {
    var all := text + more;
    var s := ShortestStop(all, stops, q, |stops|);
    StaysAt(text, more, stops[t], p);
    if q + |stops[s]| > |text| {
      InsideAt(all, stops[s], stops[t], q, p);
      var u := StopAtStart(stops, s, t, p - q);
      PrefixAt(all, stops[s], stops[u], q);
      assert false;
    }
    StaysAt(text, more, stops[s], q);
  }

  lemma {:induction false} StopAtStart(stops: seq<string>, s: nat, t: nat, at: nat) returns (u: nat)
    requires NoInnerStop(stops) && s < |stops| && t < |stops| && stops[s] != "" &&
             IsAt(stops[s][..|stops[s]| - 1], stops[t], at)
    ensures u < |stops| && IsAt(stops[s][..|stops[s]| - 1], stops[u], 0)
  {
    var inner := stops[s][..|stops[s]| - 1];
    FirstStopFound(inner, stops);
    assert Occurs(inner, stops, at);
    assert ClearInside(stops[s], stops);
    u :| 0 <= u < |stops| && IsAt(inner, stops[u], 0);
  }

  lemma {:induction false} ShownIsTruncation(stops: seq<string>, chunks: seq<string>)
    requires NonEmpty(stops) && NoInnerStop(stops)
    ensures ShownText(Feed(stops, Start(), chunks)) == Truncate(Join(chunks), stops)
  {
    StartConsistent(stops);
    FeedKeeps(stops, Start(), chunks);
    var run := Feed(stops, Start(), chunks);
    var rest := FeedConsumes(stops, Start(), chunks);
    assert "" + Join(chunks) == Join(chunks);
    if run.stopped {
      CutStays(stops, run.consumed, rest);
      CutPrefix(run.consumed, rest, stops);
    } else {
      assert run.consumed + "" == run.consumed;
    }
  }

  lemma {:induction false} CutPrefix(text: string, more: string, stops: seq<string>)
    requires FirstStop(text, stops).Some? && FirstStop(text + more, stops) == FirstStop(text, stops)
    ensures Truncate(text + more, stops) == Truncate(text, stops)
  {
    var at := FirstStopFoundAt(text, stops);
    assert (text + more)[..at] == text[..at];
  }

  /** The two chunks that betray a stop sequence with another one properly inside. */
  function Betraying(stop: string): seq<string>
    requires stop != ""
  {
    [stop[..|stop| - 1], stop[|stop| - 1..]]
  }

  lemma {:induction false} BetrayedByChunks(stops: seq<string>, i: nat)
    requires NonEmpty(stops) && i < |stops| && !ClearInside(stops[i], stops)
    ensures Join(Betraying(stops[i])) == stops[i]
    ensures ShownText(Feed(stops, Start(), Betraying(stops[i]))) != Truncate(stops[i], stops)
  {
    var stop := stops[i];
    var chunks := Betraying(stop);
    var head := stop[..|stop| - 1];
    JoinTwo(head, stop[|stop| - 1..]);
    assert head + stop[|stop| - 1..] == stop;
    var at := FirstStopFoundAt(head, stops);
    FedOnce(stops, head, chunks, at);
    assert IsAt(stop, stops[i], 0);
    FirstStopIs(stop, stops, 0);
  }

  lemma {:induction false} JoinTwo(a: string, b: string)
    ensures Join([a, b]) == a + b
  {
    assert [a, b][1..] == [b] && [b][1..] == [];
    assert Join([b]) == b + "" == b;
  }

  lemma {:induction false} FedOnce(stops: seq<string>, head: string, chunks: seq<string>, at: nat)
    requires |chunks| == 2 && chunks[0] == head && at <= |head| && FirstStop(head, stops) == Some(at)
    ensures ShownText(Feed(stops, Start(), chunks)) == head[..at]
  {
    assert "" + head == head;
    assert Push(stops, "", head) == (Update(head[..at], true), "");
    var run := Run("" + head[..at], "", true, "" + head);
    assert "" + head[..at] == head[..at];
    assert Feed(stops, run, chunks[1..]) == run;
  }

  /** The exact condition: what a caller is shown is the truncation of the whole text, for every
      chunking, if and only if no stop sequence has another one properly inside. */
  lemma {:induction false} ChunkingInvisibleIff(stops: seq<string>)
    requires NonEmpty(stops)
    ensures (forall chunks: seq<string> ::
             ShownText(Feed(stops, Start(), chunks)) == Truncate(Join(chunks), stops)) <==>
            NoInnerStop(stops)
  {
    if NoInnerStop(stops) {
      forall chunks: seq<string> ensures ShownText(Feed(stops, Start(), chunks)) == Truncate(Join(chunks), stops) {
        ShownIsTruncation(stops, chunks);
      }
    } else {
      var i :| 0 <= i < |stops| && !ClearInside(stops[i], stops);
      BetrayedByChunks(stops, i);
    }
  }
}
