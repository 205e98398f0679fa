/** When files begin and end: what the segment length and the gate promise of every file of a run,
    told from the units, the start of the file and the wall clock. */
module RecorderRotation {
  import opened Basics
  import opened Timeline
  import opened RecorderModel
  import opened RecorderProofs
  import opened RecorderFiles
  import opened RecorderGate

  /** Where a file begun at `start` is to end: one length later, or, aligned, at the first whole
      number of lengths from midnight that lies strictly after the start. */
  predicate SegmentEnd(cfg: Config, start: int, end: int) {
    if !cfg.align then end == start + cfg.segmentDur
    else if cfg.segmentDur <= 0 then end == start
    else start < end <= start + cfg.segmentDur && (end - cfg.midnight(start)) % cfg.segmentDur == 0
  }

  ghost predicate InTime(cfg: Config, start: int, t: int) {
    exists end :: SegmentEnd(cfg, start, end) && t < end
  }

  ghost predicate Overdue(cfg: Config, start: int, t: int) {
    exists end :: SegmentEnd(cfg, start, end) && end <= t
  }

  /** There is one such end, so a time is in time or overdue and never both. */
  lemma SegmentEndIsUnique(cfg: Config, start: int, t: int)
    ensures InTime(cfg, start, t) <==> !Overdue(cfg, start, t)
  {
    EndOfSegment(cfg, start);
    forall a, b | SegmentEnd(cfg, start, a) && SegmentEnd(cfg, start, b)
      ensures a == b
    {
      if cfg.align && cfg.segmentDur > 0 {
        MultiplesApart(a - cfg.midnight(start), b - cfg.midnight(start), cfg.segmentDur);
      }
    }
  }

  lemma MultiplesApart(a: int, b: int, d: int)
    requires d > 0 && a % d == 0 && b % d == 0 && -d < a - b < d
    ensures a == b
  {
    var p, q := a / d, b / d;
    assert a == p * d && b == q * d;
    if p > q {
      assert (p - q) * d == a - b;
      MulAtLeast(p - q, d);
    } else if p < q {
      assert (q - p) * d == b - a;
      MulAtLeast(q - p, d);
    }
  }

  lemma EndOfSegment(cfg: Config, start: int)
    ensures SegmentEnd(cfg, start, OpenSegment(cfg, Initial, start).file.value.end)
  {
    if cfg.align && cfg.segmentDur > 0 {
      var d, past := cfg.segmentDur, start - cfg.midnight(start);
      var q := past / d;
      assert past == q * d + past % d;
      assert (q + 1) * d == q * d + d;
      WholeMultiple(q + 1, d);
    }
  }

  lemma WholeMultiple(k: int, d: int)
    requires d > 0
    ensures (k * d) % d == 0
  {
    var r := (k * d) % d;
    assert k * d == (k * d) / d * d + r;
    assert (k - (k * d) / d) * d == r;
    NoMultipleBetween(k - (k * d) / d, d, r);
  }

  lemma NoMultipleBetween(j: int, d: int, r: int)
    requires 0 <= r < d && j * d == r
    ensures r == 0
  {
    if j > 0 {
      MulAtLeast(j, d);
    } else if j < 0 {
      MulAtLeast(-j, d);
    }
  }

  // ----- what a file holds -----

  /** The GOPs are groups of the run, and from the n-th on, not before, they met an open gate. */
  predicate FromShots(gops: seq<Gop>, shots: seq<Shot>, n: nat) {
    forall k: nat :: k < |gops| ==> IsShot(gops[k], shots, k >= n)
  }

  predicate IsShot(g: Gop, shots: seq<Shot>, open: bool) {
    exists i :: 0 <= i < |shots| && Same(g, shots[i]) && shots[i].open == open
  }

  /** The groups behind the n-th began before the file was to end. */
  ghost predicate BegunInTime(cfg: Config, start: int, gops: seq<Gop>, n: nat) {
    forall k: nat :: n < k < |gops| ==> InTime(cfg, start, gops[k].wall)
  }

  /** A file with n GOPs of pre-roll, none without a pre-roll window: it starts when its first GOP
      does, the pre-roll met a shut gate and the rest an open one, and apart from the GOP that opened
      it every one of the rest began before the file was to end. */
  ghost predicate RightFile(cfg: Config, start: int, gops: seq<Gop>, shots: seq<Shot>, n: nat) {
    && n < |gops| && (PreRollOn(cfg) || n == 0) && start == gops[0].wall
    && FromShots(gops, shots, n) && BegunInTime(cfg, start, gops, n)
  }

  ghost predicate Right(cfg: Config, start: int, gops: seq<Gop>, shots: seq<Shot>) {
    exists n: nat :: RightFile(cfg, start, gops, shots, n)
  }

  lemma IsShotLater(g: Gop, shots: seq<Shot>, more: seq<Shot>, open: bool)
    requires IsShot(g, shots, open)
    ensures IsShot(g, shots + more, open)
  {
    var i :| 0 <= i < |shots| && Same(g, shots[i]) && shots[i].open == open;
    assert (shots + more)[i] == shots[i];
  }

  lemma FromShotsLater(gops: seq<Gop>, shots: seq<Shot>, more: seq<Shot>, n: nat)
    requires FromShots(gops, shots, n)
    ensures FromShots(gops, shots + more, n)
  {
    forall k: nat | k < |gops|
      ensures IsShot(gops[k], shots + more, k >= n)
    {
      IsShotLater(gops[k], shots, more, k >= n);
    }
  }

  lemma RightLater(cfg: Config, start: int, gops: seq<Gop>, shots: seq<Shot>, more: seq<Shot>)
    requires Right(cfg, start, gops, shots)
    ensures Right(cfg, start, gops, shots + more)
  {
    var n: nat :| RightFile(cfg, start, gops, shots, n);
    FromShotsLater(gops, shots, more, n);
    assert RightFile(cfg, start, gops, shots + more, n);
  }

  ghost predicate ClosedRight(cfg: Config, closed: seq<ClosedFile>, shots: seq<Shot>) {
    forall f: nat :: f < |closed| ==> Right(cfg, closed[f].start, closed[f].gops, shots)
  }

  lemma ClosedLater(cfg: Config, closed: seq<ClosedFile>, shots: seq<Shot>, more: seq<Shot>)
    requires ClosedRight(cfg, closed, shots)
    ensures ClosedRight(cfg, closed, shots + more)
  {
    forall f: nat | f < |closed|
      ensures Right(cfg, closed[f].start, closed[f].gops, shots + more)
    {
      RightLater(cfg, closed[f].start, closed[f].gops, shots, more);
    }
  }

  // ----- the open file -----

  /** The open file with the GOP under way, which began at `wall`, still to come. */
  ghost predicate Going(cfg: Config, f: OpenFile, wall: int, shots: seq<Shot>, n: nat) {
    && n <= |f.gops| && (PreRollOn(cfg) || n == 0) && SegmentEnd(cfg, f.start, f.end)
    && f.start == (if f.gops == [] then wall else f.gops[0].wall)
    && FromShots(f.gops, shots, n) && BegunInTime(cfg, f.start, f.gops, n)
    && (n < |f.gops| ==> InTime(cfg, f.start, wall))
  }

  ghost predicate OpenRight(cfg: Config, f: OpenFile, wall: int, shots: seq<Shot>) {
    exists n: nat :: Going(cfg, f, wall, shots, n)
  }

  /** The GOP under way completes the file. */
  lemma GoingIsRight(cfg: Config, f: OpenFile, g: Gop, shots: seq<Shot>, last: Shot)
    requires OpenRight(cfg, f, g.wall, shots) && Same(g, last) && last.open
    ensures Right(cfg, f.start, f.gops + [g], shots + [last])
  {
    var n: nat :| Going(cfg, f, g.wall, shots, n);
    var gops, all := f.gops + [g], shots + [last];
    forall k: nat | k < |gops|
      ensures IsShot(gops[k], all, k >= n)
    {
      if k < |f.gops| {
        IsShotLater(f.gops[k], shots, [last], k >= n);
      } else {
        assert all[|shots|] == last;
      }
    }
    assert BegunInTime(cfg, f.start, gops, n);
    assert RightFile(cfg, f.start, gops, all, n);
  }

  /** With all its GOPs written, a file goes on past a keyframe that comes before its end. */
  lemma RightGoesOn(cfg: Config, f: OpenFile, now: int, shots: seq<Shot>)
    requires Right(cfg, f.start, f.gops, shots) && SegmentEnd(cfg, f.start, f.end) && now < f.end
    ensures OpenRight(cfg, f, now, shots)
  {
    var n: nat :| RightFile(cfg, f.start, f.gops, shots, n);
    assert InTime(cfg, f.start, now);
    assert Going(cfg, f, now, shots, n);
  }

  /** A fresh file begins with the ring, or with the keyframe itself. */
  lemma FreshIsRight(cfg: Config, s: State, now: int, shots: seq<Shot>)
    requires InPlace(s, shots) && (PreRollOn(cfg) || s.cache == [])
    ensures var start := if s.cache != [] then s.cache[0].wall else now;
      OpenRight(cfg, WritePreroll(OpenSegment(cfg, s, start)).file.value, now, shots)
  {
    var start := if s.cache != [] then s.cache[0].wall else now;
    var f := WritePreroll(OpenSegment(cfg, s, start)).file.value;
    EndOfSegment(cfg, start);
    assert [] + s.cache == s.cache;
    forall k: nat | k < |s.cache|
      ensures IsShot(s.cache[k], shots, false)
    {
      assert WaitsIn(s.cache[k], shots[|s.ledger| + k]);
    }
    assert Going(cfg, f, now, shots, |s.cache|);
  }

  lemma RotatedIsRight(cfg: Config, s: State, now: int, shots: seq<Shot>)
    ensures OpenRight(cfg, OpenSegment(cfg, s, now).file.value, now, shots)
  {
    EndOfSegment(cfg, now);
    assert Going(cfg, OpenSegment(cfg, s, now).file.value, now, shots, 0);
  }

  /** Between two units. */
  ghost predicate FilesRight(cfg: Config, s: State, shots: seq<Shot>) {
    && ClosedRight(cfg, s.closed, Done(s, shots))
    && (s.file.Some? ==> OpenRight(cfg, s.file.value, s.gopWall, Done(s, shots)))
  }

  // ----- one keyframe -----

  /** Settling writes the last GOP into the file, if one is open. */
  lemma SettleRight(cfg: Config, s: State, dts: int, shots: seq<Shot>)
    requires Tallied(cfg, s, shots) && Resting(cfg, s) && FilesRight(cfg, s, shots)
    ensures var t := SettleGop(cfg, s, dts);
      && ClosedRight(cfg, t.closed, shots)
      && (t.file.Some? ==>
            SegmentEnd(cfg, t.file.value.start, t.file.value.end)
            && Right(cfg, t.file.value.start, t.file.value.gops, shots))
  {
    if s.video != [] {
      var front, last := shots[..|shots| - 1], shots[|shots| - 1];
      assert shots == front + [last];
      ClosedLater(cfg, s.closed, front, [last]);
      if s.file.Some? {
        GoingIsRight(cfg, s.file.value, PendingGop(s, dts), front, last);
        assert exists n: nat :: Going(cfg, s.file.value, s.gopWall, front, n);
      }
    }
  }

  lemma OneMoreClosed(cfg: Config, closed: seq<ClosedFile>, f: ClosedFile, shots: seq<Shot>)
    requires ClosedRight(cfg, closed, shots) && Right(cfg, f.start, f.gops, shots)
    ensures ClosedRight(cfg, closed + [f], shots)
  {
  }

  /** With nothing pending, ending a file closes it as it is. */
  lemma EmptyFinalize(cfg: Config, s: State, now: int)
    requires s.file.Some? && s.video == [] && s.audio == []
    ensures Finalize(cfg, s, now) == CloseFile(s, now)
  {
  }

  lemma SwitchRight(cfg: Config, s: State, now: int, active: bool, shots: seq<Shot>)
    requires InPlace(s, shots) && s.video == [] && (s.file.Some? ==> s.audio == []) && (PreRollOn(cfg) || s.cache == [])
    requires ClosedRight(cfg, s.closed, shots)
    requires s.file.Some? ==>
      SegmentEnd(cfg, s.file.value.start, s.file.value.end)
      && Right(cfg, s.file.value.start, s.file.value.gops, shots)
    ensures var t := SwitchFile(cfg, s, now, active);
      && ClosedRight(cfg, t.closed, shots)
      && (t.file.Some? ==> OpenRight(cfg, t.file.value, now, shots))
  {
    if s.file.Some? {
      EmptyFinalize(cfg, s, now);
      OneMoreClosed(cfg, s.closed, ClosedFile(s.file.value.start, s.file.value.gops, now), shots);
      if active && now < s.file.value.end {
        RightGoesOn(cfg, s.file.value, now, shots);
      } else if active {
        RotatedIsRight(cfg, Finalize(cfg, s, now), now, shots);
      }
    } else if active {
      FreshIsRight(cfg, s, now, shots);
    }
  }

  lemma StartRight(cfg: Config, s: State, key: Sample, now: int, active: bool, shots: seq<Shot>, last: Shot)
    requires s.video == [] && s.gopWall == now && (s.file.Some? <==> active) && ClosedRight(cfg, s.closed, shots)
    requires s.file.Some? ==> OpenRight(cfg, s.file.value, now, shots)
    ensures FilesRight(cfg, StartGop(cfg, s, key, now, active), shots + [last])
  {
    var t, all := StartGop(cfg, s, key, now, active), shots + [last];
    assert all[..|all| - 1] == shots;
    if t.video == [] {
      ClosedLater(cfg, s.closed, shots, [last]);
    }
  }

  /** What switching files relies on. */
  ghost predicate Fits(cfg: Config, t: State, shots: seq<Shot>) {
    && InPlace(t, shots) && t.video == [] && (t.file.Some? ==> t.audio == []) && (PreRollOn(cfg) || t.cache == [])
    && ClosedRight(cfg, t.closed, shots)
    && (t.file.Some? ==>
          && SegmentEnd(cfg, t.file.value.start, t.file.value.end)
          && Right(cfg, t.file.value.start, t.file.value.gops, shots))
  }

  lemma CompletedFits(cfg: Config, t: State, shots: seq<Shot>)
    requires Completed(cfg, t, shots) && t.video == [] && (t.file.Some? ==> t.audio == [])
    requires PreRollOn(cfg) || t.cache == []
    requires ClosedRight(cfg, t.closed, shots)
    requires t.file.Some? ==>
      && SegmentEnd(cfg, t.file.value.start, t.file.value.end)
      && Right(cfg, t.file.value.start, t.file.value.gops, shots)
    ensures Fits(cfg, t, shots)
  {
  }

  /** Settled, the recorder may switch files. */
  lemma SettledFits(cfg: Config, s: State, dts: int, shots: seq<Shot>, fed: seq<Sample>, heard: seq<Sample>)
    requires Tallied(cfg, s, shots) && Resting(cfg, s) && Sound(cfg, s, fed, heard) && FilesRight(cfg, s, shots)
    ensures Fits(cfg, SettleGop(cfg, s, dts), shots)
  {
    SettleRight(cfg, s, dts, shots);
    SettleTallied(cfg, s, dts, shots);
    SettleSound(cfg, s, dts, fed, heard);
    CompletedFits(cfg, SettleGop(cfg, s, dts), shots);
  }

  lemma FitsStamped(cfg: Config, t: State, now: int, shots: seq<Shot>)
    requires Fits(cfg, t, shots)
    ensures Fits(cfg, t.(gopWall := now), shots)
  {
  }

  lemma KeyKept(cfg: Config, s: State, key: Sample, now: int, gateOpen: bool, shots: seq<Shot>, fed: seq<Sample>,
                heard: seq<Sample>)
    requires Tallied(cfg, s, shots) && Resting(cfg, s) && Sound(cfg, s, fed, heard) && FilesRight(cfg, s, shots)
    ensures FilesRight(cfg, OnKey(cfg, s, key, now, gateOpen), shots + [Shot([key], !cfg.gated || gateOpen, now)])
  {
    var active := !cfg.gated || gateOpen;
    SettledFits(cfg, s, key.dts, shots, fed, heard);
    FitsStamped(cfg, SettleGop(cfg, s, key.dts), now, shots);
    var s1 := SettleGop(cfg, s, key.dts).(gopWall := now);
    SwitchRight(cfg, s1, now, active, shots);
    ReadySound(cfg, s, key.dts, now, active, fed, heard);
    SwitchKeepsClock(cfg, s1, now, active);
    StartRight(cfg, SwitchFile(cfg, s1, now, active), key, now, active, shots, Shot([key], active, now));
  }

  /** A dropped group may grow: nothing that met an open gate is that group. */
  lemma ShutGrows(g: Gop, shots: seq<Shot>, x: Sample)
    requires IsShot(g, shots, true) && !shots[|shots| - 1].open
    ensures IsShot(g, Grow(shots, x), true)
  {
    var i :| 0 <= i < |shots| && Same(g, shots[i]) && shots[i].open;
    assert Grow(shots, x)[i] == shots[i];
  }

  lemma RightGrows(cfg: Config, start: int, gops: seq<Gop>, shots: seq<Shot>, x: Sample)
    requires Right(cfg, start, gops, shots) && !PreRollOn(cfg) && shots != [] && !shots[|shots| - 1].open
    ensures Right(cfg, start, gops, Grow(shots, x))
  {
    assert RightFile(cfg, start, gops, shots, 0);
    forall k: nat | k < |gops|
      ensures IsShot(gops[k], Grow(shots, x), true)
    {
      assert IsShot(gops[k], shots, k >= 0);
      ShutGrows(gops[k], shots, x);
    }
    assert RightFile(cfg, start, gops, Grow(shots, x), 0);
  }

  lemma InterKept(cfg: Config, s: State, x: Sample, shots: seq<Shot>)
    requires Tallied(cfg, s, shots) && Resting(cfg, s) && FilesRight(cfg, s, shots)
    ensures FilesRight(cfg, OnInter(cfg, s, x), Grow(shots, x))
  {
    var t := OnInter(cfg, s, x);
    if s.video != [] || shots == [] {
      assert Done(t, Grow(shots, x)) == Done(s, shots);
    } else {
      LastWasShut(cfg, s, shots);
      forall f: nat | f < |s.closed|
        ensures Right(cfg, s.closed[f].start, s.closed[f].gops, Grow(shots, x))
      {
        RightGrows(cfg, s.closed[f].start, s.closed[f].gops, shots, x);
      }
    }
  }

  /** With nothing pending the last group was dropped. */
  lemma LastWasShut(cfg: Config, s: State, shots: seq<Shot>)
    requires Tallied(cfg, s, shots) && Resting(cfg, s) && s.video == [] && shots != []
    ensures !PreRollOn(cfg) && s.file == None && !shots[|shots| - 1].open
  {
    assert RightFate(cfg, s, shots, |s.ledger| - 1);
  }

  lemma ApplyRight(cfg: Config, s: State, e: Event, shots: seq<Shot>, fed: seq<Sample>, heard: seq<Sample>)
    requires Tallied(cfg, s, shots) && Resting(cfg, s) && Sound(cfg, s, fed, heard) && FilesRight(cfg, s, shots)
    ensures FilesRight(cfg, Apply(cfg, s, e), ShotsMore(cfg, shots, e))
  {
    match e
    case Key(dts, pts, payload, now, gateOpen) =>
      KeyKept(cfg, s, VideoSample(dts, pts, true, payload), now, gateOpen, shots, fed, heard);
    case Inter(dts, pts, payload) =>
      InterKept(cfg, s, VideoSample(dts, pts, false, payload), shots);
    case Audio(_, _) =>
  }

  lemma {:induction false} AlwaysRight(cfg: Config, events: seq<Event>)
    ensures FilesRight(cfg, Run(cfg, events), Shots(cfg, events))
  {
    if events != [] {
      var before := events[..|events| - 1];
      AlwaysRight(cfg, before);
      AlwaysTallied(cfg, before);
      NothingUnaccounted(cfg, before);
      ApplyRight(cfg, Run(cfg, before), events[|events| - 1], Shots(cfg, before), Fed(before), Heard(before));
    }
  }

  lemma FinalizeRight(cfg: Config, s: State, now: int, shots: seq<Shot>)
    requires Tallied(cfg, s, shots) && Resting(cfg, s) && FilesRight(cfg, s, shots)
    ensures ClosedRight(cfg, Finalize(cfg, s, now).closed, shots)
  {
    if s.file.Some? {
      var front, last, g := shots[..|shots| - 1], shots[|shots| - 1], PendingGop(s, TailBoundary(cfg, s.video));
      assert shots == front + [last];
      ClosedLater(cfg, s.closed, front, [last]);
      GoingIsRight(cfg, s.file.value, g, front, last);
      OneMoreClosed(cfg, s.closed, ClosedFile(s.file.value.start, s.file.value.gops + [g], now), shots);
    } else if s.video != [] {
      assert shots == Done(s, shots) + [shots[|shots| - 1]];
      ClosedLater(cfg, s.closed, Done(s, shots), [shots[|shots| - 1]]);
    }
  }

  /** Every file a run leaves starts with its first GOP, begins with its pre-roll, if there is any,
      and holds after it no GOP, but the one that opened it, that began when the file was to have
      ended: one length after its start, or at the next aligned boundary. */
  lemma FilesEndInTime(cfg: Config, events: seq<Event>, now: int, f: nat)
    requires f < |Finalize(cfg, Run(cfg, events), now).closed|
    ensures var file := Finalize(cfg, Run(cfg, events), now).closed[f];
      Right(cfg, file.start, file.gops, Shots(cfg, events))
  {
    AlwaysRight(cfg, events);
    AlwaysTallied(cfg, events);
    NothingUnaccounted(cfg, events);
    FinalizeRight(cfg, Run(cfg, events), now, Shots(cfg, events));
  }

  // ----- when a file is closed -----

  /** What a keyframe does to the files: with the gate open there is one afterwards, the same one
      exactly while it is in time; otherwise it is closed on the spot. */
  ghost predicate Switches(cfg: Config, s: State, t: State, now: int, active: bool) {
    && (t.file.Some? <==> active)
    && (s.file == None ==> t.closed == s.closed)
    && (s.file.Some? ==>
          var start := s.file.value.start;
          if active && InTime(cfg, start, now) then t.closed == s.closed && t.file.value.start == start
          else
            && |t.closed| == |s.closed| + 1 && t.closed[..|s.closed|] == s.closed
            && t.closed[|s.closed|].start == start && t.closed[|s.closed|].endedAt == now
            && (active ==> t.file.value.start == now))
  }

  lemma SettleKeepsFiles(cfg: Config, s: State, dts: int)
    requires Resting(cfg, s)
    ensures var t := SettleGop(cfg, s, dts);
      && t.closed == s.closed && (t.file.Some? <==> s.file.Some?) && t.video == []
      && (t.file.Some? ==>
            && t.audio == [] && t.file.value.start == s.file.value.start
            && t.file.value.end == s.file.value.end)
  {
  }

  lemma SwitchSwitches(cfg: Config, s: State, now: int, active: bool)
    requires s.video == [] && (s.file.Some? ==> s.audio == [] && SegmentEnd(cfg, s.file.value.start, s.file.value.end))
    ensures Switches(cfg, s, SwitchFile(cfg, s, now, active), now, active)
  {
    if s.file.Some? {
      EmptyFinalize(cfg, s, now);
      SegmentEndIsUnique(cfg, s.file.value.start, now);
      assert now < s.file.value.end ==> InTime(cfg, s.file.value.start, now);
      assert now >= s.file.value.end ==> Overdue(cfg, s.file.value.start, now);
    }
  }

  /** In every run, at every keyframe; other units leave the files alone. */
  lemma KeySwitchesFiles(cfg: Config, events: seq<Event>, e: Event)
    ensures var s, t := Run(cfg, events), Apply(cfg, Run(cfg, events), e);
      if e.Key? then Switches(cfg, s, t, e.now, !cfg.gated || e.gateOpen)
      else t.closed == s.closed && t.file == s.file
  {
    if e.Key? {
      var s, active := Run(cfg, events), !cfg.gated || e.gateOpen;
      AlwaysRight(cfg, events);
      NothingUnaccounted(cfg, events);
      SettleKeepsFiles(cfg, s, e.dts);
      OpenHasEnd(cfg, s, Shots(cfg, events));
      SwitchSwitches(cfg, SettleGop(cfg, s, e.dts).(gopWall := e.now), e.now, active);
    }
  }

  lemma OpenHasEnd(cfg: Config, s: State, shots: seq<Shot>)
    requires FilesRight(cfg, s, shots)
    ensures s.file.Some? ==> SegmentEnd(cfg, s.file.value.start, s.file.value.end)
  {
    if s.file.Some? {
      var n: nat :| Going(cfg, s.file.value, s.gopWall, Done(s, shots), n);
    }
  }

  /** File f was closed at keyframe j, because it was overdue or the gate was shut. */
  ghost predicate ClosedAt(cfg: Config, events: seq<Event>, file: ClosedFile, j: nat) {
    && j < |events| && events[j].Key? && file.endedAt == events[j].now
    && (Overdue(cfg, file.start, events[j].now) || (cfg.gated && !events[j].gateOpen))
  }

  /** A file closed while the run goes on was closed at a keyframe, and if the gate was open there
      only because its end had come. */
  lemma {:induction false} ClosedOnlyWhenDue(cfg: Config, events: seq<Event>, f: nat)
    requires f < |Run(cfg, events).closed|
    ensures exists j: nat :: ClosedAt(cfg, events, Run(cfg, events).closed[f], j)
  {
    if events != [] {
      var before, e := events[..|events| - 1], events[|events| - 1];
      var s := Run(cfg, before);
      KeySwitchesFiles(cfg, before, e);
      if f < |s.closed| {
        ClosedOnlyWhenDue(cfg, before, f);
        var j: nat :| ClosedAt(cfg, before, s.closed[f], j);
        assert Run(cfg, events).closed[f] == s.closed[f];
        assert ClosedAt(cfg, events, s.closed[f], j);
      } else {
        SegmentEndIsUnique(cfg, s.file.value.start, e.now);
        assert ClosedAt(cfg, events, Run(cfg, events).closed[f], |events| - 1);
      }
    }
  }

  /** In continuous mode a file starts at the moment the one before it ended. */
  ghost predicate Abut(s: State) {
    && (forall f: nat :: f + 1 < |s.closed| ==> s.closed[f + 1].start == s.closed[f].endedAt)
    && (s.closed != [] ==> s.file.Some? && s.file.value.start == s.closed[|s.closed| - 1].endedAt)
  }

  lemma {:induction false} ContinuousFilesAbut(cfg: Config, events: seq<Event>)
    requires !cfg.gated
    ensures Abut(Run(cfg, events))
  {
    if events != [] {
      var before := events[..|events| - 1];
      ContinuousFilesAbut(cfg, before);
      KeySwitchesFiles(cfg, before, events[|events| - 1]);
    }
  }
}
