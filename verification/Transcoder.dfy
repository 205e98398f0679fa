/** The viewer-shared live transcoder: a reference count, a grace timer, a cancel function and
    a restartable FFmpeg run, stepped one critical section at a time. */
module Transcoder {
  import opened Basics

  /** Identifies one FFmpeg run; also names its ready channel, its context and its stream. */
  type RunId = nat

  /** The timer field: nil, a timer still running, or a timer that already fired. */
  datatype Timer = NoTimer | Armed | Spent

  datatype Failure = Failure(code: nat)

  /** Why an Acquire came back without a stream. */
  datatype AcquireError = StartFailed(cause: Failure) | NotStarted | CallerGone | TimedOut

  datatype Acquired = Granted(stream: RunId) | Refused(why: AcquireError)

  /** The fields guarded by the mutex. */
  datatype Shared = Shared(
    refs: nat,
    out: Option<RunId>,
    startErr: Option<Failure>,
    running: bool,
    ready: RunId,
    cancel: Option<RunId>,
    timer: Timer,
    nextRun: RunId)

  datatype Entered = Got(stream: RunId) | WaitFor(ready: RunId)

  const Fresh := Shared(0, None, None, false, 0, None, NoTimer, 0)

  // ----- what each critical section does to the guarded fields -----

  function Enter(s: Shared): (Shared, Entered) {
    var s1 := s.(timer := NoTimer, refs := s.refs + 1);
    if s.out.Some? then (s1, Got(s.out.value))
    else if s.running then (s1, WaitFor(s.ready))
    else
      (s1.(running := true, startErr := None, cancel := Some(s.nextRun), ready := s.nextRun,
           nextRun := s.nextRun + 1),
       WaitFor(s.nextRun))
  }

  function Release(s: Shared): Shared {
    if s.refs == 0 then s
    else if s.refs > 1 then s.(refs := s.refs - 1)
    else s.(refs := 0, timer := Armed)
  }

  /** What a woken Acquire finds: the stream published then, or else an error, the recorded one
      before the default one. */
  function Outcome(s: Shared): Acquired {
    if s.out.Some? then Granted(s.out.value)
    else Refused(if s.startErr.Some? then StartFailed(s.startErr.value) else NotStarted)
  }

  function CloseTake(s: Shared): (Shared, Option<RunId>) {
    (s.(timer := NoTimer, cancel := None), s.cancel)
  }

  function StopIfIdle(s: Shared): (Shared, Option<RunId>) {
    if s.refs > 0 then (s, None) else (s.(cancel := None), s.cancel)
  }

  function Publish(s: Shared, run: RunId): Shared {
    s.(out := Some(run))
  }

  function End(s: Shared, err: Option<Failure>): Shared {
    s.(startErr := if s.startErr == None then err else s.startErr, out := None, running := false, cancel := None)
  }

  /** The transcoder object. Each method is one critical section; what it asks of the world
      outside the lock (start a run, call a cancel function, close a stream) is returned. */
  class LiveTranscoder {
    var refs: nat
    var out: Option<RunId>
    var startErr: Option<Failure>
    var running: bool
    var ready: RunId
    var cancel: Option<RunId>
    var timer: Timer
    var nextRun: RunId

    function View(): Shared
      reads this
    {
      Shared(refs, out, startErr, running, ready, cancel, timer, nextRun)
    }

    constructor ()
      ensures View() == Fresh
    {
      refs, out, startErr, running, ready, cancel, timer, nextRun := 0, None, None, false, 0, None, NoTimer, 0;
    }

    method AcquireEnter() returns (r: Entered, spawn: Option<RunId>)
      modifies this
      ensures (View(), r) == Enter(old(View()))
      ensures spawn == if old(running) || old(out).Some? then None else Some(old(nextRun))
    {
      spawn := None;
      if timer != NoTimer {
        timer := NoTimer;
      }
      refs := refs + 1;
      if out.Some? {
        return Got(out.value), None;
      }
      if !running {
        running := true;
        startErr := None;
        cancel := Some(nextRun);
        ready := nextRun;
        spawn := Some(nextRun);
        nextRun := nextRun + 1;
      }
      r := WaitFor(ready);
    }

    method Drop()
      modifies this
      ensures View() == Release(old(View()))
    {
      if refs == 0 {
        return;
      }
      refs := refs - 1;
      if refs > 0 {
        return;
      }
      timer := Armed;
    }

    /** The end of an Acquire that was woken. The lock is given up between the reading and the
        release; what others may do there is the business of the steps Wake and Leave below. */
    method AcquireResult() returns (r: Acquired)
      modifies this
      ensures r == Outcome(old(View()))
      ensures r.Granted? ==> View() == old(View()) && out == Some(r.stream)
      ensures r.Refused? ==>
        View() == Release(old(View())) && out == None && refs == if old(refs) == 0 then 0 else old(refs) - 1
    {
      var stream, err := out, startErr;
      if stream == None {
        Drop();
        if err == None {
          return Refused(NotStarted);
        }
        return Refused(StartFailed(err.value));
      }
      r := Granted(stream.value);
    }

    method CloseEnter() returns (toCancel: Option<RunId>)
      modifies this
      ensures (View(), toCancel) == CloseTake(old(View()))
      ensures toCancel == old(cancel) && cancel == None && timer == NoTimer
    {
      if timer != NoTimer {
        timer := NoTimer;
      }
      toCancel := cancel;
      cancel := None;
    }

    method IdleCallback() returns (cancelled: Option<RunId>)
      modifies this
      ensures (View(), cancelled) == StopIfIdle(old(View()))
    {
      if refs > 0 {
        return None;
      }
      cancelled := None;
      if cancel.Some? {
        cancelled := cancel;
        cancel := None;
      }
    }

    method OnReady(run: RunId)
      modifies this
      ensures View() == Publish(old(View()), run)
    {
      out := Some(run);
    }

    method RunEnded(err: Option<Failure>) returns (closeStream: Option<RunId>)
      modifies this
      ensures View() == End(old(View()), err) && closeStream == old(out)
    {
      if startErr == None {
        startErr := err;
      }
      closeStream := None;
      if out.Some? {
        closeStream := out;
        out := None;
      }
      running := false;
      cancel := None;
    }
  }

  // ----- the system: viewers, runs, timers and closers interleaved -----

  /** Where a viewer stands: blocked in Acquire on a ready channel, holding a stream, or about
      to call Release from an Acquire that will return an error. */
  datatype Viewer = Waiting(on: RunId) | Attached(stream: RunId) | Failing(why: AcquireError)

  datatype Sys = Sys(
    shared: Shared,
    viewers: map<nat, Viewer>,
    callbacks: nat,            // idle callbacks whose timer fired but which have not run yet
    runs: set<RunId>,          // FFmpeg runs started and not yet past their final section
    published: set<RunId>,     // runs that made a stream
    cancelled: set<RunId>,     // contexts cancelled
    closing: set<RunId>,       // cancel functions taken by a Close that has yet to call them
    signalling: set<RunId>,    // runs about to close their ready channel
    signalled: set<RunId>,     // ready channels closed
    closedStreams: set<RunId>) // streams closed

  const Start := Sys(Fresh, map[], 0, {}, {}, {}, {}, {}, {}, {})

  datatype Step =
    | Arrive(v: nat)               // Acquire, first section
    | Wake(v: nat)                 // ready closed: Acquire, second section
    | GiveUp(v: nat, late: bool)   // start timeout, or the caller's context is done
    | Leave(v: nat)                // Release by a holder, or by a failed Acquire
    | CloseCall                    // Close, its section
    | CloseCancel(run: RunId)      // Close calls the cancel function it took
    | Fire                         // the grace timer fires
    | Idle                         // a pending idle callback gets the lock
    | MakeStream(run: RunId)       // the run's onReady section
    | Finish(run: RunId, err: Option<Failure>) // the run's final section
    | Signal(run: RunId)           // the run closes its ready channel

  predicate Enabled(s: Sys, step: Step) {
    match step
    case Arrive(v) => v !in s.viewers
    case Wake(v) => v in s.viewers && s.viewers[v].Waiting? && s.viewers[v].on in s.signalled
    case GiveUp(v, _) => v in s.viewers && s.viewers[v].Waiting?
    case Leave(v) => v in s.viewers && !s.viewers[v].Waiting?
    case CloseCall => true
    case CloseCancel(r) => r in s.closing
    case Fire => s.shared.timer == Armed
    case Idle => s.callbacks > 0
    case MakeStream(r) => r in s.runs && r !in s.published
    case Finish(r, _) => r in s.runs && r !in s.signalling
    case Signal(r) => r in s.signalling
  }

  function Optional(r: Option<RunId>): set<RunId> {
    if r.Some? then {r.value} else {}
  }

  function Apply(s: Sys, step: Step): Sys
    requires Enabled(s, step)
  {
    match step
    case Arrive(v) =>
      var (sh, r) := Enter(s.shared);
      s.(shared := sh,
         viewers := s.viewers[v := match r case Got(x) => Attached(x) case WaitFor(x) => Waiting(x)],
         runs := if sh.nextRun > s.shared.nextRun then s.runs + {s.shared.nextRun} else s.runs)
    case Wake(v) =>
      var now := match Outcome(s.shared) case Granted(x) => Attached(x) case Refused(e) => Failing(e);
      s.(viewers := s.viewers[v := now])
    case GiveUp(v, late) => s.(viewers := s.viewers[v := Failing(if late then TimedOut else CallerGone)])
    case Leave(v) => s.(shared := Release(s.shared), viewers := s.viewers - {v})
    case CloseCall =>
      var (sh, c) := CloseTake(s.shared);
      s.(shared := sh, closing := s.closing + Optional(c))
    case CloseCancel(r) => s.(closing := s.closing - {r}, cancelled := s.cancelled + {r})
    case Fire => s.(shared := s.shared.(timer := Spent), callbacks := s.callbacks + 1)
    case Idle =>
      var (sh, c) := StopIfIdle(s.shared);
      s.(shared := sh, callbacks := s.callbacks - 1, cancelled := s.cancelled + Optional(c))
    case MakeStream(r) =>
      s.(shared := Publish(s.shared, r), published := s.published + {r}, signalling := s.signalling + {r})
    case Finish(r, err) =>
      s.(shared := End(s.shared, err), runs := s.runs - {r}, signalling := s.signalling + {r},
         closedStreams := s.closedStreams + Optional(s.shared.out))
    case Signal(r) => s.(signalling := s.signalling - {r}, signalled := s.signalled + {r})
  }

  /** A run of the whole system: states and the steps between them. */
  ghost predicate Behaviour(states: seq<Sys>, steps: seq<Step>) {
    && |states| == |steps| + 1 && states[0] == Start
    && forall k :: 0 <= k < |steps| ==> Enabled(states[k], steps[k]) && states[k + 1] == Apply(states[k], steps[k])
  }

  ghost predicate Reachable(s: Sys) {
    exists states, steps :: Behaviour(states, steps) && s == states[|steps|]
  }

  // ----- the invariant -----

  /** Every attached, waiting or failing viewer holds exactly one reference. */
  ghost predicate Counted(s: Sys) {
    s.shared.refs == |s.viewers|
  }

  /** At most one run exists, and the guarded fields describe it. */
  ghost predicate OneRun(s: Sys) {
    var sh := s.shared;
    && s.runs == (if sh.running then {sh.ready} else {})
    && (sh.running ==> sh.ready < sh.nextRun)
    && (sh.out.Some? ==> sh.running && sh.out.value == sh.ready)
    && (sh.running ==> (sh.ready in s.published <==> sh.out.Some?))
    && (sh.running ==> sh.ready !in s.closedStreams)
    && (sh.running && (sh.ready in s.signalled || sh.ready in s.signalling) ==> sh.ready in s.published)
  }

  /** The cancel field is the way to cancel the live run until somebody takes it. */
  ghost predicate CancelTracks(s: Sys) {
    var sh := s.shared;
    && (sh.cancel.Some? ==> sh.running && sh.cancel.value == sh.ready)
    && (sh.running ==> (sh.cancel.Some? <==> sh.ready !in s.cancelled && sh.ready !in s.closing))
  }

  ghost predicate Below(rs: set<RunId>, n: RunId) {
    forall r :: r in rs ==> r < n
  }

  ghost predicate BelowNext(s: Sys) {
    var n := s.shared.nextRun;
    && Below(s.published, n) && Below(s.cancelled, n) && Below(s.closing, n)
    && Below(s.signalling, n) && Below(s.signalled, n) && Below(s.closedStreams, n)
    && (forall v :: v in s.viewers && s.viewers[v].Waiting? ==> s.viewers[v].on < n)
  }

  /** Nobody watching and a run still going means something will still come to stop it. */
  ghost predicate Guarded(s: Sys) {
    && (s.shared.timer == Armed ==> s.shared.refs == 0)
    && (s.shared.refs == 0 && s.shared.cancel.Some? ==> s.shared.timer == Armed || s.callbacks > 0)
  }

  /** A waiting viewer's channel belongs to a live run or is closed or about to be; a held
      stream was really made. */
  ghost predicate NobodyStranded(s: Sys) {
    && (forall v :: v in s.viewers && s.viewers[v].Waiting? ==>
          s.viewers[v].on in s.runs || s.viewers[v].on in s.signalling || s.viewers[v].on in s.signalled)
    && (forall v :: v in s.viewers && s.viewers[v].Attached? ==> s.viewers[v].stream in s.published)
  }

  ghost predicate Inv(s: Sys) {
    Counted(s) && OneRun(s) && CancelTracks(s) && BelowNext(s) && Guarded(s) && NobodyStranded(s)
  }

  lemma {:induction false} CountedKept(s: Sys, step: Step)
    requires Inv(s) && Enabled(s, step)
    ensures Counted(Apply(s, step))
  {
    var t := Apply(s, step);
    match step
    case Arrive(v) => assert t.viewers.Keys == s.viewers.Keys + {v};
    case Wake(v) => assert t.viewers.Keys == s.viewers.Keys;
    case GiveUp(v, _) => assert t.viewers.Keys == s.viewers.Keys;
    case Leave(v) =>
      assert t.viewers.Keys == s.viewers.Keys - {v};
      assert v in s.viewers.Keys;
    case _ =>
  }

  lemma {:induction false} OneRunKept(s: Sys, step: Step)
    requires Inv(s) && Enabled(s, step)
    ensures OneRun(Apply(s, step))
  {
  }

  lemma {:induction false} CancelTracksKept(s: Sys, step: Step)
    requires Inv(s) && Enabled(s, step)
    ensures CancelTracks(Apply(s, step))
  {
  }

  /** The runs a step may add to some set. */
  function Mentioned(s: Sys, step: Step): set<RunId> {
    (if step.CloseCancel? || step.MakeStream? || step.Finish? || step.Signal? then {step.run} else {})
    + Optional(s.shared.cancel) + Optional(s.shared.out)
  }

  /** They have been started. */
  lemma {:induction false} MentionedBelow(s: Sys, step: Step)
    requires Inv(s) && Enabled(s, step)
    ensures s.shared.nextRun <= Apply(s, step).shared.nextRun
    ensures forall r :: r in Mentioned(s, step) ==> r < s.shared.nextRun
  {
  }

  /** Which runs each set gains in a step; no viewer comes to wait for a run not yet started. */
  lemma SetsAfter(s: Sys, step: Step)
    requires Enabled(s, step)
    ensures var t := Apply(s, step);
      && t.published <= s.published + (if step.MakeStream? then {step.run} else {})
      && t.cancelled <= s.cancelled
        + (if step.CloseCancel? then {step.run} else if step.Idle? then Optional(s.shared.cancel) else {})
      && t.closing <= s.closing + (if step.CloseCall? then Optional(s.shared.cancel) else {})
  {
  }

  lemma SignalsAfter(s: Sys, step: Step)
    requires Enabled(s, step)
    ensures var t := Apply(s, step);
      && t.signalling <= s.signalling + (if step.MakeStream? || step.Finish? then {step.run} else {})
      && t.signalled <= s.signalled + (if step.Signal? then {step.run} else {})
      && t.closedStreams <= s.closedStreams + (if step.Finish? then Optional(s.shared.out) else {})
  {
  }

  lemma {:induction false} WaitersAfter(s: Sys, step: Step)
    requires Inv(s) && Enabled(s, step)
    ensures var t := Apply(s, step);
      forall v :: v in t.viewers && t.viewers[v].Waiting? ==> t.viewers[v].on < t.shared.nextRun
  {
  }

  lemma StaysBelow(was: set<RunId>, more: set<RunId>, rs: set<RunId>, n: RunId, m: RunId)
    requires Below(was, n) && n <= m && rs <= was + more && forall r :: r in more ==> r < m
    ensures Below(rs, m)
  {
  }

  /** With the sets bounded as above, runs stay below the next number. */
  lemma BelowFrom(s: Sys, t: Sys, r: set<RunId>)
    requires BelowNext(s) && s.shared.nextRun <= t.shared.nextRun && forall x :: x in r ==> x < t.shared.nextRun
    requires t.published <= s.published + r && t.cancelled <= s.cancelled + r && t.closing <= s.closing + r
    requires t.signalling <= s.signalling + r && t.signalled <= s.signalled + r
      && t.closedStreams <= s.closedStreams + r
    requires forall v :: v in t.viewers && t.viewers[v].Waiting? ==> t.viewers[v].on < t.shared.nextRun
    ensures BelowNext(t)
  {
    var n, m := s.shared.nextRun, t.shared.nextRun;
    StaysBelow(s.published, r, t.published, n, m);
    StaysBelow(s.cancelled, r, t.cancelled, n, m);
    StaysBelow(s.closing, r, t.closing, n, m);
    StaysBelow(s.signalling, r, t.signalling, n, m);
    StaysBelow(s.signalled, r, t.signalled, n, m);
    StaysBelow(s.closedStreams, r, t.closedStreams, n, m);
  }

  lemma {:induction false} BelowNextKept(s: Sys, step: Step)
    requires Inv(s) && Enabled(s, step)
    ensures BelowNext(Apply(s, step))
  {
    MentionedBelow(s, step);
    SetsAfter(s, step);
    SignalsAfter(s, step);
    WaitersAfter(s, step);
    BelowFrom(s, Apply(s, step), Mentioned(s, step));
  }

  lemma {:induction false} GuardedKept(s: Sys, step: Step)
    requires Inv(s) && Enabled(s, step)
    ensures Guarded(Apply(s, step))
  {
  }

  lemma {:induction false} NobodyStrandedKept(s: Sys, step: Step)
    requires Inv(s) && Enabled(s, step)
    ensures NobodyStranded(Apply(s, step))
  {
  }

  lemma InvKept(s: Sys, step: Step)
    requires Inv(s) && Enabled(s, step)
    ensures Inv(Apply(s, step))
  {
    CountedKept(s, step);
    OneRunKept(s, step);
    CancelTracksKept(s, step);
    BelowNextKept(s, step);
    GuardedKept(s, step);
    NobodyStrandedKept(s, step);
  }

  lemma {:induction false} InvAlways(states: seq<Sys>, steps: seq<Step>, k: nat)
    requires Behaviour(states, steps) && k <= |steps|
    ensures Inv(states[k])
  {
    if k > 0 {
      InvAlways(states, steps, k - 1);
      InvKept(states[k - 1], steps[k - 1]);
    }
  }

  // ----- what follows for every interleaving -----

  /** References equal viewers, at most one FFmpeg run is alive, the published stream belongs
      to it and is open, and an uncancelled run nobody watches has a timer or a fired callback
      still to come: no run is leaked. */
  lemma EveryInterleavingIsSafe(states: seq<Sys>, steps: seq<Step>, k: nat)
    requires Behaviour(states, steps) && k <= |steps|
    ensures var s := states[k];
      && s.shared.refs == |s.viewers|
      && |s.runs| <= 1
      && (s.shared.out.Some? ==> s.shared.out.value in s.runs && s.shared.out.value !in s.closedStreams)
      && (s.viewers == map[] && s.shared.timer != Armed && s.callbacks == 0 ==>
            forall r :: r in s.runs ==> r in s.cancelled || r in s.closing)
  {
    InvAlways(states, steps, k);
  }

  /** The idle callback never touches a run while a viewer is attached, waiting or failing. */
  lemma {:induction false} IdleSparesViewers(states: seq<Sys>, steps: seq<Step>, k: nat)
    requires Behaviour(states, steps) && k < |steps|
    requires steps[k] == Idle && states[k].viewers != map[]
    ensures states[k + 1] == states[k].(callbacks := states[k].callbacks - 1)
  {
    InvAlways(states, steps, k);
    var v :| v in states[k].viewers.Keys;
    assert |states[k].viewers| != 0;
  }

  /** Every cancelled run was cancelled by a Close, or by an idle callback at a moment when
      nobody was attached, waiting or failing. */
  lemma {:induction false} CancelledOnlyIdleOrClosed(states: seq<Sys>, steps: seq<Step>, k: nat, r: RunId)
    requires Behaviour(states, steps) && k <= |steps| && r in states[k].cancelled
    ensures exists j :: 0 <= j < k && (steps[j] == CloseCancel(r) || (steps[j] == Idle && states[j].viewers == map[]))
  {
    if k > 0 && r in states[k - 1].cancelled {
      CancelledOnlyIdleOrClosed(states, steps, k - 1, r);
    } else if k > 0 && steps[k - 1] == Idle && states[k - 1].viewers != map[] {
      IdleSparesViewers(states, steps, k - 1);
    }
  }

  /** A waiting viewer is woken at the latest by the end of the run it waits for: once that
      run is over and has closed its channel, its wake-up is enabled. */
  lemma NoLostWakeup(states: seq<Sys>, steps: seq<Step>, k: nat, v: nat)
    requires Behaviour(states, steps) && k <= |steps|
    requires v in states[k].viewers && states[k].viewers[v].Waiting?
    requires states[k].viewers[v].on !in states[k].runs && states[k].viewers[v].on !in states[k].signalling
    ensures Enabled(states[k], Wake(v))
  {
    InvAlways(states, steps, k);
  }

  /** What waking brings: the published stream, still open and its run alive, or an error, the
      recorded one if there is one. It is the stream of the run waited for exactly when that run
      is still alive. */
  lemma WakeOutcome(states: seq<Sys>, steps: seq<Step>, k: nat, v: nat)
    requires Behaviour(states, steps) && k < |steps| && steps[k] == Wake(v)
    ensures v in states[k].viewers && states[k].viewers[v].Waiting? && v in states[k + 1].viewers
    ensures var s, t := states[k], states[k + 1];
      && (t.viewers[v].Attached? <==> s.shared.out.Some?)
      && (t.viewers[v].Attached? ==> t.viewers[v].stream in t.runs && t.viewers[v].stream !in t.closedStreams)
      && (t.viewers[v] == Attached(s.viewers[v].on) <==> s.viewers[v].on in s.runs)
      && (!t.viewers[v].Attached? ==> t.viewers[v].Failing?)
      && (t.viewers[v].Failing? && s.shared.startErr.Some? ==> t.viewers[v].why == StartFailed(s.shared.startErr.value))
  {
    InvAlways(states, steps, k);
    assert Enabled(states[k], steps[k]);
  }

  /** What an Acquire came to is not changed by anybody else until the viewer releases. */
  lemma {:induction false} OutcomeStands(states: seq<Sys>, steps: seq<Step>, j: nat, k: nat, v: nat)
    requires Behaviour(states, steps) && j <= k <= |steps|
    requires v in states[j].viewers && !states[j].viewers[v].Waiting?
    requires forall i :: j <= i < k ==> steps[i] != Leave(v)
    ensures v in states[k].viewers && states[k].viewers[v] == states[j].viewers[v]
  {
    if j < k {
      OutcomeStands(states, steps, j, k - 1, v);
      assert Enabled(states[k - 1], steps[k - 1]);
    }
  }

  /** An Acquire that fails gives back its own reference, whatever happens between the failure
      and the release: the viewer is still failing with the same error when it comes to release,
      and then it is gone and there is one reference fewer. */
  lemma FailureReleasesOnce(states: seq<Sys>, steps: seq<Step>, j: nat, k: nat, v: nat)
    requires Behaviour(states, steps) && j <= k < |steps|
    requires v in states[j].viewers && states[j].viewers[v].Failing?
    requires steps[k] == Leave(v) && forall i :: j <= i < k ==> steps[i] != Leave(v)
    ensures v in states[k].viewers && states[k].viewers[v] == states[j].viewers[v]
    ensures states[k + 1].viewers == states[k].viewers - {v}
    ensures states[k].shared.refs == states[k + 1].shared.refs + 1
  {
    OutcomeStands(states, steps, j, k, v);
    InvAlways(states, steps, k);
    assert v in states[k].viewers.Keys;
    assert |states[k].viewers| != 0;
  }

  // ----- Close ends the run -----

  /** Close leaves no run that is neither cancelled nor about to be, whoever is watching, and no
      timer running; nobody is thrown out and no reference is touched. */
  lemma CloseTakesEveryRun(states: seq<Sys>, steps: seq<Step>, k: nat)
    requires Behaviour(states, steps) && k < |steps| && steps[k] == CloseCall
    ensures forall r :: r in states[k].runs ==> r in states[k + 1].cancelled || r in states[k + 1].closing
    ensures states[k + 1].shared.timer != Armed
    ensures states[k + 1].runs == states[k].runs && states[k + 1].viewers == states[k].viewers
    ensures states[k + 1].shared.refs == states[k].shared.refs
  {
    InvAlways(states, steps, k);
  }

  /** A cancelled run stays cancelled, and a taken cancel function is kept until it is called,
      which cancels its run. */
  lemma {:induction false} TakenIsCalled(states: seq<Sys>, steps: seq<Step>, j: nat, k: nat, r: RunId)
    requires Behaviour(states, steps) && j <= k <= |steps|
    requires r in states[j].cancelled || r in states[j].closing
    ensures r in states[k].cancelled
      || (r in states[k].closing && forall i :: j <= i < k ==> steps[i] != CloseCancel(r))
  {
    if j < k {
      TakenIsCalled(states, steps, j, k - 1, r);
      assert Enabled(states[k - 1], steps[k - 1]);
    }
  }

  /** Once a Close has returned, every run that was going when it began is cancelled, viewers or
      no viewers. */
  lemma CloseStopsEveryRun(states: seq<Sys>, steps: seq<Step>, j: nat, k: nat, r: RunId)
    requires Behaviour(states, steps) && j < k <= |steps| && steps[j] == CloseCall
    requires r in states[j].runs && r !in states[k].closing
    ensures r in states[k].cancelled
  {
    CloseTakesEveryRun(states, steps, j);
    TakenIsCalled(states, steps, j + 1, k, r);
  }

  // ----- what a finished run leaves -----

  /** The error of the last run to end, while no other has been started since. */
  ghost function LastError(states: seq<Sys>, steps: seq<Step>, k: nat): Option<Failure>
    requires k <= |steps| < |states|
  {
    if k == 0 then None
    else if steps[k - 1].Finish? then steps[k - 1].err
    else if states[k].runs != states[k - 1].runs then None
    else LastError(states, steps, k - 1)
  }

  /** What is recorded while a run goes on and after it: its error, its closed stream, its signal. */
  ghost predicate Recorded(s: Sys, err: Option<Failure>) {
    && s.shared.startErr == err
    && (s.shared.running ==> err == None)
    && (forall r :: r in s.published ==> r in s.runs || r in s.closedStreams)
    && (forall r :: r in s.published ==> r in s.signalling || r in s.signalled)
  }

  lemma {:induction false} RecordedAlways(states: seq<Sys>, steps: seq<Step>, k: nat)
    requires Behaviour(states, steps) && k <= |steps|
    ensures Recorded(states[k], LastError(states, steps, k))
  {
    if k > 0 {
      RecordedAlways(states, steps, k - 1);
      InvAlways(states, steps, k - 1);
      RecordedKept(states[k - 1], steps[k - 1], LastError(states, steps, k - 1));
    }
  }

  lemma RecordedKept(s: Sys, step: Step, err: Option<Failure>)
    requires Inv(s) && Recorded(s, err) && Enabled(s, step)
    ensures var t := Apply(s, step);
      Recorded(t, if step.Finish? then step.err else if t.runs != s.runs then None else err)
  {
  }

  /** A woken viewer that gets no stream is told the error of the last run to end, or, if that had
      none or another run has been started since, that nothing was started. */
  lemma ErrorIsLastRuns(states: seq<Sys>, steps: seq<Step>, k: nat, v: nat)
    requires Behaviour(states, steps) && k < |steps| && steps[k] == Wake(v)
    requires v in states[k + 1].viewers && states[k + 1].viewers[v].Failing?
    ensures var e := LastError(states, steps, k);
      states[k + 1].viewers[v].why == if e.Some? then StartFailed(e.value) else NotStarted
  {
    RecordedAlways(states, steps, k);
    assert Enabled(states[k], steps[k]);
  }

  /** A stream is open exactly as long as its run goes on, and everybody who waits for a run that
      has made one can go on as soon as the run has signalled, long before it ends. */
  lemma StreamLivesWithItsRun(states: seq<Sys>, steps: seq<Step>, k: nat, r: RunId)
    requires Behaviour(states, steps) && k <= |steps| && r in states[k].published
    ensures r in states[k].runs <==> r !in states[k].closedStreams
    ensures r in states[k].signalling || r in states[k].signalled
  {
    RecordedAlways(states, steps, k);
    InvAlways(states, steps, k);
  }

  /** From any reachable state in which nobody watches and no Close is under way, the timer and
      the idle callback alone cancel the live run. */
  lemma {:induction false} AbandonedRunIsStopped(states: seq<Sys>, steps: seq<Step>, r: RunId)
    returns (rest: seq<Step>, last: Sys)
    requires Behaviour(states, steps)
    requires var s := states[|steps|]; s.viewers == map[] && r in s.runs && r !in s.closing
    ensures forall i :: 0 <= i < |rest| ==> rest[i] in {Fire, Idle}
    ensures exists more :: Behaviour(more, steps + rest) && last == more[|steps + rest|]
    ensures r in last.cancelled
  {
    var s := states[|steps|];
    InvAlways(states, steps, |steps|);
    var more := states;
    rest, last := [], s;
    if r in s.cancelled {
      assert steps + rest == steps;
      return;
    }
    if s.callbacks == 0 {
      more := BehaviourExtended(more, steps, Fire);
      rest, last := [Fire], more[|steps| + 1];
    }
    assert last.callbacks > 0;
    var before := steps + rest;
    more := BehaviourExtended(more, before, Idle);
    assert before + [Idle] == steps + (rest + [Idle]);
    rest, last := rest + [Idle], more[|before| + 1];
  }

  lemma {:induction false} BehaviourExtended(states: seq<Sys>, steps: seq<Step>, step: Step) returns (more: seq<Sys>)
    requires Behaviour(states, steps) && Enabled(states[|steps|], step)
    ensures Behaviour(more, steps + [step]) && more[|steps| + 1] == Apply(states[|steps|], step)
    ensures |more| == |steps| + 2
  {
    more := states + [Apply(states[|steps|], step)];
    var all := steps + [step];
    forall k | 0 <= k < |all|
      ensures Enabled(more[k], all[k]) && more[k + 1] == Apply(more[k], all[k])
    {
      if k < |steps| {
        assert Enabled(states[k], steps[k]);
      }
    }
  }

  /** Acquire hands out a stream at once exactly when one is published; that stream's run is
      already doomed exactly when the cancel field has been taken. */
  lemma HandedStreamIsDoomed(states: seq<Sys>, steps: seq<Step>, k: nat, v: nat)
    requires Behaviour(states, steps) && k <= |steps| && v !in states[k].viewers
    ensures var s, t := states[k], Apply(states[k], Arrive(v));
      && (t.viewers[v].Attached? <==> s.shared.out.Some?)
      && (t.viewers[v].Attached? ==>
            (t.viewers[v].stream in t.cancelled || t.viewers[v].stream in t.closing <==> s.shared.cancel == None))
  {
    InvAlways(states, steps, k);
  }

  /** A single viewer has come and gone and the idle callback has cancelled run 0, which is
      still publishing its stream. */
  const IDLED := Sys(Shared(0, Some(0), None, true, 0, None, Spent, 1), map[], 0, {0}, {0}, {0}, {}, {}, {0}, {})

  lemma {:induction false} IdledIsReached() returns (states: seq<Sys>, steps: seq<Step>)
    ensures Behaviour(states, steps) && states[|steps|] == IDLED
  {
    var up := Shared(1, Some(0), None, true, 0, Some(0), NoTimer, 1);
    var s1 := Sys(up.(out := None), map[1 := Waiting(0)], 0, {0}, {}, {}, {}, {}, {}, {});
    var s2 := s1.(shared := up, published := {0}, signalling := {0});
    var s3 := s2.(signalling := {}, signalled := {0});
    var s4 := s3.(viewers := map[1 := Attached(0)]);
    var s5 := s4.(shared := up.(refs := 0, timer := Armed), viewers := map[]);
    var s6 := s5.(shared := s5.shared.(timer := Spent), callbacks := 1);
    steps := [Arrive(1), MakeStream(0), Signal(0), Wake(1), Leave(1), Fire, Idle];
    states := [Start, s1, s2, s3, s4, s5, s6, IDLED];
    assert Apply(Start, Arrive(1)) == s1;
    assert Apply(s1, MakeStream(0)) == s2;
    assert Apply(s2, Signal(0)) == s3;
    assert Apply(s3, Wake(1)) == s4;
    assert Apply(s4, Leave(1)) == s5;
    assert Apply(s5, Fire) == s6;
    assert Apply(s6, Idle) == IDLED;
  }

  /** It does happen: a viewer arriving between the idle cancel and the end of the run. */
  lemma DoomedStreamIsHandedOut()
    ensures exists s, v ::
      Reachable(s) && v in s.viewers && s.viewers[v].Attached? && s.viewers[v].stream in s.cancelled
  {
    var states, steps := IdledIsReached();
    var more := BehaviourExtended(states, steps, Arrive(2));
    var last := more[|steps| + 1];
    assert Behaviour(more, steps + [Arrive(2)]) && Reachable(last);
    assert 2 in last.viewers && last.viewers[2] == Attached(0) && 0 in last.cancelled;
  }
}
