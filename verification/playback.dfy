/**
 The playback cursor of the step-by-step visualiser: which step is shown
 and whether auto-play is on. `total` stands for the number of steps in the
 sequence being shown (at least one); the two-second interval is not
 modelled, only what happens each time it fires.
 */
module Playback {

  datatype Cursor = Cursor(currentStep: int, isPlaying: bool)

  /** The initial cursor: the first step, paused. */
  const Start := Cursor(0, false)

  /** The cursor names one of the `total` steps. */
  predicate InRange(c: Cursor, total: int)
  {
    0 <= c.currentStep < total
  }

  /** The cursor shows the first step. */
  predicate IsFirstStep(c: Cursor)
  {
    c.currentStep == 0
  }

  /** The cursor shows the last of the `total` steps. */
  predicate IsLastStep(c: Cursor, total: int)
  {
    c.currentStep == total - 1
  }

  function Max(a: int, b: int): (r: int)
    ensures r >= a && r >= b && (r == a || r == b)
  {
    if a >= b then a else b
  }

  function Min(a: int, b: int): (r: int)
    ensures r <= a && r <= b && (r == a || r == b)
  {
    if a <= b then a else b
  }

  /** Stop playing and step back, never below the first
      step. */
  function Previous(c: Cursor): (r: Cursor)
    ensures !r.isPlaying && r.currentStep >= 0
    ensures c.currentStep > 0 ==> r.currentStep == c.currentStep - 1
    ensures c.currentStep <= 0 ==> r.currentStep == 0
  {
    Cursor(Max(c.currentStep - 1, 0), false)
  }

  /** Stop playing and step forward, never past the last
      step. */
  function Next(c: Cursor, total: int): (r: Cursor)
    ensures !r.isPlaying && r.currentStep <= total - 1
    ensures c.currentStep < total - 1 ==> r.currentStep == c.currentStep + 1
    ensures c.currentStep >= total - 1 ==> r.currentStep == total - 1
  {
    Cursor(Min(c.currentStep + 1, total - 1), false)
  }

  /** Stop playing and go back to the first step. */
  function Reset(c: Cursor): (r: Cursor)
    ensures r == Start && IsFirstStep(r) && !r.isPlaying
  {
    Cursor(0, false)
  }

  /** Toggle auto-play; starting it from the last step (or
      beyond) first rewinds to the first step. */
  function PlayPause(c: Cursor, total: int): (r: Cursor)
    ensures r.isPlaying == !c.isPlaying
    ensures r.currentStep == 0 || r.currentStep == c.currentStep
    ensures r.currentStep != c.currentStep ==> !c.isPlaying && c.currentStep >= total - 1
  {
    var step := if !c.isPlaying && c.currentStep >= total - 1 then 0 else c.currentStep;
    Cursor(step, !c.isPlaying)
  }

  /** The updater the interval runs: at or past the last step
      it stops playing and stays put, otherwise it moves one step on. */
  function Tick(c: Cursor, total: int): (r: Cursor)
    ensures c.currentStep >= total - 1 ==> r == Cursor(c.currentStep, false)
    ensures c.currentStep < total - 1 ==> r == Cursor(c.currentStep + 1, c.isPlaying)
  {
    if c.currentStep >= total - 1 then Cursor(c.currentStep, false)
    else Cursor(c.currentStep + 1, c.isPlaying)
  }

  /** The interval is armed only while playing and not on the
      last step. */
  predicate TimerArmed(c: Cursor, total: int)
  {
    c.isPlaying && !IsLastStep(c, total)
  }

  /** One firing of the interval: the updater runs only while the timer is
      armed; otherwise nothing happens. */
  function Fire(c: Cursor, total: int): (r: Cursor)
    ensures !TimerArmed(c, total) ==> r == c
    ensures TimerArmed(c, total) ==> r == Tick(c, total)
  {
    if TimerArmed(c, total) then Tick(c, total) else c
  }

  /** What the user, or the interval, can do. */
  datatype Action = PressPlayPause | PressPrevious | PressNext | PressReset | TimerFires

  function Apply(c: Cursor, a: Action, total: int): Cursor
  {
    match a
    case PressPlayPause => PlayPause(c, total)
    case PressPrevious => Previous(c)
    case PressNext => Next(c, total)
    case PressReset => Reset(c)
    case TimerFires => Fire(c, total)
  }

  /** The cursor after a sequence of actions, first to last. */
  function Run(c: Cursor, actions: seq<Action>, total: int): Cursor
    decreases |actions|
  {
    if actions == [] then c else Run(Apply(c, actions[0], total), actions[1..], total)
  }

  /** `n` firings of the interval in a row. */
  function FireTimes(c: Cursor, n: nat, total: int): Cursor
    decreases n
  {
    if n == 0 then c else FireTimes(Fire(c, total), n - 1, total)
  }

  // ---------------------------------------------------------------------
  // Properties

  /** Every action, and the updater on its own, keeps the cursor on one of
      the steps. */
  lemma ApplyKeepsRange(c: Cursor, a: Action, total: int)
    requires total >= 1 && InRange(c, total)
    ensures InRange(Apply(c, a, total), total)
    ensures InRange(Tick(c, total), total)
  {
  }

  /** Any sequence of actions keeps the cursor on one of the steps. */
  lemma {:induction false} RunKeepsRange(c: Cursor, actions: seq<Action>, total: int)
    requires total >= 1 && InRange(c, total)
    ensures InRange(Run(c, actions, total), total)
    decreases |actions|
  {
    if actions != [] {
      ApplyKeepsRange(c, actions[0], total);
      RunKeepsRange(Apply(c, actions[0], total), actions[1..], total);
    }
  }

  /** From the start, whatever the user does, the cursor stays on a step. */
  lemma RunFromStart(actions: seq<Action>, total: int)
    requires total >= 1
    ensures InRange(Run(Start, actions, total), total)
  {
    RunKeepsRange(Start, actions, total);
  }

  /** Resetting twice is resetting once. */
  lemma ResetIdempotent(c: Cursor)
    ensures Reset(Reset(c)) == Reset(c)
  {
  }

  /** `isFirstStep` holds exactly when stepping back leaves the step where
      it is. */
  lemma FirstStepIffPreviousStays(c: Cursor, total: int)
    requires InRange(c, total)
    ensures IsFirstStep(c) <==> Previous(c).currentStep == c.currentStep
  {
  }

  /** `isLastStep` holds exactly when stepping forward leaves the step
      where it is. */
  lemma LastStepIffNextStays(c: Cursor, total: int)
    requires InRange(c, total)
    ensures IsLastStep(c, total) <==> Next(c, total).currentStep == c.currentStep
  {
  }

  /** Away from the ends, Previous and Next undo each other. */
  lemma PreviousNextInverse(c: Cursor, total: int)
    requires InRange(c, total)
    ensures !IsLastStep(c, total) ==> Previous(Next(c, total)).currentStep == c.currentStep
    ensures !IsFirstStep(c) ==> Next(Previous(c), total).currentStep == c.currentStep
  {
  }

  /** Pausing and resuming away from the last step gives back the same
      cursor, and so does resuming and pausing. */
  lemma PlayPauseTwice(c: Cursor, total: int)
    requires InRange(c, total) && !IsLastStep(c, total)
    ensures PlayPause(PlayPause(c, total), total) == c
  {
  }

  /** Starting auto-play from the last step rewinds to the first. */
  lemma PlayFromLastRewinds(c: Cursor, total: int)
    requires InRange(c, total) && IsLastStep(c, total) && !c.isPlaying
    ensures PlayPause(c, total) == Cursor(0, true)
  {
  }

  /** While playing, `n` firings of the interval advance the cursor `n`
      steps, stopping on the last step, and playback stays on. */
  lemma {:induction false} FireTimesAdvances(c: Cursor, n: nat, total: int)
    requires InRange(c, total) && c.isPlaying
    ensures FireTimes(c, n, total) == Cursor(Min(c.currentStep + n, total - 1), true)
    decreases n
  {
    if n > 0 {
      var next := Fire(c, total);
      assert next == Cursor(Min(c.currentStep + 1, total - 1), true);
      FireTimesAdvances(next, n - 1, total);
    }
  }

  // ---------------------------------------------------------------------
  // Auto-play ends on the last step still playing

  /** As written, the interval never reaches the branch of the updater that
      stops playback: a firing leaves `isPlaying` as it was. */
  lemma FireKeepsPlaying(c: Cursor, total: int)
    requires InRange(c, total)
    ensures Fire(c, total).isPlaying == c.isPlaying
  {
  }

  /** With two steps, one firing from the first step, playing, lands on the
      last step still playing, with no timer armed to stop it. */
  lemma PlayingAtEndAsWritten()
    ensures var r := Fire(Cursor(0, true), 2);
      r == Cursor(1, true) && IsLastStep(r, 2) && r.isPlaying && !TimerArmed(r, 2)
  {
  }

  /** The firing the updater's stopping branch was meant for: reaching the
      last step also ends playback. */
  function FireStopping(c: Cursor, total: int): (r: Cursor)
    ensures !TimerArmed(c, total) ==> r == c
    ensures TimerArmed(c, total) ==> r.currentStep == c.currentStep + 1
    ensures TimerArmed(c, total) ==> (r.isPlaying <==> r.currentStep < total - 1)
  {
    if !TimerArmed(c, total) then c
    else if c.currentStep + 1 >= total - 1 then Cursor(c.currentStep + 1, false)
    else Cursor(c.currentStep + 1, true)
  }

  function ApplyStopping(c: Cursor, a: Action, total: int): Cursor
  {
    match a
    case TimerFires => FireStopping(c, total)
    case _ => Apply(c, a, total)
  }

  function RunStopping(c: Cursor, actions: seq<Action>, total: int): Cursor
    decreases |actions|
  {
    if actions == [] then c else RunStopping(ApplyStopping(c, actions[0], total), actions[1..], total)
  }

  /** The cursor is on a step, and it plays only while a timer is armed to
      move it on. */
  predicate Live(c: Cursor, total: int)
  {
    InRange(c, total) && (c.isPlaying ==> TimerArmed(c, total))
  }

  /** With the stopping firing, every action keeps the cursor live once
      there are at least two steps. */
  lemma ApplyStoppingKeepsLive(c: Cursor, a: Action, total: int)
    requires total >= 2 && Live(c, total)
    ensures Live(ApplyStopping(c, a, total), total)
  {
  }

  /** With the stopping firing and at least two steps, a cursor that is on
      a step and plays only while a timer is armed keeps doing so, whatever
      the actions. */
  lemma {:induction false} RunStoppingKeepsLive(c: Cursor, actions: seq<Action>, total: int)
    requires total >= 2 && Live(c, total)
    ensures Live(RunStopping(c, actions, total), total)
    decreases |actions|
  {
    if actions != [] {
      ApplyStoppingKeepsLive(c, actions[0], total);
      RunStoppingKeepsLive(ApplyStopping(c, actions[0], total), actions[1..], total);
    }
  }

  /** With a single step, the stopping firing does not help: pressing play
      rewinds to step 0, which is already the last step, so no timer is
      armed and the cursor plays on. */
  lemma OneStepPlaysWithoutTimer()
    ensures Live(Start, 1)
    ensures RunStopping(Start, [PressPlayPause], 1) == Cursor(0, true)
    ensures !Live(RunStopping(Start, [PressPlayPause], 1), 1)
  {
  }
}
