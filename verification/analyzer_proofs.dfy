/**
 What `simpleAnalyze` promises about the steps it produces, proved of the
 model in `Analyzer`: line filtering, step numbering, output growth, the
 balance of the call stack, the numbering of queue labels, and the order in
 which the event loop drains the two queues.
 */
module AnalyzerProofs {
  import opened Text
  import opened Analyzer

  // ---------------------------------------------------------------------
  // Which lines are analysed

  lemma {:induction false} KeepLinesConcat(a: seq<string>, b: seq<string>)
    ensures KeepLines(a + b) == KeepLines(a) + KeepLines(b)
    decreases |a|
  {
    if a == [] {
      assert a + b == b;
    } else {
      assert (a + b)[0] == a[0];
      assert (a + b)[1..] == a[1..] + b;
      KeepLinesConcat(a[1..], b);
      var t := Trim(a[0]);
      var head := if IsCodeLine(t) then [t] else [];
      Assoc(head, KeepLines(a[1..]), KeepLines(b));
    }
  }

  /** The lines of a text glued from newline-free pieces are the trimmed
      pieces that are neither blank nor `//` comments, in order. */
  lemma LinesOfJoin(pieces: seq<string>)
    requires |pieces| >= 1
    requires forall k :: 0 <= k < |pieces| ==> '\n' !in pieces[k]
    ensures Lines(Join(pieces, '\n')) == KeepLines(pieces)
  {
    SplitJoin(pieces, '\n');
  }

  /** Two texts with the same lines are analysed alike. */
  lemma SameLinesSameAnalysis(c1: string, c2: string)
    requires Lines(c1) == Lines(c2)
    ensures SimpleAnalyze(c1) == SimpleAnalyze(c2)
  {
    assert Scanned(c1) == Scanned(c2);
  }

  /** Newline-free pieces stay newline-free when concatenated. */
  lemma NoNewlineConcat(a: seq<string>, b: seq<string>)
    requires forall k :: 0 <= k < |a| ==> '\n' !in a[k]
    requires forall k :: 0 <= k < |b| ==> '\n' !in b[k]
    ensures forall k :: 0 <= k < |a + b| ==> '\n' !in (a + b)[k]
  {
    forall k | 0 <= k < |a + b| ensures '\n' !in (a + b)[k] {
      if k < |a| { assert (a + b)[k] == a[k]; } else { assert (a + b)[k] == b[k - |a|]; }
    }
  }

  /** A blank or `//` piece contributes no line. */
  lemma IgnoredLineDropped(before: seq<string>, piece: string, after: seq<string>)
    requires !IsCodeLine(Trim(piece))
    ensures KeepLines(before + [piece] + after) == KeepLines(before + after)
  {
    KeepLinesConcat(before + [piece], after);
    KeepLinesConcat(before, [piece]);
    KeepLinesConcat(before, after);
    assert KeepLines([piece]) == [] by {
      assert [piece][1..] == [];
    }
    assert KeepLines(before) + [] == KeepLines(before);
  }

  /** A piece that trims to code contributes exactly its trimmed self, in
      its place among the lines kept from the pieces around it. */
  lemma KeptLine(before: seq<string>, piece: string, after: seq<string>)
    requires IsCodeLine(Trim(piece))
    ensures KeepLines(before + [piece] + after) == KeepLines(before) + [Trim(piece)] + KeepLines(after)
  {
    KeepLinesConcat(before + [piece], after);
    KeepLinesConcat(before, [piece]);
    assert KeepLines([piece]) == [Trim(piece)] by {
      assert [piece][1..] == [];
    }
  }

  /** A code line anywhere in the text is analysed, trimmed, between the
      lines kept from the text before it and the text after it. */
  lemma KeptLineInText(before: seq<string>, piece: string, after: seq<string>)
    requires forall k :: 0 <= k < |before| ==> '\n' !in before[k]
    requires forall k :: 0 <= k < |after| ==> '\n' !in after[k]
    requires '\n' !in piece
    requires IsCodeLine(Trim(piece))
    ensures Lines(Join(before + [piece] + after, '\n')) == KeepLines(before) + [Trim(piece)] + KeepLines(after)
  {
    NoNewlineConcat(before, [piece]);
    NoNewlineConcat(before + [piece], after);
    LinesOfJoin(before + [piece] + after);
    KeptLine(before, piece, after);
  }

  /** A blank or `//` line anywhere in the text changes nothing: the
      analysis of the text with it equals the analysis without it. */
  lemma IgnoredLineChangesNothing(before: seq<string>, piece: string, after: seq<string>)
    requires |before + after| >= 1
    requires forall k :: 0 <= k < |before| ==> '\n' !in before[k]
    requires forall k :: 0 <= k < |after| ==> '\n' !in after[k]
    requires '\n' !in piece
    requires !IsCodeLine(Trim(piece))
    ensures SimpleAnalyze(Join(before + [piece] + after, '\n')) == SimpleAnalyze(Join(before + after, '\n'))
  {
    NoNewlineConcat(before, [piece]);
    NoNewlineConcat(before + [piece], after);
    NoNewlineConcat(before, after);
    LinesOfJoin(before + [piece] + after);
    LinesOfJoin(before + after);
    IgnoredLineDropped(before, piece, after);
    SameLinesSameAnalysis(Join(before + [piece] + after, '\n'), Join(before + after, '\n'));
  }

  // ---------------------------------------------------------------------
  // Output grows

  lemma {:induction false} PrefixChain(steps: seq<Step>, i: nat, j: nat)
    requires OutputStepsUp(steps)
    requires i <= j < |steps|
    ensures steps[i].output <= steps[j].output
    decreases j - i
  {
    if i < j {
      PrefixChain(steps, i, j - 1);
      PrefixTransitive(steps[i].output, steps[j - 1].output, steps[j].output);
    }
  }

  /** Step-by-step growth is growth between any two steps. */
  lemma OutputGrowsFromSteps(steps: seq<Step>)
    requires OutputStepsUp(steps)
    ensures OutputGrows(steps)
  {
    forall i, j | 0 <= i <= j < |steps|
      ensures steps[i].output <= steps[j].output
    {
      PrefixChain(steps, i, j);
    }
  }

  // ---------------------------------------------------------------------
  // What the loop over the lines adds up to

  /** What one line logs, given the remembered async function name. */
  function LineOutput(name: string, line: string): seq<string>
  {
    if IsStatement(name, line) then Logged(line) else []
  }

  /** The frame one line leaves on the call stack. */
  function LineFrames(name: string, line: string): seq<string>
  {
    if !IsDeclaration(line) && IsAsyncCall(name, line) then [name + "()"] else []
  }

  /** 1 when a statement line contains `needle`. */
  function LineCount(name: string, line: string, needle: string): nat
  {
    if IsStatement(name, line) then Tally(line, needle) else 0
  }

  /** How many steps one line pushes. */
  function LineSteps(name: string, line: string): nat
  {
    if IsDeclaration(line) then 0
    else if IsAsyncCall(name, line) then 1
    else StatementSteps(line)
  }

  /** The messages the lines log, the async name threaded through them. */
  function OutputOf(name: string, lines: seq<string>): seq<string>
    decreases |lines|
  {
    if lines == [] then []
    else LineOutput(name, lines[0]) + OutputOf(NameAfter(name, lines[0]), lines[1..])
  }

  /** The frames the async-call lines leave on the call stack. */
  function FramesOf(name: string, lines: seq<string>): seq<string>
    decreases |lines|
  {
    if lines == [] then []
    else LineFrames(name, lines[0]) + FramesOf(NameAfter(name, lines[0]), lines[1..])
  }

  /** How many statement lines contain `needle`. */
  function CountOf(name: string, lines: seq<string>, needle: string): nat
    decreases |lines|
  {
    if lines == [] then 0
    else LineCount(name, lines[0], needle) + CountOf(NameAfter(name, lines[0]), lines[1..], needle)
  }

  /** How many steps the lines push. */
  function StepsOf(name: string, lines: seq<string>): nat
    decreases |lines|
  {
    if lines == [] then 0
    else LineSteps(name, lines[0]) + StepsOf(NameAfter(name, lines[0]), lines[1..])
  }

  /** One line: a declaration changes nothing but the remembered name, an
      async call pushes its frame and one step, and a statement logs its
      message, bumps the counters of its keywords and pops every frame it
      pushes. */
  lemma LineEffect(s: State, line: string)
    ensures var r := ProcessLine(s, line); var name := s.asyncFunctionName;
      && r.output == s.output + LineOutput(name, line)
      && r.callStack == s.callStack + LineFrames(name, line)
      && r.timeoutCount == s.timeoutCount + LineCount(name, line, "setTimeout")
      && r.asyncCount == s.asyncCount + LineCount(name, line, "await")
      && r.promiseCount == s.promiseCount + LineCount(name, line, "new Promise")
      && |r.steps| == |s.steps| + LineSteps(name, line)
  {
  }

  /** The loop over the lines: the output is exactly the logged messages,
      the call stack gains exactly the async-call frames, each counter
      counts the statement lines with its keyword, and the number of steps
      is the sum over the lines. */
  lemma {:induction false} ScanSummary(s: State, lines: seq<string>)
    ensures Scan(s, lines).output == s.output + OutputOf(s.asyncFunctionName, lines)
    ensures Scan(s, lines).callStack == s.callStack + FramesOf(s.asyncFunctionName, lines)
    ensures Scan(s, lines).timeoutCount == s.timeoutCount + CountOf(s.asyncFunctionName, lines, "setTimeout")
    ensures Scan(s, lines).asyncCount == s.asyncCount + CountOf(s.asyncFunctionName, lines, "await")
    ensures Scan(s, lines).promiseCount == s.promiseCount + CountOf(s.asyncFunctionName, lines, "new Promise")
    ensures |Scan(s, lines).steps| == |s.steps| + StepsOf(s.asyncFunctionName, lines)
    decreases |lines|
  {
    if lines != [] {
      var name := s.asyncFunctionName;
      var next := ProcessLine(s, lines[0]);
      LineEffect(s, lines[0]);
      ScanSummary(next, lines[1..]);
      assert Scan(s, lines) == Scan(next, lines[1..]);
      Assoc(s.output, LineOutput(name, lines[0]), OutputOf(next.asyncFunctionName, lines[1..]));
      Assoc(s.callStack, LineFrames(name, lines[0]), FramesOf(next.asyncFunctionName, lines[1..]));
    }
  }

  // ---------------------------------------------------------------------
  // Queue labels follow the counters

  /** `setTimeout callback #1` up to `#n`. */
  function TimeoutLabels(n: nat): (r: seq<string>)
    ensures |r| == n
  {
    if n == 0 then [] else TimeoutLabels(n - 1) + [TimeoutLabel(n)]
  }

  lemma {:induction false} TimeoutLabelsAt(n: nat, k: nat)
    requires k < n
    ensures TimeoutLabels(n)[k] == TimeoutLabel(k + 1)
  {
    if k < n - 1 {
      TimeoutLabelsAt(n - 1, k);
    }
  }

  /** No two queued timer callbacks share a label. */
  lemma TimeoutLabelsDistinct(n: nat, i: nat, j: nat)
    requires i < j < n
    ensures TimeoutLabels(n)[i] != TimeoutLabels(n)[j]
  {
    TimeoutLabelsAt(n, i);
    TimeoutLabelsAt(n, j);
    if TimeoutLabel(i + 1) == TimeoutLabel(j + 1) {
      PrefixCancel("setTimeout callback #", NatToString(i + 1), NatToString(j + 1));
      NatToStringInjective(i + 1, j + 1);
    }
  }

  /** What one line appends to the two queues: a statement line queues a
      timer callback, then a continuation, then a `.then(` callback, each
      numbered with the counter as the line leaves it. */
  lemma LineQueues(s: State, line: string)
    ensures var r := ProcessLine(s, line); var st := IsStatement(s.asyncFunctionName, line);
      && r.callbackQueue == s.callbackQueue
        + (if st && Includes(line, "setTimeout") then [TimeoutLabel(r.timeoutCount)] else [])
      && r.microtaskQueue == s.microtaskQueue
        + (if st && Includes(line, "await") then [AwaitLabel(r.asyncCount)] else [])
        + (if st && Includes(line, ".then(") then [ThenLabel(r.promiseCount)] else [])
  {
  }

  /** One line keeps the callback queue the labels numbered 1 to the
      counter. */
  lemma LineTimeoutLabels(s: State, line: string)
    requires s.callbackQueue == TimeoutLabels(s.timeoutCount)
    ensures ProcessLine(s, line).callbackQueue == TimeoutLabels(ProcessLine(s, line).timeoutCount)
  {
    LineEffect(s, line);
    LineQueues(s, line);
  }

  /** The k-th `setTimeout` line queues `setTimeout callback #k`: the
      callback queue is always the labels numbered 1 to the counter. */
  lemma {:induction false} ScanTimeoutLabels(s: State, lines: seq<string>)
    requires s.callbackQueue == TimeoutLabels(s.timeoutCount)
    ensures Scan(s, lines).callbackQueue == TimeoutLabels(Scan(s, lines).timeoutCount)
    decreases |lines|
  {
    if lines != [] {
      var next := ProcessLine(s, lines[0]);
      LineTimeoutLabels(s, lines[0]);
      ScanTimeoutLabels(next, lines[1..]);
      assert Scan(s, lines) == Scan(next, lines[1..]);
    }
  }

  /** A label an `await` line queues. */
  predicate IsContinuation(tag: string)
  {
    StartsWith(tag, "async continuation #")
  }

  /** The continuation labels in a queue, in queue order. */
  function Continuations(q: seq<string>): seq<string>
  {
    if q == [] then []
    else Continuations(q[..|q| - 1]) + (if IsContinuation(q[|q| - 1]) then [q[|q| - 1]] else [])
  }

  /** `async continuation #1` up to `#n`. */
  function AwaitLabels(n: nat): (r: seq<string>)
    ensures |r| == n
  {
    if n == 0 then [] else AwaitLabels(n - 1) + [AwaitLabel(n)]
  }

  lemma ContinuationsPush(q: seq<string>, x: string)
    ensures Continuations(q + [x]) == Continuations(q) + (if IsContinuation(x) then [x] else [])
  {
    assert (q + [x])[..|q|] == q;
  }

  lemma LabelKinds(k: nat, n: nat)
    ensures IsContinuation(AwaitLabel(k))
    ensures !IsContinuation(ThenLabel(n))
    ensures AwaitLabel(k) != ThenLabel(n)
  {
    assert AwaitLabel(k)[..20] == "async continuation #";
    assert ThenLabel(n)[0] == 'p';
  }

  /** Queueing the next continuation, and perhaps a `.then(` label after
      it, keeps the continuations numbered 1 to the counter. */
  lemma ContinuationsAppend(q: seq<string>, count: nat, awaits: bool, thens: bool, promises: nat)
    requires Continuations(q) == AwaitLabels(count)
    ensures Continuations(q + (if awaits then [AwaitLabel(count + 1)] else [])
                            + (if thens then [ThenLabel(promises)] else []))
      == AwaitLabels(count + (if awaits then 1 else 0))
  {
    var withAwait := q + (if awaits then [AwaitLabel(count + 1)] else []);
    LabelKinds(count + 1, promises);
    if awaits {
      ContinuationsPush(q, AwaitLabel(count + 1));
    } else {
      assert withAwait == q;
    }
    assert Continuations(withAwait) == AwaitLabels(count + (if awaits then 1 else 0));
    if thens {
      ContinuationsPush(withAwait, ThenLabel(promises));
    } else {
      assert withAwait + [] == withAwait;
    }
  }

  /** One line keeps the continuations numbered 1 to the counter. */
  lemma LineContinuations(s: State, line: string)
    requires Continuations(s.microtaskQueue) == AwaitLabels(s.asyncCount)
    ensures Continuations(ProcessLine(s, line).microtaskQueue) == AwaitLabels(ProcessLine(s, line).asyncCount)
  {
    LineEffect(s, line);
    LineQueues(s, line);
    var st := IsStatement(s.asyncFunctionName, line);
    ContinuationsAppend(s.microtaskQueue, s.asyncCount, st && Includes(line, "await"),
      st && Includes(line, ".then("), ProcessLine(s, line).promiseCount);
  }

  /** The k-th `await` line queues `async continuation #k`: read in queue
      order, the continuations in the microtask queue are the labels
      numbered 1 to the counter, whatever `.then(` labels sit between. */
  lemma {:induction false} ScanContinuations(s: State, lines: seq<string>)
    requires Continuations(s.microtaskQueue) == AwaitLabels(s.asyncCount)
    ensures Continuations(Scan(s, lines).microtaskQueue) == AwaitLabels(Scan(s, lines).asyncCount)
    decreases |lines|
  {
    if lines != [] {
      var next := ProcessLine(s, lines[0]);
      LineContinuations(s, lines[0]);
      ScanContinuations(next, lines[1..]);
      assert Scan(s, lines) == Scan(next, lines[1..]);
    }
  }

  /** Every `promise.then() #n` label queued carries a number no larger
      than the number of `new Promise` lines seen so far. */
  ghost predicate ThenLabelsBounded(q: seq<string>, promises: nat)
  {
    forall n: nat :: ThenLabel(n) in q ==> n <= promises
  }

  /** A continuation, and a `.then(` label numbered with the promise count
      as it now stands, keep every `.then(` label within the count. */
  lemma ThenLabelsAppend(q: seq<string>, count: nat, awaits: bool, thens: bool, promises: nat, more: nat)
    requires ThenLabelsBounded(q, promises) && promises <= more
    ensures ThenLabelsBounded(q + (if awaits then [AwaitLabel(count)] else [])
                                + (if thens then [ThenLabel(more)] else []), more)
  {
    var full := q + (if awaits then [AwaitLabel(count)] else []) + (if thens then [ThenLabel(more)] else []);
    forall n: nat | ThenLabel(n) in full
      ensures n <= more
    {
      LabelKinds(count, n);
      if ThenLabel(n) !in q {
        assert ThenLabel(n) == ThenLabel(more);
        PrefixCancel("promise.then() #", NatToString(n), NatToString(more));
        NatToStringInjective(n, more);
      }
    }
  }

  /** One line keeps every `.then(` label within the promise count. */
  lemma LineThenLabels(s: State, line: string)
    requires ThenLabelsBounded(s.microtaskQueue, s.promiseCount)
    ensures ThenLabelsBounded(ProcessLine(s, line).microtaskQueue, ProcessLine(s, line).promiseCount)
  {
    var next := ProcessLine(s, line);
    LineEffect(s, line);
    LineQueues(s, line);
    var st := IsStatement(s.asyncFunctionName, line);
    ThenLabelsAppend(s.microtaskQueue, next.asyncCount, st && Includes(line, "await"),
      st && Includes(line, ".then("), s.promiseCount, next.promiseCount);
  }

  lemma {:induction false} ScanThenLabels(s: State, lines: seq<string>)
    requires ThenLabelsBounded(s.microtaskQueue, s.promiseCount)
    ensures ThenLabelsBounded(Scan(s, lines).microtaskQueue, Scan(s, lines).promiseCount)
    decreases |lines|
  {
    if lines != [] {
      var next := ProcessLine(s, lines[0]);
      LineThenLabels(s, lines[0]);
      ScanThenLabels(next, lines[1..]);
      assert Scan(s, lines) == Scan(next, lines[1..]);
    }
  }

  // ---------------------------------------------------------------------
  // The event loop drains in FIFO order, microtasks first

  /** The step announcing the event loop. */
  function LoopStep(number: nat, q: seq<string>, callbacks: seq<string>, output: seq<string>): Step
  {
    Step(number, Fixed(LoopDescription), [], q, callbacks, output, Fixed(LoopHighlight), Fixed(LoopExplanation))
  }

  /** The step announcing the macrotask phase. */
  function PhaseStep(number: nat, callbacks: seq<string>, output: seq<string>): Step
  {
    Step(number, Fixed(PhaseDescription), [], [], callbacks, output, Fixed(PhaseHighlight), Fixed(PhaseExplanation))
  }

  /** The steps the event loop pushes, in closed form: the announcement,
      one step per microtask, then, only if a callback is queued, the
      phase announcement and one step per callback. */
  function LoopSteps(s: State): seq<Step>
  {
    var n := s.stepNumber;
    var q := s.microtaskQueue;
    var cb := s.callbackQueue;
    [LoopStep(n, q, cb, s.output)] + MicrotaskSteps(n + 1, q, cb, s.output)
      + (if cb == [] then [] else [PhaseStep(n + 1 + |q|, cb, s.output)] + MacrotaskSteps(n + 2 + |q|, cb, s.output))
  }

  /** The closed-form steps without a callback, and with one. */
  lemma LoopStepsParts(s: State)
    ensures var n := s.stepNumber; var q := s.microtaskQueue; var cb := s.callbackQueue;
      var head := [LoopStep(n, q, cb, s.output)] + MicrotaskSteps(n + 1, q, cb, s.output);
      && (cb == [] ==> LoopSteps(s) == head + [])
      && (cb != [] ==> LoopSteps(s) == head + ([PhaseStep(n + 1 + |q|, cb, s.output)] + MacrotaskSteps(n + 2 + |q|, cb, s.output)))
  {
  }

  /** The loop announcement pushes the closed-form announcement step. */
  lemma AnnounceSteps(s: State)
    ensures Announce(s).steps == s.steps + [LoopStep(s.stepNumber, s.microtaskQueue, s.callbackQueue, s.output)]
    ensures Announce(s).stepNumber == s.stepNumber + 1
  {
  }

  /** With a callback waiting, the phase announcement pushes the
      closed-form phase step. */
  lemma AnnouncePhaseSteps(s: State)
    requires s.callbackQueue != []
    ensures AnnouncePhase(s).steps == s.steps + [PhaseStep(s.stepNumber, s.callbackQueue, s.output)]
    ensures AnnouncePhase(s).stepNumber == s.stepNumber + 1
  {
  }

  /** The steps up to the last microtask: the announcement and one step
      per microtask. */
  lemma DrainedSteps(s: State)
    ensures var n := s.stepNumber; var q := s.microtaskQueue; var cb := s.callbackQueue;
      var drained := DrainMicrotasks(Announce(s));
      && drained.steps == s.steps + ([LoopStep(n, q, cb, s.output)] + MicrotaskSteps(n + 1, q, cb, s.output))
      && drained.stepNumber == n + 1 + |q| && drained.callbackQueue == cb && drained.output == s.output
  {
    AnnounceSteps(s);
    Assoc(s.steps, [LoopStep(s.stepNumber, s.microtaskQueue, s.callbackQueue, s.output)],
      MicrotaskSteps(s.stepNumber + 1, s.microtaskQueue, s.callbackQueue, s.output));
  }

  /** When it runs, the event loop pushes exactly the closed-form steps. */
  lemma EventLoopSteps(s: State)
    requires LoopRuns(s)
    ensures EventLoop(s).steps == s.steps + LoopSteps(s)
  {
    var n := s.stepNumber;
    var q := s.microtaskQueue;
    var cb := s.callbackQueue;
    var head := [LoopStep(n, q, cb, s.output)] + MicrotaskSteps(n + 1, q, cb, s.output);
    var drained := DrainMicrotasks(Announce(s));
    DrainedSteps(s);
    LoopStepsParts(s);
    if cb != [] {
      var p := [PhaseStep(n + 1 + |q|, cb, s.output)];
      var macro := MacrotaskSteps(n + 2 + |q|, cb, s.output);
      AnnouncePhaseSteps(drained);
      Assoc(s.steps, head, p);
      Assoc(s.steps, head + p, macro);
      Assoc(head, p, macro);
    }
  }

  /** Where each closed-form step sits among the event loop's steps. */
  lemma LoopStepsAt(s: State, i: nat)
    requires i < |LoopSteps(s)|
    ensures var n := s.stepNumber; var q := s.microtaskQueue; var cb := s.callbackQueue;
      var t := LoopSteps(s)[i];
      && |LoopSteps(s)| == 1 + |q| + (if cb == [] then 0 else 1 + |cb|)
      && (i == 0 ==> t == LoopStep(n, q, cb, s.output))
      && (0 < i <= |q| ==> t == MicrotaskSteps(n + 1, q, cb, s.output)[i - 1])
      && (i == |q| + 1 ==> t == PhaseStep(n + 1 + |q|, cb, s.output))
      && (|q| + 1 < i ==> t == MacrotaskSteps(n + 2 + |q|, cb, s.output)[i - 2 - |q|])
  {
  }

  // ---------------------------------------------------------------------
  // The whole analysis

  /** The first step is step 0 with everything empty; steps are numbered by
      their index; output only ever grows; the last step is the COMPLETE
      step with empty stacks and queues and exactly the messages the lines
      log, in line order. */
  lemma AnalysisShape(code: string)
    ensures var r := SimpleAnalyze(code);
      && r[0] == InitialStep && r[0].step == 0
      && r[0].callStack == [] && r[0].microtaskQueue == [] && r[0].callbackQueue == [] && r[0].output == []
      && (forall i :: 0 <= i < |r| ==> r[i].step == i)
      && OutputGrows(r)
      && r[|r| - 1].description == Fixed(CompleteDescription)
      && r[|r| - 1].callStack == [] && r[|r| - 1].microtaskQueue == [] && r[|r| - 1].callbackQueue == []
      && r[|r| - 1].output == OutputOf("", Lines(code))
  {
    var r := SimpleAnalyze(code);
    AnalysisNumbered(code);
    OutputGrowsFromSteps(r);
    ScanSummary(Initial, Lines(code));
  }

  /** Only an async-function call leaves a frame behind, and that frame
      keeps the event loop from running: the result is then the initial
      step, the steps of the lines and the COMPLETE step, nothing else,
      even when callbacks are queued. */
  lemma AsyncCallSuppressesEventLoop(code: string)
    ensures Scanned(code).callStack == FramesOf("", Lines(code))
    ensures FramesOf("", Lines(code)) != [] ==> |SimpleAnalyze(code)| == 2 + StepsOf("", Lines(code))
  {
    ScanSummary(Initial, Lines(code));
  }

  /** When the event loop runs on a state, the steps that end the analysis
      are the state's own steps, the closed-form loop steps and the
      terminal step. */
  lemma LoopStepShown(s: State, i: nat)
    requires LoopRuns(s) && i < |LoopSteps(s)|
    ensures |Finish(EventLoop(s))| == |s.steps| + |LoopSteps(s)| + 1
    ensures Finish(EventLoop(s))[|s.steps| + i] == LoopSteps(s)[i]
  {
    var looped := EventLoop(s);
    EventLoopSteps(s);
    assert (s.steps + LoopSteps(s))[|s.steps| + i] == LoopSteps(s)[i];
  }

  /** The k-th microtask runs in the k-th step after the loop
      announcement. */
  lemma MicrotaskShown(s: State, k: nat)
    requires LoopRuns(s) && k < |s.microtaskQueue|
    ensures var q := s.microtaskQueue;
      Finish(EventLoop(s))[|s.steps| + 1 + k]
        == MicrotaskStep(s.stepNumber + 1 + k, q[k], q[k + 1..], s.callbackQueue, s.output)
  {
    LoopStepShown(s, 1 + k);
    LoopStepsAt(s, 1 + k);
    MicrotaskStepsAt(s.stepNumber + 1, s.microtaskQueue, s.callbackQueue, s.output, k);
  }

  /** The k-th callback runs in the k-th step after the macrotask-phase
      announcement, which follows the last microtask. */
  lemma CallbackShown(s: State, k: nat)
    requires LoopRuns(s) && k < |s.callbackQueue|
    ensures var q := s.microtaskQueue; var cb := s.callbackQueue;
      Finish(EventLoop(s))[|s.steps| + 2 + |q| + k]
        == MacrotaskStep(s.stepNumber + 2 + |q| + k, cb[k], cb[k + 1..], s.output)
  {
    LoopStepShown(s, 2 + |s.microtaskQueue| + k);
    LoopStepsAt(s, 2 + |s.microtaskQueue| + k);
    MacrotaskStepsAt(s.stepNumber + 2 + |s.microtaskQueue|, s.callbackQueue, s.output, k);
  }

  /** When the event loop runs on a state, the analysis ends with the
      state's steps, the loop announcement, every microtask in queue order,
      and then, when a callback is queued, the phase announcement and every
      callback in queue order, and finally the terminal step. */
  lemma LoopShown(s: State)
    requires LoopRuns(s) && s.stepNumber == |s.steps|
    ensures var r := Finish(EventLoop(s));
      var n := |s.steps|; var q := s.microtaskQueue; var cb := s.callbackQueue;
      && |r| == n + 2 + |q| + (if cb == [] then 0 else 1 + |cb|)
      && r[n] == LoopStep(n, q, cb, s.output)
      && (forall k :: 0 <= k < |q| ==>
            r[n + 1 + k] == MicrotaskStep(n + 1 + k, q[k], q[k + 1..], cb, s.output))
      && (cb != [] ==> r[n + 1 + |q|] == PhaseStep(n + 1 + |q|, cb, s.output))
      && (forall k :: 0 <= k < |cb| ==>
            r[n + 2 + |q| + k] == MacrotaskStep(n + 2 + |q| + k, cb[k], cb[k + 1..], s.output))
      && r[|r| - 1].description == Fixed(CompleteDescription)
  {
    LoopStepShown(s, 0);
    LoopStepsAt(s, 0);
    if s.callbackQueue != [] {
      LoopStepShown(s, 1 + |s.microtaskQueue|);
      LoopStepsAt(s, 1 + |s.microtaskQueue|);
    }
    forall k | 0 <= k < |s.microtaskQueue| {
      MicrotaskShown(s, k);
    }
    forall k | 0 <= k < |s.callbackQueue| {
      CallbackShown(s, k);
    }
  }

  /** When the event loop runs, the analysis holds, after the steps of
      the lines, the loop announcement, every microtask in queue order,
      and then, when a callback is queued, the phase announcement and
      every callback in queue order, each alone on the call stack, and
      finally the terminal step. */
  lemma EventLoopShown(code: string)
    requires LoopRuns(Scanned(code))
    ensures var s := Scanned(code); var r := SimpleAnalyze(code);
      var n := |s.steps|; var q := s.microtaskQueue; var cb := s.callbackQueue;
      && |r| == n + 2 + |q| + (if cb == [] then 0 else 1 + |cb|)
      && r[n] == LoopStep(n, q, cb, s.output)
      && (forall k :: 0 <= k < |q| ==>
            r[n + 1 + k] == MicrotaskStep(n + 1 + k, q[k], q[k + 1..], cb, s.output))
      && (cb != [] ==> r[n + 1 + |q|] == PhaseStep(n + 1 + |q|, cb, s.output))
      && (forall k :: 0 <= k < |cb| ==>
            r[n + 2 + |q| + k] == MacrotaskStep(n + 2 + |q| + k, cb[k], cb[k + 1..], s.output))
      && r[|r| - 1].description == Fixed(CompleteDescription)
  {
    LoopShown(Scanned(code));
  }

  /** Without an async-function call, the event loop runs exactly when a
      queue is non-empty, and the callback queue holds the timer labels
      `#1`, `#2`, ... in registration order, one per `setTimeout` line. */
  lemma TimeoutCallbacksRunInOrder(code: string)
    requires FramesOf("", Lines(code)) == []
    ensures var s := Scanned(code); var q := s.microtaskQueue; var cb := s.callbackQueue;
      && |cb| == CountOf("", Lines(code), "setTimeout")
      && (forall k :: 0 <= k < |cb| ==> cb[k] == TimeoutLabel(k + 1))
      && (LoopRuns(s) <==> q != [] || cb != [])
  {
    var s := Scanned(code);
    ScanSummary(Initial, Lines(code));
    ScanTimeoutLabels(Initial, Lines(code));
    forall k | 0 <= k < |s.callbackQueue| ensures s.callbackQueue[k] == TimeoutLabel(k + 1) {
      TimeoutLabelsAt(s.timeoutCount, k);
    }
  }
}
