/**
 The line-based event-loop analyzer of `app/lib/utils/code-analyzer.ts`.

 `simpleAnalyze` turns a source text into the sequence of snapshots the
 visualiser plays back. It never executes the code: it splits the text into
 trimmed lines, drops blank and `//` lines, folds a small state over the
 rest in which substring tests decide what each line does to a simulated
 call stack, microtask queue, callback (macrotask) queue and console output,
 and finally drains the two queues, microtasks first.

 Every snapshot is an immutable value here, so the copies of the arrays that
 the source takes for each step are simply the values at that point.
 */
module Analyzer {
  import opened Wrappers
  import opened Text
  import opened Patterns

  /** One snapshot the visualiser shows (`EventLoopStep`). */
  datatype Step = Step(
    step: nat,
    description: Caption,
    callStack: seq<string>,
    microtaskQueue: seq<string>,
    callbackQueue: seq<string>,
    output: seq<string>,
    highlight: Caption,
    explanation: Caption)

  /** The analysis in progress: the four arrays of `ExecutionState`, the
      local variables of `simpleAnalyze`, and the steps pushed so far. */
  datatype State = State(
    callStack: seq<string>,
    microtaskQueue: seq<string>,
    callbackQueue: seq<string>,
    output: seq<string>,
    asyncFunctionName: string,
    afterAwait: bool,
    timeoutCount: nat,
    promiseCount: nat,
    asyncCount: nat,
    stepNumber: nat,
    steps: seq<Step>)

  // ---------------------------------------------------------------------
  // Preprocessing

  /** A trimmed line the analysis looks at: not empty, not a `//` comment. */
  predicate IsCodeLine(l: string)
  {
    l != [] && !StartsWith(l, "//")
  }

  /** Each piece is trimmed, and only the trimmed pieces that are neither
      empty nor `//` comments are kept, in order. */
  function KeepLines(pieces: seq<string>): (r: seq<string>)
    ensures |r| <= |pieces|
    ensures forall k :: 0 <= k < |r| ==> IsCodeLine(r[k]) && Trim(r[k]) == r[k]
  {
    if pieces == [] then []
    else
      var t := Trim(pieces[0]);
      TrimIdempotent(pieces[0]);
      (if IsCodeLine(t) then [t] else []) + KeepLines(pieces[1..])
  }

  /** The lines `simpleAnalyze` iterates over. */
  function Lines(code: string): (r: seq<string>)
    ensures forall k :: 0 <= k < |r| ==> IsCodeLine(r[k]) && Trim(r[k]) == r[k]
  {
    KeepLines(Split(code, '\n'))
  }

  // ---------------------------------------------------------------------
  // Labels and fixed texts

  function TimeoutLabel(k: nat): string
  {
    "setTimeout callback #" + NatToString(k)
  }

  function AwaitLabel(k: nat): string
  {
    "async continuation #" + NatToString(k)
  }

  function ThenLabel(n: nat): string
  {
    "promise.then() #" + NatToString(n)
  }

  function LogFrame(message: string): string
  {
    "console.log('" + message + "')"
  }

  /** The fixed words of the texts the steps show. */
  datatype Phrase =
    | InitialDescription
    | InitialHighlight
    | InitialExplanation
    | AsyncCallPrefix
    | AsyncCallExplanation
    | ExecutePrefix
    | AfterAwaitLogExplanation
    | SyncLogExplanation
    | TimeoutCalledDescription
    | TimeoutCalledExplanation
    | TimeoutQueuedDescription
    | TimeoutQueuedExplanation
    | AwaitPrefix
    | AwaitCallExplanation
    | AwaitPausedDescription
    | AwaitPausedExplanation
    | PromiseDescription
    | PromiseExplanation
    | ThenDescription
    | ThenExplanation
    | MicrotaskPrefix
    | MicrotaskExplanation
    | MacrotaskPrefix
    | MacrotaskExplanation
    | LoopDescription
    | LoopHighlight
    | LoopExplanation
    | PhaseDescription
    | PhaseHighlight
    | PhaseExplanation
    | DoneHighlight
    | DoneExplanation
    | ErrorDescription
    | ErrorHighlight
    | ErrorExplanation
    | CompleteDescription

  /** A phrase spelled out, word for word. */
  function Spell(p: Phrase): string
  {
    match p
    case InitialDescription => "Initial state - Code starts executing"
    case InitialHighlight => "Ready to execute"
    case InitialExplanation => "The JavaScript engine is ready to execute your code synchronously first"
    case AsyncCallPrefix => "Call async function: "
    case AsyncCallExplanation => " is an async function, it starts executing synchronously"
    case ExecutePrefix => "Execute: "
    case AfterAwaitLogExplanation => "This runs after await completes, as part of a microtask"
    case SyncLogExplanation => "Synchronous console.log executes immediately"
    case TimeoutCalledDescription => "setTimeout() is called"
    case TimeoutCalledExplanation => "setTimeout sends callback to Web API timer"
    case TimeoutQueuedDescription => "setTimeout callback registered in Callback Queue"
    case TimeoutQueuedExplanation => "After timer expires, callback waits in the Callback Queue (Macrotask Queue)"
    case AwaitPrefix => "Execute: await "
    case AwaitCallExplanation => "() executes synchronously first"
    case AwaitPausedDescription => "Await pauses execution, continuation queued as microtask"
    case AwaitPausedExplanation => "Everything after 'await' becomes a microtask. Function pauses here."
    case PromiseDescription => "new Promise - executor runs synchronously"
    case PromiseExplanation => "Promise executor function runs immediately and synchronously"
    case ThenDescription => ".then() callback added to Microtask Queue"
    case ThenExplanation => ".then() registers callback in the Microtask Queue"
    case MicrotaskPrefix => "Process Microtask: "
    case MicrotaskExplanation => "Microtask executes - promises have priority over macrotasks"
    case MacrotaskPrefix => "Process Macrotask: "
    case MacrotaskExplanation => "Macrotask executes from the Callback Queue"
    case LoopDescription => "Call Stack EMPTY! Event Loop starts"
    case LoopHighlight => "EVENT LOOP STARTS"
    case LoopExplanation => "Call stack is empty. Event loop will process ALL microtasks first, then macrotasks"
    case PhaseDescription => "All Microtasks complete! Moving to Macrotasks"
    case PhaseHighlight => "MACROTASK PHASE"
    case PhaseExplanation => "Microtask queue is empty. Event loop now processes one macrotask"
    case DoneHighlight => "DONE \U{2713}"
    case DoneExplanation => "Execution complete. All tasks have been processed by the event loop."
    case ErrorDescription => "Error: Unable to parse code"
    case ErrorHighlight => "ERROR"
    case ErrorExplanation => "There was an error analyzing your code. Please ensure it's valid JavaScript."
    case CompleteDescription => "COMPLETE! All queues empty"
  }

  /** A text a step shows: a fixed phrase, a value taken from the code (a
      line or a queued label), or a phrase joined to such a value. */
  datatype Caption =
    | Fixed(phrase: Phrase)
    | Quoted(value: string)
    | Before(phrase: Phrase, value: string)
    | After(value: string, phrase: Phrase)

  /** The string a text stands for, as the template literal builds it. */
  function Render(t: Caption): string
  {
    match t
    case Fixed(p) => Spell(p)
    case Quoted(v) => v
    case Before(p, v) => Spell(p) + v
    case After(v, p) => v + Spell(p)
  }

  /** The message `getErrorSteps` puts in the output. */
  const ErrorMessage := "Error: Please check your code syntax"

  /** Step 0, pushed before any line is looked at. */
  const InitialStep := Step(0, Fixed(InitialDescription), [], [], [], [],
    Fixed(InitialHighlight), Fixed(InitialExplanation))

  /** The state before the first line: step 0 pushed, the counter at 1. */
  const Initial := State([], [], [], [], "", false, 0, 0, 0, 1, [InitialStep])

  // ---------------------------------------------------------------------
  // Well-formedness of a state

  /** Every step carries its own index as its number. */
  ghost predicate Numbered(steps: seq<Step>)
  {
    forall i :: 0 <= i < |steps| ==> steps[i].step == i
  }

  /** Output only grows: each step's output is a prefix of every later one. */
  ghost predicate OutputGrows(steps: seq<Step>)
  {
    forall i, j :: 0 <= i <= j < |steps| ==> steps[i].output <= steps[j].output
  }

  /** Each step's output is a prefix of the next one's. */
  ghost predicate OutputStepsUp(steps: seq<Step>)
  {
    forall i, j :: 0 <= i && j == i + 1 && j < |steps| ==> steps[i].output <= steps[j].output
  }

  /** The steps are numbered by their index and each step's output is a
      prefix of the next one's, stated one step at a time from the back. */
  ghost predicate Chain(steps: seq<Step>)
    decreases |steps|
  {
    steps == [] ||
    (var n := |steps| - 1;
     && Chain(steps[..n])
     && steps[n].step == n
     && (n > 0 ==> steps[n - 1].output <= steps[n].output))
  }

  /** A chain is numbered and its outputs grow step by step. */
  lemma {:induction false} ChainNumbered(steps: seq<Step>)
    ensures Chain(steps) ==> Numbered(steps) && OutputStepsUp(steps)
    decreases |steps|
  {
    if steps != [] && Chain(steps) {
      var n := |steps| - 1;
      var front := steps[..n];
      ChainNumbered(front);
      assert forall i :: 0 <= i < n ==> steps[i] == front[i];
    }
  }

  /** The counter names the next index, the steps so far form a chain, and
      the last step's output is a prefix of the current output. */
  ghost predicate Consistent(s: State)
  {
    && s.stepNumber == |s.steps|
    && Chain(s.steps)
    && (s.steps != [] ==> s.steps[|s.steps| - 1].output <= s.output)
  }

  /** Records one step, numbered by the counter, which then moves on; it
      shows the given queues and stack, and always the current output. */
  function Emit(s: State, callStack: seq<string>, microtasks: seq<string>, callbacks: seq<string>,
                description: Caption, highlight: Caption, explanation: Caption): (r: State)
    ensures Consistent(s) ==> Consistent(r)
  {
    var steps := s.steps + [Step(s.stepNumber, description, callStack, microtasks, callbacks,
                                 s.output, highlight, explanation)];
    assert steps[..|s.steps|] == s.steps;
    s.(steps := steps, stepNumber := s.stepNumber + 1)
  }

  /** A push whose snapshot copies the state's own arrays. */
  function Snapshot(s: State, description: Caption, highlight: Caption, explanation: Caption): (r: State)
    ensures Consistent(s) ==> Consistent(r)
  {
    Emit(s, s.callStack, s.microtaskQueue, s.callbackQueue, description, highlight, explanation)
  }

  lemma PrefixTransitive(a: seq<string>, b: seq<string>, c: seq<string>)
    requires a <= b && b <= c
    ensures a <= c
  {
    assert c[..|b|][..|a|] == c[..|a|];
  }

  /** Appends a message to the output; the steps already recorded are
      untouched. */
  function Print(s: State, message: string): (r: State)
    ensures Consistent(s) ==> Consistent(r)
    ensures r.output == s.output + [message]
  {
    var r := s.(output := s.output + [message]);
    if s.steps != [] && s.steps[|s.steps| - 1].output <= s.output then
      PrefixTransitive(s.steps[|s.steps| - 1].output, s.output, r.output);
      r
    else r
  }

  function Pop(stack: seq<string>): seq<string>
    requires stack != []
  {
    stack[..|stack| - 1]
  }

  // ---------------------------------------------------------------------
  // How a line is dispatched

  /** A declaration is skipped. */
  predicate IsDeclaration(line: string)
  {
    StartsWith(line, "async function") || StartsWith(line, "function")
  }

  /** The line mentions a call of the last declared async function. */
  predicate IsAsyncCall(name: string, line: string)
  {
    Includes(line, name + "()") && name != ""
  }

  /** A line that is neither a declaration nor a call of the remembered
      async function. */
  predicate IsStatement(name: string, line: string)
  {
    !IsDeclaration(line) && !IsAsyncCall(name, line)
  }

  /** The remembered async function name after `line`. */
  function NameAfter(name: string, line: string): string
  {
    if IsDeclaration(line) then
      match DeclName(line)
      case Some(n) => if StartsWith(line, "async") then n else name
      case None => name
    else name
  }

  /** The message a `console.log` line logs, if any. */
  function LogOf(line: string): Option<string>
  {
    if Includes(line, "console.log") then LogMessage(line) else None
  }

  /** The callee an `await` line shows. */
  function AwaitName(line: string): string
  {
    match AwaitCallee(line)
    case Some(n) => n
    case None => "async operation"
  }

  // ---------------------------------------------------------------------
  // The handlers

  /** `r` is `s` with zero or more steps pushed after the existing ones. */
  ghost predicate Advances(s: State, r: State)
  {
    && |s.steps| <= |r.steps|
    && forall i {:trigger r.steps[i]} :: 0 <= i < |s.steps| ==> r.steps[i] == s.steps[i]
  }

  lemma AdvancesTransitive(a: State, b: State, c: State)
    requires Advances(a, b) && Advances(b, c)
    ensures Advances(a, c)
  {
    forall i | 0 <= i < |a.steps| ensures c.steps[i] == a.steps[i] {
      assert c.steps[i] == b.steps[i];
    }
  }

  /** 1 when `line` contains `needle`, else 0. */
  function Tally(line: string, needle: string): nat
  {
    if Includes(line, needle) then 1 else 0
  }

  /** What a statement line appends to the output: its log message, if any. */
  function Logged(line: string): seq<string>
  {
    match LogOf(line)
    case Some(m) => [m]
    case None => []
  }

  /** The call of an async function pushes a frame and a step,
      and the frame is never popped. */
  function CallAsync(s: State, line: string): (r: State)
    ensures Advances(s, r) && (Consistent(s) ==> Consistent(r))
    ensures r.callStack == s.callStack + [s.asyncFunctionName + "()"]
    ensures |r.steps| == |s.steps| + 1
    ensures r.steps[|s.steps|].callStack == r.callStack
    ensures r.(callStack := s.callStack, steps := s.steps, stepNumber := s.stepNumber) == s
  {
    var name := s.asyncFunctionName;
    var pushed := s.(callStack := s.callStack + [name + "()"]);
    Snapshot(pushed, Before(AsyncCallPrefix, name + "()"), Quoted(line),
      After(name, AsyncCallExplanation))
  }

  /** A matched `console.log` shows its frame on top of the
      stack, then logs the message and pops the frame. */
  function OnLog(s: State, line: string): (r: State)
    ensures Advances(s, r) && (Consistent(s) ==> Consistent(r))
    ensures r.output == s.output + Logged(line)
    ensures |r.steps| == |s.steps| + |Logged(line)|
    ensures r.afterAwait == (if LogOf(line).Some? then false else s.afterAwait)
    ensures r.callStack == s.callStack && r.microtaskQueue == s.microtaskQueue
    ensures r.callbackQueue == s.callbackQueue && r.asyncFunctionName == s.asyncFunctionName
    ensures r.timeoutCount == s.timeoutCount && r.promiseCount == s.promiseCount && r.asyncCount == s.asyncCount
    ensures LogOf(line).Some? ==>
      && r.steps[|s.steps|].callStack == s.callStack + [LogFrame(LogOf(line).value)]
      && r.steps[|s.steps|].output == s.output
  {
    match LogOf(line)
    case None => s
    case Some(m) =>
      // The frame is pushed for the snapshot and popped once the message is
      // printed, so only the snapshot shows it.
      var frame := LogFrame(m);
      var shown := Emit(s, s.callStack + [frame], s.microtaskQueue, s.callbackQueue,
        Before(ExecutePrefix, frame), Quoted(line),
        Fixed(if s.afterAwait then AfterAwaitLogExplanation else SyncLogExplanation));
      Print(shown, m).(afterAwait := false)
  }

  /** `setTimeout` shows its frame, pops it, and queues the
      next numbered callback. */
  function OnTimeout(s: State, line: string): (r: State)
    ensures Advances(s, r) && (Consistent(s) ==> Consistent(r))
    ensures r.timeoutCount == s.timeoutCount + Tally(line, "setTimeout")
    ensures r.callbackQueue == s.callbackQueue
      + (if Includes(line, "setTimeout") then [TimeoutLabel(r.timeoutCount)] else [])
    ensures |r.steps| == |s.steps| + 2 * Tally(line, "setTimeout")
    ensures r.callStack == s.callStack && r.microtaskQueue == s.microtaskQueue
    ensures r.output == s.output && r.asyncFunctionName == s.asyncFunctionName && r.afterAwait == s.afterAwait
    ensures r.promiseCount == s.promiseCount && r.asyncCount == s.asyncCount
    ensures Includes(line, "setTimeout") ==>
      && r.steps[|s.steps|].callStack == s.callStack + ["setTimeout()"]
      && r.steps[|s.steps| + 1].callStack == s.callStack
      && r.steps[|s.steps| + 1].callbackQueue == r.callbackQueue
  {
    if !Includes(line, "setTimeout") then s
    else
      var count := s.timeoutCount + 1;
      var pushed := s.(timeoutCount := count, callStack := s.callStack + ["setTimeout()"]);
      var shown := Snapshot(pushed, Fixed(TimeoutCalledDescription), Quoted(line),
        Fixed(TimeoutCalledExplanation));
      var queued := shown.(callStack := Pop(shown.callStack),
                           callbackQueue := shown.callbackQueue + [TimeoutLabel(count)]);
      Snapshot(queued, Fixed(TimeoutQueuedDescription), Quoted(line),
        Fixed(TimeoutQueuedExplanation))
  }

  /** `await` shows the awaited call, pops it, queues the
      next numbered continuation as a microtask and marks what follows as
      running after the await. */
  function OnAwait(s: State, line: string): (r: State)
    ensures Advances(s, r) && (Consistent(s) ==> Consistent(r))
    ensures r.asyncCount == s.asyncCount + Tally(line, "await")
    ensures r.microtaskQueue == s.microtaskQueue
      + (if Includes(line, "await") then [AwaitLabel(r.asyncCount)] else [])
    ensures r.afterAwait == (Includes(line, "await") || s.afterAwait)
    ensures |r.steps| == |s.steps| + 2 * Tally(line, "await")
    ensures r.callStack == s.callStack && r.callbackQueue == s.callbackQueue
    ensures r.output == s.output && r.asyncFunctionName == s.asyncFunctionName
    ensures r.timeoutCount == s.timeoutCount && r.promiseCount == s.promiseCount
    ensures Includes(line, "await") ==>
      && r.steps[|s.steps|].callStack == s.callStack + [AwaitName(line) + "()"]
      && r.steps[|s.steps| + 1].callStack == s.callStack
      && r.steps[|s.steps| + 1].microtaskQueue == r.microtaskQueue
  {
    if !Includes(line, "await") then s
    else
      var count := s.asyncCount + 1;
      var funcName := AwaitName(line);
      var pushed := s.(asyncCount := count, callStack := s.callStack + [funcName + "()"]);
      var shown := Snapshot(pushed, Before(AwaitPrefix, funcName + "()"), Quoted(line),
        After(funcName, AwaitCallExplanation));
      var queued := shown.(callStack := Pop(shown.callStack),
                           microtaskQueue := shown.microtaskQueue + [AwaitLabel(count)]);
      var paused := Snapshot(queued, Fixed(AwaitPausedDescription), Quoted(line),
        Fixed(AwaitPausedExplanation));
      paused.(afterAwait := true)
  }

  /** `new Promise` shows the executor frame, pops it and
      counts the promise. */
  function OnPromise(s: State, line: string): (r: State)
    ensures Advances(s, r) && (Consistent(s) ==> Consistent(r))
    ensures r.promiseCount == s.promiseCount + Tally(line, "new Promise")
    ensures |r.steps| == |s.steps| + Tally(line, "new Promise")
    ensures r.callStack == s.callStack && r.microtaskQueue == s.microtaskQueue && r.callbackQueue == s.callbackQueue
    ensures r.output == s.output && r.asyncFunctionName == s.asyncFunctionName && r.afterAwait == s.afterAwait
    ensures r.timeoutCount == s.timeoutCount && r.asyncCount == s.asyncCount
    ensures Includes(line, "new Promise") ==>
      r.steps[|s.steps|].callStack == s.callStack + ["Promise executor"]
  {
    if !Includes(line, "new Promise") then s
    else
      var pushed := s.(promiseCount := s.promiseCount + 1, callStack := s.callStack + ["Promise executor"]);
      var shown := Snapshot(pushed, Fixed(PromiseDescription), Quoted(line),
        Fixed(PromiseExplanation));
      shown.(callStack := Pop(shown.callStack))
  }

  /** `.then(` queues a microtask labelled with the number of
      promises created so far. */
  function OnThen(s: State, line: string): (r: State)
    ensures Advances(s, r) && (Consistent(s) ==> Consistent(r))
    ensures r.microtaskQueue == s.microtaskQueue
      + (if Includes(line, ".then(") then [ThenLabel(s.promiseCount)] else [])
    ensures |r.steps| == |s.steps| + Tally(line, ".then(")
    ensures r.callStack == s.callStack && r.callbackQueue == s.callbackQueue
    ensures r.output == s.output && r.asyncFunctionName == s.asyncFunctionName && r.afterAwait == s.afterAwait
    ensures r.timeoutCount == s.timeoutCount && r.promiseCount == s.promiseCount && r.asyncCount == s.asyncCount
    ensures Includes(line, ".then(") ==>
      r.steps[|s.steps|].microtaskQueue == r.microtaskQueue
  {
    if !Includes(line, ".then(") then s
    else
      var queued := s.(microtaskQueue := s.microtaskQueue + [ThenLabel(s.promiseCount)]);
      Snapshot(queued, Fixed(ThenDescription), Quoted(line),
        Fixed(ThenExplanation))
  }

  /** How many steps a statement line pushes. */
  function StatementSteps(line: string): nat
  {
    |Logged(line)| + 2 * Tally(line, "setTimeout") + 2 * Tally(line, "await")
      + Tally(line, "new Promise") + Tally(line, ".then(")
  }

  /** The statement handlers, in source order, on one line.
      Every frame they push they pop again; the line's log message is the
      only output; a timer, an await and a `.then(` each queue one label. */
  function OnStatement(s: State, line: string): (r: State)
    ensures Advances(s, r) && (Consistent(s) ==> Consistent(r))
    ensures r.callStack == s.callStack && r.asyncFunctionName == s.asyncFunctionName
    ensures r.output == s.output + Logged(line)
    ensures |r.steps| == |s.steps| + StatementSteps(line)
    ensures r.timeoutCount == s.timeoutCount + Tally(line, "setTimeout")
    ensures r.asyncCount == s.asyncCount + Tally(line, "await")
    ensures r.promiseCount == s.promiseCount + Tally(line, "new Promise")
    ensures r.callbackQueue == s.callbackQueue
      + (if Includes(line, "setTimeout") then [TimeoutLabel(r.timeoutCount)] else [])
    ensures r.microtaskQueue == s.microtaskQueue
      + (if Includes(line, "await") then [AwaitLabel(r.asyncCount)] else [])
      + (if Includes(line, ".then(") then [ThenLabel(r.promiseCount)] else [])
  {
    var logged := OnLog(s, line);
    var timed := OnTimeout(logged, line);
    AdvancesTransitive(s, logged, timed);
    var awaited := OnAwait(timed, line);
    AdvancesTransitive(s, timed, awaited);
    var promised := OnPromise(awaited, line);
    AdvancesTransitive(s, awaited, promised);
    var chained := OnThen(promised, line);
    AdvancesTransitive(s, promised, chained);
    chained
  }

  /** One iteration of the loop over the lines. */
  function ProcessLine(s: State, line: string): (r: State)
    ensures Advances(s, r) && (Consistent(s) ==> Consistent(r))
    ensures r.asyncFunctionName == NameAfter(s.asyncFunctionName, line)
    ensures IsDeclaration(line) ==> r == s.(asyncFunctionName := r.asyncFunctionName)
    ensures !IsDeclaration(line) && IsAsyncCall(s.asyncFunctionName, line) ==>
      && r.callStack == s.callStack + [s.asyncFunctionName + "()"]
      && |r.steps| == |s.steps| + 1
      && r.(callStack := s.callStack, steps := s.steps, stepNumber := s.stepNumber) == s
    ensures IsStatement(s.asyncFunctionName, line) ==>
      && r.callStack == s.callStack
      && r.output == s.output + Logged(line)
      && |r.steps| == |s.steps| + StatementSteps(line)
      && r == OnStatement(s, line)
  {
    if IsDeclaration(line) then s.(asyncFunctionName := NameAfter(s.asyncFunctionName, line))
    else if IsAsyncCall(s.asyncFunctionName, line) then CallAsync(s, line)
    else OnStatement(s, line)
  }

  /** The loop over the lines, left to right. */
  function Scan(s: State, lines: seq<string>): (r: State)
    ensures Advances(s, r) && (Consistent(s) ==> Consistent(r))
    decreases |lines|
  {
    if lines == [] then s
    else
      var next := ProcessLine(s, lines[0]);
      var r := Scan(next, lines[1..]);
      AdvancesTransitive(s, next, r);
      r
  }

  // ---------------------------------------------------------------------
  // The event loop

  /** The step for one shifted microtask, shown alone on the
      call stack above the tasks still queued behind it. */
  function MicrotaskStep(number: nat, task: string, rest: seq<string>, callbacks: seq<string>, output: seq<string>): Step
  {
    Step(number, Before(MicrotaskPrefix, task), [task], rest, callbacks, output,
      Quoted(task), Fixed(MicrotaskExplanation))
  }

  /** The step for one shifted callback, shown alone on the
      call stack with an empty microtask queue. */
  function MacrotaskStep(number: nat, task: string, rest: seq<string>, output: seq<string>): Step
  {
    Step(number, Before(MacrotaskPrefix, task), [task], [], rest, output,
      Quoted(task), Fixed(MacrotaskExplanation))
  }

  /** The steps the microtask loop pushes when the queue holds `q`: the
      front task is shifted and shown, then the
      loop goes on with the rest, numbering the steps on from `number`. */
  function MicrotaskSteps(number: nat, q: seq<string>, callbacks: seq<string>, output: seq<string>): (r: seq<Step>)
    ensures |r| == |q|
    decreases |q|
  {
    if q == [] then []
    else [MicrotaskStep(number, q[0], q[1..], callbacks, output)] + MicrotaskSteps(number + 1, q[1..], callbacks, output)
  }

  /** The steps the callback loop pushes when the queue holds `q`. */
  function MacrotaskSteps(number: nat, q: seq<string>, output: seq<string>): (r: seq<Step>)
    ensures |r| == |q|
    decreases |q|
  {
    if q == [] then []
    else [MacrotaskStep(number, q[0], q[1..], output)] + MacrotaskSteps(number + 1, q[1..], output)
  }

  /** The k-th microtask step is numbered `number + k` and shows the k-th
      task alone on the call stack above exactly the tasks after it. */
  lemma {:induction false} MicrotaskStepsAt(number: nat, q: seq<string>, callbacks: seq<string>, output: seq<string>, k: nat)
    requires k < |q|
    ensures MicrotaskSteps(number, q, callbacks, output)[k] == MicrotaskStep(number + k, q[k], q[k + 1..], callbacks, output)
    decreases k
  {
    if k > 0 {
      MicrotaskStepsAt(number + 1, q[1..], callbacks, output, k - 1);
      assert q[1..][k - 1] == q[k] && q[1..][k..] == q[k + 1..];
    }
  }

  /** The k-th macrotask step is numbered `number + k` and shows the k-th
      callback alone on the call stack above exactly the callbacks after
      it. */
  lemma {:induction false} MacrotaskStepsAt(number: nat, q: seq<string>, output: seq<string>, k: nat)
    requires k < |q|
    ensures MacrotaskSteps(number, q, output)[k] == MacrotaskStep(number + k, q[k], q[k + 1..], output)
    decreases k
  {
    if k > 0 {
      MacrotaskStepsAt(number + 1, q[1..], output, k - 1);
      assert q[1..][k - 1] == q[k] && q[1..][k..] == q[k + 1..];
    }
  }

  /** One step numbered by its index, showing an output the chain's last
      output is a prefix of, extends the chain. */
  lemma ChainSnoc(steps: seq<Step>, t: Step)
    requires Chain(steps) && t.step == |steps|
    requires steps != [] ==> steps[|steps| - 1].output <= t.output
    ensures Chain(steps + [t])
  {
    assert (steps + [t])[..|steps|] == steps;
  }

  /** Steps numbered on from the end of a chain, all showing one output
      that the chain's last output is a prefix of, extend the chain. */
  lemma {:induction false} ChainAppend(steps: seq<Step>, more: seq<Step>, output: seq<string>)
    requires Chain(steps) && (steps != [] ==> steps[|steps| - 1].output <= output)
    requires forall k :: 0 <= k < |more| ==> more[k].step == |steps| + k && more[k].output == output
    ensures Chain(steps + more)
    decreases |more|
  {
    if more == [] {
      assert steps + more == steps;
    } else {
      var t := more[0];
      ChainSnoc(steps, t);
      var longer := steps + [t];
      var rest := more[1..];
      forall k | 0 <= k < |rest| ensures rest[k].step == |longer| + k && rest[k].output == output {
        assert rest[k] == more[k + 1];
      }
      assert longer[|longer| - 1] == t && output <= output;
      ChainAppend(longer, rest, output);
      assert [t] + rest == more;
      Assoc(steps, [t], rest);
    }
  }

  /** Concatenation regroups freely. */
  lemma Assoc<T>(a: seq<T>, b: seq<T>, c: seq<T>)
    ensures a + b + c == a + (b + c)
  {
  }

  /** The microtask steps continue the chain of a well-formed state. */
  lemma MicrotaskChain(s: State)
    ensures Consistent(s) ==> Chain(s.steps + MicrotaskSteps(s.stepNumber, s.microtaskQueue, s.callbackQueue, s.output))
    ensures Consistent(s) && s.microtaskQueue != [] ==>
      MicrotaskSteps(s.stepNumber, s.microtaskQueue, s.callbackQueue, s.output)[|s.microtaskQueue| - 1].output == s.output
  {
    if Consistent(s) {
      var more := MicrotaskSteps(s.stepNumber, s.microtaskQueue, s.callbackQueue, s.output);
      forall k | 0 <= k < |more| ensures more[k].step == |s.steps| + k && more[k].output == s.output {
        MicrotaskStepsAt(s.stepNumber, s.microtaskQueue, s.callbackQueue, s.output, k);
      }
      ChainAppend(s.steps, more, s.output);
    }
  }

  /** The macrotask steps continue the chain of a well-formed state. */
  lemma MacrotaskChain(s: State)
    ensures Consistent(s) ==> Chain(s.steps + MacrotaskSteps(s.stepNumber, s.callbackQueue, s.output))
    ensures Consistent(s) && s.callbackQueue != [] ==>
      MacrotaskSteps(s.stepNumber, s.callbackQueue, s.output)[|s.callbackQueue| - 1].output == s.output
  {
    if Consistent(s) {
      var more := MacrotaskSteps(s.stepNumber, s.callbackQueue, s.output);
      forall k | 0 <= k < |more| ensures more[k].step == |s.steps| + k && more[k].output == s.output {
        MacrotaskStepsAt(s.stepNumber, s.callbackQueue, s.output, k);
      }
      ChainAppend(s.steps, more, s.output);
    }
  }

  /** Shift every microtask; the queue ends empty, the
      counter moves past the steps pushed. */
  function DrainMicrotasks(s: State): (r: State)
    ensures Advances(s, r) && (Consistent(s) ==> Consistent(r))
    ensures r.microtaskQueue == []
    ensures r.callStack == s.callStack && r.callbackQueue == s.callbackQueue && r.output == s.output
    ensures r == s.(microtaskQueue := [], steps := r.steps, stepNumber := r.stepNumber)
    ensures r.steps == s.steps + MicrotaskSteps(s.stepNumber, s.microtaskQueue, s.callbackQueue, s.output)
    ensures r.stepNumber == s.stepNumber + |s.microtaskQueue|
  {
    var q := s.microtaskQueue;
    var more := MicrotaskSteps(s.stepNumber, q, s.callbackQueue, s.output);
    MicrotaskChain(s);
    s.(microtaskQueue := [], steps := s.steps + more, stepNumber := s.stepNumber + |q|)
  }

  /** Shift every macrotask; the queue ends empty, the
      counter moves past the steps pushed. */
  function DrainMacrotasks(s: State): (r: State)
    ensures Advances(s, r) && (Consistent(s) ==> Consistent(r))
    ensures r.callbackQueue == []
    ensures r.callStack == s.callStack && r.microtaskQueue == s.microtaskQueue && r.output == s.output
    ensures r == s.(callbackQueue := [], steps := r.steps, stepNumber := r.stepNumber)
    ensures r.steps == s.steps + MacrotaskSteps(s.stepNumber, s.callbackQueue, s.output)
    ensures r.stepNumber == s.stepNumber + |s.callbackQueue|
  {
    var q := s.callbackQueue;
    var more := MacrotaskSteps(s.stepNumber, q, s.output);
    MacrotaskChain(s);
    s.(callbackQueue := [], steps := s.steps + more, stepNumber := s.stepNumber + |q|)
  }

  /** The event loop runs only once the call stack is empty and
      something is queued. */
  predicate LoopRuns(s: State)
  {
    s.callStack == [] && (s.microtaskQueue != [] || s.callbackQueue != [])
  }

  /** The step that announces the event loop. */
  function Announce(s: State): (r: State)
    ensures Advances(s, r) && (Consistent(s) ==> Consistent(r))
    ensures |r.steps| == |s.steps| + 1
    ensures r.callStack == s.callStack && r.microtaskQueue == s.microtaskQueue
    ensures r.callbackQueue == s.callbackQueue && r.output == s.output
    ensures r.steps[|s.steps|].callStack == []
    ensures r.steps[|s.steps|].microtaskQueue == s.microtaskQueue
    ensures r.steps[|s.steps|].callbackQueue == s.callbackQueue
  {
    Emit(s, [], s.microtaskQueue, s.callbackQueue,
      Fixed(LoopDescription), Fixed(LoopHighlight), Fixed(LoopExplanation))
  }

  /** The step that announces the macrotask phase, pushed
      only when a macrotask is waiting. */
  function AnnouncePhase(s: State): (r: State)
    ensures Advances(s, r) && (Consistent(s) ==> Consistent(r))
    ensures |r.steps| == |s.steps| + (if s.callbackQueue == [] then 0 else 1)
    ensures r.callStack == s.callStack && r.microtaskQueue == s.microtaskQueue
    ensures r.callbackQueue == s.callbackQueue && r.output == s.output
    ensures s.callbackQueue != [] ==>
      && r.steps[|s.steps|].callStack == [] && r.steps[|s.steps|].microtaskQueue == []
      && r.steps[|s.steps|].callbackQueue == s.callbackQueue
  {
    if s.callbackQueue == [] then s
    else
      Emit(s, [], [], s.callbackQueue,
        Fixed(PhaseDescription), Fixed(PhaseHighlight), Fixed(PhaseExplanation))
  }

  /** Announce the loop, drain all microtasks, announce the
      macrotask phase when there are macrotasks, drain them. */
  function EventLoop(s: State): (r: State)
    ensures Advances(s, r) && (Consistent(s) ==> Consistent(r))
    ensures r.output == s.output && r.callStack == s.callStack
    ensures !LoopRuns(s) ==> r == s
    ensures LoopRuns(s) ==> r.microtaskQueue == [] && r.callbackQueue == []
  {
    if !LoopRuns(s) then s
    else
      var started := Announce(s);
      var drained := DrainMicrotasks(started);
      var phase := AnnouncePhase(drained);
      var r := DrainMacrotasks(phase);
      AdvancesTransitive(s, started, drained);
      AdvancesTransitive(s, drained, phase);
      AdvancesTransitive(s, phase, r);
      r
  }

  /** The terminal step, numbered with the counter as it
      stands, shows empty stacks and queues and the output so far. */
  function Finish(s: State): (r: seq<Step>)
    ensures Consistent(s) ==> Chain(r)
    ensures |r| == |s.steps| + 1
    ensures forall i {:trigger r[i]} :: 0 <= i < |s.steps| ==> r[i] == s.steps[i]
    ensures r[|s.steps|].description == Fixed(CompleteDescription)
    ensures r[|s.steps|].callStack == [] && r[|s.steps|].microtaskQueue == [] && r[|s.steps|].callbackQueue == []
    ensures r[|s.steps|].output == s.output
  {
    Emit(s, [], [], [], Fixed(CompleteDescription), Fixed(DoneHighlight),
      Fixed(DoneExplanation)).steps
  }

  // ---------------------------------------------------------------------
  // Entry points

  lemma InitialConsistent()
    ensures Consistent(Initial) && |Initial.steps| == 1 && Initial.steps[0] == InitialStep
  {
  }

  /** The state after the loop over the lines of `code`. */
  function Scanned(code: string): (r: State)
    ensures Consistent(r) && |r.steps| >= 1 && r.steps[0] == InitialStep
  {
    InitialConsistent();
    var r := Scan(Initial, Lines(code));
    r
  }

  /** `simpleAnalyze()`. */
  function SimpleAnalyze(code: string): (r: seq<Step>)
    ensures |r| >= 2 && r[0] == InitialStep
    ensures r[|r| - 1].description == Fixed(CompleteDescription)
    ensures r[|r| - 1].callStack == [] && r[|r| - 1].microtaskQueue == [] && r[|r| - 1].callbackQueue == []
  {
    var looped := EventLoop(Scanned(code));
    Finish(looped)
  }

  /** Every step of the analysis carries its index as its number, and each
      step's output is a prefix of the next one's. */
  lemma AnalysisNumbered(code: string)
    ensures Numbered(SimpleAnalyze(code)) && OutputStepsUp(SimpleAnalyze(code))
  {
    ChainNumbered(Finish(EventLoop(Scanned(code))));
  }

  /** `getErrorSteps()`: the single step shown when analysis throws. */
  function ErrorSteps(): (r: seq<Step>)
    ensures |r| == 1 && r[0].step == 0 && Numbered(r)
    ensures r[0].callStack == [] && r[0].microtaskQueue == [] && r[0].callbackQueue == []
    ensures r[0].output == [ErrorMessage]
  {
    [Step(0, Fixed(ErrorDescription), [], [], [], [ErrorMessage], Fixed(ErrorHighlight),
      Fixed(ErrorExplanation))]
  }

  /** `analyze()`: `simpleAnalyze()` inside a `try` whose `catch` returns
      `getErrorSteps()`. Nothing `simpleAnalyze` does to a string throws
      (splitting, trimming, filtering, substring tests, non-global `match`,
      and `pop`/`shift` only on non-empty arrays), so the catch is never
      taken and the result is never the error sequence. */
  function Analyze(code: string): (r: seq<Step>)
    ensures |r| >= 2 && r != ErrorSteps()
    ensures r[0] == InitialStep && Numbered(r)
  {
    AnalysisNumbered(code);
    SimpleAnalyze(code)
  }

  /** `analyzeCode(code)`: a fresh analyzer over `code`, which yields the
      analysis of `code` and never the error step. */
  function AnalyzeCode(code: string): (r: seq<Step>)
    ensures r == SimpleAnalyze(code) && r != ErrorSteps()
    ensures r[0] == InitialStep && r[|r| - 1].description == Fixed(CompleteDescription)
  {
    Analyze(code)
  }
}
