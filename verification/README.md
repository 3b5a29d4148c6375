# JS-Visualizer: the event-loop analyzer and the playback cursor

JS-Visualizer shows how the JavaScript event loop orders a short script. It shows the call stack, the microtask queue, the callback (macrotask) queue and the console output as a series of steps. This project models its two pieces of logic and proves what they promise.

**The analyzer** (`app/lib/utils/code-analyzer.ts`) never runs the script. It works in these stages:

1. It splits the text on `\n`, trims each line, and drops blank lines and `//` lines.
2. It folds a small state over the remaining lines. Substring tests and three regular expressions send each line to one or more handlers:
   - function declarations
   - async-function calls
   - `console.log`
   - `setTimeout`
   - `await`
   - `new Promise`
   - `.then(`
3. When the call stack is empty and something is queued, it drains the microtasks first and then the callbacks. Each queue is drained first in, first out.
4. It appends a terminal COMPLETE step.

`analyze` wraps this in a `try` whose `catch` returns a single error step.

**The playback cursor** (`app/lib/hooks/use-event-loop-visualizer.ts`) is the pair (current step, playing). It changes through previous, next, reset and play/pause, and through the updater the auto-play interval runs.

The modules, one per file:

- `Wrappers`: `Option`.
- `Text`: the JavaScript string primitives the analyzer uses:
  - `trim` and `split`
  - `startsWith` and `includes`
  - the character classes `\s`, `\w` and `.`
  - decimal rendering of a counter
- `Patterns`: the three regular expressions, each written as a leftmost search. Each search is proved against a declarative description of a match at one index:
  - `/function\s+(\w+)/`
  - `/console\.log\(['"](.+?)['"]\)/`, whose lazy capture is the shortest one
  - `/await\s+(\w+)\(/`
- `Analyzer`:
  - the `Step` and `State` datatypes
  - one function per handler
  - the fold `Scan`
  - the drains
  - `SimpleAnalyze`, `Analyze` and `AnalyzeCode`
- `AnalyzerProofs`: properties of the whole analysis:
  - which lines count
  - numbering and output growth
  - call-stack balance
  - queue labels
  - the exact steps the event loop adds
- `Playback`: the cursor transitions and their invariants.

The texts a step shows (description, highlight, explanation) are values of `Caption`: a fixed `Phrase`, a value taken from the code, or the two joined. `Spell` and `Render` give the exact strings the source builds with its template literals. The labels and output messages, which the properties are about, are plain strings.

## Model

| member | source | states |
|---|---|---|
| Text.Trim | app/lib/utils/code-analyzer.ts:37 | `trim` removes only white space (the `\s` set) from both ends, and what is left neither starts nor ends with white space |
| Text.TrimIdempotent | app/lib/utils/code-analyzer.ts:37 | trimming an already trimmed line changes nothing |
| Text.Split | app/lib/utils/code-analyzer.ts:36 | `split("\n")` gives at least one piece, no piece holds a newline, and joining the pieces with newlines gives the text back |
| Text.SplitJoin | app/lib/utils/code-analyzer.ts:36 | splitting undoes joining for newline-free pieces |
| Text.IncludesOccurs | app/lib/utils/code-analyzer.ts:74 | `includes` holds exactly when the needle occurs at some index |
| Text.ParseNatToString | app/lib/utils/code-analyzer.ts:135 | the decimal rendering of a counter in a label reads back as the same number |
| Text.NatToStringInjective | app/lib/utils/code-analyzer.ts:135 | different counters render as different digit strings |
| Patterns.DeclNameMatches | app/lib/utils/code-analyzer.ts:66 | the name is absent exactly when `function\s+(\w+)` matches nowhere; otherwise it is the word run captured at the leftmost match |
| Patterns.DeclUnique | app/lib/utils/code-analyzer.ts:66 | a match of `function\s+(\w+)` at a given index has only one white-space gap and one capture length, because both runs are maximal, so the leftmost match fixes the captured name |
| Patterns.AwaitUnique | app/lib/utils/code-analyzer.ts:153 | a match of `await\s+(\w+)\(` at a given index has only one white-space gap and one capture length, so the leftmost match fixes the captured callee |
| Patterns.LogMessageMatches | app/lib/utils/code-analyzer.ts:92 | the message is absent exactly when the `console.log` pattern matches nowhere; otherwise it is the shortest capture at the leftmost matching index |
| Patterns.AwaitCalleeMatches | app/lib/utils/code-analyzer.ts:153 | the callee is absent exactly when `await\s+(\w+)\(` matches nowhere; otherwise it is the word run captured at the leftmost match |
| Analyzer.KeepLines | app/lib/utils/code-analyzer.ts:37-38 | every kept line is trimmed, non-empty and not a `//` comment, and no more lines are kept than there were pieces; `AnalyzerProofs.KeptLine` and `AnalyzerProofs.IgnoredLineDropped` give the converse |
| Analyzer.Lines | app/lib/utils/code-analyzer.ts:35-38 | the analysed lines are trimmed code lines; `AnalyzerProofs.KeptLineInText` gives the converse |
| Analyzer.CallAsync | app/lib/utils/code-analyzer.ts:74-88 | an async call pushes the function's frame, which stays pushed, and pushes one step whose call stack shows it; nothing else changes |
| Analyzer.OnLog | app/lib/utils/code-analyzer.ts:91-117 | a matched log adds one step, which shows the `console.log('m')` frame above the stack and the output before `m`. The output then gains exactly `m`, the stack is unchanged and `afterAwait` is cleared. An unmatched line changes nothing |
| Analyzer.OnTimeout | app/lib/utils/code-analyzer.ts:120-148 | a `setTimeout` line bumps the timer counter, queues `setTimeout callback #k` with the new count and pushes two steps. The first shows the `setTimeout()` frame; the second shows it popped and the callback queued |
| Analyzer.OnAwait | app/lib/utils/code-analyzer.ts:151-185 | an `await` line bumps the await counter, queues `async continuation #k`, sets `afterAwait`, and pushes two steps showing the awaited call's frame and then its pop |
| Analyzer.OnPromise | app/lib/utils/code-analyzer.ts:188-203 | `new Promise` bumps the promise counter and pushes one step showing the executor frame, which is then popped |
| Analyzer.OnThen | app/lib/utils/code-analyzer.ts:206-218 | `.then(` queues `promise.then() #n`, with n the promise count as it stands, and pushes one step that shows it queued |
| Analyzer.OnStatement | app/lib/utils/code-analyzer.ts:90-218 | the statement handlers on one line leave the call stack unchanged. The output gains only the line's log message, each counter moves by the presence of its keyword, and each queue gains exactly its labels in handler order |
| Analyzer.ProcessLine | app/lib/utils/code-analyzer.ts:62-218 | a declaration changes only the remembered name (and only an `async` one changes it). An async call pushes one frame and one step. Any other line runs the statement handlers |
| Analyzer.Scan | app/lib/utils/code-analyzer.ts:61-219 | the loop over the lines only appends steps and keeps the steps numbered and their outputs growing |
| Analyzer.MicrotaskStepsAt | app/lib/utils/code-analyzer.ts:239-252 | the k-th microtask step is numbered k on from the first and shows the k-th task alone on the call stack, with exactly the tasks behind it still queued |
| Analyzer.MacrotaskStepsAt | app/lib/utils/code-analyzer.ts:270-282 | the k-th macrotask step shows the k-th callback alone on the call stack, with an empty microtask queue and the callbacks behind it still queued |
| Analyzer.DrainMicrotasks | app/lib/utils/code-analyzer.ts:239-252 | the microtask loop empties the queue and appends one step per task. The counter moves by the number of tasks, and every other field stays unchanged |
| Analyzer.DrainMacrotasks | app/lib/utils/code-analyzer.ts:270-282 | the macrotask loop empties the callback queue and appends one step per callback. The counter moves by the number of callbacks, and every other field stays unchanged |
| Analyzer.Announce | app/lib/utils/code-analyzer.ts:226-236 | the loop announcement is one step with an empty call stack and both queues as they stand |
| Analyzer.AnnouncePhase | app/lib/utils/code-analyzer.ts:255-267 | the macrotask-phase step is pushed exactly when a callback is waiting, and it shows an empty stack and an empty microtask queue |
| Analyzer.EventLoop | app/lib/utils/code-analyzer.ts:222-283 | the drain runs only when the call stack is empty and a queue is not; when it runs, both queues end empty; it never changes the output or the call stack |
| Analyzer.Finish | app/lib/utils/code-analyzer.ts:286-296 | the terminal step is appended after the existing ones; it is the COMPLETE step, with empty stack and queues and the output so far |
| Analyzer.Scanned | app/lib/utils/code-analyzer.ts:41-61 | after the loop over the lines the steps still start with the initial step, are numbered by index and have growing outputs |
| Analyzer.SimpleAnalyze | app/lib/utils/code-analyzer.ts:26-299 | the analysis has at least two steps, starts with the initial step and ends with the COMPLETE step with empty stack and queues |
| Analyzer.AnalysisNumbered | app/lib/utils/code-analyzer.ts:53-287 | every step carries its index as its number, and each step's output is a prefix of the next one's |
| Analyzer.ErrorSteps | app/lib/utils/code-analyzer.ts:301-315 | the error result is one step 0 with empty stack and queues and the output `Error: Please check your code syntax` |
| Analyzer.Analyze | app/lib/utils/code-analyzer.ts:17-24 | `analyze` returns the numbered analysis starting with the initial step, never the error step |
| Analyzer.AnalyzeCode | app/lib/utils/code-analyzer.ts:318-321 | `analyzeCode` returns the analysis of its argument, starting with the initial step and ending with the COMPLETE step |
| AnalyzerProofs.LinesOfJoin | app/lib/utils/code-analyzer.ts:35-38 | the lines of a text are the trimmed newline-free pieces that are neither blank nor `//` comments, in order |
| AnalyzerProofs.KeptLine | app/lib/utils/code-analyzer.ts:37-38 | a piece that trims to a code line is kept, trimmed, in its place between the lines kept before and after it |
| AnalyzerProofs.IgnoredLineDropped | app/lib/utils/code-analyzer.ts:37-38 | a piece that trims to a blank or `//` line is dropped, and the pieces around it are kept as if it were absent |
| AnalyzerProofs.KeptLineInText | app/lib/utils/code-analyzer.ts:35-38 | a code line anywhere in a text is analysed, trimmed, between the lines of the text before it and the text after it |
| AnalyzerProofs.SameLinesSameAnalysis | app/lib/utils/code-analyzer.ts:35-38 | two texts with the same filtered lines are analysed identically |
| AnalyzerProofs.IgnoredLineChangesNothing | app/lib/utils/code-analyzer.ts:35-38 | inserting a blank or `//` line anywhere in a text leaves its analysis exactly as it was |
| AnalyzerProofs.OutputGrowsFromSteps | app/lib/utils/code-analyzer.ts:110 | growth from each step to the next gives growth from any step to any later one |
| AnalyzerProofs.LineEffect | app/lib/utils/code-analyzer.ts:62-218 | one line changes the output by its log message. It changes the call stack only by an async-call frame. Each counter moves by the line's keyword, and the step count by that line's steps |
| AnalyzerProofs.ScanSummary | app/lib/utils/code-analyzer.ts:61-219 | over all lines the output is exactly the logged messages in line order. The call stack gains exactly the async-call frames. Each counter counts its keyword's statement lines, and the step count is the sum over the lines |
| AnalyzerProofs.TimeoutLabelsDistinct | app/lib/utils/code-analyzer.ts:135 | no two queued timer callbacks share a label |
| AnalyzerProofs.LineQueues | app/lib/utils/code-analyzer.ts:119-218 | a statement line appends its timer label to the callback queue. It appends its continuation label and then its `.then(` label to the microtask queue, each numbered with the counter as the line leaves it |
| AnalyzerProofs.ScanTimeoutLabels | app/lib/utils/code-analyzer.ts:121-135 | the callback queue is always `setTimeout callback #1` … `#k` for the current timer count, so the k-th `setTimeout` line queues `#k` |
| AnalyzerProofs.ScanContinuations | app/lib/utils/code-analyzer.ts:152-169 | the continuations in the microtask queue, in queue order, are `async continuation #1` … `#k` for the current await count |
| AnalyzerProofs.ScanThenLabels | app/lib/utils/code-analyzer.ts:189-207 | every `promise.then() #n` queued carries an n no larger than the promise count |
| AnalyzerProofs.EventLoopSteps | app/lib/utils/code-analyzer.ts:222-283 | when it runs, the event loop appends exactly these steps: the announcement, one step per microtask, then (only if a callback waits) the phase step and one step per callback |
| AnalyzerProofs.LoopStepsAt | app/lib/utils/code-analyzer.ts:222-283 | where each kind of loop step sits, and how many there are |
| AnalyzerProofs.AnalysisShape | app/lib/utils/code-analyzer.ts:26-299 | the first step is step 0 with all four sequences empty and steps are numbered by index. Output only grows. The last step is COMPLETE, with empty stack and queues and exactly the logged messages in line order |
| AnalyzerProofs.AsyncCallSuppressesEventLoop | app/lib/utils/code-analyzer.ts:222-225 | only async-call frames stay on the stack. When any is left, the event loop does not run: the result is the initial step, the line steps and the COMPLETE step, even with callbacks queued |
| AnalyzerProofs.MicrotaskShown | app/lib/utils/code-analyzer.ts:239-252 | the k-th microtask runs in the k-th step after the loop announcement |
| AnalyzerProofs.CallbackShown | app/lib/utils/code-analyzer.ts:255-282 | the k-th callback runs in the k-th step after the phase announcement, which follows the last microtask |
| AnalyzerProofs.LoopShown | app/lib/utils/code-analyzer.ts:222-296 | after a state's steps come the loop announcement and every microtask in queue order. If a callback waits, the phase step and every callback in queue order follow. The terminal step comes last |
| AnalyzerProofs.EventLoopShown | app/lib/utils/code-analyzer.ts:222-296 | for the analysis of a text: right after the line steps comes the loop announcement, then every microtask FIFO, each alone on the stack. Then, if a callback waits, the phase step and every callback FIFO with an empty microtask queue. The COMPLETE step comes last |
| AnalyzerProofs.TimeoutCallbacksRunInOrder | app/lib/utils/code-analyzer.ts:119-148 | without an async call, the callback queue holds one label per `setTimeout` line, `#1`, `#2`, … in order. The event loop runs exactly when some queue is non-empty |
| Playback.Previous | app/lib/hooks/use-event-loop-visualizer.ts:52-55 | stops playback and moves one step back, staying at 0 at the first step |
| Playback.Next | app/lib/hooks/use-event-loop-visualizer.ts:57-60 | stops playback and moves one step on, staying on the last step |
| Playback.Reset | app/lib/hooks/use-event-loop-visualizer.ts:62-65 | stops playback on the first step |
| Playback.ResetIdempotent | app/lib/hooks/use-event-loop-visualizer.ts:62-65 | resetting twice is resetting once |
| Playback.PlayPause | app/lib/hooks/use-event-loop-visualizer.ts:42-50 | always toggles playback; the step changes only when starting from the last step or beyond, and then to 0 |
| Playback.PlayPauseTwice | app/lib/hooks/use-event-loop-visualizer.ts:42-50 | away from the last step, pressing play/pause twice gives back the same cursor |
| Playback.PlayFromLastRewinds | app/lib/hooks/use-event-loop-visualizer.ts:42-50 | starting playback on the last step rewinds to step 0, playing |
| Playback.Tick | app/lib/hooks/use-event-loop-visualizer.ts:29-36 | below the last step the updater advances exactly one step; at or past it, it keeps the step and stops playback |
| Playback.Fire | app/lib/hooks/use-event-loop-visualizer.ts:22-37 | the updater runs only while playing off the last step, and otherwise nothing changes |
| Playback.FireTimesAdvances | app/lib/hooks/use-event-loop-visualizer.ts:22-37 | while playing, n firings advance the cursor to min(step + n, total − 1), still playing |
| Playback.ApplyKeepsRange | app/lib/hooks/use-event-loop-visualizer.ts:29-65 | with at least one step, previous, next, reset, play/pause, a firing and the updater all keep the step within 0 … total − 1 |
| Playback.RunKeepsRange | app/lib/hooks/use-event-loop-visualizer.ts:29-65 | any sequence of those actions keeps the step in range |
| Playback.RunFromStart | app/lib/hooks/use-event-loop-visualizer.ts:9-65 | from the initial cursor (step 0, paused), whatever happens, the step stays in range |
| Playback.FirstStepIffPreviousStays | app/lib/hooks/use-event-loop-visualizer.ts:14 | `isFirstStep` holds exactly when previous leaves the step where it is |
| Playback.LastStepIffNextStays | app/lib/hooks/use-event-loop-visualizer.ts:15 | `isLastStep` holds exactly when next leaves the step where it is |
| Playback.PreviousNextInverse | app/lib/hooks/use-event-loop-visualizer.ts:52-60 | off the last step, previous undoes next; off the first, next undoes previous |
| Playback.FireKeepsPlaying | app/lib/hooks/use-event-loop-visualizer.ts:22-37 | as written, a firing never changes whether playback is on |
| Playback.PlayingAtEndAsWritten | app/lib/hooks/use-event-loop-visualizer.ts:22-37 | with two steps, one firing from step 0 playing reaches the last step still playing, and no timer stays armed |
| Playback.FireStopping | app/lib/hooks/use-event-loop-visualizer.ts:29-34 | the corrected firing: it advances one step and ends playback on reaching the last step |
| Playback.ApplyStoppingKeepsLive | app/lib/hooks/use-event-loop-visualizer.ts:22-65 | with the corrected firing and at least two steps, every action keeps the cursor in range, and it plays only while a timer is armed |
| Playback.RunStoppingKeepsLive | app/lib/hooks/use-event-loop-visualizer.ts:22-65 | with the corrected firing and at least two steps, from a cursor that is in range and plays only while a timer is armed, no sequence of actions leaves it playing with no timer armed |
| Playback.OneStepPlaysWithoutTimer | app/lib/hooks/use-event-loop-visualizer.ts:22-50 | with a single step, pressing play from the start leaves the cursor playing on the last step with no timer armed, even with the corrected firing |

## Left out

- Playback.RunStoppingKeepsLive: holds only for at least two steps. With one step, pressing play rewinds to step 0, which is also the last step, so no interval is armed and the corrected firing never runs; `Playback.OneStepPlaysWithoutTimer` shows this case.
- `console.error` in the `catch` of `analyze` (code-analyzer.ts:21) is output to the console, not to the result.
- The `catch` branch of `analyze` is never taken. Nothing `simpleAnalyze` does to a string can throw, so `Analyze` is `SimpleAnalyze` and `ErrorSteps` is modelled on its own.
- `inAsyncFunction` (code-analyzer.ts:55, 86) is assigned but never read, so it is not part of the state.
- The constructor and the `CodeAnalyzer` class are not modelled: the class only holds the text, which is a parameter here.
- Strings are modelled as sequences of Unicode scalar values, not UTF-16 code units. No test the analyzer makes depends on the difference.
- Counters and step numbers are unbounded naturals. The source's doubles are exact far beyond any script length.
- The highlight of the terminal step appears at code-analyzer.ts:293 as `DONE âœ“`. That text is the check mark U+2713 encoded in UTF-8 and then read as Windows-1252. The model uses the check mark.
- Playback timing: the `useEffect` wiring, `window.setInterval`, `clearInterval` and the 2000 ms `AUTO_PLAY_INTERVAL` are not modelled. A firing of the interval is the action `TimerFires`, allowed only while the effect keeps the interval armed.
- The step count `EVENT_LOOP_STEPS.length` is the parameter `total`. The constants file holding `EVENT_LOOP_STEPS` is not part of this model, and neither is `currentStepData` (the lookup of the current step).
- The React state batching of `setCurrentStep` and `setIsPlaying` is taken as one transition per handler.
- The `.tsx` components, the progress bar's percentage, the theme hook and the page metadata are rendering, floating point or browser I/O, and are not modelled.
- No isolated executor runs user scripts or intercepts timers and promises: the analyzer is purely textual, and that is what is modelled.
- AnalyzerProofs.ScanThenLabels: states only that each queued `promise.then() #n` has n within the promise count. Which n each line queues is stated line by line by `Analyzer.OnThen` and `AnalyzerProofs.LineQueues`, not as a closed form over the whole text.

## Findings

| source | as written | input that shows it | evidently intended | confidence | as-written member | corrected member |
|---|---|---|---|---|---|---|
| app/lib/hooks/use-event-loop-visualizer.ts:22-37 | The effect disarms the interval as soon as the cursor is on the last step. The updater's branch that calls `setIsPlaying(false)` is therefore never reached, so auto-play ends on the last step with `isPlaying` still true. The controls then show "Pause", and the next press only pauses instead of restarting | two steps, cursor at step 0 playing; the interval fires once and the cursor is at step 1, still playing, with no timer armed | reaching the last step ends playback | medium, not executed | Playback.PlayingAtEndAsWritten | Playback.RunStoppingKeepsLive |
