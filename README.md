# Memorization trainer — a Dafny model

The trainer is a small web page. The user pastes a text. Start Practice turns
the text into lines: it splits the text on `"\n"` and trims every piece. The
page then shows the practice session. The user presses Start, which starts a
timer that counts tenths of a second. The user then types the lines one by
one and commits each with Enter. A committed line is accepted only when its
trim equals the expected line. A wrong line is ignored without any message.
When the last line is accepted, the timer stops and the total time is frozen.

The model has three modules:

- `Text` (`text.dfy`): JavaScript's `String.prototype.split` with the
  separator `"\n"` and `String.prototype.trim`, over the ECMAScript whitespace
  and line-terminator characters. It also has the matching `Join` and proves
  both round trips of split and join.
- `PracticeComponent` (`practice.dfy`): the `Practice` component as a class
  whose fields are the component's state variables. Each handler and each
  effect is one method. `Render` is a function of the state that says which
  panels are visible. `Dispatch` runs one page event and then the completion
  effect when the event changed one of that effect's dependencies. `Valid`
  is the invariant that every event keeps: `correctLines == lines[..currentIndex]`
  and `currentIndex <= |lines|`.
- `MemorizationApp` (`memorization_app.dfy`): the page. `SplitLines` is the
  split-and-trim of `startPractice`, with its lemmas. The `App` class holds
  `inputText`, `lines` and `practiceMode`. Two scenario methods,
  `ThreeLineScenario` and `EmptyTextScenario`, run whole sessions: the text
  `"a\nb\nc"`, and the empty text.

Time is a natural number of tenths of a second. One timer tick adds one.

The page this repository ships has no Give Up or Try Again buttons. The model
follows that code. It has no "given up" phase and no reset.

## Model

| member | source | states |
|---|---|---|
| Text.TrimStartSuffix | src/components/MemorizationApp.tsx:13 | the result is a suffix of the input; everything dropped is whitespace; the result does not begin with whitespace |
| Text.TrimEndPrefix | src/components/MemorizationApp.tsx:13 | the result is a prefix of the input; everything dropped is whitespace; the result does not end with whitespace |
| Text.Trim | src/components/MemorizationApp.tsx:13 | `trim` returns a contiguous slice of the input; only whitespace lies on either side of it; the slice neither begins nor ends with whitespace |
| Text.TrimKeepsAbsent | src/components/MemorizationApp.tsx:13 | trimming adds no character, so a character missing from the input is missing from the trim |
| Text.TrimOfTrimmed | src/components/MemorizationApp.tsx:13 | a string that neither begins nor ends with whitespace is its own trim |
| Text.TrimIdempotent | src/components/MemorizationApp.tsx:13 | trimming twice gives the same as trimming once |
| Text.TrimAppendWhitespace | src/components/MemorizationApp.tsx:13 | appending one whitespace character does not change the trim |
| Text.TrimStartAppend | src/components/MemorizationApp.tsx:13 | trimming the start of `s + [c]`, with `c` whitespace, keeps `c` unless `s` was all whitespace |
| Text.TrimDropsCarriageReturn | src/components/MemorizationApp.tsx:13 | the `'\r'` that CRLF text leaves at the end of a line is removed by the trim |
| Text.OccurrencesZero | src/components/MemorizationApp.tsx:13 | a character occurs zero times exactly when it is absent |
| Text.Split | src/components/MemorizationApp.tsx:13 | `split("\n")` always gives at least one piece |
| Text.SplitCount | src/components/MemorizationApp.tsx:13 | split gives one more piece than there are `'\n'` in the text |
| Text.SplitPiecesHaveNoNewline | src/components/MemorizationApp.tsx:13 | no piece of the split contains the separator |
| Text.JoinSplit | src/components/MemorizationApp.tsx:13 | joining the split pieces with `"\n"` gives back the text |
| Text.SplitPrefix | src/components/MemorizationApp.tsx:13 | splitting `p + t`, with no separator in `p`, glues `p` onto the first piece of `t` |
| Text.SplitSingle | src/components/MemorizationApp.tsx:13 | the split has one piece exactly when the text has no `'\n'`, and that piece is the text itself |
| Text.SplitJoin | src/components/MemorizationApp.tsx:13 | any non-empty list of pieces without a separator is recovered by splitting its join |
| MemorizationApp.SplitLines | src/components/MemorizationApp.tsx:13 | `split("\n")` followed by `trim` on every piece; what it guarantees is stated by `SplitLinesCount`, `SplitLinesWellFormed`, `SplitLinesPieces`, `SplitLinesEmpty` and `SplitLinesSingle` |
| MemorizationApp.SplitLinesCount | src/components/MemorizationApp.tsx:13 | the number of lines is the number of `'\n'` in the text plus one |
| MemorizationApp.SplitLinesPieces | src/components/MemorizationApp.tsx:13 | line `i` is the trim of split piece `i`, and the pieces joined with `"\n"` give back the text |
| MemorizationApp.SplitLinesWellFormed | src/components/MemorizationApp.tsx:13 | there is at least one line; no line contains `'\n'`; no line begins or ends with whitespace; each line is its own trim |
| MemorizationApp.SplitLinesThreeLines | src/components/MemorizationApp.tsx:13 | the text `"a\nb\nc"` gives the lines `"a"`, `"b"`, `"c"` |
| MemorizationApp.SplitLinesEmpty | src/components/MemorizationApp.tsx:13 | the empty text gives exactly one empty line |
| MemorizationApp.SplitLinesSingle | src/components/MemorizationApp.tsx:13 | a text without `'\n'` gives one line, its trim; only such a text gives one line |
| MemorizationApp.SplitLinesCRLF | src/components/MemorizationApp.tsx:13 | a piece that ends in `'\r'` yields the line without that `'\r'` |
| MemorizationApp.RawLineMatches | src/components/MemorizationApp.tsx:13 | typing a line exactly as it stands in the text, surrounding whitespace included, matches the expected line |
| MemorizationApp.App.constructor | src/components/MemorizationApp.tsx:8-10 | the page starts with empty text, no lines, and not in practice mode |
| MemorizationApp.App.SetInputText | src/components/MemorizationApp.tsx:20 | the text form's callback replaces the text and changes nothing else |
| MemorizationApp.App.StartPractice | src/components/MemorizationApp.tsx:12-15 | the lines become the split and trimmed text, with one line per `'\n'` plus one, and practice mode is on |
| MemorizationApp.App.Render | src/components/MemorizationApp.tsx:17-25 | the text form shows exactly when practice mode is off; otherwise the session shows, and its lines are well formed |
| PracticeComponent.MaxLength | src/components/Practice.tsx:59-62 | the result bounds every line's length and is the length of some line, or 0 for no lines |
| PracticeComponent.InputWidth | src/components/Practice.tsx:58-64 | the width is at least 20 and at least every line's length, and it equals 20 or the length of some line |
| PracticeComponent.Matches | src/components/Practice.tsx:21 | a candidate matches when its trim equals the expected line, and never once the index is past the last line (where JavaScript reads `undefined`); stated by `UntrimmedLineNeverMatches`, `TrimmedLineMatches` and `RawLineMatches` |
| PracticeComponent.UntrimmedLineNeverMatches | src/components/Practice.tsx:21 | an expected line that begins or ends with whitespace can never be matched |
| PracticeComponent.TrimmedLineMatches | src/components/Practice.tsx:21 | a trimmed expected line is matched by typing it with any whitespace around it |
| PracticeComponent.PadTrim | src/components/Practice.tsx:21 | whitespace padding on either side of a string does not change its trim |
| PracticeComponent.TrimAppendAll | src/components/Practice.tsx:21 | appending any run of whitespace does not change the trim |
| PracticeComponent.TrimPrependAll | src/components/Practice.tsx:21 | prepending any run of whitespace does not change the trim |
| PracticeComponent.Practice.Valid | src/components/Practice.tsx:10-23 | the session invariant: `currentIndex` at most the number of lines and `correctLines == lines[..currentIndex]`, the timer runs and counts only after Start, and a final time exists only when every line is done and is at most the elapsed time; every method that changes the session ensures it |
| PracticeComponent.Practice.Offered | src/components/Practice.tsx:80-105 | which events the rendered page can deliver: key presses and edits only while the input box shows, a click only while Start shows, a tick only while the timer runs |
| PracticeComponent.Practice.FinishedIsTerminal | src/components/Practice.tsx:36-55 | once a started session is finished, no event is offered, so no tick changes the elapsed time and the final time stays equal to it |
| PracticeComponent.Practice.Render | src/components/Practice.tsx:66-106 | the input box shows iff started and not every line is done; the "memorized" message shows iff started and every line is done; never both; the total time shows only outside the input branch; Start shows iff the timer is stopped and the session has not started; the running time shows iff the timer runs |
| PracticeComponent.Practice.constructor | src/components/Practice.tsx:10-16 | mounting gives the initial state, the width of the lines, and a final time of 0 only for an empty list of lines |
| PracticeComponent.Practice.HandleInput | src/components/Practice.tsx:18-27 | on Enter, a candidate whose trim is the expected line appends that line, moves the index on by one and clears the input; any other key or candidate changes nothing; the invariant holds |
| PracticeComponent.Practice.EditInput | src/components/Practice.tsx:81-86 | typing in the input box changes its text and nothing else |
| PracticeComponent.Practice.StartTimer | src/components/Practice.tsx:29-32 | the timer runs and the session has started |
| PracticeComponent.Practice.Tick | src/components/Practice.tsx:36-39 | one tick adds one tenth of a second while the timer runs, and nothing otherwise |
| PracticeComponent.Practice.CompletionEffect | src/components/Practice.tsx:50-55 | when every line is done the timer stops and the final time is the elapsed time; otherwise nothing changes |
| PracticeComponent.Practice.UpdateWidth | src/components/Practice.tsx:58-64 | the width becomes the width of the lines |
| PracticeComponent.Practice.Dispatch | src/components/Practice.tsx:18-64 | one event plus its effects: the whole new state; Start cannot be offered again once used; accepting the last line stops the timer and freezes the final time at the elapsed time |

## Left out

- Give Up and Try Again: the page in this repository has no such buttons, so there is no "given up" phase and no reset. This differs from a variant of the component that has them.
- The interval itself (`setInterval`, `clearInterval` and effect clean-up): a tick is a `TimerFires` event. It is offered only while the timer runs.
- Floating-point time: `elapsedTime` is a natural count of tenths of a second. The model has no rounding drift and no `toFixed(1)` formatting.
- React's asynchronous, batched state updates: each handler and each effect is one atomic update. `Dispatch` runs the completion effect right after the event that changed its dependencies.
- The JSX markup, CSS classes and the `inputWidth * 8` pixel width: `Render` says only which panels are visible.
- The text form component (`src/components/TextInput.tsx`) is not part of this model. Its only role is to call `SetInputText` and `StartPractice`.
- PracticeComponent.InputWidth: counts Unicode scalar values, while JavaScript's `length` counts UTF-16 code units. The two differ for characters outside the Basic Multilingual Plane.
- Text.Trim: works on Unicode scalar values rather than UTF-16 code units. Every character that `trim` removes lies in the Basic Multilingual Plane, so the result is the same.
