/**
 * The practice session of the trainer (the `Practice` component): the user
 * presses Start, then types the lines one by one, each committed with Enter,
 * while a timer counts tenths of a second; when the last line is accepted the
 * timer stops and the total time is frozen.
 *
 * Each React state update is one atomic method of the class `Practice`.  The
 * effects that React runs after a render are methods too (`CompletionEffect`,
 * `UpdateWidth`), and `Dispatch` runs one page event followed by the effects
 * whose dependencies it changed.
 */
module PracticeComponent {
  import opened Text

  datatype Option<T> = None | Some(value: T)

  /** The least width of the input box, in characters. */
  const MinInputWidth: nat := 20

  function Max(a: nat, b: nat): nat
  {
    if a < b then b else a
  }

  /** The length of the longest line, 0 when there is none. */
  function MaxLength(lines: seq<string>): (m: nat)
    ensures forall i :: 0 <= i < |lines| ==> |lines[i]| <= m
    ensures lines == [] ==> m == 0
    ensures lines != [] ==> exists i :: 0 <= i < |lines| && |lines[i]| == m
  {
    if lines == [] then 0
    else
      var rest := MaxLength(lines[1..]);
      assert forall i :: 1 <= i < |lines| ==> lines[i] == lines[1..][i - 1];
      Max(|lines[0]|, rest)
  }

  /** `Math.max(20, ...lines.map(line => line.length))`: at least 20, at least
      the length of every line, and equal to 20 or to the length of one line. */
  function InputWidth(lines: seq<string>): (w: nat)
    ensures w >= MinInputWidth
    ensures forall i :: 0 <= i < |lines| ==> |lines[i]| <= w
    ensures w == MinInputWidth || exists i :: 0 <= i < |lines| && |lines[i]| == w
  {
    Max(MinInputWidth, MaxLength(lines))
  }

  /** Whether the candidate `candidate` is the line expected at `index`:
      `candidate.trim() === lines[index]`, where `lines[index]` is
      `undefined`, equal to no string, once `index` runs past the end. */
  function Matches(lines: seq<string>, index: nat, candidate: string): bool
  {
    index < |lines| && Trim(candidate) == lines[index]
  }

  /** An expected line that itself begins or ends with whitespace can never
      be matched, whatever is typed: this is why the lines are trimmed before
      the session starts. */
  lemma UntrimmedLineNeverMatches(lines: seq<string>, index: nat, candidate: string)
    requires index < |lines| && lines[index] != []
    requires IsWhitespace(lines[index][0]) || IsWhitespace(lines[index][|lines[index]| - 1])
    ensures !Matches(lines, index, candidate)
  {
  }

  /** A trimmed expected line is matched by typing it, with any whitespace
      around it. */
  lemma {:induction false} TrimmedLineMatches(lines: seq<string>, index: nat, pre: string, post: string)
    requires index < |lines| && Trim(lines[index]) == lines[index]
    requires forall k :: 0 <= k < |pre| ==> IsWhitespace(pre[k])
    requires forall k :: 0 <= k < |post| ==> IsWhitespace(post[k])
    ensures Matches(lines, index, pre + lines[index] + post)
  {
    PadTrim(pre, lines[index], post);
  }

  /** Whitespace padding on either side of a string does not change its
      trim. */
  lemma PadTrim(pre: string, t: string, post: string)
    requires forall k :: 0 <= k < |pre| ==> IsWhitespace(pre[k])
    requires forall k :: 0 <= k < |post| ==> IsWhitespace(post[k])
    ensures Trim(pre + t + post) == Trim(t)
  {
    TrimAppendAll(pre + t, post);
    TrimPrependAll(pre, t);
  }

  lemma {:induction false} TrimAppendAll(s: string, post: string)
    requires forall k :: 0 <= k < |post| ==> IsWhitespace(post[k])
    ensures Trim(s + post) == Trim(s)
  {
    if post != [] {
      var shorter := post[..|post| - 1];
      TrimAppendAll(s, shorter);
      assert s + post == (s + shorter) + [post[|post| - 1]];
      TrimAppendWhitespace(s + shorter, post[|post| - 1]);
    } else {
      assert s + post == s;
    }
  }

  lemma {:induction false} TrimPrependAll(pre: string, s: string)
    requires forall k :: 0 <= k < |pre| ==> IsWhitespace(pre[k])
    ensures Trim(pre + s) == Trim(s)
  {
    if pre != [] {
      TrimPrependAll(pre[1..], s);
      assert (pre + s)[1..] == pre[1..] + s;
      assert (pre + s)[0] == pre[0];
    } else {
      assert pre + s == s;
    }
  }

  /** The page events that reach the component. */
  datatype Event =
    | KeyDown(key: string)   // a key pressed in the input box (`onKeyDown`)
    | Edit(value: string)    // the browser changes the text of the input box
    | ClickStart             // the Start button (`onClick`)
    | TimerFires             // the callback of the 100 ms interval

  /** What the component shows.  Times are in tenths of a second. */
  datatype View = View(
    correct: seq<string>,     // the lines typed so far, in green
    timer: Option<nat>,       // "Time: ... seconds", while the timer runs
    input: bool,              // the input box for the next line
    memorized: bool,          // "You memorized the full text!"
    totalTime: Option<nat>,   // "Total time: ... seconds"
    start: bool)              // the Start button

  class Practice {
    /** The lines to reproduce, a property of the component. */
    const lines: seq<string>
    var currentIndex: nat
    var correctLines: seq<string>
    var isTimerRunning: bool
    /** Elapsed time in tenths of a second. */
    var elapsedTime: nat
    var finalTime: Option<nat>
    var hasStarted: bool
    var inputWidth: nat
    /** The text held by the (uncontrolled) input element. */
    var inputValue: string

    /** The invariant every event keeps: the accepted lines are exactly the
        first `currentIndex` lines, the timer runs and counts only after
        Start, and a final time is recorded only when every line is done. */
    predicate Valid()
      reads this
    {
      currentIndex <= |lines| &&
      correctLines == lines[..currentIndex] &&
      (isTimerRunning ==> hasStarted) &&
      (elapsedTime > 0 ==> hasStarted) &&
      (finalTime.Some? ==> currentIndex == |lines| && finalTime.value <= elapsedTime)
    }

    /** Every line has been accepted, the timer is stopped and the final time
        is the elapsed time. */
    predicate Finished()
      reads this
    {
      currentIndex == |lines| && !isTimerRunning && finalTime == Some(elapsedTime)
    }

    /** Whether pressing `key` commits the text in the input box. */
    predicate Accepts(key: string)
      reads this
    {
      key == "Enter" && Matches(lines, currentIndex, inputValue)
    }

    /** The rendered page as a function of the state.  The input box and the
        "memorized" message are the two arms of one conditional, and the
        total time shares the second arm. */
    function Render(): (v: View)
      reads this
      ensures v.correct == correctLines
      ensures v.input <==> hasStarted && currentIndex < |lines|
      ensures v.memorized <==> hasStarted && currentIndex == |lines|
      ensures !(v.input && v.memorized)
      ensures v.input ==> v.totalTime == None
      ensures Valid() && hasStarted ==> (v.input <==> !v.memorized)
      ensures Valid() ==> v.totalTime == finalTime
      ensures v.start <==> !isTimerRunning && !hasStarted
      ensures v.timer.Some? <==> isTimerRunning
    {
      var showInput := hasStarted && currentIndex < |lines|;
      View(correctLines,
           if isTimerRunning then Some(elapsedTime) else None,
           showInput,
           !showInput && hasStarted && currentIndex == |lines|,
           if showInput then None else finalTime,
           !isTimerRunning && !hasStarted)
    }

    /** Whether the page can deliver `e` now: key presses and edits need the
        input box, a click needs the Start button, and the interval exists only
        while the timer runs. */
    predicate Offered(e: Event)
      reads this
    {
      match e
      case KeyDown(_) => Render().input
      case Edit(_) => Render().input
      case ClickStart => Render().start
      case TimerFires => isTimerRunning
    }

    /** Mounting the component: the initial state, then the effects that run
        on the first render (the width, and completion for an empty list). */
    constructor (lines: seq<string>)
      ensures Valid()
      ensures this.lines == lines
      ensures currentIndex == 0 && correctLines == [] && inputValue == ""
      ensures !isTimerRunning && !hasStarted && elapsedTime == 0
      ensures finalTime == (if lines == [] then Some(0) else None)
      ensures inputWidth == InputWidth(lines)
    {
      this.lines := lines;
      currentIndex := 0;
      correctLines := [];
      isTimerRunning := false;
      elapsedTime := 0;
      finalTime := None;
      hasStarted := false;
      inputWidth := MinInputWidth;
      inputValue := "";
      new;
      UpdateWidth();
      CompletionEffect();
    }

    /** `handleInput`: on Enter, a candidate whose trim is the expected line
        is appended to the accepted lines, the index moves on by one and the
        input box is cleared; any other key or candidate changes nothing. */
    method HandleInput(key: string)
      requires Valid()
      modifies this`currentIndex, this`correctLines, this`inputValue
      ensures Valid()
      ensures old(Accepts(key)) ==>
                currentIndex == old(currentIndex) + 1 &&
                correctLines == old(correctLines) + [lines[old(currentIndex)]] &&
                inputValue == ""
      ensures !old(Accepts(key)) ==>
                currentIndex == old(currentIndex) &&
                correctLines == old(correctLines) &&
                inputValue == old(inputValue)
    {
      if key == "Enter" {
        if currentIndex < |lines| && Trim(inputValue) == lines[currentIndex] {
          correctLines := correctLines + [lines[currentIndex]];
          currentIndex := currentIndex + 1;
          inputValue := "";
        }
      }
    }

    /** The user edits the text of the input box. */
    method EditInput(value: string)
      requires Valid()
      modifies this`inputValue
      ensures Valid()
      ensures inputValue == value
    {
      inputValue := value;
    }

    /** `startTimer`: the timer runs and the session has started. */
    method StartTimer()
      requires Valid()
      modifies this`isTimerRunning, this`hasStarted
      ensures Valid()
      ensures isTimerRunning && hasStarted
    {
      isTimerRunning := true;
      hasStarted := true;
    }

    /** One call of the interval callback: one tenth of a second more, and
        only while the timer runs. */
    method Tick()
      requires Valid()
      modifies this`elapsedTime
      ensures Valid()
      ensures elapsedTime == if old(isTimerRunning) then old(elapsedTime) + 1 else old(elapsedTime)
    {
      if isTimerRunning {
        elapsedTime := elapsedTime + 1;
      }
    }

    /** The completion effect: once every line is done the timer stops and the
        final time is the elapsed time. */
    method CompletionEffect()
      requires Valid()
      modifies this`isTimerRunning, this`finalTime
      ensures Valid()
      ensures old(currentIndex) == |lines| ==> Finished()
      ensures old(currentIndex) != |lines| ==>
                isTimerRunning == old(isTimerRunning) && finalTime == old(finalTime)
    {
      if currentIndex == |lines| {
        isTimerRunning := false;
        finalTime := Some(elapsedTime);
      }
    }

    /** The width effect. */
    method UpdateWidth()
      modifies this`inputWidth
      ensures inputWidth == InputWidth(lines)
    {
      inputWidth := InputWidth(lines);
    }

    /** One page event, followed by the completion effect when the event
        changed one of its dependencies (`currentIndex`, `elapsedTime`).
        The first group of postconditions gives the whole new state; the
        second draws the consequences: Start becomes unavailable once used,
        and accepting the last line finishes the session. */
    method Dispatch(e: Event)
      requires Valid() && Offered(e)
      modifies this
      ensures Valid()
      ensures currentIndex == old(currentIndex) + (if e.KeyDown? && old(Accepts(e.key)) then 1 else 0)
      ensures correctLines == old(correctLines) + lines[old(currentIndex)..currentIndex]
      ensures inputValue == (match e
                             case Edit(value) => value
                             case KeyDown(key) => if old(Accepts(key)) then "" else old(inputValue)
                             case _ => old(inputValue))
      ensures elapsedTime == old(elapsedTime) + (if e.TimerFires? then 1 else 0)
      ensures hasStarted == (old(hasStarted) || e.ClickStart?)
      ensures inputWidth == old(inputWidth)
      ensures if (currentIndex != old(currentIndex) || elapsedTime != old(elapsedTime)) && currentIndex == |lines|
              then !isTimerRunning && finalTime == Some(elapsedTime)
              else isTimerRunning == (old(isTimerRunning) || e.ClickStart?) && finalTime == old(finalTime)
      ensures e.ClickStart? ==> !Offered(ClickStart)
      ensures old(currentIndex) < |lines| && currentIndex == |lines| ==> Finished()
    {
      var index, time := currentIndex, elapsedTime;
      match e {
        case KeyDown(key) => HandleInput(key);
        case Edit(value) => EditInput(value);
        case ClickStart => StartTimer();
        case TimerFires => Tick();
      }
      if currentIndex != index || elapsedTime != time {
        CompletionEffect();
      }
    }

    /** A session that has started and is finished is terminal: the input box
        and the Start button are gone and the interval is cleared, so the page
        delivers no further event, and the elapsed and final times stay as
        they are. */
    lemma FinishedIsTerminal()
      requires Valid() && Finished() && hasStarted
      ensures forall e :: !Offered(e)
    {
      forall e
        ensures !Offered(e)
      {
        assert !Render().input && !Render().start;
      }
    }
  }
}
