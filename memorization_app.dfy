/**
 * The page of the trainer (the `MemorizationApp` component): a text form
 * collects the text, and Start Practice turns it into the list of trimmed
 * lines and switches the page to the practice session.
 */
module MemorizationApp {
  import opened Text
  import opened PracticeComponent

  /** `inputText.split("\n").map(line => line.trim())`. */
  function SplitLines(inputText: string): seq<string>
  {
    var pieces := Split(inputText);
    seq(|pieces|, i requires 0 <= i < |pieces| => Trim(pieces[i]))
  }

  /** Lines a session can be given: at least one, none containing a line
      break, each its own trim. */
  predicate WellFormedLines(lines: seq<string>)
  {
    |lines| >= 1 &&
    forall i :: 0 <= i < |lines| ==> '\n' !in lines[i] && Trim(lines[i]) == lines[i]
  }

  /** There is one line more than there are line breaks in the text. */
  lemma {:induction false} SplitLinesCount(inputText: string)
    ensures |SplitLines(inputText)| == Occurrences(inputText, '\n') + 1
  {
    SplitCount(inputText);
  }

  /** The split round trip (`JoinSplit`) restated in terms of the lines:
      line `i` is the trim of the `i`-th piece of the text, and those pieces,
      joined with line breaks, give back the text. */
  lemma {:induction false} SplitLinesPieces(inputText: string)
    ensures |SplitLines(inputText)| == |Split(inputText)|
    ensures forall i :: 0 <= i < |Split(inputText)| ==> SplitLines(inputText)[i] == Trim(Split(inputText)[i])
    ensures Join(Split(inputText)) == inputText
  {
    JoinSplit(inputText);
  }

  /** No line begins or ends with whitespace or contains a line break, so
      trimming a line again changes nothing; and there is always a line. */
  lemma SplitLinesWellFormed(inputText: string)
    ensures WellFormedLines(SplitLines(inputText))
    ensures forall i :: 0 <= i < |SplitLines(inputText)| && SplitLines(inputText)[i] != [] ==>
              !IsWhitespace(SplitLines(inputText)[i][0]) &&
              !IsWhitespace(SplitLines(inputText)[i][|SplitLines(inputText)[i]| - 1])
  {
    var lines := SplitLines(inputText);
    SplitPiecesHaveNoNewline(inputText);
    forall i | 0 <= i < |lines|
      ensures '\n' !in lines[i] && Trim(lines[i]) == lines[i]
    {
      var piece := Split(inputText)[i];
      assert lines[i] == Trim(piece);
      TrimIdempotent(piece);
      TrimKeepsAbsent(piece, '\n');
    }
  }

  /** The empty text gives one empty line. */
  lemma SplitLinesEmpty()
    ensures SplitLines("") == [""]
  {
  }

  /** A text without a line break gives one line, its trim, and only such a
      text gives a single line. */
  lemma SplitLinesSingle(inputText: string)
    ensures '\n' !in inputText ==> SplitLines(inputText) == [Trim(inputText)]
    ensures |SplitLines(inputText)| == 1 ==> '\n' !in inputText
  {
    SplitSingle(inputText);
  }

  /** With CRLF line breaks the piece before each '\n' ends in '\r', which the
      trim removes. */
  lemma SplitLinesCRLF(inputText: string, i: nat, body: string)
    requires i < |Split(inputText)| && Split(inputText)[i] == body + "\r"
    ensures SplitLines(inputText)[i] == Trim(body)
  {
    TrimDropsCarriageReturn(body);
  }

  /** Typing a line exactly as it stands in the text (with whatever
      whitespace surrounds it there) is accepted by the session. */
  lemma {:induction false} RawLineMatches(inputText: string, i: nat)
    requires i < |Split(inputText)|
    ensures Matches(SplitLines(inputText), i, Split(inputText)[i])
  {
    TrimIdempotent(Split(inputText)[i]);
  }

  /** The screen the page shows. */
  datatype Screen = TextForm(inputText: string) | PracticeScreen(lines: seq<string>)

  class App {
    var inputText: string
    var lines: seq<string>
    var practiceMode: bool

    /** The lines are empty until practice starts, and well formed after. */
    predicate Valid()
      reads this
    {
      (!practiceMode ==> lines == []) &&
      (practiceMode ==> WellFormedLines(lines))
    }

    constructor ()
      ensures Valid()
      ensures inputText == "" && lines == [] && !practiceMode
    {
      inputText := "";
      lines := [];
      practiceMode := false;
    }

    /** `setInputText`, called by the text form as the user types. */
    method SetInputText(text: string)
      requires Valid()
      modifies this`inputText
      ensures Valid()
      ensures inputText == text
    {
      inputText := text;
    }

    /** `startPractice`: the lines are the split and trimmed text, and the
        page is in practice mode. */
    method StartPractice()
      requires Valid()
      modifies this`lines, this`practiceMode
      ensures Valid()
      ensures lines == SplitLines(inputText) && practiceMode
      ensures |lines| == Occurrences(inputText, '\n') + 1
    {
      SplitLinesWellFormed(inputText);
      SplitLinesCount(inputText);
      lines := SplitLines(inputText);
      practiceMode := true;
    }

    /** The text form shows exactly when the page is not in practice mode;
        otherwise the practice session shows, over well-formed lines. */
    function Render(): (s: Screen)
      reads this
      ensures s.TextForm? <==> !practiceMode
      ensures s.TextForm? ==> s.inputText == inputText
      ensures s.PracticeScreen? ==> s.lines == lines
      ensures Valid() && s.PracticeScreen? ==> WellFormedLines(s.lines)
    {
      if !practiceMode then TextForm(inputText) else PracticeScreen(lines)
    }
  }

  /** The text "a\nb\nc" gives the lines "a", "b" and "c". */
  lemma SplitLinesThreeLines()
    ensures SplitLines("a\nb\nc") == ["a", "b", "c"]
  {
    SplitThreeLines();
    LettersTrimmed();
    var lines := SplitLines("a\nb\nc");
    assert |lines| == 3;
    assert lines[0] == "a" && lines[1] == "b" && lines[2] == "c";
  }

  /** Scenario helper: the pieces of "a\nb\nc" are "a", "b" and "c". */
  lemma SplitThreeLines()
    ensures Split("a\nb\nc") == ["a", "b", "c"]
  {
    var pieces: seq<string> := ["a", "b", "c"];
    assert pieces[1..] == ["b", "c"];
    assert pieces[1..][1..] == ["c"];
    assert Join(["b", "c"]) == "b\nc";
    assert Join(pieces) == "a\nb\nc";
    SplitJoin(pieces);
  }

  /** Scenario helper: the letters "a", "b" and "c" are their own trims. */
  lemma LettersTrimmed()
    ensures Trim("a") == "a" && Trim("b") == "b" && Trim("c") == "c"
  {
    TrimOfTrimmed("a");
    TrimOfTrimmed("b");
    TrimOfTrimmed("c");
  }

  /** The session over the text "a\nb\nc": a wrong line is ignored, and the
      third accepted line finishes the session with its final time. */
  method ThreeLineScenario()
  {
    var app := new App();
    app.SetInputText("a\nb\nc");
    app.StartPractice();
    SplitLinesThreeLines();
    assert app.lines == ["a", "b", "c"];
    PracticeThreeLines(app.lines);
  }

  /** A session over three trimmed lines, the first two different: a
      repeated first line is ignored, and the third accepted line finishes the
      session with the time of its two ticks. */
  method PracticeThreeLines(lines: seq<string>)
    requires |lines| == 3 && WellFormedLines(lines) && lines[0] != lines[1]
  {
    var p := new Practice(lines);
    p.Dispatch(ClickStart);
    assert p.elapsedTime == 0;
    Wait(p);
    EnterLine(p);
    assert p.correctLines == [lines[0]] && p.elapsedTime == 1;
    EnterWrongLine(p, lines[0]);
    assert p.currentIndex == 1 && p.correctLines == [lines[0]];
    EnterLine(p);
    assert p.elapsedTime == 1;
    Wait(p);
    assert p.elapsedTime == 2;
    EnterLine(p);
    assert p.correctLines == lines && p.elapsedTime == 2;
    assert p.Finished() && p.finalTime == Some(2);
    assert p.Render().memorized;
  }

  /** One tick of the running timer, before the last line is accepted. */
  method Wait(p: Practice)
    requires p.Valid() && p.isTimerRunning && p.currentIndex < |p.lines|
    modifies p
    ensures p.Valid() && p.isTimerRunning && p.hasStarted == old(p.hasStarted)
    ensures p.currentIndex == old(p.currentIndex) && p.correctLines == old(p.correctLines)
    ensures p.elapsedTime == old(p.elapsedTime) + 1 && p.finalTime == old(p.finalTime)
  {
    p.Dispatch(TimerFires);
  }

  /** Types a line that is not the expected one and presses Enter: the input
      box keeps it and nothing else changes. */
  method EnterWrongLine(p: Practice, line: string)
    requires p.Valid() && p.hasStarted && p.currentIndex < |p.lines|
    requires p.lines[p.currentIndex] != Trim(line)
    modifies p
    ensures p.Valid() && p.hasStarted
    ensures p.currentIndex == old(p.currentIndex) && p.correctLines == old(p.correctLines)
    ensures p.elapsedTime == old(p.elapsedTime) && p.inputValue == line
    ensures p.isTimerRunning == old(p.isTimerRunning) && p.finalTime == old(p.finalTime)
  {
    p.Dispatch(Edit(line));
    assert !p.Accepts("Enter");
    p.Dispatch(KeyDown("Enter"));
  }

  /** Types the expected line into the input box and presses Enter. */
  method EnterLine(p: Practice)
    requires p.Valid() && p.hasStarted && p.currentIndex < |p.lines|
    requires Trim(p.lines[p.currentIndex]) == p.lines[p.currentIndex]
    modifies p
    ensures p.Valid()
    ensures p.currentIndex == old(p.currentIndex) + 1 && p.hasStarted
    ensures p.correctLines == old(p.correctLines) + [p.lines[old(p.currentIndex)]]
    ensures p.elapsedTime == old(p.elapsedTime) && p.inputValue == ""
    ensures p.currentIndex == |p.lines| ==> p.Finished()
    ensures p.currentIndex < |p.lines| ==>
              p.isTimerRunning == old(p.isTimerRunning) && p.finalTime == old(p.finalTime)
  {
    p.Dispatch(Edit(p.lines[p.currentIndex]));
    assert p.Accepts("Enter");
    p.Dispatch(KeyDown("Enter"));
  }

  /** The empty text: one empty line, finished by pressing Enter on an empty
      input box. */
  method EmptyTextScenario()
  {
    var app := new App();
    app.StartPractice();
    SplitLinesEmpty();
    assert app.lines == [""];
    var p := new Practice(app.lines);
    assert p.finalTime == None;
    p.Dispatch(ClickStart);
    assert p.Accepts("Enter");
    p.Dispatch(KeyDown("Enter"));
    assert p.Finished() && p.finalTime == Some(0);
  }
}
