/**
  The challenges of the table played through the interpreter: each one is
  solved by its own solution submitted as one token. Typed key by key, the
  same keys carry out the same edit, but each key is judged on its own, as
  the raw token, so none of them is accepted.
 */
module Scenarios {
  import opened Options
  import opened Strings
  import opened Motions
  import opened Cursor
  import opened Words
  import opened Interpreter
  import Challenges

  /** Challenge `k` freshly loaded, in NORMAL mode with an empty buffer. */
  function Fresh(k: nat): (s: Session)
    requires k < Challenges.Count
    ensures WellFormed(s)
  {
    Challenges.TableSolutions();
    var s := Load(Session([], Pos(1, 1), Normal, "", k), Challenges.Table[k].text);
    assert |s.lines| >= 1 by {
      assert s.lines == Split(Challenges.Table[k].text, '\n');
    }
    s
  }

  /** The lines challenge 0 loads. */
  lemma Lines0()
    ensures Fresh(0).lines == ["This is a sample line of text.", "Move the cursor to the end of this line."]
  {
    var lines := ["This is a sample line of text.", "Move the cursor to the end of this line."];
    assert Join(lines, '\n') == Challenges.Table[0].text;
    SplitJoin(lines, '\n');
  }

  /** The lines challenge 1 loads. */
  lemma Lines1()
    ensures Fresh(1).lines == ["This is the first line.", "This is the second line.", "This is the third line."]
  {
    var lines := ["This is the first line.", "This is the second line.", "This is the third line."];
    assert Join(lines, '\n') == Challenges.Table[1].text;
    SplitJoin(lines, '\n');
  }

  /** The lines challenge 2 loads. */
  lemma Lines2()
    ensures Fresh(2).lines == ["Delete this word.", "Leave this line intact."]
  {
    var lines := ["Delete this word.", "Leave this line intact."];
    assert Join(lines, '\n') == Challenges.Table[2].text;
    SplitJoin(lines, '\n');
  }

  /** The lines challenge 3 loads. */
  lemma Lines3()
    ensures Fresh(3).lines == ["Change this word.", "Leave this line intact."]
  {
    var lines := ["Change this word.", "Leave this line intact."];
    assert Join(lines, '\n') == Challenges.Table[3].text;
    SplitJoin(lines, '\n');
  }

  /** The lines challenge 4 loads. */
  lemma Lines4()
    ensures Fresh(4).lines == ["Line 1", "Line 2", "Line 3", "Line 4", "Line 5"]
  {
    var lines := ["Line 1", "Line 2", "Line 3", "Line 4", "Line 5"];
    assert Join(lines, '\n') == Challenges.Table[4].text;
    SplitJoin(lines, '\n');
  }

  /** "$" on the first challenge puts the cursor after the 30 letters of line 1 and is accepted. */
  lemma SolveLineEnd()
    ensures var r := Process(Fresh(0), "$");
            r.session.cursor == Pos(1, 30) && r.session.buffer == "" && r.verdict == Advance
  {
    var s := Fresh(0);
    Lines0();
    assert |s.lines[0]| == 30;
    BareMotion(LineEnd);
    assert s.buffer + "$" == [MotionKey(LineEnd)];
    NormalMotion(s, "$");
    RepeatLineEnd(s.lines, s.cursor, 1);
  }

  /**
    Two keys, neither of them the current solution, are each judged
    incorrect on their own, and the index stays where it was.
   */
  lemma KeysRejected(s: Session, first: string, second: string)
    requires WellFormed(s) && s.challenge < Challenges.Count
    requires first != Challenges.Solution(s.challenge) && second != Challenges.Solution(s.challenge)
    ensures Process(s, first).verdict == Incorrect
    ensures Process(Process(s, first).session, second).verdict == Incorrect
    ensures Run(s, [first, second]).challenge == s.challenge
  {
    ChallengeAdvance(s, first);
    var s1 := Process(s, first).session;
    ChallengeAdvance(s1, second);
    assert Run(s, [first, second]) == Run(s1, [second]);
    assert Run(s1, [second]) == Process(s1, second).session;
  }

  /** "g" and then "g" as two tokens, from an empty NORMAL buffer, go to (1,1) and empty the buffer. */
  lemma KeyByKeyTop(s: Session)
    requires WellFormed(s) && s.mode == Normal && s.buffer == ""
    ensures var r := Run(s, ["g", "g"]);
            r.cursor == Pos(1, 1) && r.buffer == "" && r.mode == Normal
  {
    assert ParseMotion("g") == None;
    assert s.buffer + "g" == "g";
    NormalUnmatchedAppends(s, "g");
    var s1 := Process(s, "g").session;
    assert s1.buffer + "g" == "gg";
    NormalJumps(s1, "g");
    MatchedCommandClears(s1, "g");
    assert Run(s, ["g", "g"]) == Run(s1, ["g"]);
    assert Run(s1, ["g"]) == Process(s1, "g").session;
  }

  /**
    "g", "g" from the start of the last line brings the cursor to (1,1) and
    empties the buffer, yet neither key is the solution "gg".
   */
  lemma TypeGG()
    ensures var s := Fresh(1).(cursor := Pos(|Fresh(1).lines|, 1));
            var r := Run(s, ["g", "g"]);
            r.cursor == Pos(1, 1) && r.buffer == "" && r.mode == Normal
    ensures var s := Fresh(1).(cursor := Pos(|Fresh(1).lines|, 1));
            Process(s, "g").verdict == Incorrect && Process(Process(s, "g").session, "g").verdict == Incorrect
  {
    var s := Fresh(1).(cursor := Pos(|Fresh(1).lines|, 1));
    KeyByKeyTop(s);
    KeysRejected(s, "g", "g");
  }

  /** "gg" as one token solves the second challenge. */
  lemma SolveTop()
    ensures var r := Process(Fresh(1), "gg");
            r.session.cursor == Pos(1, 1) && r.verdict == Advance
  {
    Lines1();
    CommandsAreNotMotions();
  }

  /**
    With the cursor at the start of a first line `w + " " + rest`, a NORMAL
    buffer completed to "dw" turns that line into `rest` and keeps the
    others; "cw" does the same and enters INSERT.
   */
  lemma WordCommandOnFirstWord(s: Session, token: string, w: string, rest: string)
    requires WellFormed(s) && s.mode == Normal && s.cursor == Pos(1, 1)
    requires s.buffer + token in {"dw", "cw"}
    requires ' ' !in w && |w| >= 1 && s.lines[0] == w + " " + rest
    ensures var r := Process(s, token).session;
            && r.lines == s.lines[0 := rest] && r.cursor == s.cursor && r.buffer == ""
            && r.mode == (if s.buffer + token == "cw" then Insert else Normal)
  {
    NormalWordCommands(s, token);
    DeleteFirstWord(w, rest, 1);
  }

  /** "dw" on the third challenge deletes its first word and is accepted. */
  lemma SolveDeleteWord()
    ensures var r := Process(Fresh(2), "dw");
            && r.session.lines == ["this word.", "Leave this line intact."]
            && r.session.cursor == Pos(1, 1) && r.session.mode == Normal && r.verdict == Advance
  {
    var s := Fresh(2);
    Lines2();
    assert s.lines[0] == "Delete" + " " + "this word.";
    assert s.buffer + "dw" == "dw";
    WordCommandOnFirstWord(s, "dw", "Delete", "this word.");
  }

  /** The third challenge opens on the word "Delete", a space and the rest of its first line. */
  lemma FirstWordOfLines2()
    ensures Fresh(2).lines[0] == "Delete" + " " + "this word."
    ensures Fresh(2).lines[1..] == ["Leave this line intact."]
  {
    Lines2();
    assert "Delete this word." == "Delete" + " " + "this word.";
  }

  /**
    From (1,1) on a first line `w + " " + rest` with an empty NORMAL buffer,
    "d" and then "w" as two tokens turn that line into `rest`.
   */
  lemma KeyByKeyDeleteWord(s: Session, w: string, rest: string)
    requires WellFormed(s) && s.mode == Normal && s.cursor == Pos(1, 1) && s.buffer == ""
    requires ' ' !in w && |w| >= 1 && s.lines[0] == w + " " + rest
    ensures var r := Run(s, ["d", "w"]);
            r.lines == s.lines[0 := rest] && r.buffer == "" && r.mode == Normal
  {
    assert ParseMotion("d") == None;
    assert s.buffer + "d" == "d";
    NormalUnmatchedAppends(s, "d");
    var s1 := Process(s, "d").session;
    assert s1.buffer + "w" == "dw";
    WordCommandOnFirstWord(s1, "w", w, rest);
    assert Run(s, ["d", "w"]) == Run(s1, ["w"]);
    assert Run(s1, ["w"]) == Process(s1, "w").session;
  }

  /**
    "d", "w" key by key deletes the same word as "dw"; the first key only
    waits in the buffer, and neither key is accepted, so the index stays.
   */
  lemma TypeDW()
    ensures Run(Fresh(2), ["d", "w"]).lines == ["this word.", "Leave this line intact."]
    ensures Run(Fresh(2), ["d", "w"]).buffer == ""
    ensures Run(Fresh(2), ["d", "w"]).challenge == 2
    ensures Process(Fresh(2), "d").verdict == Incorrect
    ensures Process(Process(Fresh(2), "d").session, "w").verdict == Incorrect
  {
    FirstWordOfLines2();
    KeyByKeyDeleteWord(Fresh(2), "Delete", "this word.");
    Lines2();
    KeysRejected(Fresh(2), "d", "w");
  }

  /** "cw" on the fourth challenge deletes its first word, enters INSERT and is accepted. */
  lemma SolveChangeWord()
    ensures var r := Process(Fresh(3), "cw");
            && r.session.lines == ["this word.", "Leave this line intact."]
            && r.session.mode == Insert && r.session.buffer == "" && r.verdict == Advance
  {
    var s := Fresh(3);
    Lines3();
    assert s.lines[0] == "Change" + " " + "this word.";
    assert s.buffer + "cw" == "cw";
    WordCommandOnFirstWord(s, "cw", "Change", "this word.");
  }

  /** "3j" on the last challenge, freshly loaded in NORMAL mode, moves to line 4 and completes the tutorial. */
  lemma SolveCountedDown()
    ensures var r := Process(Fresh(4), "3j");
            r.session.cursor == Pos(4, 1) && r.verdict == Completed
  {
    var s := Fresh(4);
    Lines4();
    ParseMotionAccepts("3", Down);
    assert s.buffer + "3j" == "3" + [MotionKey(Down)];
    NormalMotion(s, "3j");
    RepeatDown(s.lines, Pos(1, 1), 3);
  }

  /**
    Played in order, the last challenge is reached in INSERT: "cw" solved
    the fourth and entered INSERT, and loading keeps the mode. There "3j"
    is only appended to the buffer, yet as the raw token it is the solution,
    so the tutorial completes with the cursor still at (1,1).
   */
  lemma InOrderLastChallenge()
    ensures var s3 := Process(Fresh(3), "cw").session;
            var s4 := Load(s3, Challenges.Table[4].text);
            && s3.mode == Insert && s3.challenge == 4 && WellFormed(s4)
            && Process(s4, "3j").verdict == Completed
            && Process(s4, "3j").session.cursor == Pos(1, 1)
            && Process(s4, "3j").session.buffer == "3j"
  {
    SolveChangeWord();
    ChallengeAdvance(Fresh(3), "cw");
    Challenges.TableSolutions();
    var s4 := Load(Process(Fresh(3), "cw").session, Challenges.Table[4].text);
    InsertOnlyAppends(s4, "3j");
  }

  /** "3" and then "j" as two tokens, from an empty NORMAL buffer, move down three lines and empty the buffer. */
  lemma KeyByKeyCountedDown(s: Session)
    requires WellFormed(s) && s.mode == Normal && s.buffer == ""
    ensures var r := Run(s, ["3", "j"]);
            r.cursor == Repeat(s.lines, s.cursor, Down, 3) && r.buffer == "" && r.lines == s.lines
  {
    assert ParseMotion("3") == None;
    assert s.buffer + "3" == "3";
    NormalUnmatchedAppends(s, "3");
    var s1 := Process(s, "3").session;
    ParseMotionAccepts("3", Down);
    assert s1.buffer + "j" == "3" + [MotionKey(Down)];
    NormalMotion(s1, "j");
    assert Run(s, ["3", "j"]) == Run(s1, ["j"]);
    assert Run(s1, ["j"]) == Process(s1, "j").session;
  }

  /**
    "3", "j" key by key: the count waits in the buffer until the motion key
    arrives; neither key is the solution "3j", so the index stays.
   */
  lemma TypeThreeJ()
    ensures Run(Fresh(4), ["3", "j"]).cursor == Pos(4, 1)
    ensures Run(Fresh(4), ["3", "j"]).buffer == ""
    ensures Run(Fresh(4), ["3", "j"]).challenge == 4
    ensures Process(Fresh(4), "3").verdict == Incorrect
    ensures Process(Process(Fresh(4), "3").session, "j").verdict == Incorrect
  {
    KeyByKeyCountedDown(Fresh(4));
    Lines4();
    RepeatDown(Fresh(4).lines, Pos(1, 1), 3);
    KeysRejected(Fresh(4), "3", "j");
  }

}
