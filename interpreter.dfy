/**
  The modal command interpreter as a function of its state. One call of
  `Process` is one submitted token: the token is appended to the command
  buffer, the first rule of the priority chain that applies is carried out
  (or none, and the buffer keeps growing), and then the raw token is judged
  against the current challenge's solution.

  The rules, in priority order:
    1. the buffer is exactly "i": INSERT mode, buffer cleared (in either mode);
    2. INSERT mode and the token is "Escape": NORMAL mode, buffer cleared;
    3. NORMAL mode only: a counted motion, "gg", "G", "dw" or "cw" in the
       buffer is carried out and the buffer cleared.
 */
module Interpreter {
  import opened Options
  import opened Strings
  import opened Motions
  import opened Cursor
  import opened Words
  import Challenges

  datatype Mode = Normal | Insert

  /** What one token makes the interpreter do. */
  datatype Action =
    | EnterInsert
    | LeaveInsert
    | Move(count: nat, motion: Motion)
    | JumpTop
    | JumpBottom
    | DeleteWordCmd
    | ChangeWordCmd
    | Accumulate

  /** The outcome of comparing the raw token with the current challenge's solution. */
  datatype Verdict =
    | Advance      // correct; the next challenge is loaded later
    | Completed    // correct, and it was the last challenge
    | Incorrect    // not the solution; the index stays
    | NoChallenge  // every challenge is done: the table has no entry to compare with

  /** The whole state: the text, the cursor, the mode, the command buffer and the challenge index. */
  datatype Session = Session(lines: seq<string>, cursor: Pos, mode: Mode, buffer: string, challenge: nat)

  datatype Outcome = Outcome(session: Session, verdict: Verdict)

  datatype Judgement = Judgement(next: nat, verdict: Verdict)

  /** The state every operation keeps: the cursor is on a line, and the index is at most one past the table. */
  predicate WellFormed(s: Session)
  {
    OnLine(s.lines, s.cursor) && s.challenge <= Challenges.Count
  }

  /** A NORMAL-mode buffer that one of the NORMAL-mode commands recognizes. */
  predicate NormalCommand(buffer: string)
  {
    ParseMotion(buffer).Some? || buffer in {"gg", "G", "dw", "cw"}
  }

  /** The NORMAL-mode commands, tried in order: a counted motion, "gg", "G", "dw", "cw". */
  function NormalAction(buffer: string): (a: Action)
    ensures a != Accumulate <==> NormalCommand(buffer)
    ensures a != EnterInsert && a != LeaveInsert
    ensures a.Move? ==> ParseMotion(buffer) == Some(Counted(a.count, a.motion))
  {
    match ParseMotion(buffer)
    case Some(k) => Move(k.count, k.motion)
    case None =>
      if buffer == "gg" then JumpTop
      else if buffer == "G" then JumpBottom
      else if buffer == "dw" then DeleteWordCmd
      else if buffer == "cw" then ChangeWordCmd
      else Accumulate
  }

  /** The rule that fires for the already extended buffer, given the raw token. */
  function Classify(mode: Mode, buffer: string, token: string): (a: Action)
    ensures a == EnterInsert <==> buffer == "i"
    ensures a == LeaveInsert <==> buffer != "i" && mode == Insert && token == "Escape"
    ensures mode == Insert ==> a in {EnterInsert, LeaveInsert, Accumulate}
    ensures mode == Normal && a == Accumulate ==> buffer != "i" && !NormalCommand(buffer)
  {
    if buffer == "i" then EnterInsert
    else if mode == Insert && token == "Escape" then LeaveInsert
    else if mode == Normal then NormalAction(buffer)
    else Accumulate
  }

  /** The lines with the word the cursor's column selects (`Words.WordIndex`) deleted from the cursor's line. */
  function DeleteWordAt(lines: seq<string>, p: Pos): (r: seq<string>)
    requires OnLine(lines, p)
    ensures |r| == |lines|
    ensures r[p.line - 1] == DeleteWordIn(lines[p.line - 1], p.col)
    ensures forall i :: 0 <= i < |lines| && i != p.line - 1 ==> r[i] == lines[i]
  {
    lines[p.line - 1 := DeleteWordIn(lines[p.line - 1], p.col)]
  }

  /** Carrying out an action on a state whose buffer already holds the token. */
  function Apply(s: Session, a: Action): (r: Session)
    requires WellFormed(s)
    ensures WellFormed(r) && r.challenge == s.challenge
  {
    match a
    case EnterInsert => s.(mode := Insert, buffer := "")
    case LeaveInsert => s.(mode := Normal, buffer := "")
    case Move(n, m) => s.(cursor := Repeat(s.lines, s.cursor, m, n), buffer := "")
    case JumpTop => s.(cursor := Pos(1, 1), buffer := "")
    case JumpBottom => s.(cursor := Pos(|s.lines|, 1), buffer := "")
    case DeleteWordCmd => s.(lines := DeleteWordAt(s.lines, s.cursor), buffer := "")
    case ChangeWordCmd => s.(lines := DeleteWordAt(s.lines, s.cursor), mode := Insert, buffer := "")
    case Accumulate => s
  }

  /** Comparing the raw input with the solution of challenge `index`. */
  function Judge(index: nat, input: string): (j: Judgement)
    ensures index < Challenges.Count && input == Challenges.Solution(index)
            ==> j.next == index + 1 && j.verdict in {Advance, Completed}
    ensures !(index < Challenges.Count && input == Challenges.Solution(index))
            ==> j.next == index && j.verdict in {Incorrect, NoChallenge}
    ensures j.verdict == NoChallenge <==> index >= Challenges.Count
    ensures j.verdict == Completed <==> j.next == Challenges.Count && index < j.next
  {
    if index >= Challenges.Count then Judgement(index, NoChallenge)
    else if input == Challenges.Solution(index) then
      Judgement(index + 1, if index + 1 < Challenges.Count then Advance else Completed)
    else Judgement(index, Incorrect)
  }

  /** One submitted token. */
  function Process(s: Session, token: string): (r: Outcome)
    requires WellFormed(s)
    ensures WellFormed(r.session)
  {
    var extended := s.(buffer := s.buffer + token);
    var acted := Apply(extended, Classify(s.mode, extended.buffer, token));
    var j := Judge(acted.challenge, token);
    Outcome(acted.(challenge := j.next), j.verdict)
  }

  /** Loading a text: its lines, with the cursor at (1,1); mode, buffer and index stay. */
  function Load(s: Session, text: string): (r: Session)
    ensures Join(r.lines, '\n') == text
    ensures |r.lines| == Count(text, '\n') + 1
    ensures r.cursor == Pos(1, 1)
    ensures r.mode == s.mode && r.buffer == s.buffer && r.challenge == s.challenge
  {
    JoinSplit(text, '\n');
    SplitCount(text, '\n');
    s.(lines := Split(text, '\n'), cursor := Pos(1, 1))
  }

  /** The tokens submitted one after another. */
  function Run(s: Session, tokens: seq<string>): (r: Session)
    requires WellFormed(s)
    ensures WellFormed(r)
    decreases |tokens|
  {
    if tokens == [] then s else Run(Process(s, tokens[0]).session, tokens[1..])
  }

  /** The tokens concatenated. */
  function Concat(tokens: seq<string>): string
  {
    if tokens == [] then "" else tokens[0] + Concat(tokens[1..])
  }

  // ---------------------------------------------------------------------------
  // The transition table

  /** A buffer of exactly "i" enters INSERT with an empty buffer, in either mode. */
  lemma BufferIEntersInsert(s: Session, token: string)
    requires WellFormed(s)
    requires s.buffer + token == "i"
    ensures var r := Process(s, token).session;
            r.mode == Insert && r.buffer == "" && r.lines == s.lines && r.cursor == s.cursor
  {
  }

  /** In INSERT, "Escape" returns to NORMAL with an empty buffer. */
  lemma EscapeLeavesInsert(s: Session)
    requires WellFormed(s)
    requires s.mode == Insert
    ensures var r := Process(s, "Escape").session;
            r.mode == Normal && r.buffer == "" && r.lines == s.lines && r.cursor == s.cursor
  {
    assert s.buffer + "Escape" != "i" by {
      assert |s.buffer + "Escape"| >= 6;
    }
  }

  /** In INSERT, any other token (that does not make the buffer "i") is only appended. */
  lemma InsertOnlyAppends(s: Session, token: string)
    requires WellFormed(s)
    requires s.mode == Insert && token != "Escape" && s.buffer + token != "i"
    ensures var r := Process(s, token).session;
            r == s.(buffer := s.buffer + token, challenge := r.challenge)
  {
  }

  /** In NORMAL, a counted motion in the buffer moves the cursor by that motion, count times. */
  lemma NormalMotion(s: Session, token: string)
    requires WellFormed(s)
    requires s.mode == Normal && ParseMotion(s.buffer + token).Some?
    ensures var k := ParseMotion(s.buffer + token).value;
            var r := Process(s, token).session;
            && r.cursor == Repeat(s.lines, s.cursor, k.motion, k.count)
            && r.lines == s.lines && r.mode == Normal && r.buffer == ""
  {
    CommandsAreNotMotions();
  }

  /**
    In NORMAL, "gg" goes to (1,1) and "G" to the start of the last line;
    either keeps the text and the mode and empties the buffer.
   */
  lemma NormalJumps(s: Session, token: string)
    requires WellFormed(s)
    requires s.mode == Normal
    ensures s.buffer + token == "gg" ==> Process(s, token).session.cursor == Pos(1, 1)
    ensures s.buffer + token == "G" ==> Process(s, token).session.cursor == Pos(|s.lines|, 1)
    ensures s.buffer + token in {"gg", "G"} ==>
              var r := Process(s, token).session;
              r.lines == s.lines && r.mode == Normal && r.buffer == ""
  {
    CommandsAreNotMotions();
  }

  /**
    In NORMAL, "dw" deletes the word the cursor's column selects
    (`Words.WordIndex`) and changes nothing else; "cw" does the same and then enters INSERT.
   */
  lemma NormalWordCommands(s: Session, token: string)
    requires WellFormed(s)
    requires s.mode == Normal && s.buffer + token in {"dw", "cw"}
    ensures var r := Process(s, token).session;
            && r.lines == DeleteWordAt(s.lines, s.cursor)
            && r.cursor == s.cursor && r.buffer == ""
            && r.mode == (if s.buffer + token == "cw" then Insert else Normal)
  {
    CommandsAreNotMotions();
  }

  /** In NORMAL, a recognized command always leaves the buffer empty. */
  lemma MatchedCommandClears(s: Session, token: string)
    requires WellFormed(s)
    requires s.mode == Normal && NormalCommand(s.buffer + token)
    ensures Process(s, token).session.buffer == ""
  {
    CommandsAreNotMotions();
  }

  /** In NORMAL, an unrecognized buffer is kept whole and nothing else changes. */
  lemma NormalUnmatchedAppends(s: Session, token: string)
    requires WellFormed(s)
    requires s.mode == Normal && s.buffer + token != "i" && !NormalCommand(s.buffer + token)
    ensures var r := Process(s, token).session;
            r == s.(buffer := s.buffer + token, challenge := r.challenge)
  {
  }

  /** "Escape" typed in NORMAL is no command: it is appended to the buffer like any text. */
  lemma EscapeInNormalAppends(s: Session)
    requires WellFormed(s)
    requires s.mode == Normal
    ensures var r := Process(s, "Escape").session;
            r == s.(buffer := s.buffer + "Escape", challenge := r.challenge)
  {
    var b := s.buffer + "Escape";
    assert b[|b| - 1] == 'e';
    assert |b| >= 6;
    NormalUnmatchedAppends(s, "Escape");
  }

  /**
    A NORMAL buffer never keeps a completed command: after every token it is
    neither "i" nor a string some NORMAL-mode command recognizes.
   */
  predicate Pending(s: Session)
  {
    s.mode == Normal ==> s.buffer != "i" && !NormalCommand(s.buffer)
  }

  /** Every token leaves a NORMAL buffer pending, whatever the state before it. */
  lemma ProcessKeepsPending(s: Session, token: string)
    requires WellFormed(s)
    ensures Pending(Process(s, token).session)
  {
    var b := s.buffer + token;
    var a := Classify(s.mode, b, token);
    assert !NormalCommand("") by {
      assert ParseMotion("") == None;
    }
    assert Apply(s.(buffer := b), a).buffer == (if a == Accumulate then b else "");
  }

  /** The pending buffer holds across any run of tokens. */
  lemma {:induction false} RunKeepsPending(s: Session, tokens: seq<string>)
    requires WellFormed(s) && Pending(s)
    ensures Pending(Run(s, tokens))
    decreases |tokens|
  {
    if tokens != [] {
      ProcessKeepsPending(s, tokens[0]);
      RunKeepsPending(Process(s, tokens[0]).session, tokens[1..]);
    }
  }

  // ---------------------------------------------------------------------------
  // Several tokens

  lemma ConcatPrefix(tokens: seq<string>, k: nat)
    requires 1 <= k <= |tokens|
    ensures Concat(tokens[..k]) == tokens[0] + Concat(tokens[1..][..k - 1])
  {
    assert tokens[..k][1..] == tokens[1..][..k - 1];
  }

  /** After the first token, each prefix of the remaining tokens extends the buffer as the longer prefix of all of them did. */
  lemma ShiftedPrefixes(buffer: string, tokens: seq<string>)
    requires |tokens| >= 1
    ensures forall k :: 1 <= k <= |tokens[1..]| ==>
              (buffer + tokens[0]) + Concat(tokens[1..][..k]) == buffer + Concat(tokens[..k + 1])
  {
    forall k | 1 <= k <= |tokens[1..]|
      ensures (buffer + tokens[0]) + Concat(tokens[1..][..k]) == buffer + Concat(tokens[..k + 1])
    {
      ConcatPrefix(tokens, k + 1);
    }
  }

  /**
    If no extension of `buffer` by a prefix of the tokens is "i" or a
    command, then extending by the first token is neither, and the same
    holds for the buffer so extended and the remaining tokens.
   */
  lemma PendingShift(buffer: string, tokens: seq<string>)
    requires |tokens| >= 1
    requires forall k :: 1 <= k <= |tokens| ==>
               buffer + Concat(tokens[..k]) != "i" && !NormalCommand(buffer + Concat(tokens[..k]))
    ensures buffer + tokens[0] != "i" && !NormalCommand(buffer + tokens[0])
    ensures forall k :: 1 <= k <= |tokens[1..]| ==>
              (buffer + tokens[0]) + Concat(tokens[1..][..k]) != "i"
              && !NormalCommand((buffer + tokens[0]) + Concat(tokens[1..][..k]))
  {
    ConcatPrefix(tokens, 1);
    assert tokens[1..][..0] == [];
    assert Concat(tokens[..1]) == tokens[0];
    assert buffer + Concat(tokens[..1]) == buffer + tokens[0];
    ShiftedPrefixes(buffer, tokens);
  }

  /**
    In NORMAL, while no extension of the buffer is "i" or a command, the
    buffer is the concatenation of every token since it was last cleared,
    and the text, cursor and mode do not change.
   */
  lemma NormalAccumulates(s: Session, tokens: seq<string>)
    requires WellFormed(s) && s.mode == Normal
    requires forall k :: 1 <= k <= |tokens| ==>
               s.buffer + Concat(tokens[..k]) != "i" && !NormalCommand(s.buffer + Concat(tokens[..k]))
    ensures var r := Run(s, tokens);
            r.buffer == s.buffer + Concat(tokens) && r.mode == Normal
            && r.lines == s.lines && r.cursor == s.cursor
  {
    PendingPrefixes(s.buffer, tokens);
    NormalAccumulatesStepwise(s, tokens);
  }

  /** Token by token: each token extends the buffer to something that is neither "i" nor a command. */
  predicate StaysPending(buffer: string, tokens: seq<string>)
    decreases |tokens|
  {
    tokens == []
    || (buffer + tokens[0] != "i" && !NormalCommand(buffer + tokens[0])
        && StaysPending(buffer + tokens[0], tokens[1..]))
  }

  /** The condition on every prefix gives the token-by-token condition. */
  lemma {:induction false} PendingPrefixes(buffer: string, tokens: seq<string>)
    requires forall k :: 1 <= k <= |tokens| ==>
               buffer + Concat(tokens[..k]) != "i" && !NormalCommand(buffer + Concat(tokens[..k]))
    ensures StaysPending(buffer, tokens)
    decreases |tokens|
  {
    if tokens != [] {
      PendingShift(buffer, tokens);
      PendingPrefixes(buffer + tokens[0], tokens[1..]);
    }
  }

  /** `NormalAccumulates` under the token-by-token condition, by induction on the tokens. */
  lemma {:induction false} NormalAccumulatesStepwise(s: Session, tokens: seq<string>)
    requires WellFormed(s) && s.mode == Normal && StaysPending(s.buffer, tokens)
    ensures var r := Run(s, tokens);
            r.buffer == s.buffer + Concat(tokens) && r.mode == Normal
            && r.lines == s.lines && r.cursor == s.cursor
    decreases |tokens|
  {
    if tokens != [] {
      NormalUnmatchedAppends(s, tokens[0]);
      var next := Process(s, tokens[0]).session;
      NormalAccumulatesStepwise(next, tokens[1..]);
      assert Concat(tokens) == tokens[0] + Concat(tokens[1..]);
    }
  }

  /**
    In INSERT, while no token is "Escape" and the buffer never becomes "i",
    every token is only appended to the buffer.
   */
  lemma {:induction false} InsertAccumulates(s: Session, tokens: seq<string>)
    requires WellFormed(s) && s.mode == Insert
    requires forall k :: 0 <= k < |tokens| ==> tokens[k] != "Escape"
    requires forall k :: 1 <= k <= |tokens| ==> s.buffer + Concat(tokens[..k]) != "i"
    ensures var r := Run(s, tokens);
            r.buffer == s.buffer + Concat(tokens) && r.mode == Insert
            && r.lines == s.lines && r.cursor == s.cursor
    decreases |tokens|
  {
    if tokens != [] {
      ConcatPrefix(tokens, 1);
      assert tokens[1..][..0] == [];
      assert Concat(tokens[..1]) == tokens[0];
      assert s.buffer + Concat(tokens[..1]) == s.buffer + tokens[0];
      InsertOnlyAppends(s, tokens[0]);
      var next := Process(s, tokens[0]).session;
      assert next.buffer == s.buffer + tokens[0] && next.mode == Insert;
      ShiftedPrefixes(s.buffer, tokens);
      assert forall k :: 0 <= k < |tokens[1..]| ==> tokens[1..][k] == tokens[k + 1];
      InsertAccumulates(next, tokens[1..]);
      assert Run(s, tokens) == Run(next, tokens[1..]);
      assert Concat(tokens) == tokens[0] + Concat(tokens[1..]);
    }
  }

  // ---------------------------------------------------------------------------
  // Challenge progress

  /**
    The index goes up by exactly one when the raw token is the current
    challenge's solution, and stays otherwise; the mode and the buffer play
    no part in it.
   */
  lemma ChallengeAdvance(s: Session, token: string)
    requires WellFormed(s)
    ensures var r := Process(s, token);
            var solved := s.challenge < Challenges.Count && token == Challenges.Solution(s.challenge);
            && (solved ==> r.session.challenge == s.challenge + 1)
            && (!solved ==> r.session.challenge == s.challenge)
  {
    var extended := s.(buffer := s.buffer + token);
    var acted := Apply(extended, Classify(s.mode, extended.buffer, token));
    assert acted.challenge == s.challenge;
  }

  /** Two states with the same index get the same verdict and the same next index for a token. */
  lemma ChallengeIgnoresEditorState(s: Session, t: Session, token: string)
    requires WellFormed(s) && WellFormed(t)
    requires s.challenge == t.challenge
    ensures Process(s, token).verdict == Process(t, token).verdict
    ensures Process(s, token).session.challenge == Process(t, token).session.challenge
  {
    var es := s.(buffer := s.buffer + token);
    var et := t.(buffer := t.buffer + token);
    assert Apply(es, Classify(s.mode, es.buffer, token)).challenge == s.challenge;
    assert Apply(et, Classify(t.mode, et.buffer, token)).challenge == t.challenge;
  }

  /** Once the last challenge is solved, every further token finds no challenge. */
  lemma PastTheEnd(s: Session, token: string)
    requires WellFormed(s) && s.challenge == Challenges.Count
    ensures Process(s, token).verdict == NoChallenge
    ensures Process(s, token).session.challenge == s.challenge
  {
  }
}
