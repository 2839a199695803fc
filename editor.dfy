/**
  The interpreter as the program keeps it: one object whose fields are the
  text, the cursor, the mode, the command buffer and the challenge index,
  changed in place by each operation. Every method is proved against the
  functions of the Interpreter module: `State()` after the call is the
  function of `State()` before it.
 */
module Editing {
  import opened Strings
  import opened Motions
  import opened Cursor
  import opened Words
  import opened Interpreter
  import Challenges

  class Editor {
    var lines: seq<string>
    var line: nat
    var col: nat
    var mode: Mode
    var buffer: string
    var challenge: nat

    /** The fields as one value. */
    function State(): Session
      reads this
    {
      Session(lines, Pos(line, col), mode, buffer, challenge)
    }

    ghost predicate Valid()
      reads this
    {
      WellFormed(State())
    }

    /** The start-up state: NORMAL, empty buffer, first challenge, loaded. */
    constructor ()
      ensures Valid()
      ensures State() == Load(Session([], Pos(1, 1), Normal, "", 0), Challenges.Table[0].text)
    {
      challenge := 0;
      line, col := 1, 1;
      mode := Normal;
      lines := [];
      buffer := "";
      new;
      Challenges.TableSolutions();
      LoadChallenge();
    }

    /** Loads the current challenge's text and puts the cursor at (1,1). */
    method LoadChallenge()
      requires challenge < Challenges.Count
      modifies this
      ensures Valid()
      ensures State() == Load(old(State()), Challenges.Table[old(challenge)].text)
    {
      Challenges.TableSolutions();
      lines := Split(Challenges.Table[challenge].text, '\n');
      UpdateCursorPosition(1, 1);
    }

    /** Puts the cursor at (`l`, `c`). */
    method UpdateCursorPosition(l: nat, c: nat)
      modifies this
      ensures State() == old(State()).(cursor := Pos(l, c))
    {
      line, col := l, c;
    }

    /** The motion `m`, `n` times, one clamped step at a time. */
    method MoveCursor(m: Motion, n: nat)
      requires Valid()
      modifies this
      ensures Valid()
      ensures State() == old(State()).(cursor := Repeat(old(lines), old(State()).cursor, m, n))
    {
      ghost var start := Pos(line, col);
      for i := 0 to n
        invariant lines == old(lines) && mode == old(mode)
        invariant buffer == old(buffer) && challenge == old(challenge)
        invariant OnLine(lines, Pos(line, col))
        invariant Pos(line, col) == Repeat(lines, start, m, i)
      {
        match m
        case Left =>
          if col > 1 { col := col - 1; }
        case Down =>
          if line < |lines| { line := line + 1; }
        case Up =>
          if line > 1 { line := line - 1; }
        case Right =>
          if col < |lines[line - 1]| { col := col + 1; }
        case LineEnd =>
          col := |lines[line - 1]|;
      }
      UpdateCursorPosition(line, col);
    }

    /** Splices the word the cursor selects out of the cursor's line. */
    method DeleteWord()
      requires Valid()
      modifies this
      ensures Valid()
      ensures State() == old(State()).(lines := DeleteWordAt(old(lines), old(State()).cursor))
    {
      var words := Split(lines[line - 1], ' ');
      var index := WordIndex(words, col);
      words := words[..index] + words[index + 1..];
      lines := lines[line - 1 := Join(words, ' ')];
    }

    /** Deletes the word as `DeleteWord` does and enters INSERT. */
    method ChangeWord()
      requires Valid()
      modifies this
      ensures Valid()
      ensures State() == old(State()).(lines := DeleteWordAt(old(lines), old(State()).cursor), mode := Insert)
    {
      DeleteWord();
      mode := Insert;
    }

    /** Compares the raw input with the current challenge's solution and advances on a match. */
    method CheckSolution(input: string) returns (verdict: Verdict)
      requires Valid()
      modifies this
      ensures Valid()
      ensures State() == old(State()).(challenge := Judge(old(challenge), input).next)
      ensures verdict == Judge(old(challenge), input).verdict
    {
      Challenges.TableSolutions();
      if challenge >= |Challenges.Table| {
        verdict := NoChallenge;
        return;
      }
      if input == Challenges.Table[challenge].solution {
        challenge := challenge + 1;
        verdict := if challenge < |Challenges.Table| then Advance else Completed;
      } else {
        verdict := Incorrect;
      }
    }

    /** One submitted token: extend the buffer, carry out the first rule that applies, judge the token. */
    method ProcessCommand(token: string) returns (verdict: Verdict)
      requires Valid()
      modifies this
      ensures Valid()
      ensures Outcome(State(), verdict) == Process(old(State()), token)
    {
      buffer := buffer + token;
      RunRules(token);
      verdict := CheckSolution(token);
    }

    /**
      The priority chain of the rules for a buffer that already holds
      `token`: "i", then "Escape" in INSERT, then the NORMAL-mode commands.
     */
    method RunRules(token: string)
      requires Valid()
      modifies this
      ensures Valid()
      ensures State() == Apply(old(State()), Classify(old(mode), old(buffer), token))
    {
      if buffer == "i" {
        mode := Insert;
        buffer := "";
      } else if mode == Insert && token == "Escape" {
        mode := Normal;
        buffer := "";
      } else if mode == Normal {
        RunNormalCommand();
      }
    }

    /** The NORMAL-mode commands: a counted motion, "gg", "G", "dw" or "cw"; anything else waits. */
    method RunNormalCommand()
      requires Valid() && mode == Normal && buffer != "i"
      modifies this
      ensures Valid()
      ensures State() == Apply(old(State()), NormalAction(old(buffer)))
    {
      var parsed := ParseMotion(buffer);
      if parsed.Some? {
        MoveCursor(parsed.value.motion, parsed.value.count);
        buffer := "";
      } else if buffer == "gg" {
        UpdateCursorPosition(1, 1);
        buffer := "";
      } else if buffer == "G" {
        UpdateCursorPosition(|lines|, 1);
        buffer := "";
      } else if buffer == "dw" {
        DeleteWord();
        buffer := "";
      } else if buffer == "cw" {
        ChangeWord();
        buffer := "";
      }
    }

    /** Back to the first challenge, loaded afresh. */
    method ResetProgress()
      requires Valid()
      modifies this
      ensures Valid()
      ensures State() == Load(old(State()).(challenge := 0), Challenges.Table[0].text)
    {
      challenge := 0;
      LoadChallenge();
    }
  }
}
