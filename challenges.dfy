/** The tutorial's fixed, ordered table of challenges. Each text is written line by line, joined with "\n". */
module Challenges {

  /** A challenge: what to do, the command that solves it, a hint, and the text to work on. */
  datatype Challenge = Challenge(prompt: string, solution: string, hint: string, text: string)

  /** The number of challenges. */
  const Count: nat := 5

  /** The command that solves challenge `k`. */
  function Solution(k: nat): (s: string)
    requires k < Count
    ensures |s| >= 1
  {
    match k
    case 0 => "$"
    case 1 => "gg"
    case 2 => "dw"
    case 3 => "cw"
    case _ => "3j"
  }

  const LineEndChallenge := Challenge(
    "Move to the end of the line",
    Solution(0),
    "Use '$' to move to the end of the line.",
    "This is a sample line of text." + "\n" + "Move the cursor to the end of this line.")

  const TopChallenge := Challenge(
    "Move to the beginning of the file",
    Solution(1),
    "Use 'gg' to move to the first line of the file.",
    "This is the first line." + "\n" + "This is the second line." + "\n" + "This is the third line.")

  const DeleteWordChallenge := Challenge(
    "Delete a word",
    Solution(2),
    "Use 'dw' to delete from the cursor to the end of the word.",
    "Delete this word." + "\n" + "Leave this line intact.")

  const ChangeWordChallenge := Challenge(
    "Change a word",
    Solution(3),
    "Use 'cw' to change from the cursor to the end of the word.",
    "Change this word." + "\n" + "Leave this line intact.")

  const CountedDownChallenge := Challenge(
    "Move down 3 lines",
    Solution(4),
    "Combine a number with 'j' to move down multiple lines.",
    "Line 1" + "\n" + "Line 2" + "\n" + "Line 3" + "\n" + "Line 4" + "\n" + "Line 5")

  /** The challenges in the order they are played. */
  const Table: seq<Challenge> :=
    [LineEndChallenge, TopChallenge, DeleteWordChallenge, ChangeWordChallenge, CountedDownChallenge]

  /** The table has `Count` entries, entry `k` is solved by `Solution(k)`, and no two share a solution. */
  lemma TableSolutions()
    ensures |Table| == Count
    ensures forall k :: 0 <= k < |Table| ==> Table[k].solution == Solution(k)
    ensures forall i, j :: 0 <= i < j < Count ==> Solution(i) != Solution(j)
  {
  }
}
