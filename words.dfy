/**
  Deleting the word the cursor's column selects (`dw`, and the deleting half of `cw`).
  The line is split on single spaces into words; the word taken is the
  first word `i` that is the last word or for which the column is at most
  `|join(words[0..i], " ")| + i` (words 0 to i inclusive); that word is
  spliced out and the rest are joined again with single spaces.

  The bound counts every separator twice (once inside the join, once in the
  added `i`), so from the second word on it reaches past the word's own end:
  the selection is modelled exactly as it is computed, not as a
  conventional editor would choose.
 */
module Words {
  import opened Strings

  /**
    The selection bound of word `i`, as the line's code computes it: the
    letters of words 0 to i plus two per separator before word `i`.
   */
  function Span(words: seq<string>, i: nat): (s: nat)
    requires i < |words|
    ensures s == TotalLength(words[..i + 1]) + 2 * i
  {
    |Join(words[..i + 1], ' ')| + i
  }

  /** The test the word search applies to word `i`: it is the last word, or its bound reaches the column. */
  predicate Selects(words: seq<string>, col: int, i: nat): (b: bool)
    requires i < |words|
    ensures b <==> i == |words| - 1 || col <= TotalLength(words[..i + 1]) + 2 * i
  {
    i == |words| - 1 || col <= Span(words, i)
  }

  /** The first word at or after `from` that passes the test; the last word always does. */
  function WordIndexFrom(words: seq<string>, col: int, from: nat): (i: nat)
    requires from < |words|
    ensures from <= i < |words| && Selects(words, col, i)
    ensures forall j :: from <= j < i ==> !Selects(words, col, j)
    decreases |words| - from
  {
    if Selects(words, col, from) then from else WordIndexFrom(words, col, from + 1)
  }

  /** The index of the word the cursor's column selects: the first word that passes the test. */
  function WordIndex(words: seq<string>, col: int): (i: nat)
    requires |words| >= 1
    ensures i < |words| && Selects(words, col, i)
    ensures forall j :: 0 <= j < i ==> !Selects(words, col, j)
  {
    WordIndexFrom(words, col, 0)
  }

  /** `xs` with the element at `i` spliced out; putting it back restores `xs`. */
  function RemoveAt<T>(xs: seq<T>, i: nat): (ys: seq<T>)
    requires i < |xs|
    ensures |ys| == |xs| - 1
    ensures ys[..i] + [xs[i]] + ys[i..] == xs
  {
    xs[..i] + xs[i + 1..]
  }

  /** The line after deleting the word the column selects. */
  function DeleteWordIn(text: string, col: int): string
  {
    var words := Split(text, ' ');
    Join(RemoveAt(words, WordIndex(words, col)), ' ')
  }

  /**
    Deleting a word takes exactly that word's letters off the line, and one
    space when there was another word.
   */
  lemma DeleteWordShortens(text: string, col: int)
    ensures var words := Split(text, ' ');
            var gone := |words[WordIndex(words, col)]| + (if |words| >= 2 then 1 else 0);
            |DeleteWordIn(text, col)| == |text| - gone
  {
    var words := Split(text, ' ');
    JoinSplit(text, ' ');
    TotalLengthRemoveAt(words, WordIndex(words, col));
  }

  /** Splicing out one piece takes its letters off the total length. */
  lemma TotalLengthRemoveAt(xs: seq<string>, i: nat)
    requires i < |xs|
    ensures TotalLength(RemoveAt(xs, i)) == TotalLength(xs) - |xs[i]|
  {
    assert xs == xs[..i] + ([xs[i]] + xs[i + 1..]);
    TotalLengthConcat(xs[..i], [xs[i]] + xs[i + 1..]);
    TotalLengthConcat([xs[i]], xs[i + 1..]);
    assert ([xs[i]] + xs[i + 1..])[1..] == xs[i + 1..];
    TotalLengthConcat(xs[..i], xs[i + 1..]);
  }

  /**
    Deleting a word removes exactly one of the line's words: on a line of
    two or more words, splitting the result gives the words with the selected
    one spliced out, one fewer; a line with no space becomes "".
   */
  lemma DeleteWordRemovesOne(text: string, col: int)
    ensures var words := Split(text, ' ');
            var result := DeleteWordIn(text, col);
            && (|words| >= 2 ==> Split(result, ' ') == RemoveAt(words, WordIndex(words, col))
                                 && |Split(result, ' ')| == |words| - 1)
            && (|words| == 1 ==> result == "")
  {
    var words := Split(text, ' ');
    var i := WordIndex(words, col);
    var kept := RemoveAt(words, i);
    if |words| >= 2 {
      SplitPiecesFree(text, ' ');
      forall j | 0 <= j < |kept| ensures ' ' !in kept[j] {
        if j < i {
          assert kept[j] == words[j];
        } else {
          assert kept[j] == words[j + 1];
        }
      }
      SplitJoin(kept, ' ');
    }
  }

  /** A line without a space, the empty line included, becomes "". */
  lemma DeleteOnlyWord(text: string, col: int)
    requires ' ' !in text
    ensures DeleteWordIn(text, col) == ""
  {
    SplitCount(text, ' ');
    CountAbsent(text, ' ');
    DeleteWordRemovesOne(text, col);
  }

  lemma {:induction false} CountAbsent(s: string, c: char)
    requires c !in s
    ensures Count(s, c) == 0
    decreases |s|
  {
    if s != [] {
      assert s[0] in s;
      assert forall k :: 0 <= k < |s[1..]| ==> s[1..][k] == s[k + 1];
      CountAbsent(s[1..], c);
    }
  }

  /** The words of `w + " " + rest`, for a word `w`, are `w` and then the words of `rest`. */
  lemma SplitAfterWord(w: string, rest: string)
    requires ' ' !in w
    ensures Split(w + " " + rest, ' ') == [w] + Split(rest, ' ')
  {
    SplitFreePrefix(w, " " + rest, ' ');
    assert w + " " + rest == w + (" " + rest);
    assert (" " + rest)[1..] == rest;
    assert w + "" == w;
  }

  /** With the column on the first word, `dw` removes that word and its following space. */
  lemma DeleteFirstWord(w: string, rest: string, col: int)
    requires ' ' !in w
    requires col <= |w|
    ensures DeleteWordIn(w + " " + rest, col) == rest
  {
    SplitAfterWord(w, rest);
    var words := [w] + Split(rest, ' ');
    assert words[..1] == [w];
    assert Selects(words, col, 0);
    assert RemoveAt(words, 0) == Split(rest, ' ');
    JoinSplit(rest, ' ');
  }

  /** The prompt line of the third challenge: column 1 deletes "Delete ". */
  lemma DeleteChallengeLine()
    ensures DeleteWordIn("Delete this word.", 1) == "this word."
  {
    DeleteFirstWord("Delete", "this word.", 1);
    assert "Delete" + " " + "this word." == "Delete this word.";
  }

  /** Deleting at column 1 three times empties "a b c": "b c", then "c", then "". */
  lemma DeleteRepeatedly()
    ensures DeleteWordIn("a b c", 1) == "b c"
    ensures DeleteWordIn("b c", 1) == "c"
    ensures DeleteWordIn("c", 1) == ""
  {
    DeleteFirstWord("a", "b c", 1);
    assert "a" + " " + "b c" == "a b c";
    DeleteFirstWord("b", "c", 1);
    assert "b" + " " + "c" == "b c";
    DeleteOnlyWord("c", 1);
  }

  /** The bounds of the first three words of "a b c d": 1, 4 and 7. */
  lemma DriftSpans(words: seq<string>)
    requires words == ["a", "b", "c", "d"]
    ensures Span(words, 0) == 1 && Span(words, 1) == 4 && Span(words, 2) == 7
  {
    assert words[..1] == ["a"];
    assert words[..2] == ["a", "b"];
    assert words[..3] == ["a", "b", "c"];
    assert ["a", "b", "c"][1..] == ["b", "c"];
    assert ["b", "c"][1..] == ["c"];
    assert |Join(["c"], ' ')| == 1;
    assert |Join(["b", "c"], ' ')| == 3;
    assert |Join(["a", "b", "c"], ' ')| == 5;
  }

  /**
    The doubled separator count in action: on "a b c d" column 7 is the
    letter d, yet the third word, c, is the one removed.
   */
  lemma SelectionDrifts()
    ensures DeleteWordIn("a b c d", 7) == "a b d"
  {
    var words := ["a", "b", "c", "d"];
    SplitJoin(words, ' ');
    assert Join(words, ' ') == "a b c d";
    DriftSpans(words);
    var i := WordIndex(words, 7);
    assert !Selects(words, 7, 0) && !Selects(words, 7, 1) && Selects(words, 7, 2);
    assert i == 2;
    var kept := RemoveAt(words, 2);
    assert kept == ["a", "b", "d"];
    assert Join(kept, ' ') == "a b d";
  }
}
