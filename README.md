# VimChallenger: the modal command interpreter

VimChallenger is a browser tutorial that teaches a handful of Vim commands. It
shows a short text, asks for one command (move to the end of the line, go to
the top of the file, delete a word, change a word, move down three lines) and
checks the command the player submits. This project models the tutorial's
interpreter and proves properties of it. The interpreter is a small state
machine. Its state is:

- the text, as a sequence of lines;
- the cursor, as a 1-based line and column;
- the mode, NORMAL or INSERT;
- the command buffer, an accumulating string;
- the index of the current challenge.

Each submitted token goes through the same steps:

1. The token is appended to the buffer.
2. The first rule that applies is carried out, and it clears the buffer. The rules, in order:
   - the buffer is exactly `i`;
   - the mode is INSERT and the token is `Escape`;
   - in NORMAL mode only, the buffer is a counted motion (`^(\d*)([hjkl$])$`), or one of `gg`, `G`, `dw`, `cw`.
3. If no rule applies, the buffer keeps growing.
4. The raw token, not the buffer, is compared with the current challenge's solution.

The project has two layers:

- **Pure functions.** These cover the behaviour: `Interpreter.Process` for one token, with the functions it is built from in the Strings, Motions, Cursor, Words and Challenges modules.
- **`Editing.Editor`.** This class holds the same state as fields that its methods update in place, just as the program's module-level variables are updated. Each method is proved against the pure functions: after the call, `State()` is the function of the old `State()`.

Modules and their contents:

- `strings.dfy`: the two string operations the program uses. Splitting on one separator character follows JavaScript's `split` (it always returns at least one piece). Joining follows `join`.
- `motions.dfy`: a hand-written recognizer for the counted-motion grammar. An absent count means 1. The digits are read as a decimal number: leading zeros are ignored and `0` is a count of zero.
- `cursor.dfy`: clamped single steps of `h`, `j`, `k`, `l` and `$`, repeated `n` times.
- `words.dfy`: the word deletion of `dw`, with the word-selection rule exactly as computed.
- `challenges.dfy`: the table of five challenges. `Challenges.Count` is its size, and `Challenges.Solution(k)` is the solution of entry `k`. The interpreter refers to these instead of the string-heavy table.
- `interpreter.dfy`: the state and the transition function, with the transition table and challenge progress as lemmas.
- `editor.dfy`: the in-place class.
- `scenarios.dfy`: every challenge played through the interpreter. Each is solved when its solution is submitted as one token. For `gg`, `dw` and `3j` the same keys are also played one token at a time. They make the same edit, but each key is judged as a raw token on its own, so every key is `Incorrect` and the index stays. `cw` is played only as one token. Each challenge is played from a freshly loaded NORMAL state. The challenges are also played in the program's own order: `cw` leaves INSERT on, and loading keeps the mode, so on the last challenge `3j` is only typed into the buffer. It is still accepted as the raw token, and the tutorial completes with the cursor unmoved.

Three behaviours of the code are worth noting, and the model follows the code in each:

- `$` sets the column to the line's length (script.js:122-124), so on an empty line it gives column 0. There is no floor of 1 (`Cursor.RepeatLineEnd`).
- `j` and `k` keep the column, and `dw` does not move it, so the column can lie past the end of its line.
- The word search's bound for word `i` is the joined length of words 0 to i plus `i` (script.js:135). That counts two per separator before the word, so a column late on a line can select the word before the one under it. On "a b c d", column 7 (the letter d) deletes c (`Words.SelectionDrifts`).

Because of the second, the model claims a column bound only for `h` and `l` (`Cursor.HorizontalStaysInLine`).

## Model

| member | source | states |
|---|---|---|
| Strings.Split | script.js:45 | splitting never yields an empty list: at least one piece, as `split` |
| Strings.TotalLengthConcat | script.js:138 | the total length of two lists of pieces put together is the sum of their totals |
| Strings.Join | script.js:138 | the joined length is the pieces' total length plus one separator between each neighbouring pair |
| Strings.JoinSplit | script.js:45 | joining the pieces of a split with the same separator gives back the original string |
| Strings.SplitCount | script.js:45 | a split gives one piece more than the separator's number of occurrences |
| Strings.SplitPiecesFree | script.js:132 | no piece of a split contains the separator |
| Strings.SplitCons | script.js:132 | a split of a string that starts with a non-separator has that character glued onto its first piece |
| Strings.SplitFreePrefix | script.js:132 | a separator-free prefix is glued to the first piece of the rest's split |
| Strings.SplitJoin | script.js:132-138 | splitting a join of separator-free pieces (at least one) gives back exactly those pieces |
| Motions.MotionOf | script.js:84 | a character is a motion key exactly when it is one of `h j k l $` |
| Motions.MotionKey | script.js:84 | the key written for a motion is recognized as that motion |
| Motions.MotionKeyUnique | script.js:84 | a key recognized as a motion is that motion's key, so each of `h j k l $` names one motion |
| Motions.DigitsValue | script.js:86 | the value of a run of digits is below 10 to the number of digits, and a run of zeros has value 0, as with `parseInt` |
| Motions.ParseMotion | script.js:84-86 | a buffer is recognized exactly when it is non-empty, ends in one of `h j k l $` and has only digits before that key; the motion is the last key's |
| Motions.DigitChar | script.js:86 | the character of a digit value is a decimal digit with that value |
| Motions.Decimal | script.js:86 | the numeral of a natural is a non-empty run of digits |
| Motions.DecimalValue | script.js:86 | reading the numeral of `n` back as a count gives `n` |
| Motions.LeadingZero | script.js:86 | a leading zero does not change the count, as with `parseInt` |
| Motions.ParseMotionAccepts | script.js:84-86 | digits followed by a motion key are recognized, with count 1 for no digits and otherwise the digits' value |
| Motions.ParseMotionSound | script.js:84-86 | only such strings are recognized: a recognized buffer is digits then the key of its motion, with that count |
| Motions.CountedRoundTrip | script.js:84-86 | the numeral of any `n` followed by a motion key is recognized as exactly `n` repeats of that motion |
| Motions.BareMotion | script.js:86 | a bare motion key means a count of one |
| Motions.ZeroCount | script.js:84-86 | `0l` and `00l` are recognized with a count of zero |
| Motions.CommandsAreNotMotions | script.js:84-101 | `i`, `gg`, `G`, `dw`, `cw` and `Escape` are not counted motions, so the later rules are reachable |
| Cursor.Step | script.js:109-125 | one step of any motion keeps the cursor on a line between 1 and the line count |
| Cursor.Repeat | script.js:108-126 | `n` steps keep the cursor on a line between 1 and the line count |
| Cursor.RepeatLeft | script.js:110-112 | `h` n times keeps the line and lowers the column by n but not below 1, and does not move a column already at or below 1 |
| Cursor.RepeatRight | script.js:119-121 | `l` n times keeps the line and raises the column by n but only up to the line's length, and does not move a column already at or past it |
| Cursor.RepeatDown | script.js:113-115 | `j` n times keeps the column (no clamp to the new line) and moves down by n but not past the last line |
| Cursor.RepeatUp | script.js:116-118 | `k` n times keeps the column and moves up by n but not above line 1 |
| Cursor.RepeatLineEnd | script.js:122-124 | `$` with any positive count sets the column to the line's length, so `3$` is `$` and an empty line gives 0 |
| Cursor.RepeatKeepsAxis | script.js:107-128 | `h`, `l` and `$` never change the line, and `j` and `k` never change the column |
| Cursor.HorizontalStaysInLine | script.js:110-121 | `h` and `l` keep a column that lies between 1 and the line's length (or 1 on an empty line) within that range |
| Words.Span | script.js:135 | the selection bound of word `i` (the joined length of words 0..i plus `i`) is the letters of words 0..i plus two per separator before word `i` |
| Words.Selects | script.js:134-135 | the search's test passes word `i` exactly when it is the last word or the column is at most the bound above |
| Words.WordIndexFrom | script.js:133-136 | the search from `from` returns the first index at or after `from` that passes the test |
| Words.WordIndex | script.js:133-136 | the selected index is the smallest one that is the last word or whose bound reaches the column |
| Words.RemoveAt | script.js:137 | splicing out one element gives one element fewer, and putting it back restores the list |
| Words.DeleteWordShortens | script.js:130-138 | deleting a word shortens the line by exactly that word's length, plus one for a space when the line had two or more words |
| Words.TotalLengthRemoveAt | script.js:137 | splicing out one word takes exactly its letters off the total length |
| Words.DeleteWordRemovesOne | script.js:130-138 | on a line of two or more words the result splits into the words with the selected one removed, one fewer; a line with no space becomes "" |
| Words.DeleteOnlyWord | script.js:130-138 | a single-word or empty line becomes "" |
| Words.CountAbsent | script.js:132 | a string without the character counts zero occurrences of it |
| Words.SplitAfterWord | script.js:132 | the words of a word, a space and a rest are that word followed by the words of the rest |
| Words.DeleteFirstWord | script.js:130-138 | with the column on the first word, deleting removes that word and the space after it |
| Words.DeleteChallengeLine | script.js:18 | on "Delete this word." with column 1 the result is "this word." |
| Words.DeleteRepeatedly | script.js:130-138 | deleting at column 1 takes "a b c" to "b c", then "c", then "" |
| Words.DriftSpans | script.js:135 | on "a b c d" the bounds of the first three words are 1, 4 and 7 |
| Words.SelectionDrifts | script.js:133-137 | on "a b c d" column 7 (the letter d) selects and removes the third word, c |
| Interpreter.NormalAction | script.js:83-101 | a NORMAL buffer yields a command exactly when it is a counted motion or one of `gg`, `G`, `dw`, `cw`; it never switches mode itself, and a move carries the recognized count and motion |
| Interpreter.Classify | script.js:74-102 | `i` enters INSERT exactly when the buffer is "i"; INSERT is left exactly on `Escape` in INSERT with another buffer; INSERT runs no other command; a NORMAL buffer left to grow is neither "i" nor a command |
| Interpreter.DeleteWordAt | script.js:130-139 | `dw` changes only the cursor's line, to that line with the selected word deleted; every other line is kept |
| Interpreter.Apply | script.js:72-101 | every action keeps the cursor on a line and leaves the challenge index alone |
| Interpreter.Judge | script.js:153-171 | on a match the index goes up by one (Completed exactly when that reaches the end); otherwise it stays; NoChallenge exactly when the index is past the table |
| Interpreter.Process | script.js:71-105 | one token keeps the cursor on a line and the index within the table's bounds |
| Interpreter.Load | script.js:42-49 | loading sets the lines to a split of the text that joins back to it, one line more than its newlines, puts the cursor at (1,1) and keeps mode, buffer and index |
| Interpreter.Run | script.js:71-105 | a sequence of tokens keeps the state well formed |
| Interpreter.BufferIEntersInsert | script.js:74-77 | a buffer of exactly "i" gives INSERT with an empty buffer, in either mode, text and cursor unchanged |
| Interpreter.EscapeLeavesInsert | script.js:78-81 | in INSERT the token "Escape" gives NORMAL with an empty buffer, text and cursor unchanged |
| Interpreter.InsertOnlyAppends | script.js:72-82 | in INSERT every other token is only appended to the buffer |
| Interpreter.NormalMotion | script.js:84-88 | in NORMAL a recognized counted motion applies its step exactly count times, stays in NORMAL, keeps the text and empties the buffer |
| Interpreter.NormalJumps | script.js:89-94 | in NORMAL "gg" puts the cursor at (1,1) and "G" at (line count, 1); both keep the text and NORMAL mode and empty the buffer |
| Interpreter.NormalWordCommands | script.js:95-146 | "dw" deletes the word the cursor's column selects (`Words.WordIndex`) and keeps the cursor; "cw" does the same and enters INSERT; the buffer is emptied |
| Interpreter.MatchedCommandClears | script.js:84-101 | in NORMAL a matched counted motion, gg, G, dw or cw always leaves the buffer empty |
| Interpreter.NormalUnmatchedAppends | script.js:72-102 | in NORMAL an unmatched buffer is kept whole and nothing else but the index changes |
| Interpreter.EscapeInNormalAppends | script.js:72-102 | "Escape" typed in NORMAL is no command: it is appended to the buffer |
| Interpreter.ProcessKeepsPending | script.js:72-102 | after any token, in any state, a NORMAL buffer is neither "i" nor a command any NORMAL rule recognizes |
| Interpreter.RunKeepsPending | script.js:72-102 | that property of the buffer holds after any sequence of tokens |
| Interpreter.ConcatPrefix | script.js:72 | the first k tokens concatenated are the first token followed by the next k-1 |
| Interpreter.ShiftedPrefixes | script.js:72 | after the first token, a prefix of the remaining tokens extends the buffer as the one-longer prefix of all of them does |
| Interpreter.PendingShift | script.js:72-102 | if no prefix extension is "i" or a command, neither is the one-token extension, and the condition carries to the remaining tokens |
| Interpreter.PendingPrefixes | script.js:72-102 | that prefix condition gives the token-by-token condition `StaysPending` |
| Interpreter.NormalAccumulatesStepwise | script.js:72-102 | in NORMAL, while each token extends the buffer to neither "i" nor a command, the buffer is the concatenation of the tokens and text, cursor and mode stay |
| Interpreter.NormalAccumulates | script.js:72-102 | in NORMAL, while no extension is "i" or a command, the buffer is the concatenation of every token since it was cleared, and text, cursor and mode stay |
| Interpreter.InsertAccumulates | script.js:72-82 | in INSERT, while no token is "Escape" and the buffer never becomes "i", every token is appended and text, cursor and mode stay |
| Interpreter.ChallengeAdvance | script.js:153-162 | the index goes up by exactly one if and only if the raw token is the current solution, and otherwise stays |
| Interpreter.ChallengeIgnoresEditorState | script.js:153-171 | the verdict and the next index depend only on the index and the token, not on mode, buffer, text or cursor |
| Interpreter.PastTheEnd | script.js:155 | after the last challenge every token finds no challenge and the index stays |
| Editing.Editor.constructor | script.js:34-49 | the start-up state is NORMAL, an empty buffer, the first challenge, loaded |
| Editing.Editor.LoadChallenge | script.js:42-49 | the fields become the current challenge's text loaded, the cursor reset to (1,1) |
| Editing.Editor.UpdateCursorPosition | script.js:58-59 | the cursor becomes the given position and nothing else changes |
| Editing.Editor.MoveCursor | script.js:107-128 | the loop of clamped steps leaves the cursor at the motion repeated `n` times, and nothing else changes |
| Editing.Editor.DeleteWord | script.js:130-140 | the in-place splice leaves the lines as `DeleteWordAt` of the old lines and cursor, and nothing else changes |
| Editing.Editor.ChangeWord | script.js:142-146 | the word is deleted as by `DeleteWord` and the mode becomes INSERT |
| Editing.Editor.CheckSolution | script.js:153-171 | the index and the returned verdict are those of `Judge` on the old index and the raw input |
| Editing.Editor.ProcessCommand | script.js:71-105 | the new fields and the verdict are exactly `Process` of the old state and the token |
| Editing.Editor.RunRules | script.js:74-102 | the priority chain carries out the action `Classify` picks |
| Editing.Editor.RunNormalCommand | script.js:82-102 | the NORMAL-mode commands carry out the action `NormalAction` picks |
| Editing.Editor.ResetProgress | script.js:186-189 | the index returns to 0 and the first challenge is loaded |
| Challenges.Solution | script.js:1-32 | every solution is a non-empty command |
| Challenges.TableSolutions | script.js:1-32 | the table has five entries, entry `k` is solved by `Solution(k)`, and no two entries share a solution |
| Scenarios.Fresh | script.js:42-49 | a freshly loaded challenge is well formed |
| Scenarios.Lines0 | script.js:6 | the first challenge loads its two lines |
| Scenarios.Lines1 | script.js:12 | the second challenge loads its three lines |
| Scenarios.Lines2 | script.js:18 | the third challenge loads its two lines |
| Scenarios.Lines3 | script.js:24 | the fourth challenge loads its two lines |
| Scenarios.Lines4 | script.js:30 | the fifth challenge loads its five lines |
| Scenarios.SolveLineEnd | script.js:2-7 | "$" on the first challenge puts the cursor at column 30 of line 1 and is accepted |
| Scenarios.KeysRejected | script.js:153-171 | two tokens that are not the current solution are each judged `Incorrect`, and the index stays |
| Scenarios.KeyByKeyTop | script.js:72-91 | from any state with an empty NORMAL buffer, "g" then "g" as two tokens go to (1,1), stay in NORMAL and empty the buffer |
| Scenarios.TypeGG | script.js:72-91 | "g", "g" typed key by key from the last line of the second challenge brings the cursor to (1,1) and empties the buffer, and each key is judged `Incorrect` |
| Scenarios.SolveTop | script.js:8-13 | "gg" as one token solves the second challenge |
| Scenarios.WordCommandOnFirstWord | script.js:95-146 | from (1,1) on a first line made of a word, a space and a rest, "dw" leaves the rest and "cw" also enters INSERT |
| Scenarios.SolveDeleteWord | script.js:14-19 | "dw" on the third challenge deletes its first word, keeps the second line and is accepted |
| Scenarios.FirstWordOfLines2 | script.js:18 | the third challenge's first line is the word "Delete", a space and "this word.", and its second line is kept |
| Scenarios.KeyByKeyDeleteWord | script.js:72-97 | from (1,1) with an empty NORMAL buffer on a first line made of a word, a space and a rest, "d" then "w" leave the rest and empty the buffer |
| Scenarios.TypeDW | script.js:72-97 | "d", "w" key by key on the third challenge deletes the same word and empties the buffer, but each key is judged `Incorrect` and the index stays at 2 |
| Scenarios.SolveChangeWord | script.js:20-25 | "cw" on the fourth challenge deletes its first word, enters INSERT and is accepted |
| Scenarios.SolveCountedDown | script.js:26-31 | "3j" on the last challenge, freshly loaded in NORMAL mode, moves to line 4 and completes the tutorial |
| Scenarios.InOrderLastChallenge | script.js:42-49 | played in order after "cw" solved the fourth challenge, the last one is loaded in INSERT: "3j" only fills the buffer, leaves the cursor at (1,1), and still completes the tutorial |
| Scenarios.KeyByKeyCountedDown | script.js:72-88 | from any state with an empty NORMAL buffer, "3" then "j" as two tokens move the cursor as `j` repeated three times, keep the text and empty the buffer |
| Scenarios.TypeThreeJ | script.js:72-88 | "3", "j" key by key on the last challenge moves to line 4 and empties the buffer, but each key is judged `Incorrect` and the index stays at 4 |

## Left out

- Rendering is not modelled: `updateTextContent`, `updateMode`, the feedback texts and colours, and the pixel arithmetic of `updateCursorPosition` (script.js:60-68). This is presentation and floating point. Only the cursor assignment at script.js:59 is kept.
- `updateProgress`, `showHint` and `toggleTheme` are not modelled: they are a percentage-width computation and user-interface toggles. Each challenge's prompt and hint are kept as data but used by nothing.
- The 1.5-second `setTimeout` delay before the next challenge loads is not modelled, because the model has no clock. `Interpreter.Judge` returns the verdict, and only `Advance` is followed by a later load. The model does not load the next text by itself.
- The keydown wiring is left out (script.js:195-208). Each call of `Editing.Editor.ProcessCommand` is one submitted token: Enter's trimmed input value or the literal `Escape`. The trimming itself is not modelled.
- The description text written by `loadChallenge` is left out, since it is a DOM write.
- src/store.js is not part of this model. It declares two stores from the Svelte library and holds no logic.
- The runtime `TypeError` of a token submitted after the last challenge (script.js:155 reads past the table) is not raised. The token's edit still applies, and the verdict `NoChallenge` leaves the index unchanged.
- Motions.ParseMotion: counts are exact natural numbers. The loss of precision of `parseInt` above 2^53 is not modelled. Nor is what follows from it: from a count of 2^53+2 on, the loop at script.js:108 never ends, because `i++` gets stuck at 2^53 in floating point, and far smaller counts already freeze the page. The model returns the clamped position instead.
- Editing.Editor.MoveCursor: the cursor fields are unbounded naturals. The model has no JavaScript number semantics.
