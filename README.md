# Crane and stacks

A Dafny model of the supply-stacks crane in `src/main.rs`. The program has nine
fixed stacks of single-character crates; the last crate of each stack is its
top. It reads lines of the form `move N from A to B`, where stack labels are
1-based, and carries out each move. It then reports the top crate of every
stack.

The model covers:

- the instruction parser (`Instruction::from_str`);
- the move engine (`Stacks::apply` and `get_two_mut`);
- the three parts the source leaves unwritten, built from their comments, call
  sites and tests: the stack-configuration parser `Stacks::from_str`,
  `apply_instructions` and `tops_string`.

Modules, one per file:

- `Results` (results.dfy): `Result`/`Option` wrappers, and `Collect`, the
  short-circuiting `collect::<Result<Vec<_>>>()`.
- `Text` (text.dfy): `split_ascii_whitespace`, `lines` and `usize` parsing,
  each with the rendering that inverts it.
- `Instructions` (instructions.dfy): instructions, their parser, and the
  parse errors of both parsers.
- `StackModel` (stack_model.dfy): the engine on values. `Move` is one
  instruction, `ApplyAll` the fold over a list, and `Tops` the string of tops.
- `Crane` (crane.dfy): the `Stacks` struct as a class over an `array` of nine
  stacks. `Apply`, `ApplyInstructions` and `TopsString` change or read that
  array and are proved against the `StackModel` functions.
- `StackParsing` (stack_parsing.dfy): the stack-configuration parser and a
  writer it inverts.
- `Scenarios` (scenarios.dfy): the unit test `test_from_str`, the instruction
  line quoted in the parser's comment, and a four-move example run.

Decisions where the source is silent or would panic:

- **Move order.** A move takes the top `N` crates off the source as one block,
  with `drain`, and appends them with `extend` (src/main.rs:109-110). The
  block keeps its order, so the old top of the source becomes the new top of
  the destination.
  - The classic telling of this puzzle has the crane lift one crate at a time,
    which reverses each block and turns the example's answer into `CMZ`. The
    code does not do that, and the model follows the code. On the example the
    first three tops are `M`, `C` and `D` (`Scenarios.ExampleRun`).
- **Bad labels.** In the source these panic:
  - label 0 underflows `from_stack - 1`;
  - a label above 9 indexes past the array;
  - `get_two_mut` asserts that its two indices differ.

  The model returns these as errors instead: `BadStackLabel` and `SameStack`.
  They are checked in that order, before the count check, and on any error
  nothing changes.
- **`usize`** is taken to be 64 bits wide. A numeric token is an optional `+`
  followed by decimal digits whose value is below 2^64.
- **`Stacks::from_str`**, following src/main.rs:64-70 and the test at 163-177:
  - each line is a label from 1 to 9, then that stack's crates bottom to top,
    all separated by ASCII whitespace;
  - every crate token must be a single character;
  - a line with no tokens, a label out of range and a second line for the same
    label are errors;
  - stacks without a line stay empty.
- **`tops_string`**: all nine stacks must be non-empty (src/bin/part1.rs:61-62).
  Otherwise the error names the first empty stack. The three-stack example
  therefore yields `MCD` for its first three stacks, and `EmptyStack(3)` for
  all nine.

## Model

| member | source | states |
|---|---|---|
| Results.Collect | src/main.rs:33-37 | Ok exactly when every item maps to Ok, with the mapped values in order; otherwise the error of the first item that fails, every earlier item having succeeded |
| Results.CollectAllOk | src/main.rs:33-37 | when each item maps to Ok of a given value, the collected vector is exactly those values |
| Text.Words | src/main.rs:30 | every token of `split_ascii_whitespace` is non-empty and free of ASCII whitespace |
| Text.WordsOfWordThen | src/main.rs:30 | a word followed by nothing or by whitespace is split off whole, ahead of the tokens of the rest |
| Text.WordsSkipsWhitespace | src/main.rs:30 | leading, repeated or mixed whitespace, carriage returns included, yields no token |
| Text.WordsUnwords | src/main.rs:30 | splitting whitespace-joined words gives back the same words |
| Text.Lines | src/main.rs:147 | no line of `lines()` holds a line feed |
| Text.LinesUnlines | src/main.rs:147 | splitting joined lines gives back the same lines (no line holds a line feed, the last is non-empty) |
| Text.LinesOfLineThen | src/main.rs:147 | a line followed by a line feed is split off whole, even when nothing follows the line feed |
| Text.LinesTrailingLineFeed | src/main.rs:147 | a final line feed starts no extra line: joined lines ending in a line feed split back into the same lines, whatever the last line is |
| Text.ParseUsize | src/main.rs:34 | a parsed `usize` is below 2^64 and its token starts with a digit or `+` |
| Text.ParseFormatNat | src/main.rs:34 | every value below 2^64 is read back from its decimal text |
| Text.ParseUsizeRejectsLarge | src/main.rs:34 | the decimal text of any value of 2^64 or more is not a `usize` |
| Text.ParseUsizePlusSign | src/main.rs:34 | a leading `+` is accepted and leaves the value unchanged |
| Text.LeadingZerosValue | src/main.rs:34 | leading zeros do not change the value a decimal text denotes |
| Text.ParseUsizeNumeral | src/main.rs:34 | an optional `+`, any leading zeros, then the decimal text of n, reads as n when n is below 2^64 and is rejected otherwise |
| Text.ParseUsizeRejectsNonDigit | src/main.rs:34 | a token with any character other than a digit or a leading `+` is rejected |
| Text.ParseUsizeRejectsNoDigits | src/main.rs:34 | the empty token and a lone `+` are rejected |
| Instructions.ParseNumber | src/main.rs:33-36 | Ok exactly when the token is a `usize`, with its value; otherwise the error carries the token |
| Text.FormatNat | src/main.rs:34 | the decimal text of n is non-empty, digits only, without a leading zero, and denotes n |
| Instructions.OddPositions | src/main.rs:31-32 | keeps exactly the items at odd positions, in order: the k-th result is item 2k+1 |
| Instructions.ParseInstruction | src/main.rs:28-53 | an accepted instruction never has equal source and destination labels |
| Instructions.ParseInstructionAccepts | src/main.rs:28-52 | a line is accepted exactly when it has 6 or 7 tokens, tokens 2, 4 and 6 are `usize`s and tokens 4 and 6 differ; the count and the two labels are those tokens' values |
| Instructions.ParseInstructionRejectsNonNumber | src/main.rs:33-37 | the first odd-position token that is not a `usize` is the reported error |
| Instructions.ParseInstructionRejectsFieldCount | src/main.rs:38-41 | when every odd-position token is a number but there are not three of them, the error gives how many there are |
| Instructions.ParseInstructionRejectsSelfMove | src/main.rs:42-47 | a well-formed line whose source equals its destination is rejected with that label |
| Instructions.ParseIgnoresKeywords | src/main.rs:22-32 | the keyword tokens are never examined: lines that agree at every odd position parse alike |
| Instructions.ParseRender | src/main.rs:28-53 | every instruction the parser can produce is read back from its text `move N from A to B` |
| Instructions.RenderIsOneLine | src/main.rs:146-148 | the text of an instruction is one non-empty line |
| Instructions.ParseInstructions | src/main.rs:146-149 | a block parses line by line into as many instructions as it has lines, or fails with the first bad line's error |
| Instructions.ParseRenderAll | src/main.rs:146-149 | a block of rendered instructions parses back to the same list |
| StackModel.GetTwo | src/main.rs:116-125 | for distinct in-range indices, the pair is element i and then element j, in argument order |
| StackModel.Move | src/main.rs:92-112 | succeeds exactly when both labels are in 1..9, they differ and the source holds at least N crates; fails with NotEnoughItems exactly when only the count is at fault; keeps nine stacks |
| StackModel.MoveEffect | src/main.rs:101-111 | after a move the stack at index `from - 1` has lost exactly its top N crates; the one at `to - 1` has gained them on top in the same order, so the source's old top is the destination's new top; all other stacks are unchanged |
| StackModel.MoveWholeStack | src/main.rs:109-110 | moving a whole stack empties it and appends it unchanged to the destination, whose new top is the source's old top |
| StackModel.MoveUndo | src/main.rs:109-110 | moving the same number of crates back restores every stack |
| StackModel.MoveConservesCrates | src/main.rs:101-111 | a move keeps the multiset of all crates, and so their number |
| StackModel.ApplyAll | src/main.rs:151 | the fold of `Move` over the list keeps nine stacks; the lemmas below and `Crane.Stacks.ApplyInstructions` state what it computes |
| StackModel.ApplyAllAppend | src/main.rs:151 | folding over two lists in turn equals folding over their concatenation; a failure in the first list is the result |
| StackModel.ApplyAllStopsAtFirstFailure | src/bin/part1.rs:54-56 | a failed run failed at some instruction k: all instructions before k applied in order, and k failed with the reported error |
| StackModel.ApplyAllConservesCrates | src/main.rs:151 | a successful run keeps the multiset of all crates |
| StackModel.Tops | src/bin/part1.rs:61-62 | Ok exactly when every stack is non-empty, and then the i-th character is stack i's top; otherwise EmptyStack names the first empty stack |
| StackParsing.ParseItem | src/main.rs:67 | a crate token is accepted exactly when it is one character, which is the crate; otherwise the error carries the token |
| StackParsing.ParseStackLine | src/main.rs:64-70 | an accepted line's label names one of the nine stacks, converted to a 0-based index |
| StackParsing.ParseStackLineAccepts | src/main.rs:64-70 | a line is accepted exactly when its first token is a `usize` from 1 to 9 and every later token is one character; the index is the label minus one and the crates are those characters, bottom to top |
| StackParsing.EmptyStacks | src/main.rs:56 | the default value is nine empty stacks |
| StackParsing.FillStacks | src/main.rs:64-70 | reading the lines in turn keeps nine stacks; what it computes is stated by the two lemmas below |
| StackParsing.FillStacksAccepts | src/main.rs:64-70 | filling succeeds exactly when every line parses, and no two lines share a label or reuse one already seen |
| StackParsing.FillStacksContents | src/main.rs:64-70 | after filling, each labelled stack holds its line's crates and every other stack is as before |
| StackParsing.ParseStacks | src/main.rs:71-73 | a parsed configuration has nine stacks |
| StackParsing.ParseStacksContents | src/main.rs:64-73 | the text is accepted exactly when every line parses and labels are distinct; each line's crates are on stack label-1, bottom to top, and every other stack is empty |
| StackParsing.CrateTokensRoundTrip | src/main.rs:67 | single-character crate tokens are words and read back as the stack |
| StackParsing.StackLineWords | src/main.rs:66-67 | a stack's line is one non-empty line whose words are its label and its crates |
| StackParsing.StackLineRoundTrip | src/main.rs:66-70 | a stack's line parses back to that stack's index and crates |
| StackParsing.StackLinesAreLines | src/main.rs:64 | the written lines are non-empty and hold no line feed |
| StackParsing.FillStackLines | src/main.rs:64-70 | filling with the written lines completes any partial result that agrees below the current stack |
| StackParsing.ParseSerialize | src/main.rs:64-70 | any nine stacks whose crates are not whitespace are read back from their written configuration |
| Crane.Stacks.constructor | src/main.rs:56-59 | the stacks start as the given nine stacks |
| Crane.Stacks.Apply | src/main.rs:92-112 | passes exactly when `Move` succeeds and the array then holds `Move`'s result; on failure it reports `Move`'s error and the array is unchanged (the count is checked before any stack is touched) |
| Crane.Stacks.ApplyInstructions | src/main.rs:151 | passes exactly when `ApplyAll` succeeds and the array then holds its result; on failure it reports the error of the first failing instruction |
| Crane.Stacks.TopsString | src/main.rs:127-129 | returns exactly `Tops` of the current stacks |
| Scenarios.ParseStacksExample | src/main.rs:163-177 | the test input gives stacks [Z,N], [M,C,D] and [P], with the other six empty |
| Scenarios.ParseInstructionExample | src/main.rs:22-23 | `move 13 from 8 to 7` parses to count 13, source 8 and destination 7 |
| Scenarios.ExampleRun | src/main.rs:109-110 | four moves on the test arrangement end with stacks [M], [C] and [P,Z,N,D], because each block keeps its order |
| Scenarios.ExampleTops | src/bin/part1.rs:61-62 | the first three tops read MCD; over all nine stacks the fourth, empty one is reported |

## Left out

- `main` (src/main.rs:132-156) is not modelled: reading the input file, splitting it at the blank line, and printing.
  - Its instruction step, `lines()` then `parse` then `collect`, is `Instructions.ParseInstructions`.
  - Its run is `Crane.Stacks.ApplyInstructions` followed by `Crane.Stacks.TopsString`.
- The anyhow error messages and their context strings are left out. Errors are `ParseError` and `CraneError` variants.
- Panics are not modelled: label 0, a label above 9, and equal indices in `get_two_mut`. They are explicit `CraneError` results instead, so every input has a defined outcome.
- Borrowing and aliasing around `split_at_mut` are left out. `StackModel.GetTwo` keeps only which two elements come back. `Crane.Stacks.Apply` reads both stacks and then writes them back.
- `Stacks::apply` takes `self` by value and returns it. The model changes the array in place instead.
- Crane.Stacks.ApplyInstructions: says nothing about the array after a failed instruction. The source consumes the stacks and drops them on error.
- `str::lines` also strips a `\r` before each line feed, and the model does not. Both parsers treat `\r` as whitespace, so their results are the same.
- `usize` is fixed at 64 bits. Narrower targets are not modelled.
- src/bin/part1.rs is not modelled: all of its bodies are `todo!()` and its error enums are empty. Only its doc comments are used, as the contracts of the fold and of `tops_string`.
- The bracketed column diagram of crates is not modelled. The stack format here is one line per stack, as the source's comment and test describe.
