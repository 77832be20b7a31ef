# Lexical front end of the Lazy compiler, modelled in Dafny

This project models the lexical front end of the Lazy compiler: the character cursor
(`InputParser`), the tokenizer (`Tokenizer`) with its one-token lookahead, its error log and its
caret renderer (`Error::format`), and the shared error vocabulary (`ErrorType`) with its `Display`
texts and multi-line caret renderer (`Error<T>::format`).

The model has three layers.

- Pure specification functions on `(code, pos)` describe what each scanning routine does:
  `Scanning.StrScan`, `NumScan`, `IdentScan`, `OpScan`, `PuncScan` and `Next` (for `_next`).
- Classes that mirror the Rust objects: `Cursor.InputParser` and `Lexer.Tokenizer`.
  - Their methods run the same loops over mutable fields.
  - Each method is proved to leave exactly the state, and return exactly the token, that the
    specification function gives.
  - The cursor invariant `Valid()` ties `line` and `col` to a replay of the consumed characters
    (`Cursor.LocAt`).
- Lemmas about the specification functions.
  - What a token is, where its range lies and which errors come with it.
  - How layout and comments are skipped.
  - That the rendered texts read back (`Display` of a range) and split into exactly the lines the
    renderers promise.

Quirks of the source that the model keeps, each proved:

- A number that meets a second `.` consumes it before recording the error.
- A string token's range starts after the opening quote.
- A final `/` gives no token and consumes nothing.
- `/*/` is a complete comment.
- An unterminated block comment records no error.
- A block comment whose last character is `*` ends `_next` with no token.
- The multi-line renderer puts `width + 2` characters before its caret cells but `width + 3`
  before the source text. Its caret for column `k` therefore sits under character `k - 1` of the
  line. The single-line renderer puts `|digits| + 3` before both, so there carets align.
  (`Diagnostics.MultiLineCaretOffset`, `Diagnostics.SingleLineAligned`.)

Files:

- `wrappers.dfy`: `Option`.
- `decimal.dfy`: decimal text of integers (`{}` of `i32`) and reading it back.
- `text.dfy`: `split('\n')` and joining lines.
- `cursor.dfy`: `LoC` and `InputParser`.
- `tokens.dfy`: `TokenType`, `Range`, `Token`, the tokenizer's `Error` and its `format`.
- `scanning.dfy`: the specification of every `parse_*` routine and of `_next`.
- `scanning_properties.dfy`: lemmas about `_next`.
- `scanning_examples.dfy`: `a?.b` scanned step by step.
- `tokenizer.dfy`: the `Tokenizer` class.
- `diagnostics.dfy`: `ErrorType`, its messages and `Error<ErrorType>::format`.

Paths in the table are relative to the repository root.

## Model

| member | source | states |
|---|---|---|
| Cursor.InputParser.constructor | src/parser/input_parser/mod.rs:31-38 | a new cursor holds the given characters at position 0, line 1, column 0, and satisfies the replay invariant |
| Cursor.InputParser.Consume | src/parser/input_parser/mod.rs:40-49 | at end of input: returns None and changes nothing; otherwise returns the character at the cursor and advances by exactly one; a newline increments the line and resets the column to 0, any other character increments the column; the replay invariant is kept |
| Cursor.InputParser.Peek | src/parser/input_parser/mod.rs:51-54 | returns Some exactly when `pos + am` is inside the input, holding the character there; reads the state without changing it |
| Cursor.InputParser.IsEof | src/parser/input_parser/mod.rs:56-58 | true exactly when `Peek(0)` finds no character |
| Cursor.InputParser.Loc | src/parser/input_parser/mod.rs:60-62 | the location equals the replay `LocAt(code, pos)`: line is 1 plus the newlines consumed, column is the characters since the last one |
| Cursor.InputParser.LocInc | src/parser/input_parser/mod.rs:64-66 | same position as `Loc`, with the line and the column shifted by the given offsets |
| Cursor.LocAtStart | src/parser/input_parser/mod.rs:31-38 | the replay of no characters is position 0, line 1, column 0 |
| Cursor.LocAtNext | src/parser/input_parser/mod.rs:44-47 | one more character: a newline moves to the next line at column 0, anything else one column right on the same line |
| Cursor.ColumnOfSpec | src/parser/input_parser/mod.rs:44-47 | the column counts exactly the characters since the last newline: none of them is a newline and the one before them is |
| Cursor.LocAtMonotone | src/parser/input_parser/mod.rs:40-49 | as the cursor advances the line never decreases, and on the same line the column never decreases |
| Cursor.LocString | src/parser/input_parser/mod.rs:23-27 | the `Display` of a location: `(`, the line, `:`, the column, `)` |
| Cursor.ReadPairString | src/parser/input_parser/mod.rs:23-27 | the `line:col` text reads back to its two numbers and leaves the rest of the text |
| Cursor.ParseLocString | src/parser/input_parser/mod.rs:23-27 | the `Display` `(line:col)` of a location determines its line and column |
| Decimal.NatToStringValue | src/parser/tokenizer/mod.rs:125 | the digits of the decimal text of `n` have value `n` |
| Decimal.ReadIntString | src/parser/tokenizer/mod.rs:28-32 | the decimal text of an integer, followed by a non-digit, reads back to that integer and the rest |
| Decimal.IntToStringInjective | src/parser/tokenizer/mod.rs:28-32 | two integers with the same decimal text are equal |
| Decimal.NatToStringLengthMonotone | src/parser/src/tokenizer/error.rs:49 | a smaller line number has no more digits than a larger one, so the padding `end_line.len() - x.len()` never underflows |
| Text.Split | src/parser/tokenizer/mod.rs:46 | `split('\n')` yields at least one part and no part holds the separator |
| Text.JoinSplit | src/parser/tokenizer/mod.rs:46 | joining the parts of a split with the separator gives back the text |
| Text.SplitJoin | src/parser/tokenizer/mod.rs:46 | splitting lines joined by the separator gives back those lines |
| Tokens.RangeString | src/parser/tokenizer/mod.rs:28-32 | the `Display` of a range: `(`, the start as `line:col`, ` - `, the end as `line:col`, `)` |
| Tokens.ParseRangeString | src/parser/tokenizer/mod.rs:28-32 | the `Display` `(l:c - l:c)` of a range reads back to its four numbers, so it determines the range's lines and columns |
| Tokens.RangeStringNoNewline | src/parser/tokenizer/mod.rs:28-32 | the text of a range is a single line |
| Tokens.CaretCells | src/parser/tokenizer/mod.rs:41-45 | a caret row of `count` cells (none for a negative count) holding '^' exactly at the indices from `from` on and ' ' before |
| Tokens.Carets | src/parser/tokenizer/mod.rs:41-45 | the loop over `0..=last` builds `CaretCells(from, last + 1)` |
| Tokens.ErrorText | src/parser/tokenizer/mod.rs:40-48 | the text `Error::format` builds: the start line of the source, two newlines, the caret cells from `start.col` to `end.col`, a newline, the message, a space and the range |
| Tokens.Format | src/parser/tokenizer/mod.rs:40-48 | the result is the start line of the source, two newlines, the caret row, a newline, then the message, a space and the range |
| Tokens.ErrorTextLines | src/parser/tokenizer/mod.rs:40-48 | read as lines, the rendering is exactly the source line, an empty line, `end.col + 1` caret cells with '^' from `start.col` on, and the message followed by the range |
| Scanning.StrScan | src/parser/tokenizer/mod.rs:78-95 | `parse_str`: skips the opening quote, takes characters up to the next quote or the end of input and, at the end of input, records the end-of-string error over the text |
| Scanning.StrScanStop | src/parser/tokenizer/mod.rs:78-95 | when the first quote after the opening one (or the end of input) is at `j`: the text is everything up to `j`, the scan ends after that quote or at the end, and only the end of input records the end-of-string error |
| Scanning.StrScanSpec | src/parser/tokenizer/mod.rs:78-95 | a string's value is the verbatim text after the opening quote and holds no quote; its range runs from just after the opening quote to just after the closing one; without a closing quote the scan reaches the end of input with the partial text and exactly one error over that range |
| Scanning.KeptHas | src/parser/tokenizer/mod.rs:101-124 | every character of the consumed run other than '_' is in the collected text |
| Scanning.KeptOnly | src/parser/tokenizer/mod.rs:101-124 | the collected text holds only characters of the consumed run |
| Scanning.KeptDigits | src/parser/tokenizer/mod.rs:105-118 | a run of digits and '_' leaves only digits |
| Scanning.NumEndStops | src/parser/tokenizer/mod.rs:101-124 | the number loop consumes only digits, '.' and '_'; it stops after a second '.', or else at the end of input or before the first other character; its flag ends set exactly when it started set or the loop took a '.' |
| Scanning.NumEndDots | src/parser/tokenizer/mod.rs:106-114 | at most one '.' is taken into the number, and a set flag means one was taken |
| Scanning.NumDigits | src/parser/tokenizer/mod.rs:101-125 | without a '.', the collected text is all digits, so it parses as an integer |
| Scanning.NumInvDigit | src/parser/tokenizer/mod.rs:105 | a digit taken by the loop is appended to the collected text |
| Scanning.NumInvUnderscore | src/parser/tokenizer/mod.rs:115-118 | a '_' taken by the loop is dropped |
| Scanning.NumInvDot | src/parser/tokenizer/mod.rs:106-114 | the first '.' is appended and sets the flag |
| Scanning.NumInvDone | src/parser/tokenizer/mod.rs:101-126 | where the loop leaves off, its text, end position and error are those of `NumScan`, and without a '.' the text is all digits |
| Scanning.NumScan | src/parser/tokenizer/mod.rs:97-127 | `parse_num`: runs the number loop from a digit, keeps digits and one '.', drops '_', records the decimal-point error on a second '.', and gives a Float when a '.' was kept and an Int otherwise |
| Scanning.NumScanConsumes | src/parser/tokenizer/mod.rs:97-127 | `parse_num` consumes a non-empty run of digits, '.' and '_'; unless it stopped on a second '.' (consumed, with one decimal-point error over the whole number) it stops before the first other character and records nothing |
| Scanning.NumScanValue | src/parser/tokenizer/mod.rs:97-127 | the token's text is the consumed characters without '_' and without a second '.'; the token is a Float exactly when that text holds a '.', and an Int carries the value of its digits |
| Scanning.NumTextDots | src/parser/tokenizer/mod.rs:106-114 | the characters that form a number (those consumed, less a second '.' that stops it) hold at most one '.' |
| Scanning.NumExtraDotFloat | src/parser/tokenizer/mod.rs:106-125 | a number stopped by a second '.' has already taken one, so it is always a Float |
| Scanning.IdentEnd | src/parser/tokenizer/mod.rs:132-142 | the identifier loop takes the maximal run of `[A-Za-z0-9_]` |
| Scanning.WordKind | src/parser/tokenizer/mod.rs:143-145 | `true` and `false` are Bool (with that value) although they are keywords; other listed keywords are Kw; every other word is Var; Kw and Var carry the word |
| Scanning.IdentScan | src/parser/tokenizer/mod.rs:129-147 | `parse_ident`: the maximal identifier run, no error, range from its first character to just after it, value classified by `WordKind` |
| Scanning.OpScan | src/parser/tokenizer/mod.rs:154-164 | `parse_op`: an Op token over the operator characters taken until the text is standalone or the run ends, with no error |
| Scanning.OpEndStops | src/parser/tokenizer/mod.rs:157-162 | the operator loop takes operator characters only, stops as soon as its text is a standalone operator, and otherwise runs to the end of input or the first non-operator |
| Scanning.OpScanSpec | src/parser/tokenizer/mod.rs:154-164 | an operator token is a non-empty run of operator characters; it stops at the end of input or before a non-operator unless its text became a standalone operator; no proper prefix of it is standalone, and its range spans what was consumed |
| Scanning.PuncScan | src/parser/tokenizer/mod.rs:149-152 | punctuation consumes exactly its one character, records nothing, and has a zero-width range at the position before it |
| Scanning.LineCommentEnd | src/parser/tokenizer/mod.rs:172-174 | the line-comment loop ends just past the first newline, or at the end of input when there is none |
| Scanning.LineCommentAt | src/parser/tokenizer/mod.rs:172-174 | the loop's end when the first newline (or the end) is at a given position |
| Scanning.Next | src/parser/tokenizer/mod.rs:166-201 | `_next`: None at the end of input or on a final '/'; a line or block comment is skipped first and scanning resumes after it (None when the block comment gives up on a final '*'); otherwise the character dispatches in the source's order: string, number, whitespace (skipped, then scanning resumes), operator, punctuation, identifier, and else one character consumed with an invalid-character error |
| ScanningProperties.TokenBounds | src/parser/tokenizer/mod.rs:185-200 | away from layout, `_next` consumes at least one character and its token lies within what it consumed |
| ScanningProperties.NextBounds | src/parser/tokenizer/mod.rs:166-201 | every `_next` call leaves the cursor between its start and the end of input, appends at most one error, and a token it returns lies within the consumed characters |
| ScanningProperties.NextStuck | src/parser/tokenizer/mod.rs:167-169 | the cursor stays put exactly at the end of input or on a final '/', and then no token and no error come back |
| ScanningProperties.TokenNone | src/parser/tokenizer/mod.rs:185-200 | away from layout, no token comes back only for an invalid character, with its error |
| ScanningProperties.NextNone | src/parser/tokenizer/mod.rs:166-201 | no token comes back only when the step ends at the end of input, or before a final '/' it leaves unconsumed, recording no error; or when it ends right after one invalid character, with an "Invalid character" error at that character's zero-width position |
| ScanningProperties.TokenErrors | src/parser/tokenizer/mod.rs:185-200 | away from layout, the errors `_next` records are those of `ErrorShape` |
| ScanningProperties.NextErrors | src/parser/tokenizer/mod.rs:166-201 | the only errors `_next` records are an unterminated string (with its Str token), a second decimal point (with a Float token over the same range) and an invalid character (with no token) |
| ScanningProperties.NextSkipsSpaces | src/parser/tokenizer/mod.rs:188-191 | spaces, tabs and newlines before a token are skipped without trace |
| ScanningProperties.NextSkipsLineComment | src/parser/tokenizer/mod.rs:169-176 | a line comment is skipped up to and including the next newline |
| ScanningProperties.NextSkipsBlockComment | src/parser/tokenizer/mod.rs:177-184 | a block comment is skipped to where its loop resumes; when the loop gives up on a final '*' no token comes back and the cursor is at the end of input |
| Scanning.BlockCommentEnd | src/parser/tokenizer/mod.rs:177-182 | the block-comment loop: the position just past the first star-slash, the end of input, or None when it gives up on a final '*'; a position it returns lies between the start and the end of input |
| ScanningProperties.BlockCommentEndFirst | src/parser/tokenizer/mod.rs:179-182 | the block-comment loop resumes just past the first star-slash, or at the end of input when there is none; it gives up exactly when, before any star-slash, the last character is a '*' |
| ScanningProperties.NextShortBlockComment | src/parser/tokenizer/mod.rs:177-184 | `/*/` is a complete comment: `_next` resumes after it |
| ScanningProperties.BlockCommentUnclosed | src/parser/tokenizer/mod.rs:179-182 | with no star-slash ahead, the loop ends at the end of input or gives up |
| ScanningProperties.UnterminatedBlockComment | src/parser/tokenizer/mod.rs:177-184 | a block comment that is never closed swallows the rest of the input and records no error |
| ScanningExamples.OptionalChain | src/parser/tokenizer/mod.rs:154-164 | `a?.b` scans as `Var a`, `Op ?`, `Op .`, `Var b`, then nothing, each scan ending at the position where the next scan starts |
| Lexer.Tokenizer.constructor | src/parser/tokenizer/mod.rs:67-76 | a new tokenizer has an empty lookahead slot, no errors, and a fresh cursor at the start of the code |
| Lexer.Tokenizer.ReportError | src/parser/tokenizer/mod.rs:219-221 | appends one error with the given message and range; nothing else changes |
| Lexer.Tokenizer.ParseStr | src/parser/tokenizer/mod.rs:78-95 | returns the token of `StrScan`, leaves the cursor at its end and appends exactly its errors |
| Lexer.Tokenizer.ParseNum | src/parser/tokenizer/mod.rs:97-127 | returns the token of `NumScan`, leaves the cursor at its end and appends exactly its errors |
| Lexer.Tokenizer.ParseIdent | src/parser/tokenizer/mod.rs:129-147 | returns the token of `IdentScan` and leaves the cursor at its end; the error log is unchanged |
| Lexer.Tokenizer.ParsePunc | src/parser/tokenizer/mod.rs:149-152 | returns the token of `PuncScan` and advances the cursor by one; the error log is unchanged |
| Lexer.Tokenizer.ParseOp | src/parser/tokenizer/mod.rs:154-164 | returns the token of `OpScan` and leaves the cursor at its end; the error log is unchanged |
| Lexer.Tokenizer.SkipLineComment | src/parser/tokenizer/mod.rs:169-174 | consumes "//" and leaves the cursor at `LineCommentEnd`; the error log is unchanged |
| Lexer.Tokenizer.SkipBlockComment | src/parser/tokenizer/mod.rs:177-182 | consumes the comment as `BlockCommentEnd` says and reports whether the loop finished or gave up on a final '*' |
| Lexer.Tokenizer.Next | src/parser/tokenizer/mod.rs:166-201 | `_next`: returns the token of `Scanning.Next`, leaves the cursor at its position and appends exactly its errors; the lookahead slot is untouched |
| Lexer.Tokenizer.NextAtSlash | src/parser/tokenizer/mod.rs:168-184 | the '/' arms of `_next`, with the same contract as `Next` |
| Lexer.Tokenizer.NextAfterLineComment | src/parser/tokenizer/mod.rs:169-176 | the line-comment arm of `_next`, with the same contract as `Next` |
| Lexer.Tokenizer.NextAfterBlockComment | src/parser/tokenizer/mod.rs:177-184 | the block-comment arm of `_next`, with the same contract as `Next` |
| Lexer.Tokenizer.ScanToken | src/parser/tokenizer/mod.rs:185-200 | the classifying `match` of `_next`, with the same contract as `Next` |
| Lexer.Tokenizer.Consume | src/parser/tokenizer/mod.rs:203-209 | a buffered token is handed out without moving the cursor or recording errors; otherwise a fresh `_next` step; either way the slot ends empty |
| Lexer.Tokenizer.Peek | src/parser/tokenizer/mod.rs:211-217 | a buffered token is returned again without moving the cursor; otherwise a fresh `_next` step is stored in the slot and returned |
| Lexer.PeekPeekConsume | src/parser/tokenizer/mod.rs:203-217 | from an empty slot: when the first peek finds a token, the input is scanned once, all three calls give that token and the slot ends empty; when the first peek finds none, the slot stays empty and the second peek scans again from where the first stopped |
| Diagnostics.Message | src/parser/src/tokenizer/error.rs:85-116 | the `Display` of `ErrorType`: the fixed text or the filled-in template of each kind, arm for arm as in the `match` |
| Diagnostics.TokenizerMessages | src/parser/src/tokenizer/error.rs:88-91 | the tokenizer's end-of-string, decimal-point and invalid-character texts are the `Display` of `EndOfStr`, `DecimalPoint` and `InvalidCharacter(c)` |
| Diagnostics.CustomOverlaps | src/parser/src/tokenizer/error.rs:101 | `Custom` can reproduce the message of every other error, so a message does not determine its kind |
| Diagnostics.ExpectedOverlapsEndOfStr | src/parser/src/tokenizer/error.rs:88-96 | an illustration that two kinds other than `Custom` can print alike: `Expected("end of string")` has the same text as `EndOfStr` |
| Diagnostics.UnexpectedOverlapsUnexpectedOp | src/parser/src/tokenizer/error.rs:92-102 | `Unexpected("operator " + op)` has the same text as `UnexpectedOp(op)` |
| Diagnostics.TwoArgumentsOverlap | src/parser/src/tokenizer/error.rs:97-112 | when the template's separator occurs in an argument, two different `ExpectedFound` (or `Confusable`) errors have the same text |
| Diagnostics.ModifierRecoverable | src/parser/src/tokenizer/error.rs:111 | the modifier named twice in `AlreadyHasModifier`'s text is determined by that text |
| Diagnostics.SingleArgumentRecoverable | src/parser/src/tokenizer/error.rs:85-116 | within each one-argument kind, the message determines the argument |
| Diagnostics.TooMuchTypesAmount | src/parser/src/tokenizer/error.rs:103 | `TooMuchTypes(n)` is the fixed text followed by the decimal text of `n`, which reads back to `n` |
| Diagnostics.CaretRowText | src/parser/src/tokenizer/error.rs:52-70 | a multi-line caret row: `width` spaces, a space, the bar, then `len + 1` cells with '^' from the column on, then a newline |
| Diagnostics.Row | src/parser/src/tokenizer/error.rs:48-70 | one iteration of the multi-line loop: the numbered source row, then the caret row for `start.col` on the first line and for `end.col` on the last |
| Diagnostics.RowText | src/parser/src/tokenizer/error.rs:48-70 | one iteration of the multi-line loop appends `Row(e, source, x)`: the numbered source row, and the caret rows when `x` is the first or the last line |
| Diagnostics.Rows | src/parser/src/tokenizer/error.rs:47-71 | the rows of lines `start.line` to `x`, in order, empty when `x` is before the start |
| Diagnostics.RowsText | src/parser/src/tokenizer/error.rs:46-70 | the multi-line loop builds the rows for every line from `start.line` to `end.line` (none when the range runs backwards) |
| Diagnostics.SingleCaretRowText | src/parser/src/tokenizer/error.rs:73-79 | the single-line caret row: `digits(start.line) + 3` spaces, then `end.col + 1` cells with '^' from `start.col` on |
| Diagnostics.FormatText | src/parser/src/tokenizer/error.rs:42-81 | `Error<T>::format`: the multi-line text when the start and end lines differ, the single-line text otherwise |
| Diagnostics.Format | src/parser/src/tokenizer/error.rs:42-81 | `format` returns the multi-line rendering when the range spans lines and the single-line one otherwise |
| Diagnostics.SingleLineLines | src/parser/src/tokenizer/error.rs:72-80 | read as lines, a single-line rendering is an empty line, `n | ` with source line `n`, an empty line, the caret row, and the message with the range |
| Diagnostics.SingleLineAligned | src/parser/src/tokenizer/error.rs:75-80 | both single-line rows put `digits + 3` characters before their content, so the caret for column `k` sits under character `k` |
| Diagnostics.RowsTerminated | src/parser/src/tokenizer/error.rs:46-70 | the rows text is its row lines, each ended by a newline |
| Diagnostics.RowLinesSingle | src/parser/src/tokenizer/error.rs:49-67 | no row holds a newline when no source line does |
| Diagnostics.MultiLineLines | src/parser/src/tokenizer/error.rs:44-71 | read as lines, a multi-line rendering is an empty line, its rows, two empty lines, and the message with the range |
| Diagnostics.RowLinesBeforeEnd | src/parser/src/tokenizer/error.rs:46-61 | before the last line, the rows are the first line with its caret row, then bare source rows |
| Diagnostics.MultiLineShape | src/parser/src/tokenizer/error.rs:46-70 | a forward multi-line rendering has exactly two caret rows: one after the first line for `start.col` and one after the last line for `end.col`; the lines between have only their source row |
| Diagnostics.MultiLineBackwards | src/parser/src/tokenizer/error.rs:44-71 | a range ending on an earlier line than it starts renders no rows: three newlines, then the message with the range |
| Diagnostics.MultiLineCaretOffset | src/parser/src/tokenizer/error.rs:49-53 | a source row puts `width + 3` characters before the text, a caret row `width + 2` before its `len + 1` cells, so each caret sits one column left of the character it marks |

## Left out

- Colouring: `.cyan()` and `.red()` come from the `colored` crate. The bar and the carets are modelled as plain characters.
- `Float(f32)`: a Float token holds the digit and dot text it would be parsed from (`Scanning.NumScanValue`). Floating point is not modelled.
- `Int(i32)` and `num.parse().unwrap()`: an Int token holds the natural-number value of its digits. The overflow panic for numbers past `i32::MAX` is not modelled.
- Panicking lookups become preconditions: `line.unwrap()` and `source[id]` require the line numbers to be in range. `self.input.consume().unwrap()` after a successful peek cannot fail, and the model proves that.
- `source[id].len()` counts bytes in Rust and characters in the model. The two agree on ASCII lines.
- `Error<T>` is generic over `T: fmt::Display`; the model instantiates `T` with `ErrorType`. The parent module behind `use super::*` is not part of this model, so `Diagnostics` reuses the `Range` and `LoC` of the tokenizer.
- The `Clone` impls of `LoC` and `Range`, and the lifetime parameter of `Tokenizer`, carry no behaviour. Datatypes are values.
- `line` and `col` are `i32` in Rust but unbounded integers here. Wrap-around past `i32::MAX` lines or columns is not modelled, and neither is the `usize` conversion in `x as usize - 1`.
- Lexer.Tokenizer.Next: the recursive `_next` is split into `Next`, `NextAtSlash`, `NextAfterLineComment`, `NextAfterBlockComment` and `ScanToken`. Each has the full contract of `_next` from its entry state. The whitespace arm comes before the token arms; the arms are disjoint, so the order does not matter.
- Lexer.Tokenizer.Peek: returns the token by value rather than as a reference into the slot.
- Lexer.Tokenizer.SkipBlockComment: the loop stops on a final '*' where Rust's `peek(0)?` returns early from `_next`. The caller turns that into the same `None` result.
- Lexer.Tokenizer.constructor: the keyword, operator and standalone-operator vectors are module constants (`Scanning.Keywords`, `Scanning.Operators`, `Scanning.StandaloneOperators`) rather than fields.
- That the fixed texts of the fifteen argument-free `ErrorType` kinds differ from each other is not stated. Stating it means 105 pairwise comparisons of string literals, which the model does not carry.
