# Calculator input-buffer editor

This project models the button handlers of the calculator screen in
`android_calculator.py`. The screen has two pieces of state. One is the
display text. The other is the flag `just_evaluated`, which says the text is
a result that the next digit should replace. Every key (`C`, backspace,
digits, `.`, the four operators, `±`, `%` and `=`) rewrites that text by
local editing rules. Most rules depend on one scanner: it walks the text from
the right and finds the last number. The number is a run of digits and
decimal points. It takes the `-` just before the run as its sign when that
`-` is the first character or follows one of `+ - * / (`.

The project has three modules:

- `Chunk`: the scanner's reference definition (`RunStart`, `ChunkStart`,
  `LastChunk`), a declarative description of the last number
  (`IsLastNumber`) and the proof that the two agree, plus facts about how
  the last number changes when a character or a sign is added or removed.
- `Editing`: the screen as a value (`State`) and one function per key. The
  lemmas state what the keys promise, alone and in combination.
- `Calculator`: the class `CalculatorUI` with the fields `text` and
  `justEvaluated`. Its methods update the fields step by step as the
  handlers do. Each method is proved to produce the state the matching
  `Editing` function gives. The scanner is a `while` loop proved equal to
  `Chunk.ChunkStart`.

Python's `eval` and the float arithmetic of the `%` key are not modelled.
They are function parameters: `eval` maps the expression to its formatted
value, or to `None` when evaluation raises. `scale` maps a number to its
formatted hundredth, or to `None` when `float()` rejects it.

## Model

| member | source | states |
|---|---|---|
| `Chunk.RunStart` | android_calculator.py:197-201 | the result is where the maximal run of digits and points ending at `n` begins: everything from it to `n` is a digit or point, and the character before it is not |
| `Chunk.RunStartUnique` | android_calculator.py:199-201 | no other index has that property, so the leftward scan over digits and points stops at the one place |
| `Chunk.ChunkStart` | android_calculator.py:189-211 | the start of the last number satisfies `IsLastNumber`: an optional unary `-`, then only digits and points, the run cannot be extended left, and when the number has no sign, the character before its start is not a unary `-` |
| `Chunk.LastNumberUnique` | android_calculator.py:189-211 | `IsLastNumber(txt, s)` holds exactly when `s == ChunkStart(txt)`, in both directions; for empty text that is index 0 |
| `Chunk.LastChunk` | android_calculator.py:185-187 | the chunk is a suffix of the text; apart from a leading `-` it holds only digits and points; a leading `-` sits at index 0 or after one of `+-*/(` |
| `Chunk.Magnitude` | android_calculator.py:131-134 | a chunk is its magnitude, or `-` followed by its magnitude; the second holds exactly when the chunk starts with `-`, so a leading `-` is stripped and nothing else |
| `Chunk.AppendNumChar` | android_calculator.py:197-201 | appending a digit or a point keeps the start of the last number and extends the number by that character |
| `Chunk.DropSign` | android_calculator.py:131-136 | removing the sign of a signed last number that follows the start of the text, or an operator or `(` that is not itself a unary sign, keeps the digits as the last number, starting where the sign was |
| `Chunk.AddSign` | android_calculator.py:131-136 | putting `-` before an unsigned last number that follows the start of the text, or an operator or `(` that is not itself a unary sign, makes the `-` part of the new last number |
| `Chunk.DropSignAt` | android_calculator.py:203-209 | if a number starts with a `-` at `st` that follows the start of the text, or one of `+-*/(` that is not itself a unary sign, the text without that `-` still has its last number starting at `st` |
| `Chunk.AddSignAt` | android_calculator.py:203-209 | if an unsigned number starts at `st` after the start of the text or after one of `+-*/(`, the text with `-` inserted at `st` has its last number, sign included, starting at `st` |
| `Editing.DropTrailingOperator` | android_calculator.py:164-166 | the result is a prefix of the text at most one character shorter, and equals the text exactly when the text does not end in `+-*/` |
| `Editing.Clear` | android_calculator.py:58-60 | from any state the result is the start state: text `"0"`, flag cleared |
| `Editing.Backspace` | android_calculator.py:62-73 | the flag ends cleared; the text is never `""`, `"-"` or `"-0"`; after a result or on a text of length at most 1 it is `"0"`; otherwise it is the old text minus exactly its last character, unless what is left would be `"-"` or `"-0"`, in which case it is `"0"` |
| `Editing.BackspaceUndoesDigit` | android_calculator.py:62-87 | backspace after a digit gives back the text before the digit, except that a result, `""`, `"-"` or `"-0"` come back as `"0"` |
| `Editing.AddDigit` | android_calculator.py:75-87 | the flag ends cleared; the text becomes exactly the digit after a result or on `"0"`, and the old text followed by the digit otherwise |
| `Editing.AddDigitExtendsChunk` | android_calculator.py:84-87 | typing a digit into an expression extends its last number by that digit |
| `Editing.AddDecimal` | android_calculator.py:89-100 | the flag ends cleared; after a result the text is `"0."`; otherwise the text gains exactly one trailing `.` when the last number has no point, and is unchanged when it has one |
| `Editing.AddDecimalSingleDot` | android_calculator.py:97-100 | afterwards the last number holds a point, and when the key changed the state the number holds exactly one point |
| `Editing.AddDecimalIdempotent` | android_calculator.py:89-100 | pressing `.` twice gives the same state as pressing it once |
| `Editing.AddOp` | android_calculator.py:102-118 | the length grows by at most one; the state stays the same exactly on `"0"` with `*` or `/`, or when the same operator already ends the text and no result is shown; otherwise the flag is cleared and the text is the old text without its trailing operator, followed by `op`; two trailing operators never appear unless they were already there |
| `Editing.AddOpIdempotent` | android_calculator.py:114-118 | pressing the same operator key twice gives the same state as pressing it once |
| `Editing.AddOpLastWins` | android_calculator.py:102-118 | of two operator keys in a row only the second one counts, unless it is `*` or `/` on the text `"0"` |
| `Editing.ToggleSign` | android_calculator.py:120-124 | the flag ends cleared on every path; its effect on the text is stated by `Editing.ToggleSignChangesOnlySign` |
| `Editing.ToggleSignChangesOnlySign` | android_calculator.py:126-137 | the text before the last number is kept and the number keeps its digits; the text changes exactly when the last number is neither `""` nor `"0"` |
| `Editing.ToggleSignInvolution` | android_calculator.py:120-137 | toggling twice restores the text when the last number has digits other than a lone `"0"` and follows the start of the text, or an operator or `(` that is not itself a unary sign |
| `Editing.ToggleSignedBack` | android_calculator.py:131-132 | the involution when the last number carries a `-` |
| `Editing.ToggleUnsignedBack` | android_calculator.py:133-134 | the involution when the last number has no `-` |
| `Editing.Percent` | android_calculator.py:139-159 | the flag ends cleared; a last number of `""`, `"-"`, `"."` or `"-."` leaves the text unchanged; when `scale` rejects the number the text is unchanged; otherwise the last number is replaced by `scale`'s result and the text before it is kept |
| `Editing.Evaluate` | android_calculator.py:161-182 | the flag ends set on every path; a text that, after one trailing operator is dropped, holds a character outside `0123456789+-*/.() ` shows `"Error"`; otherwise the text shows `eval`'s result for the text without its trailing operator when evaluation succeeds, and `"Error"` when it fails |
| `Editing.FreshAfterEvaluate` | android_calculator.py:79-95 | after `=` a digit replaces the whole text with itself and `.` replaces it with `"0."` |
| `Calculator.CalculatorUI.constructor` | android_calculator.py:17-50 | a new screen shows `"0"` with the flag cleared |
| `Calculator.CalculatorUI.Clear` | android_calculator.py:58-60 | the text becomes `"0"` and the flag is cleared, whatever the state before |
| `Calculator.CalculatorUI.Backspace` | android_calculator.py:62-73 | the new state is `Editing.Backspace` of the old one |
| `Calculator.CalculatorUI.AddDigit` | android_calculator.py:75-87 | the new state is `Editing.AddDigit` of the old one |
| `Calculator.CalculatorUI.AddDecimal` | android_calculator.py:89-100 | the new state is `Editing.AddDecimal` of the old one |
| `Calculator.CalculatorUI.AddOp` | android_calculator.py:102-118 | the new state is `Editing.AddOp` of the old one |
| `Calculator.CalculatorUI.ToggleSign` | android_calculator.py:120-137 | the new state is `Editing.ToggleSign` of the old one |
| `Calculator.CalculatorUI.Percent` | android_calculator.py:139-159 | the new state is `Editing.Percent` of the old one |
| `Calculator.CalculatorUI.Evaluate` | android_calculator.py:161-182 | the new state is `Editing.Evaluate` of the old one |
| `Calculator.CalculatorUI.LastNumberChunk` | android_calculator.py:185-187 | returns the last number chunk `Chunk.LastChunk` of the text |
| `Calculator.CalculatorUI.LastNumberChunkRange` | android_calculator.py:189-211 | `start <= end == len(txt)`, the chunk is `txt[start..end]`, and `start` is `Chunk.ChunkStart(txt)` |

## Left out

- Kivy widgets, the layout, the button table, `Window.size` and the `App` subclass (android_calculator.py:1-47, 223-230) are presentation. Each key is a method, and the button's label is its argument.
- `set_text` and `get_text` are plain reads and writes of the `text` field.
- Python's `eval` (android_calculator.py:177) is a foreign expression evaluator. It is the parameter `eval` of `Evaluate`, together with the `_fmt_number` formatting of its value.
- `_fmt_number` and the float arithmetic of `percent` (android_calculator.py:152-159, 213-220) are floating-point numerics. They are the parameter `scale` of `Percent`. Only the early-return guard at lines 148-150 is modelled in detail.
- The tokenizer, shunting-yard converter and postfix evaluator in `CMSC 495_Python-Based Android Calculator-Updated Source Code.py` are not part of this model. `android_calculator.py` does not use them: `=` hands the text, less one trailing operator, to Python's `eval`, and `%` rewrites the last number on the spot.
- `Chunk.IsDigit` accepts only the ASCII digits `0`-`9`. Python's `str.isdigit` also accepts other Unicode digits. No key puts such a character on the display.
- `Editing.ToggleSignInvolution` does not hold for every text, so it carries preconditions. On `"--5"` the scanner takes the second `-` as the sign, so toggling twice gives `"5"`. On `"inf5"` the scanner does not take a new `-` after `f` as a sign, so toggling twice gives `"inf--5"`. A lone `"0"` (as in `"-0"`, which toggles to `"0"`) is never toggled back.
