# edit_rs core, modelled in Dafny

A model of the editing core of `edit_rs`, a small modal terminal editor.

- `app.dfy` (module `Editor`) covers the key dispatch of `App`. The modes are `Normal`, `Inesrt` (spelled as in the source), `Command` and `Quit`. It also covers cursor motion with `h`/`j`/`k`/`l` in terminal coordinates, and the footer message that reports a save.
- `file_handler.dfy` (module `FileHandling`) covers `FileHandler`. This is binding a file name and its text at start-up, and saving the text back through `custom_write`, a writer that stages bytes in a 1024-byte array.
- `common.dfy` (module `Common`) holds `Option`, the panic reasons and `Outcome`. An `Outcome` either completes or panics.

The terminal, the file system and the rope library are replaced by abstract inputs:

- A key press is a `Key`: a character, Escape, or any other key.
- The text is a `Rope`: the lines the rope library yields. Each line keeps its line break, and there is always at least one line.
- `File::open` and the read that follows are an `OpenOutcome`.
- `File::create` is a `CreateOutcome`, which carries the OS error text when creation fails.
- The writer is the byte sequence that each `write_all` appends to.

The following panics are explicit `Panicked(reason)` outcomes, not preconditions: `expect` on a missing line or a failed read, `todo!()` in `insert_char`, indexing past the 1024-byte array, `len_chars() - 1` on an empty line, and the `u16` overflows of `x += 1` and `y += 1`. Overflow follows a debug build, where arithmetic on `u16`/`usize` is checked. Cursor coordinates are `u16` values (at most 65535).

Three `u16` subtractions are instead kept safe by the cursor invariant `x >= 1`, `y >= 2` (`InTerminal`, `App.Valid`), which the handlers require and preserve: `x -= 1` in `handle_h`, `y -= 1` in `handle_k`, and `y - 2` in `handle_l`. This loses nothing. `App::new` starts at (1, 2), `h` never decrements at `x == 1`, `k` never decrements at `y == 2`, and no handler lowers a coordinate below those bounds. So no reachable cursor makes these subtractions underflow.

Edges the proofs make explicit:

- The `j` bound is an equality on the terminal row (`y == len_lines`), and rows are offset by 2. So `j` stops at buffer line `len_lines - 2`, and the last rope line is never reached this way (`RepeatJStops`).
- Below that row, `j` never stops; it runs until the `u16` overflows (`RepeatJRunsAway`).
- `l` stops at column `len_chars - 1` of the current line. The rope library counts the line break in `len_chars`.
- After moving onto a shorter line, or on a line holding only a line break, `x` is already past that bound and `l` keeps growing it (`RepeatLRunsAway`).
- On an empty text, `l` at the start panics on `len_chars() - 1`. After one `j`, it panics on the missing line (`LOnEmptyTextPanics`).
- `custom_write` never resets `index`:
  - input shorter than 1024 bytes is written exactly;
  - input of exactly 1024 bytes is followed by 1024 zero bytes;
  - a 1025th byte indexes past the array and panics, after 1024 bytes have already gone to the freshly truncated file (`CustomWriteSpec`, `CustomWrite`).
- The footer says "provide a file name" when the error's display text equals that of `FileNameError`. A `File::create` error with that same text is reported the same way (`FooterReportsMissingName`).

The code has no cursor clamping to the text, no character insertion or deletion, no line-separator serialisation and no distinct write error, and the model has none either.

For the text "abc\ndef", `j` from the start does not move, and three `l` presses stop at terminal column 3 on line 0 (`TwoLineScenario`).

## Model

| member | source | states |
|---|---|---|
| `FileHandling.EmptyRope` | src/file_handler.rs:22 | `Rope::new()` has exactly one line, that line is empty, and the text has no characters |
| `FileHandling.Narrow` | src/file_handler.rs:39-40 | the byte stream has one byte per character, in order, each the character's code point modulo 256 (`c as u8`) |
| `FileHandling.New` | src/file_handler.rs:14-33 | no name gives the default handler; a name whose file cannot be opened gives that name with an empty one-line text; a name whose file is read gives that name with the text read; a read failure panics; the name is always kept |
| `FileHandling.CustomWriteSpec` | src/file_handler.rs:56-74 | the writer panics exactly when the input exceeds 1024 bytes; it emits exactly the input iff the input is shorter than 1024 bytes; up to 1024 bytes the input is always an ordered prefix of the output; at exactly 1024 bytes the output ends in 1024 zero bytes; past 1024 only the first 1024 bytes are emitted |
| `FileHandling.CustomWrite` | src/file_handler.rs:56-74 | the loop over the staging array with the `index` and `mult` counters emits and panics exactly as `CustomWriteSpec` says, for every input |
| `FileHandling.SaveFile` | src/file_handler.rs:35-47 | no bound name yields `FileNameError` and creates no file; a failed create yields that I/O error and writes nothing; once the file is created the result is `Ok` exactly when the text has at most 1024 characters (write errors cannot change it), and it panics otherwise; a text shorter than 1024 characters is written as its narrowed characters |
| `FileHandling.SavedFileStartsWithText` | src/file_handler.rs:38-40 | after a successful save the file begins with every character of the text, in order, each narrowed to its low 8 bits |
| `FileHandling.SaveOfFullBufferAppendsZeros` | src/file_handler.rs:63-73 | saving a text of exactly 1024 characters returns `Ok` and leaves its narrowed bytes followed by 1024 zero bytes in the file |
| `Editor.ModeLabelInjective` | src/app.rs:34-43 | about `ModeLabel` (`Mode::str`): distinct modes have distinct labels, and the insert mode is labelled "Inesrt" |
| `Editor.Dispatch` | src/app.rs:91-116 | in `Quit` every key is ignored; the mode is set exactly on `i`/`:` in `Normal`, `q`/Esc in `Command` and Esc in `Inesrt`, to `Inesrt`, `Command`, `Quit` and `Normal` respectively; a save happens exactly on `w` in `Command`; movement exactly on `h`/`j`/`k`/`l` in `Normal`; every character in `Inesrt` that no earlier arm takes goes to the insert |
| `Editor.ModeTransitions` | src/app.rs:93-99 | the mode changes on exactly these five (mode, key) pairs; every other pair leaves it unchanged |
| `Editor.QuitIsAbsorbing` | src/app.rs:92-115 | no sequence of keys leads out of `Quit` |
| `Editor.ColonQuitStops` | src/app.rs:93-96 | `:` then `q` from `Normal` ends in `Quit` |
| `Editor.MoveH` | src/app.rs:132-137 | `h` moves one column left but never past column 1, so `x >= 1` is kept and the row is unchanged |
| `Editor.MoveK` | src/app.rs:147-152 | `k` moves one row up but never past row 2, so `y >= 2` is kept and the column is unchanged |
| `Editor.MoveJ` | src/app.rs:139-145 | `j` stops when the row equals the line count; at or above that row it moves to the smaller of the line count and the next row; below it, it always moves one row; it panics exactly when it would move a row already at 65535 |
| `Editor.MoveL` | src/app.rs:154-167 | `l` panics on a line index past the end and on an empty line; it stops when `x == len_chars - 1`; if `x` is not at that bound it moves one column right, and it panics with `CursorOverflow` exactly when `x` is 65535 and not at the bound, so an `x` already past the bound keeps growing until it overflows; the row never changes |
| `Editor.Move` | src/app.rs:122-130 | a movement keeps the cursor inside `x >= 1`, `y >= 2` and the `u16` range, changes at most one coordinate, only `j` and `l` can panic, and any other character leaves the cursor unchanged |
| `Editor.Repeat` | src/app.rs:122-167 | any number of presses of the same movement key keeps the cursor inside `x >= 1`, `y >= 2`; `h`/`l` never change the row and `j`/`k` never change the column |
| `Editor.RepeatH` | src/app.rs:132-137 | `n` presses of `h` give column `max(1, x - n)`, so pressing `h` at column 1 is idempotent |
| `Editor.RepeatK` | src/app.rs:147-152 | `n` presses of `k` give row `max(2, y - n)`, so pressing `k` at row 2 is idempotent |
| `Editor.RepeatJStops` | src/app.rs:139-145 | from a row at or above the line count, the buffer line stays at or before `len_lines - 2` after any number of `j` presses; when the line count is at most 65535, `n` presses give row `min(len_lines, y + n)` |
| `Editor.RepeatJRunsAway` | src/app.rs:139-145 | from a row below the line count, every press of `j` moves one row, until the `u16` overflows and panics |
| `Editor.RepeatLStops` | src/app.rs:154-167 | on an existing non-empty line of at most 65536 characters, so that its bound `len_chars - 1` fits in a `u16`, from a column at or left of that bound, `n` presses of `l` give column `min(len_chars - 1, x + n)` |
| `Editor.RepeatLRunsAway` | src/app.rs:163-166 | from a column past `len_chars - 1`, every press of `l` moves one column, until the `u16` overflows and panics |
| `Editor.LOnEmptyTextPanics` | src/app.rs:154-167 | on the empty text of a new file, `l` at the start panics on the empty line, and after one `j` it panics on the missing line |
| `Editor.TwoLineScenario` | src/app.rs:139-167 | for the lines "abc\n" and "def", `j` at the start does not move, and three presses of `l` stop at column 3 |
| `Editor.FooterAfterSave` | src/app.rs:205-214 | success shows "file saved"; an error shows "provide a file name" if its text equals `FileNameError`'s and otherwise leaves the footer unchanged; a panic leaves the footer unchanged; the footer can change only to one of those two texts |
| `Editor.FooterReportsMissingName` | src/app.rs:205-214 | a save shows "provide a file name" exactly when no name is bound, or when creating the file fails with an error whose text equals `FileNameError`'s |
| `Editor.App.constructor` | src/app.rs:52-60 | a new session is in `Normal` with the cursor at (1, 2), footer "placeholder", scroll offset 0 and the given file handler |
| `Editor.App.HandleH` | src/app.rs:132-137 | the cursor becomes `MoveH` of the old cursor, and the invariant `x >= 1`, `y >= 2` is kept |
| `Editor.App.HandleJ` | src/app.rs:139-145 | the cursor becomes, or the call panics as, `MoveJ` of the old cursor and the line count; a panic leaves the cursor unchanged |
| `Editor.App.HandleK` | src/app.rs:147-152 | the cursor becomes `MoveK` of the old cursor, and the invariant is kept |
| `Editor.App.HandleL` | src/app.rs:154-167 | the cursor becomes, or the call panics as, `MoveL` of the old cursor and the text; a panic leaves the cursor unchanged |
| `Editor.App.HandleCursorMovement` | src/app.rs:122-130 | the cursor becomes, or the call panics as, `Move` of the movement character |
| `Editor.App.SaveFile` | src/app.rs:205-214 | the file ends up as `FileHandling.SaveFile` leaves it, the footer becomes `FooterAfterSave` of the result, and the call panics exactly when the save aborts |
| `Editor.App.HandleKeyPress` | src/app.rs:71-116 | once `IsRunning` (`is_running`, the mode is not `Quit`) is false, no key press makes it true again; in `Quit` nothing changes and nothing panics; the mode changes only as `Dispatch` says; the cursor changes only on a movement key in `Normal`, as `Move` says; only `w` in `Command` touches the file and the footer; a character in `Inesrt` panics in the unimplemented insert; the cursor invariant is kept |

## Left out

- Rendering (`Widget::render`, `render_footer`, `draw`, the layout) is not modelled. It is user interface, and only `Mode::str` feeds it.
- The run loop is not modelled. This covers event polling with its timeout, the press-kind filter and the terminal cursor calls (`run`, `handle_events`, `handle_cursor`). These are terminal I/O, so each call takes one key press that is already classified as a press.
- Key modifiers are not modelled. `handle_key_press` looks only at the key code.
- `insert_char` has no behaviour beyond `todo!()`. It is modelled as the `InsertUnimplemented` panic.
- The rope library's internals are not part of this model: line splitting, `from_reader` decoding, and which characters count as line breaks. The text is given directly as its lines.
- The real file operations (`File::open`, `File::create`, `write_all`) are abstract outcomes. A `write_all` error is discarded by the source, so the model always appends the bytes. The file contents after a failed write are therefore not modelled, though the returned result is, and it does not depend on them.
- Release builds are not modelled. In a release build, `u16`/`usize` overflow wraps instead of panicking.
- `src/main.rs` (argument parsing, terminal set-up and restore) is not part of this model. The optional file name and the open outcome are parameters of `FileHandling.New`.
- `src/errors.rs` is folded into the `FileNameError` constructor and its display text.
- `scroll_bar_state` is a constant field, because nothing changes it after construction.
- `Editor.ModeAfter` follows the mode through key sequences that do not panic. In `Quit` no key panics.
