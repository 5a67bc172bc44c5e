/** The editing session: the mode state machine, the cursor in terminal
    coordinates, and the footer that reports the outcome of a save. One key
    press, already classified as a press, is handled per call. */
module Editor {
  import opened Common
  import opened FileHandling

  // ---------------------------------------------------------------------
  // Modes

  /** The editor's modes; the insert mode's name is spelled as the editor
      spells it. */
  datatype Mode = Normal | Inesrt | Command | Quit

  /** `Mode::str`, the label shown in the footer. */
  function ModeLabel(m: Mode): string
  {
    match m
    case Normal => "Normal"
    case Inesrt => "Inesrt"
    case Command => "Command"
    case Quit => "Quit"
  }

  /** Distinct modes show distinct labels, and the insert mode is shown
      under its misspelled name. */
  lemma ModeLabelInjective(a: Mode, b: Mode)
    ensures ModeLabel(a) == ModeLabel(b) <==> a == b
    ensures ModeLabel(Inesrt) == "Inesrt"
  {
  }

  /** A key code: a character, Escape, or any other key. */
  datatype Key = Char(c: char) | Esc | Other

  /** What one key press does, as decided by the guarded match of
      `handle_key_press`. */
  datatype Action = SetMode(next: Mode) | Save | Movement(dir: char) | Insert(ch: char) | Ignore

  /** The dispatch table of `handle_key_press`: the first arm whose pattern
      and mode guard match decides the action. */
  function Dispatch(m: Mode, k: Key): (a: Action)
    ensures m == Quit ==> a == Ignore
    ensures a.SetMode? <==>
              (m == Normal && (k == Char('i') || k == Char(':'))) ||
              (m == Command && (k == Char('q') || k == Esc)) ||
              (m == Inesrt && k == Esc)
    ensures a.SetMode? && k == Esc ==> a.next == Normal
    ensures a.SetMode? && k == Char('i') ==> a.next == Inesrt
    ensures a.SetMode? && k == Char(':') ==> a.next == Command
    ensures a.SetMode? && k == Char('q') ==> a.next == Quit
    ensures a.Save? <==> m == Command && k == Char('w')
    ensures a.Movement? <==> m == Normal && k.Char? && k.c in "hjkl"
    ensures a.Movement? ==> k == Char(a.dir)
    ensures a.Insert? <==> m == Inesrt && k.Char?
    ensures a.Insert? ==> k == Char(a.ch)
  {
    match k
    case Char(c) =>
      if c == 'q' && m == Command then SetMode(Quit)
      else if c == 'w' && m == Command then Save
      else if c == 'i' && m == Normal then SetMode(Inesrt)
      else if c == ':' && m == Normal then SetMode(Command)
      else if c == 'h' && m == Normal then Movement('h')
      else if c == 'j' && m == Normal then Movement('j')
      else if c == 'k' && m == Normal then Movement('k')
      else if c == 'l' && m == Normal then Movement('l')
      else if m == Inesrt then Insert(c)
      else Ignore
    case Esc => if m == Inesrt || m == Command then SetMode(Normal) else Ignore
    case Other => Ignore
  }

  /** The mode after a key press that does not panic. */
  function NextMode(m: Mode, k: Key): Mode
  {
    match Dispatch(m, k)
    case SetMode(next) => next
    case _ => m
  }

  /** The mode changes on exactly five (mode, key) pairs. */
  lemma ModeTransitions(m: Mode, k: Key)
    ensures NextMode(m, k) != m <==>
              (m == Normal && (k == Char('i') || k == Char(':'))) ||
              (m == Command && (k == Char('q') || k == Esc)) ||
              (m == Inesrt && k == Esc)
  {
  }

  /** The mode after a sequence of key presses none of which panics. */
  function ModeAfter(m: Mode, keys: seq<Key>): Mode
    decreases |keys|
  {
    if keys == [] then m else ModeAfter(NextMode(m, keys[0]), keys[1..])
  }

  /** Once in `Quit`, no sequence of keys leaves it. */
  lemma {:induction false} QuitIsAbsorbing(keys: seq<Key>)
    ensures ModeAfter(Quit, keys) == Quit
    decreases |keys|
  {
    if keys != [] {
      assert NextMode(Quit, keys[0]) == Quit;
      QuitIsAbsorbing(keys[1..]);
    }
  }

  /** `:` then `q` from `Normal` quits. */
  lemma ColonQuitStops()
    ensures ModeAfter(Normal, [Char(':'), Char('q')]) == Quit
  {
  }

  // ---------------------------------------------------------------------
  // Cursor motion, in terminal coordinates

  /** `cursor_position`, a `u16` pair. Column `x` is one right of the text
      border, row `y` two below the top (header line and border), so the
      buffer line under the cursor is `y - 2`. */
  datatype Position = Position(x: nat, y: nat)

  const U16_MAX: nat := 65535

  /** The positions the cursor can hold: never left of column 1, never above
      row 2, inside `u16`. */
  predicate InTerminal(p: Position)
  {
    1 <= p.x <= U16_MAX && 2 <= p.y <= U16_MAX
  }

  function Min(a: int, b: int): int { if a <= b then a else b }
  function Max(a: int, b: int): int { if a >= b then a else b }

  /** `handle_h`: one column left, stopping at column 1. */
  function MoveH(p: Position): (r: Position)
    requires InTerminal(p)
    ensures InTerminal(r) && r.y == p.y
    ensures r.x == Max(1, p.x - 1)
  {
    if p.x == 1 then p else p.(x := p.x - 1)
  }

  /** `handle_k`: one row up, stopping at row 2. */
  function MoveK(p: Position): (r: Position)
    requires InTerminal(p)
    ensures InTerminal(r) && r.x == p.x
    ensures r.y == Max(2, p.y - 1)
  {
    if p.y == 2 then p else p.(y := p.y - 1)
  }

  /** `handle_j`: one row down unless the row equals the line count. The test
      is an equality on the terminal row, so below that row the cursor keeps
      going until the `u16` overflows. */
  function MoveJ(p: Position, lenLines: nat): (r: Outcome<Position>)
    requires InTerminal(p)
    ensures r.Panicked? <==> p.y != lenLines && p.y == U16_MAX
    ensures r.Panicked? ==> r.reason == CursorOverflow
    ensures r.Done? ==> InTerminal(r.value) && r.value.x == p.x
    ensures r.Done? && p.y <= lenLines ==> r.value.y == Min(lenLines, p.y + 1)
    ensures r.Done? && p.y > lenLines ==> r.value.y == p.y + 1
  {
    if p.y == lenLines then Done(p)
    else if p.y == U16_MAX then Panicked(CursorOverflow)
    else Done(p.(y := p.y + 1))
  }

  /** `handle_l`: one column right unless the column equals the line's
      character count minus one. The line must exist (`expect`) and must not
      be empty (`len_chars() - 1`); an `x` already past the bound keeps
      growing until the `u16` overflows. */
  function MoveL(p: Position, rope: Rope): (r: Outcome<Position>)
    requires InTerminal(p)
    ensures r == Panicked(MissingLine) <==> p.y - 2 >= LenLines(rope)
    ensures p.y - 2 < LenLines(rope) && LineLenChars(rope, p.y - 2) == 0 ==>
              r == Panicked(LineLengthUnderflow)
    ensures r.Done? ==> InTerminal(r.value) && r.value.y == p.y
    ensures p.y - 2 < LenLines(rope) && LineLenChars(rope, p.y - 2) >= 1 ==>
              var bound := LineLenChars(rope, p.y - 2) - 1;
              (p.x <= bound && bound <= U16_MAX ==> r == Done(p.(x := Min(bound, p.x + 1)))) &&
              (p.x != bound && p.x < U16_MAX ==> r == Done(p.(x := p.x + 1))) &&
              (r.Panicked? <==> p.x == U16_MAX && p.x != bound) &&
              (r.Panicked? ==> r.reason == CursorOverflow)
  {
    if p.y - 2 >= LenLines(rope) then Panicked(MissingLine)
    else if LineLenChars(rope, p.y - 2) == 0 then Panicked(LineLengthUnderflow)
    else if p.x == LineLenChars(rope, p.y - 2) - 1 then Done(p)
    else if p.x == U16_MAX then Panicked(CursorOverflow)
    else Done(p.(x := p.x + 1))
  }

  /** `handle_cursor_movement`: the movement named by a character, any
      other character leaving the cursor where it is. */
  function Move(c: char, p: Position, rope: Rope): (r: Outcome<Position>)
    requires InTerminal(p)
    ensures r.Done? ==> InTerminal(r.value)
    ensures r.Done? ==> r.value.x == p.x || r.value.y == p.y
    ensures c !in "jl" ==> r.Done?
    ensures c !in "hjkl" ==> r == Done(p)
  {
    match c
    case 'h' => Done(MoveH(p))
    case 'j' => MoveJ(p, LenLines(rope))
    case 'k' => Done(MoveK(p))
    case 'l' => MoveL(p, rope)
    case _ => Done(p)
  }

  /** The cursor after pressing the same movement key `n` times, stopping at
      the first panic. */
  function Repeat(c: char, p: Position, rope: Rope, n: nat): (r: Outcome<Position>)
    requires InTerminal(p)
    ensures r.Done? ==> InTerminal(r.value)
    ensures r.Done? && c in "hl" ==> r.value.y == p.y
    ensures r.Done? && c in "jk" ==> r.value.x == p.x
    decreases n
  {
    if n == 0 then Done(p)
    else match Move(c, p, rope)
      case Panicked(e) => Panicked(e)
      case Done(q) => Repeat(c, q, rope, n - 1)
  }

  /** `h` pressed `n` times clamps at column 1; in particular it is
      idempotent there. */
  lemma {:induction false} RepeatH(p: Position, rope: Rope, n: nat)
    requires InTerminal(p)
    ensures Repeat('h', p, rope, n) == Done(p.(x := Max(1, p.x - n)))
    decreases n
  {
    if n > 0 {
      RepeatH(MoveH(p), rope, n - 1);
    }
  }

  /** `k` pressed `n` times clamps at row 2. */
  lemma {:induction false} RepeatK(p: Position, rope: Rope, n: nat)
    requires InTerminal(p)
    ensures Repeat('k', p, rope, n) == Done(p.(y := Max(2, p.y - n)))
    decreases n
  {
    if n > 0 {
      RepeatK(MoveK(p), rope, n - 1);
    }
  }

  /** From a row at or above the line count, `j` pressed `n` times stops at
      the row equal to the line count, which is buffer line
      `len_lines - 2`: the last line is never reached this way. */
  lemma {:induction false} RepeatJStops(p: Position, rope: Rope, n: nat)
    requires InTerminal(p) && p.y <= LenLines(rope)
    ensures LenLines(rope) <= U16_MAX ==> Repeat('j', p, rope, n) == Done(p.(y := Min(LenLines(rope), p.y + n)))
    ensures Repeat('j', p, rope, n).Done? ==> Repeat('j', p, rope, n).value.y - 2 <= LenLines(rope) - 2
    decreases n
  {
    if n > 0 {
      match MoveJ(p, LenLines(rope))
      case Panicked(_) =>
      case Done(q) => RepeatJStops(q, rope, n - 1);
    }
  }

  /** Below the line count `j` never stops: it moves one row per press. */
  lemma {:induction false} RepeatJRunsAway(p: Position, rope: Rope, n: nat)
    requires InTerminal(p) && p.y > LenLines(rope)
    ensures p.y + n <= U16_MAX ==> Repeat('j', p, rope, n) == Done(p.(y := p.y + n))
    ensures p.y + n > U16_MAX ==> Repeat('j', p, rope, n) == Panicked(CursorOverflow)
    decreases n
  {
    if n > 0 && p.y < U16_MAX {
      RepeatJRunsAway(p.(y := p.y + 1), rope, n - 1);
    }
  }

  /** On an existing, non-empty line and at or left of its bound, `l`
      pressed `n` times stops at column `len_chars - 1`. */
  lemma {:induction false} RepeatLStops(p: Position, rope: Rope, n: nat)
    requires InTerminal(p) && p.y - 2 < LenLines(rope)
    requires 1 <= LineLenChars(rope, p.y - 2) <= U16_MAX + 1
    requires p.x <= LineLenChars(rope, p.y - 2) - 1
    ensures Repeat('l', p, rope, n) == Done(p.(x := Min(LineLenChars(rope, p.y - 2) - 1, p.x + n)))
    decreases n
  {
    if n > 0 {
      RepeatLStops(p.(x := Min(LineLenChars(rope, p.y - 2) - 1, p.x + 1)), rope, n - 1);
    }
  }

  /** Right of the bound (after moving onto a shorter line) `l` never stops:
      the column grows one per press until the `u16` overflows. */
  lemma {:induction false} RepeatLRunsAway(p: Position, rope: Rope, n: nat)
    requires InTerminal(p) && p.y - 2 < LenLines(rope)
    requires 1 <= LineLenChars(rope, p.y - 2) && p.x > LineLenChars(rope, p.y - 2) - 1
    ensures p.x + n <= U16_MAX ==> Repeat('l', p, rope, n) == Done(p.(x := p.x + n))
    ensures p.x + n > U16_MAX ==> Repeat('l', p, rope, n) == Panicked(CursorOverflow)
    decreases n
  {
    if n > 0 && p.x < U16_MAX {
      RepeatLRunsAway(p.(x := p.x + 1), rope, n - 1);
    }
  }

  /** In an empty text (a new file), `l` at the start position panics, and so
      does `l` after one `j`, since the one line is empty and the next does
      not exist. */
  lemma LOnEmptyTextPanics()
    ensures Move('l', Position(1, 2), EmptyRope()) == Panicked(LineLengthUnderflow)
    ensures Repeat('j', Position(1, 2), EmptyRope(), 1) == Done(Position(1, 3))
    ensures Move('l', Position(1, 3), EmptyRope()) == Panicked(MissingLine)
  {
  }

  /** The text "abc\ndef" has the ropey lines "abc\n" and "def". From the
      start, `j` does not move (row 2 equals the line count) and three
      presses of `l` stop at column 3, which is buffer column 2. */
  lemma TwoLineScenario()
    ensures var rope: Rope := Lines(["abc\n", "def"]);
            Move('j', Position(1, 2), rope) == Done(Position(1, 2)) &&
            Repeat('l', Position(1, 2), rope, 3) == Done(Position(3, 2))
  {
  }

  // ---------------------------------------------------------------------
  // Footer

  const FILE_SAVED: string := "file saved"
  const PROVIDE_FILE_NAME: string := "provide a file name"

  /** `App::save_file`'s footer mapping: "file saved" on success, "provide a
      file name" on an error that displays like `FileNameError`, otherwise
      the footer stays. A panic never reaches the footer. */
  function FooterAfterSave(r: SaveResult, footer: string): (f: string)
    ensures r.Saved? ==> f == FILE_SAVED
    ensures r.Failed? ==>
              f == (if Message(r.error) == FILE_NAME_ERROR_MESSAGE then PROVIDE_FILE_NAME else footer)
    ensures r.Failed? && r.error == FileNameError ==> f == PROVIDE_FILE_NAME
    ensures f != footer ==> f == FILE_SAVED || f == PROVIDE_FILE_NAME
    ensures r.Aborted? ==> f == footer
  {
    match r
    case Saved => FILE_SAVED
    case Failed(e) => if Message(e) == Message(FileNameError) then PROVIDE_FILE_NAME else footer
    case Aborted(_) => footer
  }

  /** Saving reports a missing name exactly when no name is bound or when the
      create error's text happens to equal `FileNameError`'s. */
  lemma FooterReportsMissingName(h: FileHandler, create: CreateOutcome, footer: string)
    requires footer != PROVIDE_FILE_NAME
    ensures FooterAfterSave(SaveFile(h, create).result, footer) == PROVIDE_FILE_NAME <==>
              h.fileName.None? || create == CreateFailed(FILE_NAME_ERROR_MESSAGE)
  {
  }

  // ---------------------------------------------------------------------
  // The session

  class App {
    var mode: Mode
    const fileHandler: FileHandler
    const scrollBarState: nat
    var cursorPosition: Position
    var footerText: string

    ghost predicate Valid()
      reads this
    {
      InTerminal(cursorPosition)
    }

    /** `App::new`. */
    constructor (fileHandler: FileHandler)
      ensures Valid()
      ensures mode == Normal && this.fileHandler == fileHandler && scrollBarState == 0
      ensures cursorPosition == Position(1, 2) && footerText == "placeholder"
    {
      mode := Normal;
      this.fileHandler := fileHandler;
      scrollBarState := 0;
      cursorPosition := Position(1, 2);
      footerText := "placeholder";
    }

    /** `is_running`. */
    function IsRunning(): bool
      reads this
    {
      mode != Quit
    }

    method HandleH()
      requires Valid()
      modifies this`cursorPosition
      ensures Valid()
      ensures cursorPosition == MoveH(old(cursorPosition))
    {
      if cursorPosition.x == 1 {
        return;
      }
      cursorPosition := cursorPosition.(x := cursorPosition.x - 1);
    }

    method HandleJ() returns (panic: Option<Panic>)
      requires Valid()
      modifies this`cursorPosition
      ensures Valid()
      ensures MoveJ(old(cursorPosition), LenLines(fileHandler.fileContents)) ==
              if panic.Some? then Panicked(panic.value) else Done(cursorPosition)
      ensures panic.Some? ==> cursorPosition == old(cursorPosition)
    {
      panic := None;
      var max := LenLines(fileHandler.fileContents);
      if cursorPosition.y == max {
        return;
      }
      if cursorPosition.y == U16_MAX {
        panic := Some(CursorOverflow);
        return;
      }
      cursorPosition := cursorPosition.(y := cursorPosition.y + 1);
    }

    method HandleK()
      requires Valid()
      modifies this`cursorPosition
      ensures Valid()
      ensures cursorPosition == MoveK(old(cursorPosition))
    {
      if cursorPosition.y == 2 {
        return;
      }
      cursorPosition := cursorPosition.(y := cursorPosition.y - 1);
    }

    method HandleL() returns (panic: Option<Panic>)
      requires Valid()
      modifies this`cursorPosition
      ensures Valid()
      ensures MoveL(old(cursorPosition), fileHandler.fileContents) ==
              if panic.Some? then Panicked(panic.value) else Done(cursorPosition)
      ensures panic.Some? ==> cursorPosition == old(cursorPosition)
    {
      panic := None;
      var rope := fileHandler.fileContents;
      var index := cursorPosition.y - 2;
      if index >= LenLines(rope) {
        panic := Some(MissingLine);
        return;
      }
      var lenChars := LineLenChars(rope, index);
      if lenChars == 0 {
        panic := Some(LineLengthUnderflow);
        return;
      }
      if cursorPosition.x == lenChars - 1 {
        return;
      }
      if cursorPosition.x == U16_MAX {
        panic := Some(CursorOverflow);
        return;
      }
      cursorPosition := cursorPosition.(x := cursorPosition.x + 1);
    }

    method HandleCursorMovement(movement: char) returns (panic: Option<Panic>)
      requires Valid()
      modifies this`cursorPosition
      ensures Valid()
      ensures Move(movement, old(cursorPosition), fileHandler.fileContents) ==
              if panic.Some? then Panicked(panic.value) else Done(cursorPosition)
      ensures panic.Some? ==> cursorPosition == old(cursorPosition)
    {
      panic := None;
      match movement
      case 'h' => HandleH();
      case 'j' => panic := HandleJ();
      case 'k' => HandleK();
      case 'l' => panic := HandleL();
      case _ =>
    }

    /** `App::save_file`: saves through the file handler and maps the result
        onto the footer. `written` is what the named file holds afterwards,
        when it was created. */
    method SaveFile(create: CreateOutcome) returns (written: Option<seq<byte>>, panic: Option<Panic>)
      modifies this`footerText
      ensures written == FileHandling.SaveFile(fileHandler, create).written
      ensures footerText == FooterAfterSave(FileHandling.SaveFile(fileHandler, create).result, old(footerText))
      ensures panic.Some? <==> FileHandling.SaveFile(fileHandler, create).result.Aborted?
      ensures panic.Some? ==> panic.value == FileHandling.SaveFile(fileHandler, create).result.reason
    {
      var r := FileHandling.SaveFile(fileHandler, create);
      written, panic := r.written, None;
      match r.result
      case Saved =>
        footerText := FILE_SAVED;
      case Failed(err) =>
        if Message(err) == Message(FileNameError) {
          footerText := PROVIDE_FILE_NAME;
        }
      case Aborted(reason) =>
        panic := Some(reason);
    }

    /** `handle_key_press`: the guarded match over the key and the mode.
        `create` stands for what `File::create` does if this key saves. */
    method HandleKeyPress(key: Key, create: CreateOutcome) returns (written: Option<seq<byte>>, panic: Option<Panic>)
      requires Valid()
      modifies this`mode, this`cursorPosition, this`footerText
      ensures Valid()
      // Once the session stops running, no key press restarts it.
      ensures !old(IsRunning()) ==> !IsRunning()
      // Quit is absorbing and every key is ignored there.
      ensures old(mode) == Quit ==>
                mode == Quit && cursorPosition == old(cursorPosition) && footerText == old(footerText) &&
                written == None && panic == None
      // The mode changes only as the dispatch table says.
      ensures mode == (if panic.None? then NextMode(old(mode), key) else old(mode))
      // The cursor moves only on h/j/k/l in Normal, as `Move` says.
      ensures Dispatch(old(mode), key).Movement? ==>
                Move(key.c, old(cursorPosition), fileHandler.fileContents) ==
                if panic.Some? then Panicked(panic.value) else Done(cursorPosition)
      ensures !Dispatch(old(mode), key).Movement? ==> cursorPosition == old(cursorPosition)
      // Only `w` in Command touches the file and the footer.
      ensures Dispatch(old(mode), key).Save? ==>
                written == FileHandling.SaveFile(fileHandler, create).written &&
                footerText == FooterAfterSave(FileHandling.SaveFile(fileHandler, create).result, old(footerText)) &&
                (panic.Some? <==> FileHandling.SaveFile(fileHandler, create).result.Aborted?)
      ensures !Dispatch(old(mode), key).Save? ==> written == None && footerText == old(footerText)
      // A character in Inesrt reaches the unimplemented insert.
      ensures Dispatch(old(mode), key).Insert? ==> panic == Some(InsertUnimplemented)
      ensures Dispatch(old(mode), key).SetMode? || Dispatch(old(mode), key).Ignore? ==> panic == None
    {
      written, panic := None, None;
      match key
      case Char(c) =>
        if c == 'q' && mode == Command {
          mode := Quit;
        } else if c == 'w' && mode == Command {
          written, panic := SaveFile(create);
        } else if c == 'i' && mode == Normal {
          mode := Inesrt;
        } else if c == ':' && mode == Normal {
          mode := Command;
        } else if c == 'h' && mode == Normal {
          panic := HandleCursorMovement('h');
        } else if c == 'j' && mode == Normal {
          panic := HandleCursorMovement('j');
        } else if c == 'k' && mode == Normal {
          panic := HandleCursorMovement('k');
        } else if c == 'l' && mode == Normal {
          panic := HandleCursorMovement('l');
        } else if mode == Inesrt {
          panic := Some(InsertUnimplemented);
        }
      case Esc =>
        if mode == Inesrt || mode == Command {
          mode := Normal;
        }
      case Other =>
    }
  }
}
