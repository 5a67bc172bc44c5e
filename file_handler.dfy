/** The persistence side of the editor: binding a file name and its text at
    start-up, and saving the text back through a chunked 1024-byte writer.
    The file system is replaced by abstract outcomes (did `File::open` or
    `File::create` succeed, what did the read produce) and the writer by the
    sequence of bytes that its `write_all` calls append. */
module FileHandling {
  import opened Common

  newtype byte = x: int | 0 <= x < 256

  /** Size of the writer's staging array. */
  const BUFFER_SIZE: nat := 1024

  /** The text `FileNameError` displays. */
  const FILE_NAME_ERROR_MESSAGE: string := "filename should be provided in order to write file"

  /** A ropey `Rope`, reduced to its lines as ropey yields them: each line
      keeps its own line break, and even an empty text has one (empty) line. */
  datatype Lines = Lines(lines: seq<seq<char>>)
  type Rope = r: Lines | |r.lines| >= 1 witness Lines([[]])

  function LenLines(r: Rope): nat
  {
    |r.lines|
  }

  function LineLenChars(r: Rope, i: nat): nat
    requires i < LenLines(r)
  {
    |r.lines[i]|
  }

  function Flatten(ls: seq<seq<char>>): seq<char>
  {
    if ls == [] then [] else ls[0] + Flatten(ls[1..])
  }

  /** Every character of the text, in order (`Rope::chars`). */
  function Chars(r: Rope): seq<char>
  {
    Flatten(r.lines)
  }

  /** `Rope::new()`. */
  function EmptyRope(): (r: Rope)
    ensures LenLines(r) == 1 && LineLenChars(r, 0) == 0 && Chars(r) == []
  {
    Lines([[]])
  }

  /** `c as u8`: keeps the low 8 bits of the code point. */
  function NarrowChar(c: char): byte
  {
    (c as int % 256) as byte
  }

  /** The byte stream `chars.map(|c| c as u8)`. */
  function Narrow(cs: seq<char>): (bs: seq<byte>)
    ensures |bs| == |cs|
    ensures forall i :: 0 <= i < |cs| ==> bs[i] as int == cs[i] as int % 256
  {
    if cs == [] then [] else [NarrowChar(cs[0])] + Narrow(cs[1..])
  }

  // ---------------------------------------------------------------------
  // FileHandler::new

  datatype FileHandler = FileHandler(fileName: Option<string>, fileContents: Rope)

  /** `FileHandler::default()`: no name, empty text. */
  function Default(): FileHandler
  {
    FileHandler(None, EmptyRope())
  }

  /** What opening and reading the named file produces. */
  datatype OpenOutcome =
    | OpenFailed              // `File::open` returned an error
    | ReadOk(contents: Rope)  // opened, and `Rope::from_reader` built this text
    | ReadFailed              // opened, but reading failed

  /** `FileHandler::new`: without a name the default handler; with a name, the
      text read from that file, or an empty text when the file cannot be
      opened (so a later save creates it). A read error is a panic. The open
      outcome is consulted only when a name is given. */
  function New(fileName: Option<string>, open: OpenOutcome): (r: Outcome<FileHandler>)
    ensures fileName.None? ==> r == Done(Default())
    ensures r.Panicked? <==> fileName.Some? && open.ReadFailed?
    ensures r.Panicked? ==> r.reason == ReadError
    ensures r.Done? ==> r.value.fileName == fileName
    ensures r.Done? && (fileName.None? || open.OpenFailed?) ==>
              LenLines(r.value.fileContents) == 1 && Chars(r.value.fileContents) == []
    ensures fileName.Some? && open.ReadOk? ==> r.Done? && r.value.fileContents == open.contents
  {
    match fileName
    case Some(_) =>
      (match open
       case ReadOk(contents) => Done(FileHandler(fileName, contents))
       case ReadFailed => Panicked(ReadError)
       case OpenFailed => Done(FileHandler(fileName, EmptyRope())))
    case None => Done(Default())
  }

  // ---------------------------------------------------------------------
  // CustomWrite::custom_write

  /** Everything `custom_write` hands to the writer, in order, and whether it
      panicked on the way. */
  datatype WriteTrace = WriteTrace(out: seq<byte>, panicked: bool)

  function Zeros(n: nat): (z: seq<byte>)
    ensures |z| == n && forall i :: 0 <= i < n ==> z[i] == 0
  {
    seq(n, _ => 0)
  }

  /** The writer's behaviour in closed form. Because `index` is never reset,
      the staging array fills once: shorter input goes out in the final
      write; input of exactly one array's length goes out when the array
      fills, and the final write then sends the whole, zeroed array again;
      a longer input indexes past the array on its 1025th byte and panics
      after the first 1024 bytes were written. */
  function CustomWriteSpec(input: seq<byte>): (t: WriteTrace)
    ensures t.panicked <==> |input| > BUFFER_SIZE
    ensures t.out == input <==> |input| < BUFFER_SIZE
    ensures |input| <= BUFFER_SIZE ==> |t.out| >= |input| && t.out[..|input|] == input
    ensures |input| > BUFFER_SIZE ==> t.out == input[..BUFFER_SIZE]
    ensures |input| == BUFFER_SIZE ==> t.out[BUFFER_SIZE..] == Zeros(BUFFER_SIZE)
  {
    if |input| < BUFFER_SIZE then WriteTrace(input, false)
    else if |input| == BUFFER_SIZE then WriteTrace(input + Zeros(BUFFER_SIZE), false)
    else WriteTrace(input[..BUFFER_SIZE], true)
  }

  /** `custom_write`: the staging array, the `index` and `mult` counters and the
      two `write_all` sites, with `out` standing for the writer. The errors of
      `write_all` are discarded by the source, so every write is appended. */
  method CustomWrite(input: seq<byte>) returns (out: seq<byte>, panicked: bool)
    ensures WriteTrace(out, panicked) == CustomWriteSpec(input)
  {
    var buffer := new byte[BUFFER_SIZE](_ => 0);
    var index: nat := 0;
    var mult: nat := 1;
    out, panicked := [], false;
    var k := 0;
    while k < |input|
      invariant k <= |input| && k <= BUFFER_SIZE
      invariant fresh(buffer) && buffer.Length == BUFFER_SIZE
      invariant index == k
      invariant mult == if k < BUFFER_SIZE then 1 else 2
      invariant k < BUFFER_SIZE ==> out == [] && buffer[..k] == input[..k]
      invariant k == BUFFER_SIZE ==> out == input[..BUFFER_SIZE] && buffer[..] == Zeros(BUFFER_SIZE)
    {
      if index >= buffer.Length {
        panicked := true;
        return;
      }
      buffer[index] := input[k];
      index := index + 1;
      if index == BUFFER_SIZE * mult {
        out := out + buffer[..];
        buffer := new byte[BUFFER_SIZE](_ => 0);
        mult := mult + 1;
      }
      k := k + 1;
    }
    out := out + buffer[..index];
  }

  // ---------------------------------------------------------------------
  // FileHandler::save_file

  /** What `File::create` does. */
  datatype CreateOutcome = Created | CreateFailed(message: string)

  datatype SaveError = FileNameError | IoError(message: string)

  /** The text an error displays. */
  function Message(e: SaveError): string
  {
    match e
    case FileNameError => FILE_NAME_ERROR_MESSAGE
    case IoError(m) => m
  }

  datatype SaveResult = Saved | Failed(error: SaveError) | Aborted(reason: Panic)

  /** The result of `save_file` and, when the file was created, the bytes it
      holds afterwards (`File::create` truncates, so these are exactly the
      bytes written). */
  datatype SaveOutcome = SaveOutcome(result: SaveResult, written: Option<seq<byte>>)

  /** `FileHandler::save_file`. */
  function SaveFile(h: FileHandler, create: CreateOutcome): (r: SaveOutcome)
    ensures h.fileName.None? ==> r == SaveOutcome(Failed(FileNameError), None)
    ensures r.written.Some? <==> h.fileName.Some? && create.Created?
    ensures create.CreateFailed? && h.fileName.Some? ==> r.result == Failed(IoError(create.message))
    ensures r.result.Saved? <==> r.written.Some? && |Chars(h.fileContents)| <= BUFFER_SIZE
    ensures r.result.Aborted? <==> r.written.Some? && |Chars(h.fileContents)| > BUFFER_SIZE
    ensures r.result.Aborted? ==> r.result.reason == WriteBufferOverrun
    ensures r.result.Saved? && |Chars(h.fileContents)| < BUFFER_SIZE ==>
              r.written == Some(Narrow(Chars(h.fileContents)))
  {
    match h.fileName
    case Some(_) =>
      (match create
       case CreateFailed(m) => SaveOutcome(Failed(IoError(m)), None)
       case Created =>
         var t := CustomWriteSpec(Narrow(Chars(h.fileContents)));
         SaveOutcome(if t.panicked then Aborted(WriteBufferOverrun) else Saved, Some(t.out)))
    case None => SaveOutcome(Failed(FileNameError), None)
  }

  /** A successful save always starts the file with the text's characters,
      each narrowed to its low 8 bits, in order. */
  lemma SavedFileStartsWithText(h: FileHandler, create: CreateOutcome)
    requires SaveFile(h, create).result.Saved?
    ensures var file := SaveFile(h, create).written.value;
            var cs := Chars(h.fileContents);
            |file| >= |cs| &&
            forall i :: 0 <= i < |cs| ==> file[i] as int == cs[i] as int % 256
  {
  }

  /** A text of exactly one staging array's length is saved with 1024 zero
      bytes after it. */
  lemma SaveOfFullBufferAppendsZeros(h: FileHandler)
    requires h.fileName.Some? && |Chars(h.fileContents)| == BUFFER_SIZE
    ensures SaveFile(h, Created) ==
            SaveOutcome(Saved, Some(Narrow(Chars(h.fileContents)) + Zeros(BUFFER_SIZE)))
  {
  }
}
