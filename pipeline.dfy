/**
 * `curve_dependent_main`: load the JSON public input in 255-byte chunks, load
 * and evaluate the bytecode module, pad the assignment table, write the table
 * and then the circuit, and optionally check satisfiability. Every foreign
 * library is an oracle in `Libraries`; the file system is reduced to which
 * paths can be opened and what the readable ones contain.
 */
module Pipeline {
  import opened Wrappers
  import opened Bytes
  import CircuitPrinter
  import HexBlob
  import opened Numbers

  /** `char input_string[256]`: the read buffer, one byte kept for the terminator. */
  const BufferSize: nat := 256
  const ChunkSize: nat := BufferSize - 1

  /** The bytecode module `parseIRFile` returns. */
  type IrModule
  /** The assignment table the evaluator fills (`parser_instance.assignmnt`). */
  type AssignmentTable
  /** The constraint system the evaluator builds (`parser_instance.bp`). */
  type ConstraintSystem

  datatype Evaluation = Evaluation(circuit: ConstraintSystem, table: AssignmentTable)

  /** Boost.JSON's `stream_parser`, judged by what it has been fed. */
  datatype JsonLibrary = JsonLibrary(
    writeOk: (seq<byte>, seq<byte>) -> bool,  // `write(piece, ec)` leaves `ec` clear, after the earlier bytes
    finishOk: seq<byte> -> bool,              // `finish(ec)` leaves `ec` clear
    isArray: seq<byte> -> bool)               // `release().is_array()`

  /** The libraries `curve_dependent_main` calls, for one (curve, arithmetization) instance. */
  datatype Libraries = Libraries(
    json: JsonLibrary,
    parseIrFile: string -> Option<IrModule>,                  // `None` is a null module
    evaluate: (IrModule, seq<byte>) -> Option<Evaluation>,    // `None` is `evaluate` returning false
    rowsAmount: AssignmentTable -> nat,                       // `assignmnt.rows_amount()`
    basicPadding: AssignmentTable -> AssignmentTable,         // the table as `basic_padding` leaves it
    profile: (AssignmentTable, nat) -> string,                // `profiling_assignment_table` output
    marshal: ConstraintSystem -> CircuitPrinter.FilledValue,  // `fill_plonk_constraint_system`
    isSatisfied: (ConstraintSystem, AssignmentTable) -> bool)

  /** Files that `std::ifstream` can open, with their contents, and paths `std::ofstream` can open. */
  datatype FileSystem = FileSystem(readable: map<string, seq<byte>>, writable: set<string>)

  /** The arguments of `curve_dependent_main`. */
  datatype Job = Job(
    bytecode: string, publicInput: string, assignmentTable: string, circuit: string,
    checkValidity: bool)

  /** How the process ends: a returned exit code, or a failed assertion. */
  datatype Termination = Returned(code: int) | Aborted

  /** The exit and the text written to each output file (`None`: never opened). */
  datatype Report = Report(exit: Termination, table: Option<string>, circuit: Option<string>)

  const Failed := Report(Returned(1), None, None)

  /**
   * The output files as they stand at exit, keyed by path: the table's text,
   * then the circuit's, which replaces it when both options name one path,
   * since `ocircuit.open` truncates the file the table was written to.
   */
  function Files(job: Job, r: Report): (files: map<string, string>)
    ensures r.circuit.Some? ==> job.circuit in files && files[job.circuit] == r.circuit.value
    ensures r.table.Some? && (r.circuit.None? || job.assignmentTable != job.circuit) ==>
      job.assignmentTable in files && files[job.assignmentTable] == r.table.value
    ensures forall path :: path in files ==>
      (r.table.Some? && path == job.assignmentTable) || (r.circuit.Some? && path == job.circuit)
  {
    var afterTable := if r.table.Some? then map[job.assignmentTable := r.table.value] else map[];
    if r.circuit.Some? then afterTable[job.circuit := r.circuit.value] else afterTable
  }

  // ---------------------------------------------------------------------------
  // The chunked read loop

  /**
   * The chunks successive `read(buf, 255)` calls return until end of file is
   * seen: full chunks while a full one is available, then one shorter chunk,
   * which is empty when the length is a multiple of 255.
   */
  function Chunks(c: seq<byte>): (chunks: seq<seq<byte>>)
    ensures |chunks| >= 1
    ensures forall k :: 0 <= k < |chunks| ==> |chunks[k]| < BufferSize
    decreases |c|
  {
    if |c| < ChunkSize then [c] else [c[..ChunkSize]] + Chunks(c[ChunkSize..])
  }

  function Flatten(chunks: seq<seq<byte>>): seq<byte>
  {
    if chunks == [] then [] else chunks[0] + Flatten(chunks[1..])
  }

  /** Reading the chunks back to back gives the file: nothing lost, nothing repeated. */
  lemma {:induction false} ChunksFlatten(c: seq<byte>)
    ensures Flatten(Chunks(c)) == c
    decreases |c|
  {
    if |c| >= ChunkSize {
      ChunksFlatten(c[ChunkSize..]);
      assert c == c[..ChunkSize] + c[ChunkSize..];
    } else {
      assert Flatten([c]) == c + Flatten([]);
    }
  }

  /**
   * Every chunk but the last is exactly 255 bytes, the last is shorter, and
   * there are |c| / 255 + 1 of them; so each chunk's terminator fits in the
   * 256-byte buffer.
   */
  lemma {:induction false} ChunksShape(c: seq<byte>)
    ensures |Chunks(c)| == |c| / ChunkSize + 1
    ensures forall k :: 0 <= k < |Chunks(c)| - 1 ==> |Chunks(c)[k]| == ChunkSize
    ensures |Chunks(c)[|Chunks(c)| - 1]| == |c| % ChunkSize < BufferSize - 1
    decreases |c|
  {
    if |c| >= ChunkSize {
      var rest := c[ChunkSize..];
      ChunksShape(rest);
      assert Chunks(c) == [c[..ChunkSize]] + Chunks(rest);
      DivModStep(|c|);
    } else {
      assert Chunks(c) == [c];
    }
  }

  lemma DivModStep(n: nat)
    requires n >= ChunkSize
    ensures n / ChunkSize == (n - ChunkSize) / ChunkSize + 1
    ensures n % ChunkSize == (n - ChunkSize) % ChunkSize
  {
  }

  /**
   * What `write(input_string, ec)` feeds the parser: `input_string` converts to
   * a string view ending at the first NUL, so a chunk is cut there.
   */
  function CString(s: seq<byte>): (r: seq<byte>)
    ensures |r| <= |s| && r == s[..|r|]
    ensures forall i :: 0 <= i < |r| ==> r[i] != 0
    ensures |r| < |s| ==> s[|r|] == 0
  {
    if s == [] || s[0] == 0 then [] else [s[0]] + CString(s[1..])
  }

  /** A chunk followed by the terminator the loop stores reads as the chunk, cut at a NUL. */
  lemma CStringTerminated(buf: seq<byte>, chunk: seq<byte>)
    requires |chunk| < |buf| && buf[..|chunk|] == chunk && buf[|chunk|] == 0
    ensures CString(buf) == CString(chunk)
  {
  }

  /** What the parser is given for each chunk: the chunk cut at its first NUL. */
  function Pieces(chunks: seq<seq<byte>>): seq<seq<byte>>
  {
    seq(|chunks|, k requires 0 <= k < |chunks| => CString(chunks[k]))
  }

  /**
   * Feeds the pieces to the parser one by one, stopping at the first `write`
   * that sets the error code; on success, everything fed.
   */
  function Feed(writeOk: (seq<byte>, seq<byte>) -> bool, fed: seq<byte>, pieces: seq<seq<byte>>): (r: Option<seq<byte>>)
    ensures r.Some? ==> r.value == fed + Flatten(pieces)
    ensures pieces != [] && !writeOk(fed, pieces[0]) ==> r == None
    decreases |pieces|
  {
    if pieces == [] then Some(fed)
    else if !writeOk(fed, pieces[0]) then None
    else Feed(writeOk, fed + pieces[0], pieces[1..])
  }

  /**
   * Feeding fails exactly when some `write` fails on its piece, given what the
   * earlier writes fed; otherwise the parser has been fed every piece in order.
   */
  lemma {:induction false} FeedOutcome(writeOk: (seq<byte>, seq<byte>) -> bool, fed: seq<byte>, pieces: seq<seq<byte>>)
    ensures Feed(writeOk, fed, pieces) == None <==>
      exists k :: 0 <= k < |pieces| && !writeOk(fed + Flatten(pieces[..k]), pieces[k])
    ensures Feed(writeOk, fed, pieces) != None ==> Feed(writeOk, fed, pieces) == Some(fed + Flatten(pieces))
    decreases |pieces|
  {
    if pieces == [] {
      assert fed + Flatten(pieces) == fed;
    } else {
      FeedOutcome(writeOk, fed + pieces[0], pieces[1..]);
      assert Flatten(pieces[..0]) == [];
      assert fed + Flatten(pieces[..0]) == fed;
      forall k | 1 <= k < |pieces|
        ensures fed + Flatten(pieces[..k]) == fed + pieces[0] + Flatten(pieces[1..][..k - 1])
      {
        assert pieces[..k][1..] == pieces[1..][..k - 1];
      }
      if Feed(writeOk, fed, pieces) == None && writeOk(fed, pieces[0]) {
        var k :| 0 <= k < |pieces| - 1 && !writeOk(fed + pieces[0] + Flatten(pieces[1..][..k]), pieces[1..][k]);
        assert !writeOk(fed + Flatten(pieces[..k + 1]), pieces[k + 1]);
      }
      if Feed(writeOk, fed, pieces) != None {
        assert fed + Flatten(pieces) == fed + pieces[0] + Flatten(pieces[1..]);
      }
    }
  }

  /** When the file holds no NUL byte, the parser is fed exactly the file. */
  lemma {:induction false} PiecesFlattenWithoutNul(c: seq<byte>)
    requires forall i :: 0 <= i < |c| ==> c[i] != 0
    ensures Flatten(Pieces(Chunks(c))) == c
    decreases |c|
  {
    if |c| >= ChunkSize {
      PiecesFlattenWithoutNul(c[ChunkSize..]);
      CStringWithoutNul(c[..ChunkSize]);
      assert Pieces(Chunks(c))[1..] == Pieces(Chunks(c[ChunkSize..]));
      assert c == c[..ChunkSize] + c[ChunkSize..];
    } else {
      CStringWithoutNul(c);
      assert Flatten(Pieces(Chunks(c))) == c + Flatten([]);
    }
  }

  lemma CStringWithoutNul(s: seq<byte>)
    requires forall i :: 0 <= i < |s| ==> s[i] != 0
    ensures CString(s) == s
  {
  }

  /**
   * A NUL byte drops the rest of its chunk: the piece fed for chunk k is the
   * chunk cut at its first NUL, so no byte after that NUL in the chunk is fed.
   */
  lemma NulCutsChunk(c: seq<byte>, k: nat, i: nat)
    requires k < |Chunks(c)| && i < |Chunks(c)[k]| && Chunks(c)[k][i] == 0
    requires forall j :: 0 <= j < i ==> Chunks(c)[k][j] != 0
    ensures Pieces(Chunks(c))[k] == Chunks(c)[k][..i]
  {
  }

  /** For a file shorter than one chunk, the parser is fed the file up to its first NUL. */
  lemma NulCutsShortFile(c: seq<byte>, i: nat)
    requires |c| < ChunkSize && i < |c| && c[i] == 0
    requires forall j :: 0 <= j < i ==> c[j] != 0
    ensures Flatten(Pieces(Chunks(c))) == c[..i]
  {
  }

  /** The example: `[1]`, a NUL, then `z`; the parser sees only `[1]`. */
  lemma NulCutsExample()
    ensures Flatten(Pieces(Chunks([0x5b, 0x31, 0x5d, 0x00, 0x7a]))) == [0x5b, 0x31, 0x5d]
  {
  }

  /**
   * The public input as the loader leaves it: `None` when a chunk write or
   * `finish` sets the error code or the root is not an array.
   */
  function LoadPublicInput(json: JsonLibrary, contents: seq<byte>): (r: Option<seq<byte>>)
    ensures r.Some? ==> r.value == Flatten(Pieces(Chunks(contents)))
    ensures r.Some? ==> json.finishOk(r.value) && json.isArray(r.value)
  {
    match Feed(json.writeOk, [], Pieces(Chunks(contents)))
    case None => None
    case Some(fed) =>
      if !json.finishOk(fed) || !json.isArray(fed) then None else Some(fed)
  }

  // ---------------------------------------------------------------------------
  // The whole function

  /**
   * The stages before any output is opened: open and parse the public input,
   * load the bytecode module, evaluate it. `None` when any of them fails.
   */
  function Evaluate(fs: FileSystem, libs: Libraries, job: Job): (r: Option<Evaluation>)
    ensures r.Some? ==> job.publicInput in fs.readable
    ensures r.Some? ==> LoadPublicInput(libs.json, fs.readable[job.publicInput]).Some?
    ensures r.Some? ==> libs.parseIrFile(job.bytecode).Some?
  {
    if job.publicInput !in fs.readable then None
    else match LoadPublicInput(libs.json, fs.readable[job.publicInput])
    case None => None
    case Some(input) =>
      match libs.parseIrFile(job.bytecode)
      case None => None
      case Some(irModule) => libs.evaluate(irModule, input)
  }

  /** Everything `curve_dependent_main` does, as a function of its inputs and oracles. */
  function Outcome(fs: FileSystem, libs: Libraries, job: Job, assertsEnabled: bool): (r: Report)
    ensures r.exit == Returned(0) || r.exit == Returned(1) || r.exit == Aborted
    ensures r.table.Some? ==> Evaluate(fs, libs, job).Some? && job.assignmentTable in fs.writable
    ensures r.circuit.Some? ==> r.table.Some? && job.circuit in fs.writable
    ensures r.exit == Aborted ==> assertsEnabled && job.checkValidity
  {
    match Evaluate(fs, libs, job)
    case None => Failed
    case Some(ev) =>
      var usableRows := libs.rowsAmount(ev.table);
      var padded := libs.basicPadding(ev.table);
      if job.assignmentTable !in fs.writable then Failed
      else
        var tableText := libs.profile(padded, usableRows);
        if job.circuit !in fs.writable then Report(Returned(1), Some(tableText), None)
        else
          var circuitText := CircuitPrinter.CircuitText(libs.marshal(ev.circuit));
          var unsatisfied := job.checkValidity && !libs.isSatisfied(ev.circuit, padded);
          Report(if unsatisfied && assertsEnabled then Aborted else Returned(0),
                 Some(tableText), Some(circuitText))
  }

  /**
   * Each failure before the outputs (input file not opened, a JSON error on a
   * chunk or at `finish`, a root that is not an array, a null module, a failed
   * `evaluate`) returns 1 with neither output file opened.
   */
  lemma EarlyFailures(fs: FileSystem, libs: Libraries, job: Job, assertsEnabled: bool)
    ensures Evaluate(fs, libs, job) == None <==>
      || job.publicInput !in fs.readable
      || LoadPublicInput(libs.json, fs.readable[job.publicInput]) == None
      || libs.parseIrFile(job.bytecode) == None
      || libs.evaluate(libs.parseIrFile(job.bytecode).value,
                       LoadPublicInput(libs.json, fs.readable[job.publicInput]).value) == None
    ensures Evaluate(fs, libs, job) == None ==> Outcome(fs, libs, job, assertsEnabled) == Failed
  {
  }

  /**
   * The public input fails to load exactly when a chunk write fails, `finish`
   * fails, or the root is not an array; what loads is everything fed.
   */
  lemma LoadPublicInputOutcome(json: JsonLibrary, contents: seq<byte>)
    ensures var pieces := Pieces(Chunks(contents));
      LoadPublicInput(json, contents) == None <==>
        || (exists k :: 0 <= k < |pieces| && !json.writeOk(Flatten(pieces[..k]), pieces[k]))
        || !json.finishOk(Flatten(pieces))
        || !json.isArray(Flatten(pieces))
    ensures LoadPublicInput(json, contents) != None ==>
      LoadPublicInput(json, contents) == Some(Flatten(Pieces(Chunks(contents))))
  {
    var pieces := Pieces(Chunks(contents));
    FeedOutcome(json.writeOk, [], pieces);
    assert forall k :: 0 <= k < |pieces| ==> [] + Flatten(pieces[..k]) == Flatten(pieces[..k]);
    assert [] + Flatten(pieces) == Flatten(pieces);
  }

  /**
   * The table file is opened only after every early stage succeeded, and the
   * circuit file only after the table was written; an unopenable table file
   * returns 1 without opening the circuit file.
   */
  lemma OutputOrder(fs: FileSystem, libs: Libraries, job: Job, assertsEnabled: bool)
    ensures var r := Outcome(fs, libs, job, assertsEnabled);
      && (r.table.Some? <==> Evaluate(fs, libs, job).Some? && job.assignmentTable in fs.writable)
      && (r.circuit.Some? <==> r.table.Some? && job.circuit in fs.writable)
  {
  }

  /**
   * The function returns 0 exactly when both outputs were written and, with
   * the check requested and assertions compiled in, the circuit is satisfied;
   * every other return is 1, and an unsatisfied check aborts after both writes.
   */
  lemma ExitStatus(fs: FileSystem, libs: Libraries, job: Job, assertsEnabled: bool)
    ensures var r := Outcome(fs, libs, job, assertsEnabled);
      && (r.exit == Returned(0) <==>
            && r.circuit.Some?
            && (job.checkValidity && assertsEnabled ==>
                  var ev := Evaluate(fs, libs, job).value;
                  libs.isSatisfied(ev.circuit, libs.basicPadding(ev.table))))
      && (r.exit == Returned(1) <==> r.circuit.None?)
      && (r.exit == Aborted ==> job.checkValidity && assertsEnabled && r.circuit.Some?)
  {
  }

  /**
   * What the outputs hold: the profile of the padded table bounded by the row
   * count taken before padding, and the circuit as a hex blob without a
   * newline that decodes to the marshalled buffer.
   */
  lemma OutputContents(fs: FileSystem, libs: Libraries, job: Job, assertsEnabled: bool)
    requires Evaluate(fs, libs, job).Some?
    ensures var ev := Evaluate(fs, libs, job).value;
      var r := Outcome(fs, libs, job, assertsEnabled);
      && (r.table.Some? ==> r.table.value == libs.profile(libs.basicPadding(ev.table), libs.rowsAmount(ev.table)))
      && (r.circuit.Some? ==>
            && r.circuit.value == HexBlob.ByteBlob(CircuitPrinter.WriteBuffer(libs.marshal(ev.circuit)), false)
            && HexBlob.DecodeByteBlob(r.circuit.value) == Some(CircuitPrinter.WriteBuffer(libs.marshal(ev.circuit))))
  {
  }

  /** `std::ifstream` opened on a readable file. */
  class InputFile {
    const contents: seq<byte>
    var pos: nat
    var eof: bool

    ghost predicate Valid()
      reads this
    {
      pos <= |contents|
    }

    constructor (contents: seq<byte>)
      ensures Valid() && this.contents == contents && pos == 0 && !eof
    {
      this.contents := contents;
      pos := 0;
      eof := false;
    }

    /**
     * `read(buf, n)`: copies up to `n` bytes into `buf`, sets end-of-file
     * when fewer than `n` were left, and returns the count (`gcount`).
     */
    method Read(buf: array<byte>, n: nat) returns (gcount: nat)
      requires Valid() && n <= buf.Length
      modifies this, buf
      ensures Valid()
      ensures gcount == if old(eof) then 0 else Min(n, |contents| - old(pos))
      ensures pos == old(pos) + gcount
      ensures eof == (old(eof) || |contents| - old(pos) < n)
      ensures buf[..gcount] == contents[old(pos)..pos]
      ensures buf[gcount..] == old(buf[gcount..])
    {
      if eof {
        gcount := 0;
      } else {
        gcount := Min(n, |contents| - pos);
        forall i | 0 <= i < gcount {
          buf[i] := contents[pos + i];
        }
        eof := |contents| - pos < n;
        pos := pos + gcount;
      }
    }
  }

  /** `boost::json::stream_parser`, recording what it has been fed. */
  class StreamParser {
    const json: JsonLibrary
    var fed: seq<byte>

    constructor (json: JsonLibrary)
      ensures this.json == json && fed == []
    {
      this.json := json;
      fed := [];
    }

    /** `write(piece, ec)`: feeds one piece; `ok` is a clear error code. */
    method Write(piece: seq<byte>) returns (ok: bool)
      modifies this
      ensures ok == json.writeOk(old(fed), piece) && fed == old(fed) + piece
    {
      ok := json.writeOk(fed, piece);
      fed := fed + piece;
    }
  }

  /**
   * One turn of the read loop: the first chunk of what is left is the next
   * `read`, and feeding what is left is feeding its piece, then the rest.
   */
  lemma FeedStep(writeOk: (seq<byte>, seq<byte>) -> bool, fed: seq<byte>, rest: seq<byte>)
    ensures Chunks(rest)[0] == rest[..Min(|rest|, ChunkSize)]
    ensures var piece := CString(Chunks(rest)[0]);
      Feed(writeOk, fed, Pieces(Chunks(rest))) ==
        if !writeOk(fed, piece) then None
        else if |rest| < ChunkSize then Some(fed + piece)
        else Feed(writeOk, fed + piece, Pieces(Chunks(rest[ChunkSize..])))
  {
    var pieces := Pieces(Chunks(rest));
    if |rest| < ChunkSize {
      assert pieces[1..] == [];
    } else {
      assert pieces[1..] == Pieces(Chunks(rest[ChunkSize..]));
    }
  }

  /**
   * The read loop of `curve_dependent_main` on an opened input file: refill a
   * fresh 256-byte buffer with at most 255 bytes, store the terminator, and
   * feed the buffer to the stream parser until end of file; `None` as soon as
   * a `write` sets the error code, otherwise everything fed.
   */
  method FeedInputFile(contents: seq<byte>, json: JsonLibrary) returns (r: Option<seq<byte>>)
    ensures r == Feed(json.writeOk, [], Pieces(Chunks(contents)))
  {
    var input := new InputFile(contents);
    var parser := new StreamParser(json);
    ghost var c := input.contents;
    ghost var all := Pieces(Chunks(c));
    while !input.eof
      invariant input.Valid() && input.contents == c && parser.json == json
      invariant !input.eof ==>
        Feed(json.writeOk, [], all) == Feed(json.writeOk, parser.fed, Pieces(Chunks(c[input.pos..])))
      invariant input.eof ==> Feed(json.writeOk, [], all) == Some(parser.fed)
      // Terminates because every openable file reads without error; a failing
      // read that never sets end of file would make the source loop forever.
      decreases |c| - input.pos + (if input.eof then 0 else 1)
    {
      var buf := new byte[BufferSize];
      ghost var rest := c[input.pos..];
      FeedStep(json.writeOk, parser.fed, rest);
      var gcount := input.Read(buf, BufferSize - 1);
      buf[gcount] := 0;
      CStringTerminated(buf[..], Chunks(rest)[0]);
      var piece := CString(buf[..]);
      var ok := parser.Write(piece);
      if !ok {
        return None;
      }
      if !input.eof {
        assert c[input.pos..] == rest[ChunkSize..];
      }
    }
    r := Some(parser.fed);
  }

  /**
   * `curve_dependent_main`: open and read the public input, then the chain of
   * early returns. The result is the exit and the text of each output file
   * that was opened.
   */
  method CurveDependentMain(fs: FileSystem, libs: Libraries, job: Job, assertsEnabled: bool)
    returns (r: Report)
    ensures r == Outcome(fs, libs, job, assertsEnabled)
  {
    if job.publicInput !in fs.readable {
      return Failed;
    }
    var loaded := FeedInputFile(fs.readable[job.publicInput], libs.json);
    if loaded.None? {
      return Failed;
    }
    var fed := loaded.value;
    if !libs.json.finishOk(fed) || !libs.json.isArray(fed) {
      return Failed;
    }
    var irModule := libs.parseIrFile(job.bytecode);
    if irModule.None? {
      return Failed;
    }
    var ev := libs.evaluate(irModule.value, fed);
    if ev.None? {
      return Failed;
    }
    var usableRows := libs.rowsAmount(ev.value.table);
    var padded := libs.basicPadding(ev.value.table);
    if job.assignmentTable !in fs.writable {
      return Failed;
    }
    var tableText := libs.profile(padded, usableRows);
    if job.circuit !in fs.writable {
      return Report(Returned(1), Some(tableText), None);
    }
    var circuitText := CircuitPrinter.PrintCircuit(libs.marshal(ev.value.circuit));
    var exit := Returned(0);
    if job.checkValidity {
      var satisfied := libs.isSatisfied(ev.value.circuit, padded);
      if !satisfied && assertsEnabled {
        exit := Aborted;
      }
    }
    r := Report(exit, Some(tableText), Some(circuitText));
  }
}
