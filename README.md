# zkLLVM assigner front end, modelled in Dafny

The assigner (`bin/assigner/src/main.cpp`) reads a compiled bytecode program
and a JSON public input, has the blueprint library turn the program into a
PLONK circuit and its assignment table, and writes the table and the
hex-encoded circuit to two files. This project models what the file itself
decides, with every library it calls treated as an oracle:

- `HexBlob` — `print_hex_byteblob`: "0x", then two lowercase zero-padded
  hex digits per byte, no separators, and an optional newline. The printer
  is a loop (`PrintHexByteBlob`) proved against a specification function
  (`ByteBlob`). A decoder (`DecodeByteBlob`) shows that the fixed width makes
  the text decodable, and that it decodes nothing else.
- `CircuitPrinter` — `print_circuit`: a zeroed buffer of the length the
  encoder reports, filled by the encoder's `write`, whose status is ignored,
  then printed without a newline.
- `Pipeline` — `curve_dependent_main`: the input file is an `InputFile`
  object and the JSON stream parser a `StreamParser` object. The read loop
  (`FeedInputFile`) refills a fresh 256-byte array with at most 255 bytes
  and terminates it.
  Then comes the chain of early returns, the table write and the circuit
  write, and the optional satisfiability check. `CurveDependentMain` is proved
  equal to the function `Outcome`, and the lemmas about `Outcome` state which
  exit results and which output files have been written at that point.
- `Driver` — `main`: `help` first, then the four required flags in order, the
  defaults for the curve and arithmetization names, the `std::map::operator[]`
  lookups (an unknown name silently becomes index 0), and the two-level
  switch. The result is a `Decision`; `Assigner` composes it with the pipeline.

The bytes handed to the JSON parser are what `write(input_string, ec)` sees.
`input_string` converts to a string view that ends at the first NUL byte, so a
chunk is cut at a NUL byte. `PiecesFlattenWithoutNul` proves the parser is fed
exactly the file when the file has no NUL byte. `NulCutsChunk` shows the bytes
after a NUL in the same chunk are never fed.

Foreign calls are parameters: `Pipeline.Libraries` holds the JSON parser's
verdicts, `parseIRFile`, `evaluate`, `rows_amount`, `basic_padding`,
`profiling_assignment_table`, `fill_plonk_constraint_system` and
`is_satisfied`. `Pipeline.FileSystem` says which files open and what the
readable ones contain. `assertsEnabled` says whether `assert` and `ASSERT_MSG`
are compiled in.

`Report` records the text each output write produced; `Files` turns it into
the files at exit, keyed by path, so that `-t f -c f` leaves only the circuit
text in `f`.

## Model

| member | source | states |
|---|---|---|
| `HexBlob.DigitValue` | bin/assigner/src/main.cpp:65 | a lowercase hex digit denotes a value below sixteen |
| `HexBlob.HexDigit` | bin/assigner/src/main.cpp:63-65 | the digit `std::hex` prints for a value below sixteen is a lowercase hex digit that denotes that value |
| `HexBlob.HexDigitOfValue` | bin/assigner/src/main.cpp:63-65 | every lowercase hex digit is the one printed for its value |
| `HexBlob.HexByte` | bin/assigner/src/main.cpp:65 | a byte prints as exactly two lowercase digits whose values, high digit first, make up the byte |
| `HexBlob.HexDigits` | bin/assigner/src/main.cpp:64-66 | a byte range prints as twice as many characters, all lowercase hex digits |
| `HexBlob.ByteBlob` | bin/assigner/src/main.cpp:62-70 | the printed text is the prefix followed by the digits of every byte, 2 + 2n characters plus one for the newline; `ByteBlobShape`, `ByteBlobRoundTrip` and `DecodeByteBlobCanonical` characterise it further |
| `HexBlob.PrintHexByteBlob` | bin/assigner/src/main.cpp:62-71 | the loop appends to the stream's text exactly `ByteBlob(bytes, endl)`: the prefix, one group per byte in order, then the newline when asked |
| `HexBlob.HexDigitsAppend` | bin/assigner/src/main.cpp:64-66 | the digits of a concatenation are the digits of each part, one after the other |
| `HexBlob.HexDigitsAt` | bin/assigner/src/main.cpp:64-66 | byte i occupies exactly characters 2i and 2i+1 of the digits: fixed width, no separators |
| `HexBlob.ByteBlobShape` | bin/assigner/src/main.cpp:62-70 | the text has length 2 + 2n (+1 with newline), starts with "0x", has only lowercase digits after it, and ends in a newline if and only if `endl` holds |
| `HexBlob.ByteBlobExamples` | bin/assigner/src/main.cpp:62-70 | the empty range prints "0x"; bytes 00, ab, ff print "0x00abff"; a newline follows when `endl` holds |
| `HexBlob.HexByteOfDigits` | bin/assigner/src/main.cpp:65 | two lowercase digits are exactly what is printed for the byte they denote |
| `HexBlob.DecodeHexDigitsRoundTrip` | bin/assigner/src/main.cpp:63-66 | reading the printed digits two at a time recovers the bytes exactly |
| `HexBlob.DecodeHexDigitsCanonical` | bin/assigner/src/main.cpp:63-66 | any digit run that decodes is the printing of what it decodes to |
| `HexBlob.ByteBlobRoundTrip` | bin/assigner/src/main.cpp:62-70 | the printed text, with or without newline, decodes to the printed bytes |
| `HexBlob.DecodeByteBlobCanonical` | bin/assigner/src/main.cpp:62-70 | a text that decodes is the printing of its bytes, with or without newline |
| `CircuitPrinter.WriteBuffer` | bin/assigner/src/main.cpp:80-83 | the buffer has the length the encoder reports, holds the encoder's bytes from the start, and zeros after them |
| `CircuitPrinter.CircuitText` | bin/assigner/src/main.cpp:84 | the circuit text has 2 + 2·length characters and decodes to the buffer after `write` |
| `CircuitPrinter.PrintCircuit` | bin/assigner/src/main.cpp:74-85 | the circuit text is the buffer printed with `endl = false`: length 2 + 2·length, decoding back to the buffer, whatever the write status |
| `CircuitPrinter.CircuitTextRoundTrip` | bin/assigner/src/main.cpp:77-84 | when the encoder fills the buffer, the circuit text decodes to exactly the encoder's bytes |
| `CircuitPrinter.ShortWritePrintsZeros` | bin/assigner/src/main.cpp:81-84 | a buffer position the encoder did not write prints as "00" |
| `Pipeline.Chunks` | bin/assigner/src/main.cpp:105-108 | the successive `read` results number at least one and each is shorter than the 256-byte buffer; `ChunksFlatten` and `ChunksShape` characterise them |
| `Pipeline.ChunksFlatten` | bin/assigner/src/main.cpp:105-109 | the chunks the read loop obtains, concatenated, are the file contents |
| `Pipeline.ChunksShape` | bin/assigner/src/main.cpp:105-108 | there are length/255 + 1 chunks, all of 255 bytes but the last, which is shorter, so the terminator always fits in the 256-byte buffer |
| `Pipeline.CString` | bin/assigner/src/main.cpp:108-109 | the piece `write` sees is the longest NUL-free prefix of the buffer |
| `Pipeline.CStringTerminated` | bin/assigner/src/main.cpp:106-109 | a chunk followed by the stored terminator is read as the chunk cut at its first NUL |
| `Pipeline.Feed` | bin/assigner/src/main.cpp:105-114 | feeding stops with `None` when a `write` fails, and on success the parser holds everything fed, in order; `FeedOutcome` gives the iff |
| `Pipeline.FeedStep` | bin/assigner/src/main.cpp:105-114 | one loop turn reads the next chunk and feeds its piece, then the rest, unless that `write` fails |
| `Pipeline.FeedInputFile` | bin/assigner/src/main.cpp:105-114 | the loop over a fresh 256-byte buffer, terminated after each `read`, feeds exactly what `Feed` over the file's chunks feeds, and stops at the first failing `write` |
| `Pipeline.FeedOutcome` | bin/assigner/src/main.cpp:105-114 | feeding fails exactly when some `write` fails given what was fed before it; otherwise every piece was fed in order |
| `Pipeline.PiecesFlattenWithoutNul` | bin/assigner/src/main.cpp:105-109 | a file without NUL bytes is fed to the parser exactly |
| `Pipeline.NulCutsChunk` | bin/assigner/src/main.cpp:106-109 | for every file and chunk, the piece fed is the chunk cut at its first NUL: bytes after a NUL in the same chunk are not fed |
| `Pipeline.NulCutsShortFile` | bin/assigner/src/main.cpp:105-109 | a file shorter than one chunk is fed up to its first NUL only |
| `Pipeline.NulCutsExample` | bin/assigner/src/main.cpp:105-109 | example: the file `[1]`, NUL, `z` is fed as `[1]` |
| `Pipeline.LoadPublicInput` | bin/assigner/src/main.cpp:103-124 | a loaded input is everything fed, accepted by `finish`, with an array root; `LoadPublicInputOutcome` gives the iff |
| `Pipeline.LoadPublicInputOutcome` | bin/assigner/src/main.cpp:103-124 | loading fails exactly on a failed chunk write, a failed `finish` or a root that is not an array; otherwise the whole fed input is the loaded value |
| `Pipeline.Evaluate` | bin/assigner/src/main.cpp:97-138 | evaluation is reached only with an opened input that loaded and a non-null module; `EarlyFailures` gives the converse |
| `Pipeline.Outcome` | bin/assigner/src/main.cpp:88-168 | the exit is 0, 1 or an abort; the table is written only after the early stages, the circuit only after the table; an abort needs `--check` and assertions; `OutputOrder`, `ExitStatus` and `OutputContents` characterise it |
| `Pipeline.Files` | bin/assigner/src/main.cpp:144-160 | the files at exit, keyed by path: the circuit path holds the circuit text, and the table path the table text unless the circuit write reopened the same path and truncated it |
| `Pipeline.EarlyFailures` | bin/assigner/src/main.cpp:97-138 | the early stages fail exactly on an unopened input, a JSON failure, a null module or a failed `evaluate`, and then the function returns 1 with no output opened |
| `Pipeline.OutputOrder` | bin/assigner/src/main.cpp:144-158 | the table file is written only after every early stage succeeded and it could be opened; the circuit file only after the table and if it could be opened |
| `Pipeline.ExitStatus` | bin/assigner/src/main.cpp:144-167 | exit 0 exactly when both outputs were written and a requested, enforced check is satisfied; exit 1 exactly when the circuit was not written; an abort only after both writes, under `--check` with assertions on |
| `Pipeline.OutputContents` | bin/assigner/src/main.cpp:140-160 | the table output is the profile of the padded table bounded by the row count taken before padding; the circuit output is the hex blob of the marshalled buffer and decodes to it |
| `Pipeline.InputFile.constructor` | bin/assigner/src/main.cpp:97 | a newly opened input file is at position 0, not at end of file |
| `Pipeline.InputFile.Read` | bin/assigner/src/main.cpp:107 | `read(buf, n)` copies up to n of the remaining bytes into the start of the buffer, leaves the rest of the buffer alone, and sets end of file when fewer than n were left |
| `Pipeline.StreamParser.constructor` | bin/assigner/src/main.cpp:103 | a new parser has been fed nothing |
| `Pipeline.StreamParser.Write` | bin/assigner/src/main.cpp:109 | a write appends the piece to what was fed and reports the library's verdict on it |
| `Pipeline.CurveDependentMain` | bin/assigner/src/main.cpp:88-168 | opening the input, the read loop (`FeedInputFile`) and the chain of early returns produce exactly `Outcome`: the exit and the text of each output written |
| `Driver.Subscript` | bin/assigner/src/main.cpp:268-270 | `operator[]` yields the table's value for a listed name, and 0 for a name not in the table |
| `Driver.OptionOr` | bin/assigner/src/main.cpp:235-254 | an optional name flag yields its given value when present, and the default when omitted |
| `Driver.Decide` | bin/assigner/src/main.cpp:191-304 | `Help` exactly when `help` is present; a reported missing flag is a required flag that is absent; dispatch uses curve 0 and a job made of the four paths and the `check` flag; unsupported curves are indices 1-3 |
| `Driver.Assigner` | bin/assigner/src/main.cpp:170-307 | the process exits with 0, 1 or an abort; a table is written only on dispatch; an abort comes only from an unsupported curve or `--check`, with assertions on |
| `Driver.ParamsFor` | bin/assigner/src/main.cpp:262-285 | exactly the indices 0, 1 and 2 select a column tuple; the match gives the tuples (9,1,1,50), (15,5,5,50), (150,5,1,50) |
| `Driver.HelpFirst` | bin/assigner/src/main.cpp:191-194 | with `help` present, `main` returns 0 before any other check and opens nothing |
| `Driver.FirstMissingFlag` | bin/assigner/src/main.cpp:203-233 | without `help`, the first missing flag in the order bytecode, public-input, assignment-table, circuit is reported and `main` returns 1 |
| `Driver.MissingFlagIff` | bin/assigner/src/main.cpp:191-233 | a flag is reported missing exactly when `help` is absent and some required flag is absent, and the one reported is a required flag |
| `Driver.CurveIndexOf` | bin/assigner/src/main.cpp:242-247 | the curve lookup yields 0..3, and 0 for pallas and for every name not in the table |
| `Driver.ArithmetizationIndexOf` | bin/assigner/src/main.cpp:256-260 | the arithmetization lookup yields 0..2: 1 only for standard, 2 only for wide, 0 for tiny and every unknown name |
| `Driver.NoFallThrough` | bin/assigner/src/main.cpp:268-306 | every lookup lands on a switch case, so the final `return 0` is reached only through an unsupported curve with assertions compiled out |
| `Driver.ParamsDistinct` | bin/assigner/src/main.cpp:262-285 | no two arithmetization indices select the same column tuple |
| `Driver.OmittedCurveIsPallas` | bin/assigner/src/main.cpp:235-240 | an omitted `-e` alone means pallas: the pipeline runs, with the parameters the `-s` setting selects |
| `Driver.OmittedSettingIsStandard` | bin/assigner/src/main.cpp:249-254 | an omitted `-s` alone means standard: whenever the pipeline runs, it runs with (15,5,5,50) |
| `Driver.UnknownCurveIsPallas` | bin/assigner/src/main.cpp:242-247 | an explicitly given unknown curve name alone makes the pipeline run as pallas |
| `Driver.UnknownSettingIsTiny` | bin/assigner/src/main.cpp:256-273 | an explicitly given unknown arithmetization name alone gives tiny (9,1,1,50) whenever the pipeline runs |
| `Driver.Defaults` | bin/assigner/src/main.cpp:235-254 | with both `-e` and `-s` omitted, the pipeline runs as pallas with (15,5,5,50) and the job built from the given paths and check flag |
| `Driver.UnknownNamesFallBack` | bin/assigner/src/main.cpp:242-273 | with both names given and both unknown, the pipeline runs as pallas with tiny (9,1,1,50) |
| `Driver.Selection` | bin/assigner/src/main.cpp:268-304 | a complete command line reaches the pipeline exactly when the curve index is 0, with the parameters of the arithmetization index; any other curve is unsupported |
| `Driver.UnsupportedCurves` | bin/assigner/src/main.cpp:289-306 | vesta, ed25519 and bls12-381 never reach the pipeline: the assertion aborts, or the process returns 0 when assertions are compiled out, and nothing is opened |

## Left out

- Command-line parsing by `boost::program_options` (short aliases such as `-b`, value syntax, parse errors): the model starts from the variables map, keyed by long option name.
- `--version`: it is declared but never acted on, so it has no effect in the model either.
- `llvm::cl::ParseCommandLineOptions` and the `parser` constructor: library set-up with no observable outcome in this file.
- The foreign libraries are oracles with no internal behaviour: Boost.JSON's verdicts on what it was fed, `parseIRFile`, `evaluate`, `rows_amount`, `basic_padding`, `profiling_assignment_table`, the marshalling encoder and its status, and `is_satisfied`.
- `desc.rows_amount`, the row count `basic_padding` returns: it is stored and never read, so only the padded table is kept.
- Stream machinery and diagnostics: the text written to standard output and standard error, the `setfill('0')` and `std::right` settings that `print_hex_byteblob` leaves on the stream (its `std::hex` is undone by the `std::dec` at main.cpp:67, and `setw(2)` is reset by each insertion), flushing, and `close`. Each output write is modelled as the whole text written to a freshly opened (truncated) file.
- Paths that name the input file, or other files than the two outputs: `Files` models only the two output paths, including the case where they are the same path, and not what writing them does to the public-input or bytecode file.
- I/O errors while reading: the input file is a sequence of bytes that reads without error, and `FeedInputFile`'s termination proof rests on that. In the source, a `read` that fails before end of file (for instance on a `-i` path that opens but cannot be read, such as a directory on Linux) sets failbit or badbit but never eofbit; every later `read` then returns nothing, `write("")` succeeds, and the `while (!input_file.eof())` loop at main.cpp:105 never exits.
- `print_hex_byteblob` for element types wider than a byte: `print_circuit`, its only caller, passes bytes, and wider values would print more than two digits.
- The curve type parameter of `curve_dependent_main`: only pallas reaches the pipeline, and the libraries for each arithmetization instance are given by `libsFor`.
- `ASSERT_MSG` comes from `nil/blueprint/asserts.hpp`, which is not part of this model; it is taken to abort exactly when `assert` does.
