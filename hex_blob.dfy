/**
 * The hex byte-blob printer `print_hex_byteblob`: a byte range is written as
 * "0x" followed by two lowercase, zero-padded hexadecimal digits per byte, with
 * no separators, and an optional line terminator.
 *
 * `ByteBlob` is the specification of the text the printer emits,
 * `PrintHexByteBlob` is the printer's loop, and `DecodeByteBlob` reads the text
 * back, which shows that the fixed two-character width makes the output
 * decodable.
 */
module HexBlob {
  import opened Wrappers
  import opened Bytes

  const Prefix: string := "0x"

  predicate IsLowerHexDigit(c: char) {
    '0' <= c <= '9' || 'a' <= c <= 'f'
  }

  /** Value of a lowercase hexadecimal digit. */
  function DigitValue(c: char): (d: nat)
    requires IsLowerHexDigit(c)
    ensures d < 16
  {
    if c <= '9' then c as int - '0' as int else c as int - 'a' as int + 10
  }

  /** The digit `std::hex` prints for a value below sixteen. */
  function HexDigit(d: nat): (c: char)
    requires d < 16
    ensures IsLowerHexDigit(c) && DigitValue(c) == d
  {
    if d < 10 then ('0' as int + d) as char else ('a' as int + d - 10) as char
  }

  /** Every lowercase digit is printed for exactly one value. */
  lemma HexDigitOfValue(c: char)
    requires IsLowerHexDigit(c)
    ensures HexDigit(DigitValue(c)) == c
  {
  }

  /**
   * One byte under `std::setfill('0') << std::setw(2) << std::right` in hex
   * mode: exactly two lowercase digits, high nibble first, zero-padded.
   */
  function HexByte(b: byte): (s: string)
    ensures |s| == 2 && IsLowerHexDigit(s[0]) && IsLowerHexDigit(s[1])
    ensures DigitValue(s[0]) * 16 + DigitValue(s[1]) == b as int
  {
    [HexDigit(b as int / 16), HexDigit(b as int % 16)]
  }

  /** The digits printed for a whole byte range, two per byte. */
  function HexDigits(bytes: seq<byte>): (s: string)
    ensures |s| == 2 * |bytes|
    ensures forall i :: 0 <= i < |s| ==> IsLowerHexDigit(s[i])
  {
    if bytes == [] then [] else HexByte(bytes[0]) + HexDigits(bytes[1..])
  }

  /** The whole text `print_hex_byteblob` writes to its stream. */
  function ByteBlob(bytes: seq<byte>, endl: bool): (s: string)
    ensures |s| == 2 + 2 * |bytes| + (if endl then 1 else 0)
    ensures s[..2] == Prefix
  {
    Prefix + HexDigits(bytes) + (if endl then "\n" else "")
  }

  /**
   * `print_hex_byteblob(os, begin, end, endl)`: appends to the text already in
   * the stream `os` the prefix, then one two-digit group per byte in order,
   * then a newline when `endl` holds.
   */
  method PrintHexByteBlob(os: string, bytes: seq<byte>, endl: bool) returns (out: string)
    ensures out == os + ByteBlob(bytes, endl)
  {
    out := os + Prefix;
    for i := 0 to |bytes|
      invariant out == os + Prefix + HexDigits(bytes[..i])
    {
      assert bytes[..i + 1] == bytes[..i] + [bytes[i]];
      HexDigitsAppend(bytes[..i], [bytes[i]]);
      out := out + HexByte(bytes[i]);
    }
    assert bytes[..|bytes|] == bytes;
    if endl {
      out := out + "\n";
    }
  }

  /** The digits of a concatenation are the concatenation of the digits. */
  lemma {:induction false} HexDigitsAppend(a: seq<byte>, b: seq<byte>)
    ensures HexDigits(a + b) == HexDigits(a) + HexDigits(b)
  {
    if a != [] {
      assert (a + b)[1..] == a[1..] + b;
      HexDigitsAppend(a[1..], b);
    } else {
      assert a + b == b;
    }
  }

  /** The i-th byte occupies exactly characters 2i and 2i+1: fixed width, no separators. */
  lemma {:induction false} HexDigitsAt(bytes: seq<byte>, i: nat)
    requires i < |bytes|
    ensures HexDigits(bytes)[2 * i..2 * i + 2] == HexByte(bytes[i])
  {
    if i > 0 {
      HexDigitsAt(bytes[1..], i - 1);
      assert HexDigits(bytes) == HexByte(bytes[0]) + HexDigits(bytes[1..]);
    }
  }

  /**
   * Shape of the printed text: length 2 + 2n (plus one for the newline), the
   * "0x" prefix, lowercase digits after it, and a final newline exactly when
   * `endl` holds.
   */
  lemma ByteBlobShape(bytes: seq<byte>, endl: bool)
    ensures var s := ByteBlob(bytes, endl);
      && |s| == 2 + 2 * |bytes| + (if endl then 1 else 0)
      && s[..2] == Prefix
      && (forall i :: 2 <= i < 2 + 2 * |bytes| ==> IsLowerHexDigit(s[i]))
      && (s[|s| - 1] == '\n' <==> endl)
  {
  }

  /** The examples of the printer's contract: an empty range prints only the prefix. */
  lemma ByteBlobExamples()
    ensures ByteBlob([], false) == "0x"
    ensures ByteBlob([0x00, 0xab, 0xff], false) == "0x00abff"
    ensures ByteBlob([0x0f], true) == "0x0f\n"
  {
  }

  /** Two lowercase digits are the printing of the byte they denote. */
  lemma HexByteOfDigits(hi: char, lo: char)
    requires IsLowerHexDigit(hi) && IsLowerHexDigit(lo)
    ensures HexByte((DigitValue(hi) * 16 + DigitValue(lo)) as byte) == [hi, lo]
  {
    var h, l := DigitValue(hi), DigitValue(lo);
    assert (h * 16 + l) / 16 == h && (h * 16 + l) % 16 == l;
    HexDigitOfValue(hi);
    HexDigitOfValue(lo);
  }

  /** Reads a run of digit pairs back into bytes; `None` on an odd length or a non-digit. */
  function DecodeHexDigits(s: string): Option<seq<byte>>
    decreases |s|
  {
    if s == [] then Some([])
    else if |s| < 2 || !IsLowerHexDigit(s[0]) || !IsLowerHexDigit(s[1]) then None
    else
      match DecodeHexDigits(s[2..])
      case None => None
      case Some(rest) => Some([(DigitValue(s[0]) * 16 + DigitValue(s[1])) as byte] + rest)
  }

  /** Reads printed text back: the prefix, digit pairs, and an optional final newline. */
  function DecodeByteBlob(s: string): Option<seq<byte>>
  {
    if |s| < 2 || s[..2] != Prefix then None
    else if |s| > 2 && s[|s| - 1] == '\n' then DecodeHexDigits(s[2..|s| - 1])
    else DecodeHexDigits(s[2..])
  }

  /** Reading the digits two at a time recovers the bytes exactly. */
  lemma {:induction false} DecodeHexDigitsRoundTrip(bytes: seq<byte>)
    ensures DecodeHexDigits(HexDigits(bytes)) == Some(bytes)
  {
    if bytes != [] {
      var s := HexDigits(bytes);
      assert s[2..] == HexDigits(bytes[1..]);
      DecodeHexDigitsRoundTrip(bytes[1..]);
      assert [bytes[0]] + bytes[1..] == bytes;
    }
  }

  /** Only printed digit runs decode: whatever decodes is the printing of its result. */
  lemma {:induction false} DecodeHexDigitsCanonical(s: string, bytes: seq<byte>)
    requires DecodeHexDigits(s) == Some(bytes)
    ensures HexDigits(bytes) == s
  {
    if s != [] {
      var rest := DecodeHexDigits(s[2..]).value;
      DecodeHexDigitsCanonical(s[2..], rest);
      var b := (DigitValue(s[0]) * 16 + DigitValue(s[1])) as byte;
      assert bytes == [b] + rest;
      assert bytes[1..] == rest;
      HexByteOfDigits(s[0], s[1]);
      assert HexByte(b) == s[..2];
      assert s == s[..2] + s[2..];
    }
  }

  /** The printed text, with or without its newline, decodes to the printed bytes. */
  lemma ByteBlobRoundTrip(bytes: seq<byte>, endl: bool)
    ensures DecodeByteBlob(ByteBlob(bytes, endl)) == Some(bytes)
  {
    var s := ByteBlob(bytes, endl);
    ByteBlobShape(bytes, endl);
    DecodeHexDigitsRoundTrip(bytes);
    if endl {
      assert s[2..|s| - 1] == HexDigits(bytes);
    } else {
      assert s[2..] == HexDigits(bytes);
    }
  }

  /** Decoding accepts nothing but printed text: a decoded string is the printing of its bytes. */
  lemma DecodeByteBlobCanonical(s: string, bytes: seq<byte>)
    requires DecodeByteBlob(s) == Some(bytes)
    ensures s == ByteBlob(bytes, false) || s == ByteBlob(bytes, true)
  {
    var endl := |s| > 2 && s[|s| - 1] == '\n';
    var body := s[2..];
    if endl {
      body := s[2..|s| - 1];
    }
    assert DecodeHexDigits(body) == Some(bytes);
    DecodeHexDigitsCanonical(body, bytes);
    SplitBlob(s, endl);
  }

  /** A text with the prefix (and the final newline, when asked) is the prefix, the middle, and the newline. */
  lemma SplitBlob(s: string, endl: bool)
    requires |s| >= 2 + (if endl then 1 else 0) && s[..2] == Prefix
    requires endl ==> s[|s| - 1] == '\n'
    ensures s == Prefix + s[2..|s| - (if endl then 1 else 0)] + (if endl then "\n" else "")
  {
  }

}
