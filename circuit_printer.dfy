/**
 * `print_circuit`: the constraint system is marshalled by a foreign encoder
 * into a zero-filled buffer whose size the encoder itself reports, the write
 * status is ignored, and the buffer is printed as a hex byte blob without a
 * trailing newline.
 */
module CircuitPrinter {
  import opened Wrappers
  import opened Bytes
  import HexBlob
  import opened Numbers

  /** Write status reported by the foreign marshalling `write`. */
  datatype MarshallingStatus = Success | Failure

  /**
   * What the foreign encoder `fill_plonk_constraint_system` yields: the
   * buffer length it asks for (`length()`), the bytes its `write` stores
   * from the start of the buffer, and the status `write` returns.
   */
  datatype FilledValue = FilledValue(length: nat, written: seq<byte>, status: MarshallingStatus)

  /**
   * The buffer after `write`: the stored bytes (at most the buffer's size),
   * then the zeros `resize(length, 0x00)` put there.
   */
  function WriteBuffer(filled: FilledValue): (cv: seq<byte>)
    ensures |cv| == filled.length
    ensures forall i :: 0 <= i < |cv| ==>
      cv[i] == if i < |filled.written| then filled.written[i] else 0
  {
    var k := Min(|filled.written|, filled.length);
    filled.written[..k] + seq(filled.length - k, _ => 0)
  }

  /** The text `print_circuit` sends to its output stream. */
  function CircuitText(filled: FilledValue): (text: string)
    ensures |text| == 2 + 2 * filled.length
    ensures HexBlob.DecodeByteBlob(text) == Some(WriteBuffer(filled))
  {
    HexBlob.ByteBlobShape(WriteBuffer(filled), false);
    HexBlob.ByteBlobRoundTrip(WriteBuffer(filled), false);
    HexBlob.ByteBlob(WriteBuffer(filled), false)
  }

  /**
   * `print_circuit(circuit, out)` for a freshly opened stream: allocate the
   * zeroed buffer, let the encoder write into it, ignore the status, print the
   * buffer with `endl = false`.
   */
  method PrintCircuit(filled: FilledValue) returns (text: string)
    ensures |text| == 2 + 2 * filled.length
    ensures HexBlob.DecodeByteBlob(text) == Some(WriteBuffer(filled))
    ensures text == CircuitText(filled)
  {
    var cv := new byte[filled.length](_ => 0);
    var k := Min(|filled.written|, filled.length);
    forall i | 0 <= i < k {
      cv[i] := filled.written[i];
    }
    var status := filled.status;
    assert cv[..] == WriteBuffer(filled);
    text := HexBlob.PrintHexByteBlob("", cv[..], false);
    assert text == HexBlob.ByteBlob(cv[..], false);
    HexBlob.ByteBlobShape(cv[..], false);
    HexBlob.ByteBlobRoundTrip(cv[..], false);
  }

  /**
   * When the encoder fills the buffer it sized, the printed circuit decodes
   * to exactly the encoder's bytes, whatever status it reported.
   */
  lemma CircuitTextRoundTrip(filled: FilledValue)
    requires |filled.written| == filled.length
    ensures HexBlob.DecodeByteBlob(CircuitText(filled)) == Some(filled.written)
  {
    assert WriteBuffer(filled) == filled.written;
    HexBlob.ByteBlobRoundTrip(filled.written, false);
  }

  /**
   * When the encoder stops early, the unwritten tail of the buffer is printed
   * as "00" pairs: the ignored status lets zero bytes through as if encoded.
   */
  lemma {:induction false} ShortWritePrintsZeros(filled: FilledValue, i: nat)
    requires |filled.written| <= i < filled.length
    ensures CircuitText(filled)[2 + 2 * i..4 + 2 * i] == "00"
  {
    var cv := WriteBuffer(filled);
    HexBlob.HexDigitsAt(cv, i);
    assert CircuitText(filled)[2 + 2 * i..4 + 2 * i] == HexBlob.HexDigits(cv)[2 * i..2 * i + 2];
  }
}
