/**
 SEI message framing (H.264 section 7.3.2.3.1, H.265 section 7.3.5) and emulation
 prevention (H.264 section 7.4.1, H.265 section 7.3.1.1) of the metadata NAL units.
 */
module SeiCodec {
  import opened Common

  datatype Codec = H264 | Hevc

  /** payload_type_100 of the injected message and the RBSP stop byte. */
  const PAYLOAD_TYPE := 100
  const STOP_BYTE: byte := 0x80

  /** The ff_byte coding of a payload type or payload size. */
  function SizeBytes(size: nat): seq<byte> {
    if size < 255 then [size] else [255] + SizeBytes(size - 255)
  }

  /** Emulation prevention, given the number of zero bytes just written. */
  function Escape(data: seq<byte>, zeros: nat): seq<byte> {
    if data == [] then []
    else if zeros >= 2 && data[0] <= 3 then [3, data[0]] + Escape(data[1..], NextZeros(data[0], 0))
    else [data[0]] + Escape(data[1..], NextZeros(data[0], zeros))
  }

  function NextZeros(b: byte, zeros: nat): nat {
    if b == 0 then zeros + 1 else 0
  }

  function Header(codec: Codec): seq<byte> {
    if codec.Hevc? then [0x4e, 0x01] else [0x06]
  }

  function Rbsp(payload: seq<byte>): seq<byte> {
    SizeBytes(PAYLOAD_TYPE) + SizeBytes(|payload|) + payload + [STOP_BYTE]
  }

  /** The SEI NAL unit that carries a payload. */
  function Nal(codec: Codec, payload: seq<byte>): seq<byte> {
    Header(codec) + Escape(Rbsp(payload), 0)
  }

  // ----- The loops of the encoder

  method SeiSizeBytes(size: nat) returns (result: seq<byte>)
    ensures result == SizeBytes(size)
  {
    result := [];
    var left := size;
    while left >= 255
      invariant 0 <= left && result + SizeBytes(left) == SizeBytes(size)
    {
      assert result + SizeBytes(left) == result + [255] + SizeBytes(left - 255);
      result := result + [255];
      left := left - 255;
    }
    result := result + [left];
  }

  lemma EscapeFrom(data: seq<byte>, i: nat, zeros: nat)
    requires i < |data|
    ensures var guarded := zeros >= 2 && data[i] <= 3;
            Escape(data[i..], zeros) ==
            (if guarded then [3, data[i]] else [data[i]]) +
            Escape(data[i + 1..], NextZeros(data[i], if guarded then 0 else zeros))
  {
    assert data[i..][0] == data[i] && data[i..][1..] == data[i + 1..];
  }

  method EscapeRbsp(data: seq<byte>) returns (result: seq<byte>)
    ensures result == Escape(data, 0)
  {
    result := [];
    var zeros := 0;
    for i := 0 to |data|
      invariant 0 <= zeros
      invariant result + Escape(data[i..], zeros) == Escape(data, 0)
    {
      EscapeFrom(data, i, zeros);
      var b := data[i];
      if zeros >= 2 && b <= 3 {
        result := result + [3];
        zeros := 0;
      }
      result := result + [b];
      zeros := if b == 0 then zeros + 1 else 0;
    }
  }

  method BuildH264Sei(payload: seq<byte>) returns (nal: seq<byte>)
    ensures nal == Nal(H264, payload)
  {
    var kind := SeiSizeBytes(PAYLOAD_TYPE);
    var size := SeiSizeBytes(|payload|);
    var body := EscapeRbsp(kind + size + payload + [STOP_BYTE]);
    nal := [0x06] + body;
  }

  method BuildHevcSei(payload: seq<byte>) returns (nal: seq<byte>)
    ensures nal == Nal(Hevc, payload)
  {
    var kind := SeiSizeBytes(PAYLOAD_TYPE);
    var size := SeiSizeBytes(|payload|);
    var body := EscapeRbsp(kind + size + payload + [STOP_BYTE]);
    nal := [0x4e, 0x01] + body;
  }

  // ----- The decoder, written from the standards

  /** Drops every emulation prevention byte. */
  function Unescape(data: seq<byte>, zeros: nat): seq<byte> {
    if data == [] then []
    else if zeros >= 2 && data[0] == 3 then Unescape(data[1..], 0)
    else [data[0]] + Unescape(data[1..], NextZeros(data[0], zeros))
  }

  /** An ff_byte coded value and the bytes behind it. */
  function ReadFf(data: seq<byte>): Option<(nat, seq<byte>)> {
    if data == [] then None
    else if data[0] == 255 then
      match ReadFf(data[1..])
      case None => None
      case Some((value, rest)) => Some((255 + value, rest))
    else Some((data[0], data[1..]))
  }

  /**
   The bytes behind the header of an SEI NAL unit: nal_unit_type is 6 in H.264 (section 7.3.1), and 39, a
   prefix SEI, in H.265, where the header has a second byte for layer 0 and the lowest temporal sub-layer
   (section 7.3.1.2).
   */
  function SeiBody(codec: Codec, nal: seq<byte>): Option<seq<byte>> {
    if codec.H264? then
      if |nal| > 1 && nal[0] / 128 == 0 && nal[0] % 32 == 6 then Some(nal[1..]) else None
    else
      if |nal| > 2 && nal[0] / 128 == 0 && nal[0] / 2 == 39 && nal[0] % 2 == 0 && nal[1] == 1 then Some(nal[2..])
      else None
  }

  /** The payload of an SEI NAL unit that holds one message, of payload type 100, and the stop bit. */
  function DecodeSei(codec: Codec, nal: seq<byte>): Option<seq<byte>> {
    match SeiBody(codec, nal)
    case None => None
    case Some(escaped) =>
      match ReadFf(Unescape(escaped, 0))
      case None => None
      case Some((kind, sized)) =>
        match ReadFf(sized)
        case None => None
        case Some((size, body)) =>
          if kind == 100 && size <= |body| && body[size..] == [0x80] then Some(body[..size]) else None
  }

  // ----- Round trip

  lemma {:induction false} UnescapeEscape(data: seq<byte>, zeros: nat)
    ensures Unescape(Escape(data, zeros), zeros) == data
    decreases |data|
  {
    if data != [] {
      var guarded := zeros >= 2 && data[0] <= 3;
      var after := NextZeros(data[0], if guarded then 0 else zeros);
      UnescapeEscape(data[1..], after);
      if guarded {
        var tail := [data[0]] + Escape(data[1..], after);
        assert Escape(data, zeros) == [3] + tail;
        assert Unescape(tail, 0) == [data[0]] + Unescape(tail[1..], after);
      }
    }
  }

  lemma {:induction false} ReadFfSizeBytes(size: nat, rest: seq<byte>)
    ensures ReadFf(SizeBytes(size) + rest) == Some((size, rest))
  {
    if size >= 255 {
      ReadFfSizeBytes(size - 255, rest);
      assert (SizeBytes(size) + rest)[1..] == SizeBytes(size - 255) + rest;
    }
  }

  /** Every payload survives encoding, for either codec. */
  lemma SeiRoundTrip(codec: Codec, payload: seq<byte>)
    ensures DecodeSei(codec, Nal(codec, payload)) == Some(payload)
  {
    var nal, sized := Nal(codec, payload), payload + [STOP_BYTE];
    var rest := SizeBytes(|payload|) + sized;
    assert nal[|Header(codec)|..] == Escape(Rbsp(payload), 0);
    EscapeNonEmpty(Rbsp(payload), 0);
    assert SeiBody(codec, nal) == Some(Escape(Rbsp(payload), 0));
    UnescapeEscape(Rbsp(payload), 0);
    assert Rbsp(payload) == SizeBytes(PAYLOAD_TYPE) + rest;
    ReadFfSizeBytes(PAYLOAD_TYPE, rest);
    ReadFfSizeBytes(|payload|, sized);
  }

  lemma EscapeNonEmpty(data: seq<byte>, zeros: nat)
    requires data != []
    ensures Escape(data, zeros) != []
  {
  }

  // ----- Emulation freedom

  /** No 00 00 00, 00 00 01 or 00 00 02 anywhere. */
  ghost predicate EmulationFree(s: seq<byte>) {
    forall i :: 0 <= i < |s| - 2 && s[i] == 0 && s[i + 1] == 0 ==> s[i + 2] > 2
  }

  /** EmulationFree for a byte string that follows `zeros` zero bytes. */
  ghost predicate FreeAfter(s: seq<byte>, zeros: nat) {
    s != [] ==> (zeros >= 2 ==> s[0] > 2) && FreeAfter(s[1..], NextZeros(s[0], zeros))
  }

  lemma {:induction false} EscapeIsFree(data: seq<byte>, zeros: nat)
    ensures FreeAfter(Escape(data, zeros), zeros)
    decreases |data|
  {
    if data != [] {
      var guarded := zeros >= 2 && data[0] <= 3;
      var after := NextZeros(data[0], if guarded then 0 else zeros);
      EscapeIsFree(data[1..], after);
      var tail := [data[0]] + Escape(data[1..], after);
      assert tail[1..] == Escape(data[1..], after);
      if guarded {
        assert Escape(data, zeros)[1..] == tail;
        assert FreeAfter(tail, 0);
      }
    }
  }

  lemma {:induction false} FreeAt(s: seq<byte>, zeros: nat, i: nat)
    requires FreeAfter(s, zeros) && i < |s| - 2 && s[i] == 0 && s[i + 1] == 0
    ensures s[i + 2] > 2
    decreases i
  {
    var z := NextZeros(s[0], zeros);
    if i > 0 {
      FreeAt(s[1..], z, i - 1);
    } else {
      assert FreeAfter(s[1..], z) && FreeAfter(s[1..][1..], z + 1);
      assert s[1..][1..][0] == s[2];
    }
  }

  lemma {:induction false} EscapeKeepsStop(data: seq<byte>, zeros: nat)
    ensures Escape(data + [STOP_BYTE], zeros) == Escape(data, zeros) + [STOP_BYTE]
    decreases |data|
  {
    if data == [] {
      assert (data + [STOP_BYTE])[1..] == [];
    } else {
      var guarded := zeros >= 2 && data[0] <= 3;
      var after := NextZeros(data[0], if guarded then 0 else zeros);
      assert (data + [STOP_BYTE])[1..] == data[1..] + [STOP_BYTE];
      EscapeKeepsStop(data[1..], after);
    }
  }

  /** What a byte-stream parser needs of a NAL unit so that it can find its end. */
  ghost predicate Delimitable(nal: seq<byte>) {
    EmulationFree(nal) && nal != [] && nal[|nal| - 1] != 0
  }

  /** Every injected NAL unit is emulation free and ends in the RBSP stop byte. */
  lemma NalIsDelimitable(codec: Codec, payload: seq<byte>)
    ensures Delimitable(Nal(codec, payload))
    ensures Nal(codec, payload)[|Nal(codec, payload)| - 1] == STOP_BYTE
  {
    var nal, body := Nal(codec, payload), Escape(Rbsp(payload), 0);
    EscapeIsFree(Rbsp(payload), 0);
    if codec.Hevc? {
      assert nal[1..] == [0x01] + body && nal[1..][1..] == body;
      assert FreeAfter(nal[1..], 0);
    } else {
      assert nal[1..] == body;
    }
    assert FreeAfter(nal, 0);
    forall i | 0 <= i < |nal| - 2 && nal[i] == 0 && nal[i + 1] == 0
      ensures nal[i + 2] > 2
    {
      FreeAt(nal, 0, i);
    }
    var message := SizeBytes(PAYLOAD_TYPE) + SizeBytes(|payload|) + payload;
    assert Rbsp(payload) == message + [STOP_BYTE];
    EscapeKeepsStop(message, 0);
  }
}
