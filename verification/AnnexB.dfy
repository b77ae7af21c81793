/** The byte stream format of H.264 and H.265 Annex B, and what prepending SEI units does to it. */
module AnnexB {
  import opened Common
  import opened SeiCodec

  const START_CODE: seq<byte> := [0, 0, 0, 1]

  /** The packets that are recognised as a byte stream. */
  predicate IsAnnexB(packet: seq<byte>) {
    |packet| >= 3 && packet[0] == 0 && packet[1] == 0 &&
    (packet[2] == 1 || (|packet| >= 4 && packet[2] == 0 && packet[3] == 1))
  }

  // ----- The parser of Annex B.2, written from the standard

  /** Length of the NAL unit at the front: it ends before 00 00 00, before 00 00 01 or with the stream. */
  function NalLength(s: seq<byte>): (n: nat)
    ensures n <= |s|
  {
    if s == [] || (|s| >= 3 && s[0] == 0 && s[1] == 0 && s[2] <= 1) then 0
    else 1 + NalLength(s[1..])
  }

  /** The NAL units of a byte stream, in order. */
  function Nals(s: seq<byte>): seq<seq<byte>> {
    if |s| < 3 then []
    else if s[0] == 0 && s[1] == 0 && s[2] == 1 then
      var n := NalLength(s[3..]);
      [s[3..][..n]] + Nals(s[3..][n..])
    else Nals(s[1..])
  }

  // ----- Prepending SEI NAL units

  /** The units, each behind a start code. */
  function Stream(units: seq<seq<byte>>): seq<byte> {
    if units == [] then [] else START_CODE + units[0] + Stream(units[1..])
  }

  function SeiUnits(codec: Codec, payloads: seq<seq<byte>>): (units: seq<seq<byte>>)
    ensures |units| == |payloads|
  {
    seq(|payloads|, i requires 0 <= i < |payloads| => Nal(codec, payloads[i]))
  }

  method AnnexBNal(codec: Codec, payload: seq<byte>) returns (unit: seq<byte>)
    ensures unit == START_CODE + Nal(codec, payload)
  {
    if codec.Hevc? {
      unit := BuildHevcSei(payload);
    } else {
      unit := BuildH264Sei(payload);
    }
    unit := [0, 0, 0, 1] + unit;
  }

  lemma {:induction false} StreamAppend(units: seq<seq<byte>>, last: seq<byte>)
    ensures Stream(units + [last]) == Stream(units) + (START_CODE + last)
  {
    if units == [] {
      assert (units + [last])[1..] == [];
    } else {
      StreamAppend(units[1..], last);
      assert (units + [last])[1..] == units[1..] + [last];
    }
  }

  lemma {:induction false} NalLengthExact(nal: seq<byte>, rest: seq<byte>)
    requires EmulationFree(nal) && (nal != [] ==> nal[|nal| - 1] != 0)
    requires IsAnnexB(rest)
    ensures NalLength(nal + rest) == |nal|
    decreases |nal|
  {
    if nal == [] {
      assert nal + rest == rest;
    } else {
      var s := nal + rest;
      assert s[1..] == nal[1..] + rest;
      assert EmulationFree(nal[1..]) by {
        forall i | 0 <= i < |nal[1..]| - 2 && nal[1..][i] == 0 && nal[1..][i + 1] == 0
          ensures nal[1..][i + 2] > 2
        {
          assert nal[i + 1] == 0 && nal[i + 1 + 1] == 0;
        }
      }
      NalLengthExact(nal[1..], rest);
      if |nal| >= 3 && nal[0] == 0 && nal[0 + 1] == 0 {
        assert nal[0 + 2] > 2;
      }
    }
  }

  /** A start code and a delimitable unit parse as that unit, whatever byte stream follows. */
  lemma NalsOfUnit(nal: seq<byte>, rest: seq<byte>)
    requires Delimitable(nal) && IsAnnexB(rest)
    ensures Nals(START_CODE + nal + rest) == [nal] + Nals(rest)
  {
    var s := START_CODE + nal + rest;
    assert s[1..] == [0, 0, 1] + (nal + rest);
    assert s[1..][3..] == nal + rest;
    NalLengthExact(nal, rest);
    assert (nal + rest)[..|nal|] == nal && (nal + rest)[|nal|..] == rest;
    assert Nals(s) == Nals(s[1..]);
  }

  /** Prepending delimitable units adds exactly those units and leaves the units of the packet alone. */
  lemma {:induction false} PrependPreservesNals(units: seq<seq<byte>>, packet: seq<byte>)
    requires IsAnnexB(packet)
    requires forall unit :: unit in units ==> Delimitable(unit)
    ensures IsAnnexB(Stream(units) + packet)
    ensures Nals(Stream(units) + packet) == units + Nals(packet)
    decreases |units|
  {
    if units == [] {
      assert Stream(units) + packet == packet;
    } else {
      var rest := Stream(units[1..]) + packet;
      PrependPreservesNals(units[1..], packet);
      assert Stream(units) + packet == START_CODE + units[0] + rest;
      NalsOfUnit(units[0], rest);
      assert units == [units[0]] + units[1..];
    }
  }

  /**
   A replacement carries payloads in front of a packet: it parses as one unit for each payload, in
   order and decoding to that payload, and then exactly the units of the packet, whose bytes are unchanged.
   */
  ghost predicate CarriesInFront(replacement: seq<byte>, codec: Codec, payloads: seq<seq<byte>>, packet: seq<byte>) {
    var units := Nals(replacement);
    && |units| == |payloads| + |Nals(packet)|
    && units[|payloads|..] == Nals(packet)
    && |packet| <= |replacement| && replacement[|replacement| - |packet|..] == packet
    && forall k :: 0 <= k < |payloads| ==> DecodeSei(codec, units[k]) == Some(payloads[k])
  }

  /** What is injected disturbs nothing: a receiver reads every payload and the packet back. */
  lemma InjectionPreservesNals(codec: Codec, payloads: seq<seq<byte>>, packet: seq<byte>)
    requires IsAnnexB(packet)
    ensures CarriesInFront(Stream(SeiUnits(codec, payloads)) + packet, codec, payloads, packet)
  {
    var sei := SeiUnits(codec, payloads);
    forall unit | unit in sei
      ensures Delimitable(unit)
    {
      var i :| 0 <= i < |sei| && sei[i] == unit;
      NalIsDelimitable(codec, payloads[i]);
    }
    PrependPreservesNals(sei, packet);
    forall k | 0 <= k < |payloads|
      ensures DecodeSei(codec, sei[k]) == Some(payloads[k])
    {
      SeiRoundTrip(codec, payloads[k]);
    }
  }
}
