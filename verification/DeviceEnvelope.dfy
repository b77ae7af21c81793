/** The envelope around a compressed device registration: padding, substitution, and keyed blocks. */
module DeviceEnvelope {
  import opened Common
  import opened Substitution

  const BLOCK_BYTES := 16

  /** Four words; the fixed registration key yields one such key, and nothing here depends on which. */
  datatype Key = Key(k0: bv32, k1: bv32, k2: bv32, k3: bv32)

  // ----- Words

  function RotateLeft(value: bv32, amount: bv32): bv32
    requires amount <= 32
  {
    (value << amount) | (value >> (32 - amount))
  }

  function ReadBe32(b0: bv8, b1: bv8, b2: bv8, b3: bv8): bv32 {
    ((b0 as bv32) << 24) | ((b1 as bv32) << 16) | ((b2 as bv32) << 8) | (b3 as bv32)
  }

  function Be32(value: bv32): (bytes: seq<bv8>)
    ensures |bytes| == 4
  {
    [((value >> 24) & 0xff) as bv8, ((value >> 16) & 0xff) as bv8, ((value >> 8) & 0xff) as bv8, (value & 0xff) as bv8]
  }

  lemma Be32Reads(value: bv32)
    ensures ReadBe32(Be32(value)[0], Be32(value)[1], Be32(value)[2], Be32(value)[3]) == value
  {
  }

  lemma ByteOfWord(b0: bv8, b1: bv8, b2: bv8, b3: bv8)
    ensures var w := ReadBe32(b0, b1, b2, b3);
            && ((w >> 24) & 0xff) as bv8 == b0 && ((w >> 16) & 0xff) as bv8 == b1
            && ((w >> 8) & 0xff) as bv8 == b2 && (w & 0xff) as bv8 == b3
  {
  }

  lemma ReadsBe32(b0: bv8, b1: bv8, b2: bv8, b3: bv8)
    ensures Be32(ReadBe32(b0, b1, b2, b3)) == [b0, b1, b2, b3]
  {
    ByteOfWord(b0, b1, b2, b3);
  }

  // ----- Blocks

  datatype Words = Words(w0: bv32, w1: bv32, w2: bv32, w3: bv32)

  function WordsOf(block: seq<bv8>): Words
    requires |block| == BLOCK_BYTES
  {
    Words(ReadBe32(block[0], block[1], block[2], block[3]), ReadBe32(block[4], block[5], block[6], block[7]),
          ReadBe32(block[8], block[9], block[10], block[11]), ReadBe32(block[12], block[13], block[14], block[15]))
  }

  function BytesOf(w: Words): (bytes: seq<bv8>)
    ensures |bytes| == BLOCK_BYTES
  {
    Be32(w.w0) + Be32(w.w1) + Be32(w.w2) + Be32(w.w3)
  }

  /** The words of a block are rotated by 0 to 3 bytes and masked with the key. */
  function EncryptWords(w: Words, key: Key): Words {
    Words(w.w0 ^ key.k0, RotateLeft(w.w1, 8) ^ key.k1, RotateLeft(w.w2, 16) ^ key.k2, RotateLeft(w.w3, 24) ^ key.k3)
  }

  function DecryptWords(w: Words, key: Key): Words {
    Words(w.w0 ^ key.k0, RotateLeft(w.w1 ^ key.k1, 24), RotateLeft(w.w2 ^ key.k2, 16), RotateLeft(w.w3 ^ key.k3, 8))
  }

  lemma MaskTwice(value: bv32, key: bv32)
    ensures (value ^ key) ^ key == value
  {
  }

  lemma RotateBack8(value: bv32)
    ensures RotateLeft(RotateLeft(value, 8), 24) == value
  {
  }

  lemma RotateBack16(value: bv32)
    ensures RotateLeft(RotateLeft(value, 16), 16) == value
  {
  }

  lemma RotateBack24(value: bv32)
    ensures RotateLeft(RotateLeft(value, 24), 8) == value
  {
  }

  lemma SecondWord(value: bv32, key: bv32)
    ensures RotateLeft((RotateLeft(value, 8) ^ key) ^ key, 24) == value
  {
    MaskTwice(RotateLeft(value, 8), key);
    RotateBack8(value);
  }

  lemma ThirdWord(value: bv32, key: bv32)
    ensures RotateLeft((RotateLeft(value, 16) ^ key) ^ key, 16) == value
  {
    MaskTwice(RotateLeft(value, 16), key);
    RotateBack16(value);
  }

  lemma FourthWord(value: bv32, key: bv32)
    ensures RotateLeft((RotateLeft(value, 24) ^ key) ^ key, 8) == value
  {
    MaskTwice(RotateLeft(value, 24), key);
    RotateBack24(value);
  }

  lemma WordsRoundTrip(w: Words, key: Key)
    ensures DecryptWords(EncryptWords(w, key), key) == w
  {
    MaskTwice(w.w0, key.k0);
    SecondWord(w.w1, key.k1);
    ThirdWord(w.w2, key.k2);
    FourthWord(w.w3, key.k3);
  }

  lemma BytesOfWords(block: seq<bv8>)
    requires |block| == BLOCK_BYTES
    ensures BytesOf(WordsOf(block)) == block
  {
    ReadsBe32(block[0], block[1], block[2], block[3]);
    ReadsBe32(block[4], block[5], block[6], block[7]);
    ReadsBe32(block[8], block[9], block[10], block[11]);
    ReadsBe32(block[12], block[13], block[14], block[15]);
    assert block[..4] + block[4..8] + block[8..12] + block[12..] == block;
  }

  lemma WordsOfBytes(w: Words)
    ensures WordsOf(BytesOf(w)) == w
  {
    Be32Reads(w.w0);
    Be32Reads(w.w1);
    Be32Reads(w.w2);
    Be32Reads(w.w3);
  }

  /** Only whole blocks are encrypted. */
  function EncryptBlock(block: seq<bv8>, key: Key): seq<bv8> {
    if |block| != BLOCK_BYTES then block else BytesOf(EncryptWords(WordsOf(block), key))
  }

  function DecryptBlock(block: seq<bv8>, key: Key): seq<bv8> {
    if |block| != BLOCK_BYTES then block else BytesOf(DecryptWords(WordsOf(block), key))
  }

  lemma BlockRoundTrip(block: seq<bv8>, key: Key)
    requires |block| == BLOCK_BYTES
    ensures DecryptBlock(EncryptBlock(block, key), key) == block
  {
    WordsOfBytes(EncryptWords(WordsOf(block), key));
    WordsRoundTrip(WordsOf(block), key);
    BytesOfWords(block);
  }

  lemma OneBlockLess(size: int)
    requires size > 0 && size % BLOCK_BYTES == 0
    ensures size >= BLOCK_BYTES && (size - BLOCK_BYTES) % BLOCK_BYTES == 0
  {
  }

  /** Applies f to each block in turn. */
  function MapBlocks(data: seq<bv8>, f: seq<bv8> -> seq<bv8>): seq<bv8> {
    if |data| < BLOCK_BYTES then [] else f(data[..BLOCK_BYTES]) + MapBlocks(data[BLOCK_BYTES..], f)
  }

  /** g undoes f on every block. */
  ghost predicate Undoes(g: seq<bv8> -> seq<bv8>, f: seq<bv8> -> seq<bv8>) {
    forall block :: |block| == BLOCK_BYTES ==> |f(block)| == BLOCK_BYTES && g(f(block)) == block
  }

  lemma UndoesAt(g: seq<bv8> -> seq<bv8>, f: seq<bv8> -> seq<bv8>, block: seq<bv8>)
    requires Undoes(g, f) && |block| == BLOCK_BYTES
    ensures |f(block)| == BLOCK_BYTES && g(f(block)) == block
  {
  }

  lemma MapBlocksAhead(first: seq<bv8>, rest: seq<bv8>, g: seq<bv8> -> seq<bv8>)
    requires |first| == BLOCK_BYTES
    ensures MapBlocks(first + rest, g) == g(first) + MapBlocks(rest, g)
  {
    assert (first + rest)[..BLOCK_BYTES] == first && (first + rest)[BLOCK_BYTES..] == rest;
  }

  lemma {:induction false} MapBlocksRoundTrip(data: seq<bv8>, n: nat, f: seq<bv8> -> seq<bv8>, g: seq<bv8> -> seq<bv8>)
    requires |data| == n * BLOCK_BYTES && Undoes(g, f)
    ensures MapBlocks(MapBlocks(data, f), g) == data
    decreases n
  {
    if n > 0 {
      var block, rest := data[..BLOCK_BYTES], data[BLOCK_BYTES..];
      UndoesAt(g, f, block);
      MapBlocksAhead(f(block), MapBlocks(rest, f), g);
      MapBlocksRoundTrip(rest, n - 1, f, g);
      assert data == block + rest;
    }
  }

  function EncryptBlocks(data: seq<bv8>, key: Key): seq<bv8> {
    MapBlocks(data, block => EncryptBlock(block, key))
  }

  function DecryptBlocks(data: seq<bv8>, key: Key): seq<bv8> {
    MapBlocks(data, block => DecryptBlock(block, key))
  }

  lemma BlocksRoundTrip(data: seq<bv8>, key: Key)
    requires |data| % BLOCK_BYTES == 0
    ensures DecryptBlocks(EncryptBlocks(data, key), key) == data
  {
    forall block: seq<bv8> | |block| == BLOCK_BYTES
      ensures |EncryptBlock(block, key)| == BLOCK_BYTES && DecryptBlock(EncryptBlock(block, key), key) == block
    {
      BlockRoundTrip(block, key);
    }
    MapBlocksRoundTrip(data, |data| / BLOCK_BYTES, block => EncryptBlock(block, key),
                       block => DecryptBlock(block, key));
  }

  // ----- Padding and the envelope

  /** How many bytes are added; none when the length is a multiple of the block size. */
  function PadLength(size: nat): (n: nat)
    ensures n < BLOCK_BYTES && (size + n) % BLOCK_BYTES == 0
  {
    assert size == size / BLOCK_BYTES * BLOCK_BYTES + size % BLOCK_BYTES;
    if size % BLOCK_BYTES == 0 then 0 else BLOCK_BYTES - size % BLOCK_BYTES
  }

  lemma PaddingRoundTrip(n: nat)
    requires n < BLOCK_BYTES
    ensures (n as bv8) as int == n
  {
  }

  function Padded(data: seq<bv8>): seq<bv8> {
    data + seq(PadLength(|data|), _ => PadLength(|data|) as bv8)
  }

  function SubstituteAll(data: seq<bv8>): (r: seq<bv8>)
    ensures |r| == |data|
  {
    seq(|data|, i requires 0 <= i < |data| => Sbox0(data[i]))
  }

  function RestoreAll(data: seq<bv8>): (r: seq<bv8>)
    ensures |r| == |data|
  {
    seq(|data|, i requires 0 <= i < |data| => Sbox1(data[i]))
  }

  function Header(padding: bv8): (h: seq<bv8>)
    ensures |h| == 6
  {
    [0x74, 0x63, 3, padding, 0, 3]
  }

  function Envelope(gzip: seq<bv8>, key: Key): seq<bv8> {
    if gzip == [] then []
    else Header(PadLength(|gzip|) as bv8) + EncryptBlocks(SubstituteAll(Padded(gzip)), key)
  }

  /** The last n bytes all say how many they are. */
  predicate EndsInPadding(body: seq<bv8>, n: nat) {
    n < 16 && n <= |body| && forall i :: |body| - n <= i < |body| ==> body[i] as int == n
  }

  /**
   What a receiver does: check the fixed bytes of the header, undo the blocks and the substitution, and check
   and strip the padding the header names.
   */
  function Open(envelope: seq<bv8>, key: Key): Option<seq<bv8>> {
    if |envelope| < 6 || envelope[..3] != [0x74, 0x63, 0x03] || envelope[4..6] != [0x00, 0x03] then None
    else
      var body := RestoreAll(DecryptBlocks(envelope[6..], key));
      var padding := envelope[3] as int;
      if !EndsInPadding(body, padding) then None else Some(body[..|body| - padding])
  }

  /** Every compressed registration, of whatever length, is recovered from its envelope under any key. */
  lemma EnvelopeRoundTrip(gzip: seq<bv8>, key: Key)
    ensures Open(Envelope(gzip, key), key) == if gzip == [] then None else Some(gzip)
  {
    if gzip != [] {
      var n, hidden := PadLength(|gzip|), SubstituteAll(Padded(gzip));
      PaddingRoundTrip(n);
      BlocksRoundTrip(hidden, key);
      RestoreSubstituteAll(Padded(gzip));
      OpenParts(n as bv8, EncryptBlocks(hidden, key), Padded(gzip), key);
    }
  }

  lemma OpenParts(padding: bv8, blocks: seq<bv8>, body: seq<bv8>, key: Key)
    requires RestoreAll(DecryptBlocks(blocks, key)) == body && EndsInPadding(body, padding as int)
    ensures Open(Header(padding) + blocks, key) == Some(body[..|body| - padding as int])
  {
    var envelope := Header(padding) + blocks;
    assert envelope[6..] == blocks && envelope[3] == padding;
    assert envelope[..3] == [0x74, 0x63, 0x03] && envelope[4..6] == [0x00, 0x03];
  }

  lemma RestoreSubstituteAll(data: seq<bv8>)
    ensures RestoreAll(SubstituteAll(data)) == data
  {
    forall i | 0 <= i < |data|
      ensures RestoreAll(SubstituteAll(data))[i] == data[i]
    {
      SboxesInvert(data[i]);
    }
  }

  /** So no two registrations share an envelope. */
  lemma EnvelopeIsInjective(a: seq<bv8>, b: seq<bv8>, key: Key)
    requires Envelope(a, key) == Envelope(b, key)
    ensures a == b
  {
    EnvelopeRoundTrip(a, key);
    EnvelopeRoundTrip(b, key);
  }

  method Encrypt(gzip: seq<bv8>, key: Key) returns (encrypted: seq<bv8>)
    ensures encrypted == Envelope(gzip, key)
  {
    if gzip == [] {
      return [];
    }
    var padding := BLOCK_BYTES - |gzip| % BLOCK_BYTES;
    var padded := Pad(gzip, padding);
    SubstituteInPlace(padded);
    var blocks := EncryptPadded(padded[..], key);
    var headerPadding := if padding == BLOCK_BYTES then 0 else padding as bv8;
    assert headerPadding == PadLength(|gzip|) as bv8;
    encrypted := Header(headerPadding) + blocks;
  }

  method Pad(gzip: seq<bv8>, padding: nat) returns (padded: array<bv8>)
    requires padding == BLOCK_BYTES - |gzip| % BLOCK_BYTES
    ensures fresh(padded) && padded[..] == Padded(gzip) && padded.Length % BLOCK_BYTES == 0
  {
    var data := gzip;
    if padding != BLOCK_BYTES {
      data := data + seq(padding, _ => padding as bv8);
    }
    assert data == Padded(gzip);
    padded := new bv8[|data|](i requires 0 <= i < |data| => data[i]);
    assert padded[..] == data;
  }

  method SubstituteInPlace(padded: array<bv8>)
    modifies padded
    ensures padded[..] == SubstituteAll(old(padded[..]))
  {
    for i := 0 to padded.Length
      invariant forall k :: 0 <= k < i ==> padded[k] == Sbox0(old(padded[k]))
      invariant forall k :: i <= k < padded.Length ==> padded[k] == old(padded[k])
    {
      padded[i] := Sbox0(padded[i]);
    }
  }

  method EncryptPadded(padded: seq<bv8>, key: Key) returns (encrypted: seq<bv8>)
    requires |padded| % BLOCK_BYTES == 0
    ensures encrypted == EncryptBlocks(padded, key)
  {
    ghost var f := block => EncryptBlock(block, key);
    encrypted := [];
    var offset := 0;
    while offset < |padded|
      invariant 0 <= offset <= |padded| && (|padded| - offset) % BLOCK_BYTES == 0
      invariant encrypted + MapBlocks(padded[offset..], f) == MapBlocks(padded, f)
    {
      OneBlockLess(|padded| - offset);
      MapBlocksStep(padded, offset, f);
      var part := EncryptOne(padded[offset..offset + BLOCK_BYTES], key);
      encrypted := encrypted + part;
      offset := offset + BLOCK_BYTES;
    }
  }

  lemma MapBlocksStep(data: seq<bv8>, offset: nat, f: seq<bv8> -> seq<bv8>)
    requires offset + BLOCK_BYTES <= |data|
    ensures MapBlocks(data[offset..], f) == f(data[offset..offset + BLOCK_BYTES]) +
            MapBlocks(data[offset + BLOCK_BYTES..], f)
  {
    assert data[offset..][..BLOCK_BYTES] == data[offset..offset + BLOCK_BYTES];
    assert data[offset..][BLOCK_BYTES..] == data[offset + BLOCK_BYTES..];
  }

  method EncryptOne(block: seq<bv8>, key: Key) returns (part: seq<bv8>)
    requires |block| == BLOCK_BYTES
    ensures part == EncryptBlock(block, key)
  {
    part := AppendWords(EncryptWords(WordsOf(block), key));
  }

  method AppendWords(w: Words) returns (part: seq<bv8>)
    ensures part == BytesOf(w)
  {
    part := Be32(w.w0);
    part := part + Be32(w.w1);
    part := part + Be32(w.w2);
    part := part + Be32(w.w3);
  }
}
