/** Cutting a cookie jar into entries that fit the strictest native keyring. */
module CredentialChunks {
  import opened Common

  const CHUNK_BYTES := 2048
  const MAXIMUM_CHUNKS := 128
  const MAXIMUM_JAR_BYTES := CHUNK_BYTES * MAXIMUM_CHUNKS
  const INT_MAX := 0x7fff_ffff

  /** Conversion to a 32-bit signed integer. */
  function ToInt(x: int): int {
    (x + 0x8000_0000) % 0x1_0000_0000 - 0x8000_0000
  }

  /** How many chunks a jar of the given size is cut into, as the 32-bit integer it is kept in. */
  function Count(size: nat): int {
    if size <= 0 then 0 else ToInt((size + CHUNK_BYTES - 1) / CHUNK_BYTES)
  }

  function At(value: seq<byte>, index: nat): seq<byte> {
    var start := index * CHUNK_BYTES;
    if start >= |value| then []
    else if start + CHUNK_BYTES <= |value| then value[start..start + CHUNK_BYTES]
    else value[start..]
  }

  /** The first n chunks, joined again. */
  function Joined(value: seq<byte>, n: nat): seq<byte> {
    if n == 0 then [] else Joined(value, n - 1) + At(value, n - 1)
  }

  lemma {:induction false} JoinedIsPrefix(value: seq<byte>, n: nat)
    ensures Joined(value, n) == if n * CHUNK_BYTES <= |value| then value[..n * CHUNK_BYTES] else value
  {
    if n > 0 {
      JoinedIsPrefix(value, n - 1);
    }
  }

  /** A jar of any storable size is cut into non-empty chunks of at most 2048 bytes that join to the jar. */
  lemma ChunksRoundTrip(value: seq<byte>)
    requires |value| <= CHUNK_BYTES * INT_MAX
    ensures Count(|value|) >= 0 && Joined(value, Count(|value|)) == value
    ensures forall i :: 0 <= i < Count(|value|) ==> 0 < |At(value, i)| <= CHUNK_BYTES
    ensures Count(|value|) <= MAXIMUM_CHUNKS <==> |value| <= MAXIMUM_JAR_BYTES
  {
    CountIsExactUpToLimit(|value|);
    JoinedIsPrefix(value, Count(|value|));
  }

  /** The count fits its 32-bit type exactly up to 2048 * INT_MAX bytes. */
  lemma CountIsExactUpToLimit(size: nat)
    ensures Count(size) == (size + CHUNK_BYTES - 1) / CHUNK_BYTES <==> size <= CHUNK_BYTES * INT_MAX
  {
  }

  /** Beyond the limit the count can even be 0. */
  lemma CountWraps()
    ensures Count(0x800_0000_0000) == 0
  {
  }

  /** A count within the chunk limit restores the jar exactly when the jar is within the size limit. */
  lemma CountedChunksRestore(value: seq<byte>)
    requires Count(|value|) <= MAXIMUM_CHUNKS
    ensures var n := if Count(|value|) < 0 then 0 else Count(|value|);
            && (Joined(value, n) == value <==> |value| <= MAXIMUM_JAR_BYTES)
            && forall i :: 0 <= i < n ==> 0 < |At(value, i)| <= CHUNK_BYTES
  {
    var n := if Count(|value|) < 0 then 0 else Count(|value|);
    JoinedIsPrefix(value, n);
    if |value| <= MAXIMUM_JAR_BYTES {
      ChunksRoundTrip(value);
    } else {
      assert n * CHUNK_BYTES < |value|;
    }
  }
}
