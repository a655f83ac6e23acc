/** The chunk arithmetic of the anchor (firmware) download: the output
    buffer is sent in 64-byte pieces, piece i from buffer offset i * 64 to
    target address Offset + i * 64, the last piece carrying the remainder. */
module AnchorChunks {
  import opened Win32
  import opened Libusb
  import opened Ezusb

  const ANCHOR_DOWNLOAD_CHUNK_SIZE: nat := 64

  /** The largest output length for which `outBufferLen + 63` stays inside
      a DWORD and, for every chunk i, `i * 64` stays inside a signed 32-bit
      `int`. The wValue sum `i * 64 + Offset` can still pass INT_MAX. */
  const MAX_ANCHOR_DOWNLOAD_LENGTH: nat := 0x8000_0000

  const INT_MAX: int := 0x7FFF_FFFF
  const DWORD_MAX: int := 0xFFFF_FFFF

  /** chunkCount: `(outBufferLen + 63) / 64`. */
  function ChunkCount(len: nat): nat
  {
    (len + ANCHOR_DOWNLOAD_CHUNK_SIZE - 1) / ANCHOR_DOWNLOAD_CHUNK_SIZE
  }

  /** wLength of chunk i: the remainder for the last chunk when there is one,
      otherwise a full chunk. */
  function ChunkLength(len: nat, i: nat): nat
  {
    if i == ChunkCount(len) - 1 && len % ANCHOR_DOWNLOAD_CHUNK_SIZE != 0
    then len % ANCHOR_DOWNLOAD_CHUNK_SIZE
    else ANCHOR_DOWNLOAD_CHUNK_SIZE
  }

  /** Where chunk i starts in the output buffer. */
  function ChunkStart(i: nat): nat
  {
    i * ANCHOR_DOWNLOAD_CHUNK_SIZE
  }

  /** wValue of chunk i: `i * 64 + Offset`, truncated to uint16_t. */
  function ChunkValue(offset: Word, i: nat): Word
  {
    ((i * ANCHOR_DOWNLOAD_CHUNK_SIZE + offset as int) % 0x1_0000) as Word
  }

  /** The chunk count is the ceiling of len / 64: enough chunks to hold
      len bytes, and not one more. */
  lemma ChunkCountIsCeiling(len: nat)
    ensures len <= ChunkCount(len) * ANCHOR_DOWNLOAD_CHUNK_SIZE < len + ANCHOR_DOWNLOAD_CHUNK_SIZE
    ensures ChunkCount(len) == 0 <==> len == 0
  {
    var q, r := len / 64, len % 64;
    assert len == 64 * q + r;
    if r == 0 {
      assert (len + 63) / 64 == q;
    } else {
      assert len + 63 == 64 * (q + 1) + (r - 1);
      assert (len + 63) / 64 == q + 1;
    }
  }

  /** Every chunk is non-empty and lies inside the payload; all chunks but
      the last are full, and the last one ends exactly at len. */
  lemma ChunkWithinPayload(len: nat, i: nat)
    requires i < ChunkCount(len)
    ensures 0 < ChunkLength(len, i) <= ANCHOR_DOWNLOAD_CHUNK_SIZE
    ensures ChunkStart(i) + ChunkLength(len, i) <= len
    ensures i + 1 < ChunkCount(len) ==> ChunkLength(len, i) == ANCHOR_DOWNLOAD_CHUNK_SIZE
    ensures i + 1 == ChunkCount(len) ==> ChunkStart(i) + ChunkLength(len, i) == len
  {
    ChunkCountIsCeiling(len);
    var n := ChunkCount(len);
    assert i * 64 <= (n - 1) * 64;
    if i + 1 == n {
      var q, r := len / 64, len % 64;
      assert len == 64 * q + r;
      if r == 0 {
        assert n == q;
      } else {
        assert n == q + 1;
      }
    } else {
      assert (i + 1) * 64 <= (n - 1) * 64;
    }
  }

  /** Up to MAX_ANCHOR_DOWNLOAD_LENGTH, `outBufferLen + 63` does not wrap as
      a DWORD and every chunk's `i * 64` fits in an `int`. The wValue sum
      `i * 64 + Offset` may still pass INT_MAX; converted to `uint16_t`
      after the usual two's-complement wrap it is ChunkValue all the same. */
  lemma ChunkArithmeticInRange(len: nat, i: nat, offset: Word)
    requires len <= MAX_ANCHOR_DOWNLOAD_LENGTH && i < ChunkCount(len)
    ensures len + ANCHOR_DOWNLOAD_CHUNK_SIZE - 1 <= DWORD_MAX
    ensures ChunkStart(i) <= INT_MAX
    ensures var sum := ChunkStart(i) + offset as int;
            var wrapped := if sum > INT_MAX then sum - 0x1_0000_0000 else sum;
            ChunkValue(offset, i) as int == wrapped % 0x1_0000
  {
    ChunkWithinPayload(len, i);
    var sum := ChunkStart(i) + offset as int;
    if sum > INT_MAX {
      var q := sum / 0x1_0000;
      assert sum == q * 0x1_0000 + sum % 0x1_0000;
      assert sum - 0x1_0000_0000 == (q - 0x1_0000) * 0x1_0000 + sum % 0x1_0000;
    }
  }

  /** One byte more than MAX_ANCHOR_DOWNLOAD_LENGTH and the last chunk's
      `i * 64` no longer fits in an `int`. */
  lemma MaxAnchorDownloadLengthIsTight()
    ensures var len := MAX_ANCHOR_DOWNLOAD_LENGTH + 1;
            ChunkCount(len) > 0 && ChunkStart(ChunkCount(len) - 1) > INT_MAX
  {
    var len := MAX_ANCHOR_DOWNLOAD_LENGTH + 1;
    assert ChunkCount(len) == 0x200_0001;
  }

  /** The control write that sends chunk i of `data` (the output buffer)
      to the EZ-USB's internal RAM, at target address `offset + i * 64`. */
  function ChunkTransfer(offset: Word, data: seq<Byte>, len: nat, i: nat): Transfer
    requires len <= |data| && i < ChunkCount(len)
  {
    ChunkWithinPayload(len, i);
    ControlOut(LIBUSB_REQUEST_TYPE_VENDOR | LIBUSB_RECIPIENT_DEVICE, ANCHOR_LOAD_INTERNAL,
               ChunkValue(offset, i), 0, data[ChunkStart(i)..ChunkStart(i) + ChunkLength(len, i)])
  }

  /** Total length of chunks 0..k. */
  function LengthOfChunks(len: nat, k: nat): nat
  {
    if k == 0 then 0 else LengthOfChunks(len, k - 1) + ChunkLength(len, k - 1)
  }

  /** The bytes sent by chunks 0..k, in order. */
  function PayloadOfChunks(offset: Word, data: seq<Byte>, len: nat, k: nat): seq<Byte>
    requires len <= |data| && k <= ChunkCount(len)
  {
    if k == 0 then [] else PayloadOfChunks(offset, data, len, k - 1) + ChunkTransfer(offset, data, len, k - 1).payload
  }

  /** The first k chunks cover exactly the first k * 64 bytes, and all of them
      together exactly len bytes: the chunk lengths sum to len. */
  lemma {:induction false} LengthOfChunksPartitions(len: nat, k: nat)
    requires k <= ChunkCount(len)
    ensures LengthOfChunks(len, k) == if k == ChunkCount(len) then len else ChunkStart(k)
  {
    if k > 0 {
      LengthOfChunksPartitions(len, k - 1);
      ChunkWithinPayload(len, k - 1);
    } else {
      ChunkCountIsCeiling(len);
    }
  }

  /** Chunk j starts where the chunks before it end, and ends inside the
      payload. */
  lemma ChunkFollows(len: nat, j: nat)
    requires j < ChunkCount(len)
    ensures LengthOfChunks(len, j) == ChunkStart(j)
    ensures LengthOfChunks(len, j + 1) == ChunkStart(j) + ChunkLength(len, j) <= len
  {
    LengthOfChunksPartitions(len, j);
    ChunkWithinPayload(len, j);
  }

  /** Sending the chunks in ascending order sends the first len bytes of the
      output buffer, each once, without gaps or overlaps. */
  lemma {:induction false} PayloadOfChunksIsPrefix(offset: Word, data: seq<Byte>, len: nat, k: nat)
    requires len <= |data| && k <= ChunkCount(len)
    ensures LengthOfChunks(len, k) <= len
            && PayloadOfChunks(offset, data, len, k) == data[..LengthOfChunks(len, k)]
  {
    if k > 0 {
      PayloadOfChunksIsPrefix(offset, data, len, k - 1);
      ChunkFollows(len, k - 1);
      var before, n := ChunkStart(k - 1), ChunkLength(len, k - 1);
      assert data[..before] + data[before..before + n] == data[..before + n];
    }
  }

  /** The whole download sends exactly data[..len]. */
  lemma DownloadSendsPayload(offset: Word, data: seq<Byte>, len: nat)
    requires len <= |data|
    ensures PayloadOfChunks(offset, data, len, ChunkCount(len)) == data[..len]
  {
    PayloadOfChunksIsPrefix(offset, data, len, ChunkCount(len));
    LengthOfChunksPartitions(len, ChunkCount(len));
  }
}
