/** The constants and chunk arithmetic shared by the whole transfer path. */
module MavlinkLog {
  type byte = bv8
  type Word = bv32

  /** Payload size of one LOG_DATA message. */
  const CHUNK: nat := 90

  const U32: nat := 0x1_0000_0000

  function AlignDownToChunk(offset: nat): (r: nat)
    ensures r <= offset < r + CHUNK
    ensures r % CHUNK == 0
  {
    offset - offset % CHUNK
  }

  function ChunkSlotIndex(offset: nat): (slot: nat)
    ensures slot * CHUNK <= offset < (slot + 1) * CHUNK
  {
    offset / CHUNK
  }

  /** The least number of chunks whose total capacity holds `size` bytes. */
  function ChunkCountForSize(size: nat): (n: nat)
    ensures n * CHUNK >= size
    ensures n > 0 ==> (n - 1) * CHUNK < size
    ensures n == 0 <==> size == 0
  {
    if size == 0 then 0 else (size + CHUNK - 1) / CHUNK
  }
}
