/** Chunks and the cursor over a chunk's buffer that the writer and the reader
    move along. */
module SuperChunks {
  import opened Bytes
  import opened Records
  import opened ChunkImage

  class Chunk {
    const m_ptr: array<Byte>
    var row_count: nat
    var consumed_size: int
    var variable_offset: nat
    const id: nat
    const partition_id: int

    /** NewChunk */
    constructor (ptr: array<Byte>, chunkId: nat, partition: int)
      ensures m_ptr == ptr && id == chunkId && partition_id == partition
      ensures row_count == 0 && consumed_size == 0 && variable_offset == 0
    {
      m_ptr := ptr;
      id := chunkId;
      partition_id := partition;
      consumed_size := 0;
      variable_offset := 0;
      row_count := 0;
    }
  }

  /** A chunk as NewChunk makes it. */
  ghost predicate Fresh(chunk: Chunk)
    reads chunk
  {
    chunk.m_ptr.Length < TWO64 && chunk.row_count == 0 && chunk.consumed_size == 0 && chunk.variable_offset == 0
  }

  class SuperChunk {
    const m_chunk: Chunk
    var m_offset: nat

    ghost function View(): Image
      reads this, m_chunk, m_chunk.m_ptr
    {
      Image(m_chunk.m_ptr[..], m_offset, m_chunk.variable_offset, m_chunk.consumed_size)
    }

    constructor (chunk: Chunk)
      ensures m_chunk == chunk && m_offset == 0
    {
      m_chunk := chunk;
      m_offset := 0;
    }

    method WriteAt(offset: nat, src: seq<Byte>)
      requires offset + |src| <= m_chunk.m_ptr.Length
      modifies m_chunk`consumed_size, m_chunk.m_ptr
      ensures View() == ChunkImage.WriteAt(old(View()), offset, src)
    {
      if |src| == 0 {
        return;
      }
      Copy(offset, src);
      m_chunk.consumed_size := m_chunk.consumed_size + |src|;
    }

    /** memcpy into the buffer */
    method Copy(offset: nat, src: seq<Byte>)
      requires offset + |src| <= m_chunk.m_ptr.Length
      modifies m_chunk.m_ptr
      ensures m_chunk.m_ptr[..] == Splice(old(m_chunk.m_ptr[..]), offset, src)
    {
      forall i | 0 <= i < |src| {
        m_chunk.m_ptr[offset + i] := src[i];
      }
    }

    method Write(src: seq<Byte>)
      requires m_offset + |src| <= m_chunk.m_ptr.Length
      modifies `m_offset, m_chunk`consumed_size, m_chunk.m_ptr
      ensures View() == ChunkImage.Write(old(View()), src)
    {
      WriteAt(m_offset, src);
      m_offset := m_offset + |src|;
    }

    method Pad(len: nat)
      modifies `m_offset, m_chunk`consumed_size
      ensures View() == ChunkImage.Pad(old(View()), len)
    {
      m_offset := m_offset + len;
      m_chunk.consumed_size := m_chunk.consumed_size + len;
    }

    method PadFilled(len: nat, fill: Byte)
      requires m_offset + len <= m_chunk.m_ptr.Length
      modifies `m_offset, m_chunk`consumed_size, m_chunk.m_ptr
      ensures View() == ChunkImage.PadWith(old(View()), len, fill)
    {
      Copy(m_offset, Repeat(fill, len));
      m_offset := m_offset + len;
      m_chunk.consumed_size := m_chunk.consumed_size + len;
    }

    /** A typed store of 8 or 4 bytes, given as those bytes. */
    method WriteTyped(src: seq<Byte>)
      requires |src| > 0 && m_offset + |src| <= m_chunk.m_ptr.Length
      modifies `m_offset, m_chunk`consumed_size, m_chunk.m_ptr
      ensures View() == ChunkImage.Write(old(View()), src)
    {
      Copy(m_offset, src);
      m_chunk.consumed_size := m_chunk.consumed_size + |src|;
      m_offset := m_offset + |src|;
    }

    method IncrVariableOffset(len: nat)
      modifies m_chunk`variable_offset
      ensures View() == old(View()).(voff := old(View()).voff + len)
    {
      m_chunk.variable_offset := m_chunk.variable_offset + len;
    }

    method ReadBytes(len: nat) returns (out: seq<Byte>)
      requires m_offset + len <= m_chunk.m_ptr.Length
      modifies `m_offset
      ensures out == old(m_chunk.m_ptr[m_offset..m_offset + len])
      ensures m_offset == old(m_offset) + len
    {
      out := m_chunk.m_ptr[m_offset..m_offset + len];
      m_offset := m_offset + len;
    }

    /** The start of the value, or failure when its padded length does not fit;
        the subtraction is unsigned, so callers keep the offset inside. */
    method ReadAligned8(len: nat) returns (ok: bool, at: nat)
      requires m_offset <= m_chunk.m_ptr.Length
      modifies `m_offset
      ensures at == old(m_offset)
      ensures ok <==> old(m_offset) + SizeofAligned8(len) <= m_chunk.m_ptr.Length
      ensures m_offset == old(m_offset) + if ok then SizeofAligned8(len) else 0
    {
      var alignedLen := SizeofAligned8(len);
      at := m_offset;
      ok := m_chunk.m_ptr.Length - m_offset >= alignedLen;
      if ok {
        m_offset := m_offset + alignedLen;
      }
    }
  }
}
