/**
 * The block-store writer: an append-only segment writer, standing in for
 * the file backend behind `AutoWriter`, wrapped together with the metastore
 * in which commit checkpoints are recorded by writer id.
 */
module Writers {
  import opened Wrappers
  import opened MachineInts

  /** The checkpoint side of the metastore: one committed position per writer id. */
  class Metastore {
    var checkpoints: map<u64, u64>

    constructor (initial: map<u64, u64>)
      ensures checkpoints == initial
    {
      checkpoints := initial;
    }

    /** The checkpoint last recorded for `writerId`, if any. */
    function GetCheckpoint(writerId: u64): Option<u64>
      reads this
    {
      if writerId in checkpoints then Some(checkpoints[writerId]) else None
    }

    /** `set_checkpoint`: records `pos` under `writerId`, leaving every other writer's checkpoint as it was. */
    method SetCheckpoint(writerId: u64, pos: u64)
      modifies this
      ensures checkpoints == old(checkpoints)[writerId := pos]
      ensures forall id :: id != writerId ==> GetCheckpoint(id) == old(GetCheckpoint(id))
    {
      checkpoints := checkpoints[writerId := pos];
    }
  }

  /**
   * The `SegmentWriter` contract over an in-memory file: `contents` is every
   * byte of the segment as the writer sees it (what was in the file at open,
   * then everything appended), and the first `durable` of them are persisted.
   */
  class MemorySegmentWriter {
    var contents: seq<u8>
    var durable: nat

    ghost predicate Valid()
      reads this
    {
      durable <= |contents|
    }

    /** The write cursor: the offset the next write goes to. */
    function Position(): nat
      reads this
    {
      |contents|
    }

    /** What survives a crash: the persisted prefix of the segment. */
    function Persisted(): (p: seq<u8>)
      reads this
      requires Valid()
      ensures |p| == durable && p <= contents
    {
      contents[..durable]
    }

    /**
     * `open`: an existing file is continued at its end, with all of its
     * bytes already on disk; a missing file starts empty at offset 0.
     */
    constructor Open(existing: Option<seq<u8>>)
      ensures Valid()
      ensures existing.Some? ==> contents == existing.value && Position() == |existing.value|
      ensures existing.None? ==> contents == [] && Position() == 0
      ensures Persisted() == contents
    {
      contents := if existing.Some? then existing.value else [];
      durable := if existing.Some? then |existing.value| else 0;
    }

    /**
     * `write_all`: appends `bytes` at the cursor and returns the offset at
     * which they start; nothing becomes durable by writing alone.
     */
    method WriteAll(bytes: seq<u8>) returns (pos: nat)
      requires Valid()
      modifies this
      ensures Valid()
      ensures pos == old(Position())
      ensures contents == old(contents) + bytes
      ensures Position() == pos + |bytes|
      ensures durable == old(durable) && Persisted() == old(Persisted())
    {
      pos := |contents|;
      contents := contents + bytes;
    }

    /** `flush`: everything written so far becomes durable; no byte changes. */
    method Flush()
      requires Valid()
      modifies this
      ensures Valid()
      ensures contents == old(contents)
      ensures durable == |contents| && Persisted() == contents
    {
      durable := |contents|;
    }
  }

  /**
   * `BlockStoreWriter`: one segment writer and the metastore, with the
   * writer id fixed at open.
   */
  class BlockStoreWriter {
    const segmentWriter: MemorySegmentWriter
    const metastore: Metastore
    const writerId: u64

    ghost predicate Valid()
      reads this, segmentWriter
    {
      segmentWriter.Valid()
    }

    /** `open`: opens the segment (continuing at its end) and keeps the metastore and writer id. */
    constructor Open(existing: Option<seq<u8>>, metastore: Metastore, writerId: u64)
      ensures Valid() && fresh(segmentWriter)
      ensures this.metastore == metastore && this.writerId == writerId
      ensures segmentWriter.Position() == if existing.Some? then |existing.value| else 0
      ensures existing.Some? ==> segmentWriter.contents == existing.value
      ensures segmentWriter.Persisted() == segmentWriter.contents
      ensures unchanged(metastore)
    {
      segmentWriter := new MemorySegmentWriter.Open(existing);
      this.metastore := metastore;
      this.writerId := writerId;
    }

    /**
     * `write_all`: delegates to the segment writer, so the bytes go at the
     * cursor unchanged and their offset is returned; the metastore is not touched.
     */
    method WriteAll(bytes: seq<u8>) returns (pos: nat)
      requires Valid()
      modifies segmentWriter
      ensures Valid()
      ensures pos == old(segmentWriter.Position())
      ensures segmentWriter.contents == old(segmentWriter.contents) + bytes
      ensures segmentWriter.durable == old(segmentWriter.durable)
      ensures unchanged(metastore)
    {
      pos := segmentWriter.WriteAll(bytes);
    }

    /** `flush`: delegates to the segment writer; afterwards every written byte is durable. */
    method Flush()
      requires Valid()
      modifies segmentWriter
      ensures Valid()
      ensures segmentWriter.contents == old(segmentWriter.contents)
      ensures segmentWriter.Persisted() == segmentWriter.contents
      ensures unchanged(metastore)
    {
      segmentWriter.Flush();
    }

    /** `set_commit_checkpoint`: stores `pos` under this writer's id and no other; the segment is not touched. */
    method SetCommitCheckpoint(pos: u64)
      requires Valid()
      modifies metastore
      ensures Valid()
      ensures metastore.checkpoints == old(metastore.checkpoints)[writerId := pos]
      ensures metastore.GetCheckpoint(writerId) == Some(pos)
      ensures forall id :: id != writerId ==> metastore.GetCheckpoint(id) == old(metastore.GetCheckpoint(id))
      ensures unchanged(segmentWriter)
    {
      metastore.SetCheckpoint(writerId, pos);
    }
  }

  /**
   * Two consecutive writes get contiguous offsets: the second starts where
   * the first ended, and the segment holds both, in order.
   */
  method WriteTwice(w: BlockStoreWriter, first: seq<u8>, second: seq<u8>) returns (p1: nat, p2: nat)
    requires w.Valid()
    modifies w.segmentWriter
    ensures w.Valid()
    ensures p1 == old(w.segmentWriter.Position())
    ensures p2 == p1 + |first|
    ensures w.segmentWriter.contents == old(w.segmentWriter.contents) + first + second
  {
    p1 := w.WriteAll(first);
    p2 := w.WriteAll(second);
  }

  /**
   * The commit sequence of one writer: write, flush, record the end of the
   * write as the checkpoint. Afterwards the checkpoint covers the write and
   * every byte up to it survives a crash.
   */
  method WriteAndCommit(w: BlockStoreWriter, bytes: seq<u8>) returns (pos: nat)
    requires w.Valid()
    requires w.segmentWriter.Position() + |bytes| <= U64_MAX
    modifies w.segmentWriter, w.metastore
    ensures w.Valid()
    ensures pos == old(w.segmentWriter.Position())
    ensures w.segmentWriter.Persisted() == old(w.segmentWriter.contents) + bytes
    ensures w.metastore.GetCheckpoint(w.writerId) == Some(pos + |bytes|)
    ensures forall id :: id != w.writerId ==> w.metastore.GetCheckpoint(id) == old(w.metastore.GetCheckpoint(id))
  {
    pos := w.WriteAll(bytes);
    w.Flush();
    w.SetCommitCheckpoint(pos + |bytes|);
  }
}
