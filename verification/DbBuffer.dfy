/**
 The ring of sample blocks between the disk server and one client
 (libecasound/audioio-db-buffer.cpp): the pointer arithmetic, what the pointers
 mean as a queue of blocks, and the buffer object itself.
 */
module DbBuffer {

  /** The samples of one SAMPLE_BUFFER. */
  type Block = seq<real>

  /** `read_space` for a ring of `n` slots, from one load of each pointer. */
  function ReadSpaceOf(n: nat, write: nat, read: nat): nat
    requires write < n && read < n
  {
    if write >= read then write - read else write - read + n
  }

  /** `write_space` for a ring of `n` slots, from one load of each pointer. */
  function WriteSpaceOf(n: nat, write: nat, read: nat): int
    requires write < n && read < n
  {
    if write > read then read - write + n - 1
    else if write < read then read - write - 1
    else n - 1
  }

  /** The pointer after `p`: one slot on, from the last slot to the first. */
  function NextOf(n: nat, p: nat): nat
    requires p < n
  {
    if p + 1 == n then 0 else p + 1
  }

  /** The remainders the source computes are these functions. */
  lemma Remainders(n: nat, write: nat, read: nat)
    requires write < n && read < n
    ensures write < read ==> (write - read + n) % n == ReadSpaceOf(n, write, read)
    ensures write > read ==> (read - write + n) % n - 1 == WriteSpaceOf(n, write, read)
    ensures (write + 1) % n == NextOf(n, write)
  {
    if write < read { SmallRemainder(write - read + n, n); }
    if write > read { SmallRemainder(read - write + n, n); }
    if write + 1 < n { SmallRemainder(write + 1, n); }
  }

  lemma SmallRemainder(a: nat, n: nat)
    requires a < n
    ensures a % n == a
  {
  }

  /** The slots from the read pointer up to the write pointer, going round the end. */
  function Queued(slots: seq<Block>, write: nat, read: nat): seq<Block>
    requires write < |slots| && read < |slots|
  {
    if read <= write then slots[read..write] else slots[read..] + slots[..write]
  }

  /** The pointers and the slots of AUDIO_IO_DB_BUFFER, as a value. */
  datatype Ring = Ring(slots: seq<Block>, write: nat, read: nat) {

    predicate Valid() {
      write < |slots| && read < |slots|
    }

    function ReadSpace(): nat
      requires Valid()
    {
      ReadSpaceOf(|slots|, write, read)
    }

    function WriteSpace(): int
      requires Valid()
    {
      WriteSpaceOf(|slots|, write, read)
    }

    /** The queued blocks, oldest first. */
    function Contents(): seq<Block>
      requires Valid()
    {
      Queued(slots, write, read)
    }

    function Fill(b: Block): Ring
      requires Valid()
    {
      this.(slots := slots[write := b])
    }

    function AdvanceWrite(): Ring
      requires Valid()
    {
      this.(write := NextOf(|slots|, write))
    }

    function AdvanceRead(): Ring
      requires Valid()
    {
      this.(read := NextOf(|slots|, read))
    }
  }

  /** `read_space` is the number of queued blocks, `write_space` what is left of the capacity. */
  lemma SpacesCountContents(r: Ring)
    requires r.Valid()
    ensures r.ReadSpace() == |r.Contents()|
    ensures r.WriteSpace() == |r.slots| - 1 - |r.Contents()|
  {
  }

  /** Writing the slot at the write pointer never disturbs a queued block. */
  lemma FillKeepsContents(r: Ring, b: Block)
    requires r.Valid()
    ensures r.Fill(b).Valid() && r.Fill(b).Contents() == r.Contents()
  {
    var r' := r.Fill(b);
    if r.read <= r.write {
      assert r'.slots[r.read..r.write] == r.slots[r.read..r.write];
    } else {
      assert r'.slots[r.read..] == r.slots[r.read..];
      assert r'.slots[..r.write] == r.slots[..r.write];
    }
  }

  /** Advancing the write pointer queues exactly the block in the slot just filled. */
  lemma AdvanceWriteAppends(r: Ring)
    requires r.Valid() && |r.Contents()| < |r.slots| - 1
    ensures r.AdvanceWrite().Valid()
    ensures r.AdvanceWrite().Contents() == r.Contents() + [r.slots[r.write]]
  {
  }

  /** Advancing the read pointer removes exactly the oldest block. */
  lemma AdvanceReadDrops(r: Ring)
    requires r.Valid() && |r.Contents()| > 0
    ensures r.AdvanceRead().Valid()
    ensures r.Contents() == [r.slots[r.read]] + r.AdvanceRead().Contents()
  {
  }

  /** AUDIO_IO_DB_BUFFER as an object: each operation on its own, uninterrupted. */
  class Buffer {
    var readptr: nat
    var writeptr: nat
    var finished: bool
    var sbufs: seq<Block>

    function AsRing(): Ring
      reads this
    {
      Ring(sbufs, writeptr, readptr)
    }

    predicate Valid()
      reads this
    {
      AsRing().Valid()
    }

    constructor (bufferCount: nat, silence: Block)
      requires bufferCount > 0
      ensures Valid() && !finished
      ensures |sbufs| == bufferCount && AsRing().Contents() == []
    {
      readptr, writeptr, finished := 0, 0, false;
      sbufs := seq(bufferCount, _ => silence);
    }

    method Reset()
      requires Valid()
      modifies this
      ensures Valid() && sbufs == old(sbufs)
      ensures AsRing() == Ring(old(sbufs), 0, 0) && !finished
      ensures AsRing().Contents() == []
    {
      readptr := 0;
      writeptr := 0;
      finished := false;
    }

    method ReadSpace() returns (space: nat)
      requires Valid()
      ensures space == |AsRing().Contents()|
    {
      SpacesCountContents(AsRing());
      var write := writeptr;
      var read := readptr;
      Remainders(|sbufs|, write, read);
      if write >= read {
        space := write - read;
      } else {
        space := (write - read + |sbufs|) % |sbufs|;
      }
    }

    method WriteSpace() returns (space: int)
      requires Valid()
      ensures space == |sbufs| - 1 - |AsRing().Contents()|
    {
      SpacesCountContents(AsRing());
      var write := writeptr;
      var read := readptr;
      Remainders(|sbufs|, write, read);
      if write > read {
        space := (read - write + |sbufs|) % |sbufs| - 1;
      } else if write < read {
        space := read - write - 1;
      } else {
        space := |sbufs| - 1;
      }
    }

    /** Store a block at the write pointer and publish it. */
    method Put(b: Block)
      requires Valid() && |AsRing().Contents()| < |sbufs| - 1
      modifies this
      ensures Valid() && finished == old(finished)
      ensures AsRing().Contents() == old(AsRing().Contents()) + [b]
    {
      FillKeepsContents(AsRing(), b);
      sbufs := sbufs[writeptr := b];
      AdvanceWriteAppends(AsRing());
      Remainders(|sbufs|, writeptr, readptr);
      writeptr := (writeptr + 1) % |sbufs|;
    }

    method AdvanceReadPointer()
      requires Valid() && |AsRing().Contents()| > 0
      modifies this`readptr
      ensures Valid()
      ensures old(AsRing().Contents()) == [sbufs[old(readptr)]] + AsRing().Contents()
    {
      AdvanceReadDrops(AsRing());
      Remainders(|sbufs|, readptr, writeptr);
      readptr := (readptr + 1) % |sbufs|;
    }
  }
}
