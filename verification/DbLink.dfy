/**
 One producer and one consumer on a ring, one atomic access at a time: the pointer
 loads of `write_space` and `read_space`, the transfer of a slot and the pointer
 advance (libecasound/audioio-db-buffer.cpp:68-121). Either thread can play either
 part. `put` and `taken` record what went in and came out since the last reset.
 */
module DbLink {
  import opened DbBuffer

  datatype Producer = PIdle | PLoaded(w: nat) | PFilling | PFull(b: Block)

  datatype Consumer = KIdle | KLoaded(w: nat) | KCopying | KHeld(b: Block)

  datatype Link = Link(ring: Ring, prod: Producer, cons: Consumer, put: seq<Block>, taken: seq<Block>) {

    predicate TypeOk() {
      && ring.Valid()
      && (prod.PLoaded? ==> prod.w < |ring.slots|)
      && (cons.KLoaded? ==> cons.w < |ring.slots|)
    }

    /** Load the write pointer, the first half of `write_space`. */
    function ProducerLoads(): Link {
      this.(prod := PLoaded(ring.write))
    }

    /** Whether `write_space` comes out positive. */
    predicate HasRoom()
      requires TypeOk() && prod.PLoaded?
    {
      WriteSpaceOf(|ring.slots|, prod.w, ring.read) > 0
    }

    /** Start writing the slot; until the write is over it holds arbitrary data. */
    function ProducerBegins(junk: Block): Link
      requires TypeOk()
    {
      this.(ring := ring.Fill(junk), prod := PFilling)
    }

    function ProducerStores(b: Block): Link
      requires TypeOk()
    {
      this.(ring := ring.Fill(b), prod := PFull(b))
    }

    function ProducerPublishes(): Link
      requires TypeOk() && prod.PFull?
    {
      this.(ring := ring.AdvanceWrite(), put := put + [prod.b], prod := PIdle)
    }

    /** Load the write pointer, the first half of `read_space`. */
    function ConsumerLoads(): Link {
      this.(cons := KLoaded(ring.write))
    }

    /** What `read_space` comes out as. */
    function Seen(): nat
      requires TypeOk() && cons.KLoaded?
    {
      ReadSpaceOf(|ring.slots|, cons.w, ring.read)
    }

    function ConsumerBegins(): Link {
      this.(cons := KCopying)
    }

    /** Finish copying the slot; the copy is what the slot holds at that moment. */
    function ConsumerCopies(): Link
      requires TypeOk()
    {
      this.(cons := KHeld(ring.slots[ring.read]))
    }

    function ConsumerReleases(): Link
      requires TypeOk() && cons.KHeld?
    {
      this.(ring := ring.AdvanceRead(), taken := taken + [cons.b], cons := KIdle)
    }

    function Room(): int
      requires TypeOk()
    {
      |ring.slots| - 1 - |ring.Contents()|
    }

    /** What every step keeps. */
    predicate Inv() {
      && TypeOk()
      && put == taken + ring.Contents()
      && (prod.PLoaded? ==> prod.w == ring.write)
      && (prod.PFilling? || prod.PFull? ==> Room() > 0)
      && (prod.PFull? ==> ring.slots[ring.write] == prod.b)
      && (cons.KLoaded? ==> Seen() <= |ring.Contents()|)
      && (cons.KCopying? || cons.KHeld? ==> |ring.Contents()| > 0)
      && (cons.KHeld? ==> ring.slots[ring.read] == cons.b)
    }
  }

  lemma ProducerLoadsKeeps(l: Link)
    requires l.Inv()
    ensures l.ProducerLoads().Inv()
  {
  }

  lemma ProducerBeginsKeeps(l: Link, junk: Block)
    requires l.Inv() && l.prod.PLoaded? && l.HasRoom()
    ensures l.ProducerBegins(junk).Inv()
    ensures l.ProducerBegins(junk).ring.Contents() == l.ring.Contents()
  {
    SpacesCountContents(l.ring);
    FillKeepsContents(l.ring, junk);
  }

  lemma ProducerStoresKeeps(l: Link, b: Block)
    requires l.Inv() && l.prod.PFilling?
    ensures l.ProducerStores(b).Inv()
    ensures l.ProducerStores(b).ring.Contents() == l.ring.Contents()
  {
    FillKeepsContents(l.ring, b);
  }

  lemma ProducerPublishesKeeps(l: Link)
    requires l.Inv() && l.prod.PFull?
    ensures l.ProducerPublishes().Inv()
    ensures |l.ProducerPublishes().ring.Contents()| == |l.ring.Contents()| + 1
  {
    AdvanceWriteAppends(l.ring);
  }

  lemma ConsumerLoadsKeeps(l: Link)
    requires l.Inv()
    ensures l.ConsumerLoads().Inv() && l.ConsumerLoads().Seen() == |l.ring.Contents()|
  {
    SpacesCountContents(l.ring);
  }

  lemma ConsumerBeginsKeeps(l: Link)
    requires l.Inv() && l.cons.KLoaded? && l.Seen() > 0
    ensures l.ConsumerBegins().Inv()
  {
  }

  lemma ConsumerCopiesKeeps(l: Link)
    requires l.Inv() && l.cons.KCopying?
    ensures l.ConsumerCopies().Inv()
  {
  }

  lemma ConsumerReleasesKeeps(l: Link)
    requires l.Inv() && l.cons.KHeld?
    ensures l.ConsumerReleases().Inv()
  {
    AdvanceReadDrops(l.ring);
  }

  /** In every state the steps keep, the slot being written is not the one being copied. */
  lemma SlotsNeverShared(l: Link)
    requires l.Inv()
    requires l.prod.PFilling? || l.prod.PFull?
    requires l.cons.KCopying? || l.cons.KHeld?
    ensures l.ring.write != l.ring.read
  {
  }
}
