/** The single-producer/single-consumer descriptor ring shared with the kernel. */
module Rings {
  import opened MachineWords

  /** The unbounded FIFO a ring stands for: every entry ever written, how many of them the
      producer has published, and how many the consumer has released. Entries past
      `pub` are written but not yet visible to the peer. */
  datatype Log<T> = Log(entries: seq<T>, pub: nat, cons: nat)

  /** One mapped ring. The concrete state is what the source keeps: the slot array, the two
      shared 32-bit words and the owner's private copies of them. The ghost fields are
      the unbounded log and the log positions at which the private copies were taken. */
  class Ring<T> {
    const slots: array<T>
    const numDescs: U32
    const mask: U32
    var producer: U32
    var consumer: U32
    var cachedProd: U32
    var cachedCons: U32

    ghost const order: nat
    ghost const ownerProduces: bool
    ghost var entries: seq<T>
    ghost var pub: nat
    ghost var cons: nat
    ghost var snapProd: nat
    ghost var snapCons: nat

    ghost predicate Sized()
      reads this
    {
      && order <= 31 && numDescs == Pow2(order) && 0 < numDescs <= 0x8000_0000
      && mask == numDescs - 1 && slots.Length == numDescs
    }

    /** The positions are ordered, and never more than one ring apart. */
    ghost predicate Positions()
      reads this
    {
      && snapCons <= cons <= pub <= |entries| <= cons + numDescs
      && snapCons <= snapProd <= pub
      && (ownerProduces ==> snapProd == pub && |entries| <= snapCons + numDescs)
      && (!ownerProduces ==> snapCons == cons && |entries| == pub)
    }

    /** Each 32-bit word is its unbounded position, wrapped. */
    ghost predicate Words()
      reads this
    {
      && producer == Wrapped(pub) && consumer == Wrapped(cons)
      && cachedProd == Wrapped(snapProd) && cachedCons == Wrapped(snapCons)
    }

    ghost predicate HoldsAt(p: nat)
      requires Sized() && p < |entries|
      reads this, slots
    {
      slots[Slot(p, numDescs)] == entries[p]
    }

    /** Every entry the consumer may still read is in its slot. (The trigger keeps this fact out
        of proofs that do not look into the ring.) */
    ghost predicate Valid()
      reads this, slots
    {
      && Sized() && Positions() && Words()
      && forall p: nat {:trigger HoldsAt(p)} :: cons <= p < |entries| ==> HoldsAt(p)
    }

    /** Moving positions forward keeps the slots valid. */
    twostate lemma SlotsKept()
      requires old(Valid()) && Sized() && entries == old(entries) && old(cons) <= cons
      requires forall i :: 0 <= i < slots.Length ==> slots[i] == old(slots[i])
      ensures forall p: nat {:trigger HoldsAt(p)} :: cons <= p < |entries| ==> HoldsAt(p)
    {
      forall p: nat | cons <= p < |entries|
        ensures HoldsAt(p)
      {
        assert old(HoldsAt(p));
      }
    }

    /** Appending d in the slot after the last keeps the others. */
    twostate lemma SlotsAppended(d: T)
      requires old(Valid()) && Sized() && entries == old(entries) + [d] && cons == old(cons)
      requires |entries| <= cons + numDescs && slots[Slot(|old(entries)|, numDescs)] == d
      requires forall i :: 0 <= i < slots.Length && i != Slot(|old(entries)|, numDescs) ==> slots[i] == old(slots[i])
      ensures forall p: nat {:trigger HoldsAt(p)} :: cons <= p < |entries| ==> HoldsAt(p)
    {
      forall p: nat | cons <= p < |entries|
        ensures HoldsAt(p)
      {
        if p < |old(entries)| {
          assert old(HoldsAt(p));
          SlotsDiffer(p, |old(entries)|, numDescs);
        }
      }
    }

    ghost function View(): Log<T>
      reads this
    {
      Log(entries, pub, cons)
    }

    constructor (size: U32, filler: T, ghost k: nat, ghost producing: bool)
      requires k <= 31 && size == Pow2(k)
      ensures Valid() && numDescs == size && ownerProduces == producing
      ensures View() == Log([], 0, 0) && fresh(slots)
    {
      RingSizeFits(k);
      slots := new T[size](_ => filler);
      numDescs, mask := size, size - 1;
      producer, consumer, cachedProd, cachedCons := 0, 0, 0, 0;
      order, ownerProduces := k, producing;
      entries, pub, cons, snapProd, snapCons := [], 0, 0, 0, 0;
    }

    /** The masked slot of a wrapped index is the slot of its log position. */
    lemma SlotOf(p: nat)
      requires Sized()
      ensures BitAnd(Wrapped(p), mask) == Slot(p, numDescs) < slots.Length == numDescs
    {
      WrappedIsMod(p);
      SlotIsMod(p, numDescs);
      AndLowMask(p % TWO32, order);
      WrapKeepsSlot(p, order);
    }

    /** desc_at as a read: any position between the consumer and the last write. */
    method DescAt(i: U32, ghost p: nat) returns (d: T)
      requires Valid() && i == Wrapped(p) && cons <= p < |entries|
      ensures d == entries[p]
    {
      SlotOf(p);
      assert HoldsAt(p);
      d := slots[BitAnd(i, mask)];
    }

    /** desc_at as a write: the next unpublished position, inside the owner's window. */
    method WriteDesc(i: U32, d: T)
      requires Valid() && ownerProduces
      requires i == Wrapped(|entries|) && |entries| < snapCons + numDescs
      modifies slots, this`entries
      ensures Valid() && entries == old(entries) + [d]
    {
      SlotOf(|entries|);
      slots[BitAnd(i, mask)] := d;
      entries := entries + [d];
      SlotsAppended(d);
    }

    /** The consumer's window. The shared producer word is loaded only when the cached
        window is empty, so the answer may lag behind what is published. */
    method ReadableRange(batchSize: U32) returns (amount: U32, start: U32)
      requires Valid() && !ownerProduces
      modifies this`cachedProd, this`snapProd
      ensures Valid() && start == Wrapped(cons)
      ensures snapProd == if old(snapProd) == cons then pub else old(snapProd)
      ensures amount == if snapProd - cons > batchSize then batchSize else snapProd - cons
    {
      DistanceExact(snapProd, cons);
      var available := Sub32(cachedProd, cachedCons);
      if available == 0 {
        cachedProd := producer;
        snapProd := pub;
        DistanceExact(snapProd, cons);
        available := Sub32(cachedProd, cachedCons);
      }
      if available > batchSize {
        available := batchSize;
      }
      SlotsKept();
      return available, cachedCons;
    }

    method ReleaseConsumedEntries(amount: U32)
      requires Valid() && !ownerProduces && cons + amount <= snapProd
      modifies this`cachedCons, this`consumer, this`cons, this`snapCons
      ensures Valid() && cons == old(cons) + amount
    {
      AdvanceExact(snapCons, amount);
      cachedCons := Add32(cachedCons, amount);
      snapCons := snapCons + amount;
      consumer := cachedCons;
      cons := snapCons;
      SlotsKept();
    }

    /** The two loads behind queued_entry_count; the peer may run between them. */
    method LoadProducer() returns (p: U32)
      requires Valid()
      ensures p == Wrapped(pub)
    {
      p := producer;
    }

    method LoadConsumer() returns (c: U32)
      requires Valid()
      ensures c == Wrapped(cons)
    {
      c := consumer;
    }

    /** The producer's window. The shared consumer word is loaded only when the cached
        window is too small; a shortened answer is therefore always up to date. */
    method WritableRange(wanted: U32) returns (amount: U32, start: U32)
      requires Valid() && ownerProduces
      modifies this`cachedCons, this`snapCons
      ensures Valid() && start == Wrapped(pub)
      ensures snapCons == if old(snapCons) + numDescs - pub < wanted then cons else old(snapCons)
      ensures amount == if snapCons + numDescs - pub < wanted then snapCons + numDescs - pub else wanted
    {
      FreeSpaceExact(numDescs, snapProd, snapCons);
      var free := Sub32(numDescs, Sub32(cachedProd, cachedCons));
      if free < wanted {
        cachedCons := consumer;
        snapCons := cons;
        FreeSpaceExact(numDescs, snapProd, snapCons);
        free := Sub32(numDescs, Sub32(cachedProd, cachedCons));
      }
      amount := if free < wanted then free else wanted;
      start := cachedProd;
      SlotsKept();
    }

    method PublishWrittenEntries(amount: U32)
      requires Valid() && ownerProduces && pub + amount <= |entries|
      modifies this`cachedProd, this`producer, this`pub, this`snapProd
      ensures Valid() && pub == old(pub) + amount
    {
      AdvanceExact(snapProd, amount);
      cachedProd := Add32(cachedProd, amount);
      snapProd := snapProd + amount;
      producer := cachedProd;
      pub := snapProd;
      SlotsKept();
    }

    /** Published entries not yet released, as the kernel computes it. */
    method Occupancy() returns (n: U32)
      requires Valid()
      ensures n == pub - cons
    {
      DistanceExact(pub, cons);
      n := Sub32(producer, consumer);
    }

    /** The kernel's side of a ring it consumes: take the oldest published entry. */
    method KernelConsume() returns (d: T)
      requires Valid() && ownerProduces && cons < pub
      modifies this`consumer, this`cons
      ensures Valid() && d == entries[old(cons)] && cons == old(cons) + 1
    {
      SlotOf(cons);
      assert HoldsAt(cons);
      d := slots[BitAnd(consumer, mask)];
      AdvanceExact(cons, 1);
      consumer := Add32(consumer, 1);
      cons := cons + 1;
      SlotsKept();
    }

    /** The kernel's side of a ring it produces into: only when a slot is free. */
    method KernelProduce(d: T)
      requires Valid() && !ownerProduces && pub < cons + numDescs
      modifies slots, this`producer, this`entries, this`pub
      ensures Valid() && entries == old(entries) + [d] && pub == old(pub) + 1
    {
      SlotOf(pub);
      slots[BitAnd(producer, mask)] := d;
      entries := entries + [d];
      AdvanceExact(pub, 1);
      producer := Add32(producer, 1);
      pub := pub + 1;
      SlotsAppended(d);
    }
  }
}
