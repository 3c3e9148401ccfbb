/** Conservation of frames: each action moves one frame between places, and none is ever in
    two places. */
module Ownership {
  import opened Protocol
  import opened Invariant

  // ---------------------------------------------------------------- counting

  ghost function One(x: nat, b: nat): nat { if x == b then 1 else 0 }

  lemma CountPush(s: seq<nat>, x: nat, k: nat, b: nat)
    requires k <= |s|
    ensures multiset((s + [x])[k..])[b] == multiset(s[k..])[b] + One(x, b)
  {
    assert (s + [x])[k..] == s[k..] + [x];
  }

  lemma CountPop(s: seq<nat>, b: nat)
    requires s != []
    ensures multiset(s)[b] == multiset(s[..|s| - 1])[b] + One(s[|s| - 1], b)
  {
    assert s == s[..|s| - 1] + [s[|s| - 1]];
  }

  lemma CountDrop(s: seq<nat>, k: nat, b: nat)
    requires k < |s|
    ensures multiset(s[k..])[b] == multiset(s[k + 1..])[b] + One(s[k], b)
  {
    assert s[k..] == [s[k]] + s[k + 1..];
  }

  lemma DescPush(c: Config, ds: seq<Desc>, d: Desc, k: nat, b: nat)
    requires k <= |ds|
    ensures multiset(DescBases(c, (ds + [d])[k..]))[b] == multiset(DescBases(c, ds[k..]))[b] + One(Base(c, d.addr), b)
  {
    assert DescBases(c, (ds + [d])[k..]) == DescBases(c, ds[k..]) + [Base(c, d.addr)];
  }

  lemma DescDrop(c: Config, ds: seq<Desc>, k: nat, b: nat)
    requires k < |ds|
    ensures multiset(DescBases(c, ds[k..]))[b] == multiset(DescBases(c, ds[k + 1..]))[b] + One(Base(c, ds[k].addr), b)
  {
    assert DescBases(c, ds[k..]) == [Base(c, ds[k].addr)] + DescBases(c, ds[k + 1..]);
  }

  lemma PacketPush(c: Config, ps: seq<Packet>, p: Packet, b: nat)
    ensures multiset(PacketBases(c, ps + [p]))[b] == multiset(PacketBases(c, ps))[b] + One(Base(c, p.desc.addr), b)
  {
    assert PacketBases(c, ps + [p]) == PacketBases(c, ps) + [Base(c, p.desc.addr)];
  }

  lemma PacketRemove(c: Config, ps: seq<Packet>, i: nat, b: nat)
    requires i < |ps|
    ensures multiset(PacketBases(c, ps))[b] ==
            multiset(PacketBases(c, ps[..i] + ps[i + 1..]))[b] + One(Base(c, ps[i].desc.addr), b)
  {
    var front, back := PacketBases(c, ps[..i]), PacketBases(c, ps[i + 1..]);
    assert PacketBases(c, ps) == front + [Base(c, ps[i].desc.addr)] + back;
    assert PacketBases(c, ps[..i] + ps[i + 1..]) == front + back;
  }

  lemma AddrPush(c: Config, s: seq<nat>, a: nat, k: nat, b: nat)
    requires k <= |s|
    ensures multiset(AddrBases(c, (s + [a])[k..]))[b] == multiset(AddrBases(c, s[k..]))[b] + One(Base(c, a), b)
  {
    assert AddrBases(c, (s + [a])[k..]) == AddrBases(c, s[k..]) + [Base(c, a)];
  }

  lemma AddrDrop(c: Config, s: seq<nat>, k: nat, b: nat)
    requires k < |s|
    ensures multiset(AddrBases(c, s[k..]))[b] == multiset(AddrBases(c, s[k + 1..]))[b] + One(Base(c, s[k]), b)
  {
    assert AddrBases(c, s[k..]) == [Base(c, s[k])] + AddrBases(c, s[k + 1..]);
  }

  // ---------------------------------------------------------------- one lemma per moving action

  lemma AllocFillMoves(c: Config, w: World, b: nat)
    requires Bounds(c, w) && CanAllocFill(c, w) && Bounds(c, AllocFill(c, w))
    ensures Holders(c, AllocFill(c, w), b) == Holders(c, w, b)
  {
    CountPop(w.u.free, b);
    CountPush(w.u.fillLog, w.u.free[|w.u.free| - 1], w.k.fillCons, b);
  }

  lemma TakeFillMoves(c: Config, w: World, b: nat)
    requires Bounds(c, w) && CanTakeFill(w) && Bounds(c, TakeFill(w))
    ensures Holders(c, TakeFill(w), b) == Holders(c, w, b)
  {
    CountDrop(w.u.fillLog, w.k.fillCons, b);
  }

  lemma DeliverMoves(c: Config, w: World, d: Desc, b: nat)
    requires Bounds(c, w) && CanDeliver(c, w, d) && Bounds(c, Deliver(c, w, d))
    ensures Holders(c, Deliver(c, w, d), b) == Holders(c, w, b)
  {
    DescPush(c, w.k.rxLog, d, w.u.rxPos, b);
  }

  lemma BeginMoves(c: Config, w: World, b: nat)
    requires Bounds(c, w) && CanBegin(w) && Bounds(c, Begin(w))
    ensures Holders(c, Begin(w), b) == Holders(c, w, b)
  {
    DescDrop(c, w.k.rxLog, w.u.rxPos, b);
  }

  lemma StageMoves(c: Config, w: World, b: nat)
    requires Bounds(c, w) && CanStage(c, w) && Bounds(c, Stage(c, w))
    ensures Holders(c, Stage(c, w), b) == Holders(c, w, b)
  {
    DescPush(c, w.u.txLog, HeldDesc(w), w.k.txCons, b);
  }

  lemma RecycleMoves(c: Config, w: World, b: nat)
    requires Bounds(c, w) && CanRecycle(w) && Bounds(c, Recycle(c, w))
    ensures Holders(c, Recycle(c, w), b) == Holders(c, w, b)
  {
  }

  lemma TakeTxMoves(c: Config, w: World, b: nat)
    requires Bounds(c, w) && CanTakeTx(c, w) && Bounds(c, TakeTx(w))
    ensures Holders(c, TakeTx(w), b) == Holders(c, w, b)
  {
    var d := w.u.txLog[w.k.txCons];
    DescDrop(c, w.u.txLog, w.k.txCons, b);
    PacketPush(c, w.k.inFlight, Packet(d, View(w.umem, d)), b);
  }

  lemma CompleteMoves(c: Config, w: World, i: nat, b: nat)
    requires Bounds(c, w) && CanComplete(w, i) && Bounds(c, Complete(w, i))
    ensures Holders(c, Complete(w, i), b) == Holders(c, w, b)
  {
    PacketRemove(c, w.k.inFlight, i, b);
    AddrPush(c, w.k.cqLog, w.k.inFlight[i].desc.addr, w.u.cqPos, b);
  }

  lemma ReclaimMoves(c: Config, w: World, b: nat)
    requires Bounds(c, w) && CanReclaim(w) && Bounds(c, Reclaim(c, w))
    ensures Holders(c, Reclaim(c, w), b) == Holders(c, w, b)
  {
    AddrDrop(c, w.k.cqLog, w.u.cqPos, b);
  }

  // ---------------------------------------------------------------- so every chunk stays held once

  lemma AllocFillOwned(c: Config, w: World)
    requires Bounds(c, w) && Owned(c, w) && CanAllocFill(c, w) && Bounds(c, AllocFill(c, w))
    ensures Owned(c, AllocFill(c, w))
  {
    forall b: nat
      ensures Holders(c, AllocFill(c, w), b) == multiset(Frames(c))[b]
    {
      AllocFillMoves(c, w, b);
      assert Holders(c, w, b) == multiset(Frames(c))[b];
    }
  }

  lemma TakeFillOwned(c: Config, w: World)
    requires Bounds(c, w) && Owned(c, w) && CanTakeFill(w) && Bounds(c, TakeFill(w))
    ensures Owned(c, TakeFill(w))
  {
    forall b: nat
      ensures Holders(c, TakeFill(w), b) == multiset(Frames(c))[b]
    {
      TakeFillMoves(c, w, b);
      assert Holders(c, w, b) == multiset(Frames(c))[b];
    }
  }

  lemma DeliverOwned(c: Config, w: World, d: Desc)
    requires Bounds(c, w) && Owned(c, w) && CanDeliver(c, w, d) && Bounds(c, Deliver(c, w, d))
    ensures Owned(c, Deliver(c, w, d))
  {
    forall b: nat
      ensures Holders(c, Deliver(c, w, d), b) == multiset(Frames(c))[b]
    {
      DeliverMoves(c, w, d, b);
      assert Holders(c, w, b) == multiset(Frames(c))[b];
    }
  }

  lemma BeginOwned(c: Config, w: World)
    requires Bounds(c, w) && Owned(c, w) && CanBegin(w) && Bounds(c, Begin(w))
    ensures Owned(c, Begin(w))
  {
    forall b: nat
      ensures Holders(c, Begin(w), b) == multiset(Frames(c))[b]
    {
      BeginMoves(c, w, b);
      assert Holders(c, w, b) == multiset(Frames(c))[b];
    }
  }

  lemma StageOwned(c: Config, w: World)
    requires Bounds(c, w) && Owned(c, w) && CanStage(c, w) && Bounds(c, Stage(c, w))
    ensures Owned(c, Stage(c, w))
  {
    forall b: nat
      ensures Holders(c, Stage(c, w), b) == multiset(Frames(c))[b]
    {
      StageMoves(c, w, b);
      assert Holders(c, w, b) == multiset(Frames(c))[b];
    }
  }

  lemma RecycleOwned(c: Config, w: World)
    requires Bounds(c, w) && Owned(c, w) && CanRecycle(w) && Bounds(c, Recycle(c, w))
    ensures Owned(c, Recycle(c, w))
  {
    forall b: nat
      ensures Holders(c, Recycle(c, w), b) == multiset(Frames(c))[b]
    {
      RecycleMoves(c, w, b);
      assert Holders(c, w, b) == multiset(Frames(c))[b];
    }
  }

  lemma TakeTxOwned(c: Config, w: World)
    requires Bounds(c, w) && Owned(c, w) && CanTakeTx(c, w) && Bounds(c, TakeTx(w))
    ensures Owned(c, TakeTx(w))
  {
    forall b: nat
      ensures Holders(c, TakeTx(w), b) == multiset(Frames(c))[b]
    {
      TakeTxMoves(c, w, b);
      assert Holders(c, w, b) == multiset(Frames(c))[b];
    }
  }

  lemma CompleteOwned(c: Config, w: World, i: nat)
    requires Bounds(c, w) && Owned(c, w) && CanComplete(w, i) && Bounds(c, Complete(w, i))
    ensures Owned(c, Complete(w, i))
  {
    forall b: nat
      ensures Holders(c, Complete(w, i), b) == multiset(Frames(c))[b]
    {
      CompleteMoves(c, w, i, b);
      assert Holders(c, w, b) == multiset(Frames(c))[b];
    }
  }

  lemma ReclaimOwned(c: Config, w: World)
    requires Bounds(c, w) && Owned(c, w) && CanReclaim(w) && Bounds(c, Reclaim(c, w))
    ensures Owned(c, Reclaim(c, w))
  {
    forall b: nat
      ensures Holders(c, Reclaim(c, w), b) == multiset(Frames(c))[b]
    {
      ReclaimMoves(c, w, b);
      assert Holders(c, w, b) == multiset(Frames(c))[b];
    }
  }

  // ---------------------------------------------------------------- exclusiveness

  /** A frame the kernel may receive into is in no window the worker relies on. */
  lemma RxFrameAlone(c: Config, w: World, b: nat)
    requires Bounds(c, w) && Owned(c, w) && b in w.k.rxFrames
    ensures b in multiset(Frames(c))
    ensures forall i :: w.u.rxPos <= i < |w.k.rxLog| ==> Base(c, w.k.rxLog[i].addr) != b
    ensures b !in HeldBase(c, w)
    ensures forall j :: w.k.txCons <= j < |w.u.txLog| ==> Base(c, w.u.txLog[j].addr) != b
    ensures forall i :: 0 <= i < |w.k.inFlight| ==> Base(c, w.k.inFlight[i].desc.addr) != b
  {
    assert Holders(c, w, b) == multiset(Frames(c))[b];
    FrameFacts(c, b);
    NotInWindows(c, w, b);
  }

  /** The frame a callback holds is in no other window. */
  lemma HeldAlone(c: Config, w: World)
    requires Bounds(c, w) && Owned(c, w) && w.u.held.Some?
    ensures Base(c, HeldDesc(w).addr) in multiset(Frames(c))
    ensures forall i :: w.u.rxPos <= i < |w.k.rxLog| ==> Base(c, w.k.rxLog[i].addr) != Base(c, HeldDesc(w).addr)
    ensures forall j :: w.k.txCons <= j < |w.u.txLog| ==> Base(c, w.u.txLog[j].addr) != Base(c, HeldDesc(w).addr)
    ensures forall i :: 0 <= i < |w.k.inFlight| ==> Base(c, w.k.inFlight[i].desc.addr) != Base(c, HeldDesc(w).addr)
  {
    var b := Base(c, HeldDesc(w).addr);
    assert Holders(c, w, b) == multiset(Frames(c))[b];
    FrameFacts(c, b);
    NotInWindows(c, w, b);
  }

  /** A frame absent from the three descriptor windows is the base of none of their entries. */
  lemma NotInWindows(c: Config, w: World, b: nat)
    requires Bounds(c, w)
    ensures b !in multiset(DescBases(c, w.k.rxLog[w.u.rxPos..])) ==>
              forall i :: w.u.rxPos <= i < |w.k.rxLog| ==> Base(c, w.k.rxLog[i].addr) != b
    ensures b !in multiset(DescBases(c, w.u.txLog[w.k.txCons..])) ==>
              forall j :: w.k.txCons <= j < |w.u.txLog| ==> Base(c, w.u.txLog[j].addr) != b
    ensures b !in multiset(PacketBases(c, w.k.inFlight)) ==>
              forall i :: 0 <= i < |w.k.inFlight| ==> Base(c, w.k.inFlight[i].desc.addr) != b
  {
    var rs, ts, fs := DescBases(c, w.k.rxLog[w.u.rxPos..]), DescBases(c, w.u.txLog[w.k.txCons..]), PacketBases(c, w.k.inFlight);
    forall i | w.u.rxPos <= i < |w.k.rxLog|
      ensures Base(c, w.k.rxLog[i].addr) in multiset(rs)
    {
      assert rs[i - w.u.rxPos] == Base(c, w.k.rxLog[i].addr);
    }
    forall j | w.k.txCons <= j < |w.u.txLog|
      ensures Base(c, w.u.txLog[j].addr) in multiset(ts)
    {
      assert ts[j - w.k.txCons] == Base(c, w.u.txLog[j].addr);
    }
    forall i | 0 <= i < |w.k.inFlight|
      ensures Base(c, w.k.inFlight[i].desc.addr) in multiset(fs)
    {
      assert fs[i] == Base(c, w.k.inFlight[i].desc.addr);
    }
  }
}
