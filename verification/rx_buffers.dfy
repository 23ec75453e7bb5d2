/** Receive packet buffers: how they are laid out in memory, and that none is lost or used twice. */
module RxBuffers {
  const PACKET_BUFFER_ALIGNMENT := 8

  /** Rounding up by adding seven and clearing the three low bits. */
  function AlignUp(n: nat): (r: nat)
    ensures r % PACKET_BUFFER_ALIGNMENT == 0 && n <= r < n + PACKET_BUFFER_ALIGNMENT
  {
    (n + PACKET_BUFFER_ALIGNMENT - 1) / PACKET_BUFFER_ALIGNMENT * PACKET_BUFFER_ALIGNMENT
  }

  /** Rounding up to a multiple of the page size. */
  function PageUp(n: nat, page: nat): (r: nat)
    requires page > 0
    ensures r >= n
  {
    PageUpCovers(n, page);
    (n + page - 1) / page * page
  }

  lemma {:induction false} PageUpCovers(n: nat, page: nat)
    requires page > 0
    ensures (n + page - 1) / page * page >= n
  {
    var q, r := (n + page - 1) / page, (n + page - 1) % page;
    assert n + page - 1 == q * page + r;
  }

  function Buffers(start: nat, size: nat, count: nat): (bs: seq<int>)
    ensures |bs| == count
  {
    if count == 0 then [] else Buffers(start, size, count - 1) + [start + (count - 1) * size]
  }

  lemma {:induction false} BufferAt(start: nat, size: nat, count: nat, i: nat)
    requires i < count
    ensures Buffers(start, size, count)[i] == start + i * size
  {
    if i < count - 1 {
      BufferAt(start, size, count - 1, i);
    }
  }

  /** The allocation for so many packets, the aligned region in it that is registered, and the buffers in that. */
  datatype Layout = Layout(packetSize: nat, packetCount: nat, base: nat, page: nat)
  {
    predicate Valid() {
      page > 0
    }

    function Stride(): nat {
      AlignUp(packetSize)
    }

    function AllocatedSize(): nat
      requires Valid()
    {
      PageUp(Stride() * packetCount + PACKET_BUFFER_ALIGNMENT, page)
    }

    function Region(): nat {
      AlignUp(base)
    }

    function RegionSize(): nat {
      Stride() * packetCount
    }

    function Posted(): seq<int> {
      Buffers(Region(), Stride(), packetCount)
    }
  }

  lemma {:induction false} Spread(i: nat, j: nat, size: nat)
    requires i < j
    ensures i * size + size <= j * size
  {
    assert j * size == i * size + (j - i) * size;
    assert (j - i) * size == size + (j - i - 1) * size;
  }

  lemma {:induction false} AlignedSum(a: nat, i: nat, size: nat)
    requires a % 8 == 0 && size % 8 == 0
    ensures (a + i * size) % 8 == 0
  {
    var p, q := a / 8, size / 8;
    assert a == 8 * p && size == 8 * q;
    assert i * size == 8 * (i * q);
    assert a + i * size == 8 * (p + i * q);
  }

  /** For every packet size, count, address and page size: each buffer is aligned and lies in the registered
      region, the region lies in the allocation, and no two buffers overlap. */
  lemma {:induction false} LayoutIsSound(l: Layout, i: nat, j: nat)
    requires l.Valid() && i < l.packetCount && j < l.packetCount
    ensures l.Posted()[i] % PACKET_BUFFER_ALIGNMENT == 0
    ensures l.Region() <= l.Posted()[i] && l.Posted()[i] + l.packetSize <= l.Region() + l.RegionSize()
    ensures l.base <= l.Region() && l.Region() + l.RegionSize() <= l.base + l.AllocatedSize()
    ensures i < j ==> l.Posted()[i] + l.packetSize <= l.Posted()[j]
    ensures i != j && l.packetSize > 0 ==> l.Posted()[i] != l.Posted()[j]
  {
    hide AlignUp, PageUp;
    var start, size := l.Region(), l.Stride();
    BufferAt(start, size, l.packetCount, i);
    BufferAt(start, size, l.packetCount, j);
    AlignedSum(start, i, size);
    Spread(i, l.packetCount, size);
    Commutes(size, l.packetCount);
    if i < j {
      Spread(i, j, size);
    } else if j < i {
      Spread(j, i, size);
    }
  }

  lemma {:induction false} Commutes(a: nat, b: nat)
    ensures a * b == b * a
  {
  }

  function Strip(addresses: seq<int>, prefix: nat): (bs: seq<int>)
    ensures |bs| == |addresses|
  {
    if addresses == [] then [] else Strip(addresses[..|addresses| - 1], prefix) + [addresses[|addresses| - 1] - prefix]
  }

  function AddPrefix(bs: seq<int>, prefix: nat): (addresses: seq<int>)
    ensures |addresses| == |bs|
    ensures forall i :: 0 <= i < |bs| ==> addresses[i] == bs[i] + prefix
  {
    if bs == [] then [] else AddPrefix(bs[..|bs| - 1], prefix) + [bs[|bs| - 1] + prefix]
  }

  /** The address given to the application leads back to the buffer. */
  lemma {:induction false} StripOfAdd(bs: seq<int>, prefix: nat)
    ensures Strip(AddPrefix(bs, prefix), prefix) == bs
  {
    if bs != [] {
      var n := |bs| - 1;
      StripOfAdd(bs[..n], prefix);
      assert AddPrefix(bs, prefix)[..n] == AddPrefix(bs[..n], prefix);
      assert bs == bs[..n] + [bs[n]];
    }
  }

  /** The buffers whose posting succeeds. */
  function Successful(bs: seq<int>, posted: seq<bool>): seq<int>
    requires |posted| == |bs|
  {
    if bs == [] then []
    else
      var n := |bs| - 1;
      Successful(bs[..n], posted[..n]) + if posted[n] then [bs[n]] else []
  }

  datatype Status = Ok | NotConnected

  /** The buffers of an endpoint: those given to the provider, and those held by received packets. */
  class RxState {
    var posted: multiset<int>
    var held: multiset<int>
    const msgPrefixSize: nat

    constructor (msgPrefixSize: nat)
      ensures posted == multiset{} && held == multiset{} && this.msgPrefixSize == msgPrefixSize
    {
      posted, held := multiset{}, multiset{};
      this.msgPrefixSize := msgPrefixSize;
    }

    /** Posts the buffers of the layout in order; `failAt` is the first post that fails, if any does. */
    method CreatePacketPool(packetSize: nat, requestedCount: nat, capacity: nat, base: nat, page: nat, failAt: nat)
      returns (ret: bool, layout: Layout)
      requires capacity > 0 && page > 0 && posted == multiset{}
      modifies this`posted
      ensures layout == Layout(packetSize, if requestedCount >= capacity then capacity - 1 else requestedCount, base, page)
      ensures ret <==> failAt >= layout.packetCount
      ensures ret ==> posted == multiset(layout.Posted())
    {
      hide AlignUp, PageUp, Buffers;
      var packetCount := requestedCount;
      if packetCount >= capacity {
        packetCount := capacity - 1;
      }
      layout := Layout(packetSize, packetCount, base, page);
      var alignedPacketSize := AlignUp(packetSize);
      var memPtr := AlignUp(base);
      ret := true;
      NoBuffers(layout.Region(), layout.Stride());
      var i: nat := 0;
      while ret && i < packetCount
        invariant i <= packetCount
        invariant ret <==> failAt >= i
        invariant ret ==> memPtr == layout.Region() + i * layout.Stride()
        invariant ret ==> posted == multiset(Buffers(layout.Region(), layout.Stride(), i))
        decreases packetCount - i
      {
        if failAt == i {
          ret := false;
        } else {
          posted := posted + multiset{memPtr};
        }
        NextBuffer(layout.Region(), layout.Stride(), i);
        memPtr := memPtr + alignedPacketSize;
        i := i + 1;
      }
    }

    /** A posted buffer is now held. */
    method Hold(b: int)
      requires b in posted
      modifies this
      ensures posted + multiset{b} == old(posted) && held == old(held) + multiset{b}
    {
      posted := posted - multiset{b};
      held := held + multiset{b};
    }

    /** A held buffer is posted again, if that succeeds. */
    method PostRxBuffer(b: int, success: bool)
      requires b in held
      modifies this
      ensures held + multiset{b} == old(held)
      ensures posted == if success then old(posted) + multiset{b} else old(posted)
    {
      held := held - multiset{b};
      if success {
        posted := posted + multiset{b};
      }
    }

    /** Completed receives: their buffers are held until freed. */
    method Poll(completions: seq<int>) returns (packets: seq<int>)
      requires multiset(completions) <= posted
      modifies this
      ensures posted + multiset(completions) == old(posted) && held == old(held) + multiset(completions)
      ensures packets == AddPrefix(completions, msgPrefixSize) && Strip(packets, msgPrefixSize) == completions
    {
      hide Strip;
      packets := [];
      var i := 0;
      while i < |completions|
        invariant 0 <= i <= |completions| && packets == AddPrefix(completions[..i], msgPrefixSize)
        invariant posted + multiset(completions[..i]) == old(posted)
        invariant held == old(held) + multiset(completions[..i])
      {
        PrefixStep(completions, i);
        StillThere(old(posted), posted, multiset(completions[..i]), completions[i]);
        ghost var posted0, held0 := posted, held;
        packets := packets + [completions[i] + msgPrefixSize];
        Hold(completions[i]);
        Moved(posted0, posted, multiset(completions[..i]), completions[i]);
        Gathered(old(held), held0, multiset(completions[..i]), completions[i]);
        i := i + 1;
      }
      assert completions[..i] == completions;
      StripOfAdd(completions, msgPrefixSize);
    }

    /** Frees the buffers of a packet list by posting them again; `success` tells which posts succeed. */
    method EfaRxEndpointRxBuffersFree(sgl: seq<int>, success: seq<bool>) returns (rs: Status)
      requires |success| == |sgl|
      requires multiset(Strip(sgl, msgPrefixSize)) <= held
      modifies this
      ensures held + multiset(Strip(sgl, msgPrefixSize)) == old(held)
      ensures posted == old(posted) + multiset(Successful(Strip(sgl, msgPrefixSize), success))
      ensures rs == Ok <==> AllPosted(success)
    {
      hide Strip, Successful, FreedBefore, PostedBefore, AllPosted;
      rs := Ok;
      var i: nat := 0;
      FreedEnds(sgl, success, msgPrefixSize);
      ghost var heldBefore, postedBefore := held, posted;
      while i < |sgl|
        invariant i <= |sgl|
        invariant held + FreedBefore(sgl, msgPrefixSize, i) == heldBefore
        invariant posted == postedBefore + PostedBefore(sgl, success, msgPrefixSize, i)
        invariant rs == Ok <==> AllPosted(success[..i])
      {
        var buffer := sgl[i] - msgPrefixSize;
        NextIsHeld(sgl, success, msgPrefixSize, i, heldBefore, held);
        AllPostedStep(success, i);
        ghost var posted0, held0 := posted, held;
        PostRxBuffer(buffer, success[i]);
        OneFreed(sgl, success, msgPrefixSize, i, heldBefore, postedBefore, held0, posted0, held, posted);
        if !success[i] {
          rs := NotConnected;
        }
        i := i + 1;
      }
    }
  }

  lemma {:induction false} NoBuffers(start: nat, size: nat)
    ensures Buffers(start, size, 0) == []
  {
  }

  lemma {:induction false} NothingFreed(prefix: nat)
    ensures Strip([], prefix) == [] && Successful([], []) == []
  {
  }

  lemma {:induction false} PrefixStep(bs: seq<int>, i: nat)
    requires i < |bs|
    ensures bs[..i + 1] == bs[..i] + [bs[i]]
    ensures multiset(bs[..i]) + multiset{bs[i]} <= multiset(bs)
  {
    assert bs == bs[..i] + [bs[i]] + bs[i + 1..];
  }

  /** What is left still has b, when moving b too would not exceed the whole. */
  lemma {:induction false} StillThere(whole: multiset<int>, left: multiset<int>, moved: multiset<int>, b: int)
    requires left + moved == whole && moved + multiset{b} <= whole
    ensures b in left
  {
    assert (moved + multiset{b})[b] <= whole[b];
  }

  lemma {:induction false} Moved(left: multiset<int>, after: multiset<int>, moved: multiset<int>, b: int)
    requires after + multiset{b} == left
    ensures after + (moved + multiset{b}) == left + moved
  {
  }

  lemma {:induction false} Gathered(start: multiset<int>, now: multiset<int>, moved: multiset<int>, b: int)
    requires now == start + moved
    ensures now + multiset{b} == start + (moved + multiset{b})
  {
  }

  lemma {:induction false} StripPrefix(sgl: seq<int>, prefix: nat, i: nat)
    requires i <= |sgl|
    ensures Strip(sgl, prefix)[..i] == Strip(sgl[..i], prefix)
    ensures i < |sgl| ==> Strip(sgl, prefix)[i] == sgl[i] - prefix
    decreases |sgl|
  {
    if i < |sgl| {
      var n := |sgl| - 1;
      StripPrefix(sgl[..n], prefix, i);
      assert sgl[..n][..i] == sgl[..i];
    } else {
      assert sgl[..i] == sgl;
    }
  }

  lemma {:induction false} NextBuffer(start: nat, size: nat, i: nat)
    ensures Buffers(start, size, i + 1) == Buffers(start, size, i) + [start + i * size]
    ensures start + (i + 1) * size == start + i * size + size
  {
  }

  predicate AllPosted(success: seq<bool>) {
    forall i :: 0 <= i < |success| ==> success[i]
  }

  ghost function FreedBefore(sgl: seq<int>, prefix: nat, i: nat): multiset<int>
    requires i <= |sgl|
  {
    multiset(Strip(sgl[..i], prefix))
  }

  ghost function PostedBefore(sgl: seq<int>, success: seq<bool>, prefix: nat, i: nat): multiset<int>
    requires |success| == |sgl| && i <= |sgl|
  {
    multiset(Successful(Strip(sgl[..i], prefix), success[..i]))
  }

  lemma {:induction false} FreedEnds(sgl: seq<int>, success: seq<bool>, prefix: nat)
    requires |success| == |sgl|
    ensures FreedBefore(sgl, prefix, 0) == multiset{} && PostedBefore(sgl, success, prefix, 0) == multiset{}
    ensures FreedBefore(sgl, prefix, |sgl|) == multiset(Strip(sgl, prefix))
    ensures AllPosted(success[..0]) && success[..|sgl|] == success
    ensures PostedBefore(sgl, success, prefix, |sgl|) == multiset(Successful(Strip(sgl, prefix), success))
  {
    NothingFreed(prefix);
    assert sgl[..|sgl|] == sgl && success[..|sgl|] == success && sgl[..0] == [] && success[..0] == [];
  }

  lemma {:induction false} AllPostedStep(success: seq<bool>, i: nat)
    requires i < |success|
    ensures AllPosted(success[..i + 1]) == (AllPosted(success[..i]) && success[i])
  {
    assert success[..i + 1] == success[..i] + [success[i]];
  }

  lemma {:induction false} FreeStep(sgl: seq<int>, success: seq<bool>, prefix: nat, i: nat)
    requires |success| == |sgl| && i < |sgl|
    ensures FreedBefore(sgl, prefix, i + 1) == FreedBefore(sgl, prefix, i) + multiset{sgl[i] - prefix}
    ensures FreedBefore(sgl, prefix, i + 1) <= multiset(Strip(sgl, prefix))
    ensures AllPosted(success[..i + 1]) == (AllPosted(success[..i]) && success[i])
    ensures if success[i] then
              PostedBefore(sgl, success, prefix, i + 1) == PostedBefore(sgl, success, prefix, i) + multiset{sgl[i] - prefix}
            else PostedBefore(sgl, success, prefix, i + 1) == PostedBefore(sgl, success, prefix, i)
  {
    hide Strip, Successful, AllPosted;
    AllPostedStep(success, i);
    StripStep(sgl, prefix, i);
    StripPrefix(sgl, prefix, i);
    StripPrefix(sgl, prefix, i + 1);
    PrefixStep(Strip(sgl, prefix), i);
    SuccessfulStep(Strip(sgl[..i], prefix), success, sgl[i] - prefix, i);
  }

  lemma {:induction false} NextIsHeld(sgl: seq<int>, success: seq<bool>, prefix: nat, i: nat,
                                      before: multiset<int>, held: multiset<int>)
    requires |success| == |sgl| && i < |sgl| && multiset(Strip(sgl, prefix)) <= before
    requires held + FreedBefore(sgl, prefix, i) == before
    ensures sgl[i] - prefix in held
  {
    hide Strip, FreedBefore, PostedBefore, AllPosted;
    FreeStep(sgl, success, prefix, i);
    StillThere(before, held, FreedBefore(sgl, prefix, i), sgl[i] - prefix);
  }

  /** What one round of the loop does to the sets of buffers. */
  lemma {:induction false} OneFreed(sgl: seq<int>, success: seq<bool>, prefix: nat, i: nat,
                                    heldBefore: multiset<int>, postedBefore: multiset<int>,
                                    held0: multiset<int>, posted0: multiset<int>, held: multiset<int>, posted: multiset<int>)
    requires |success| == |sgl| && i < |sgl|
    requires held0 + FreedBefore(sgl, prefix, i) == heldBefore
    requires posted0 == postedBefore + PostedBefore(sgl, success, prefix, i)
    requires held + multiset{sgl[i] - prefix} == held0
    requires posted == if success[i] then posted0 + multiset{sgl[i] - prefix} else posted0
    ensures held + FreedBefore(sgl, prefix, i + 1) == heldBefore
    ensures posted == postedBefore + PostedBefore(sgl, success, prefix, i + 1)
  {
    hide Strip, FreedBefore, PostedBefore, AllPosted;
    var b := sgl[i] - prefix;
    FreeStep(sgl, success, prefix, i);
    Moved(held0, held, FreedBefore(sgl, prefix, i), b);
    Gathered(postedBefore, posted0, PostedBefore(sgl, success, prefix, i), b);
  }

  lemma {:induction false} StripStep(sgl: seq<int>, prefix: nat, i: nat)
    requires i < |sgl|
    ensures Strip(sgl[..i + 1], prefix) == Strip(sgl[..i], prefix) + [sgl[i] - prefix]
  {
    assert sgl[..i + 1][..i] == sgl[..i];
  }

  lemma {:induction false} SuccessfulStep(bs: seq<int>, success: seq<bool>, b: int, i: nat)
    requires i < |success| && |bs| == i
    ensures Successful(bs + [b], success[..i + 1]) == Successful(bs, success[..i]) + if success[i] then [b] else []
  {
    assert success[..i + 1][..i] == success[..i] && (bs + [b])[..i] == bs;
  }
}
