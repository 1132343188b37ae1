/**
 The ring as one thread sees it: the build without shared access, where `tail_allocated` and
 `tail` are one counter. It is a bounded first-in first-out queue of (handle, payload) pairs
 with a second read position for the writer.
 */
module Ring {
  import opened Common
  import opened Pipeline
  import opened PipelineInv

  lemma {:induction false} SlotAdd(p: nat, i: nat, cap: nat)
    requires cap > 0
    ensures Slot(Slot(p, cap) + i, cap) == Slot(p + i, cap)
  {
    if p >= cap {
      SlotAdd(p - cap, i, cap);
    }
  }

  /** n more entries can be stored without overwriting a live one or each other. */
  ghost predicate NoOverwrite(head: nat, tail: nat, n: nat, cap: nat)
    requires cap > 0
  {
    forall q, r :: head <= q < r < tail + n && tail <= r ==> Slot(q, cap) != Slot(r, cap)
  }

  /** `push_n` tests for one free slot only; storing all is safe exactly when all fit. */
  lemma {:induction false} NoOverwriteIff(head: nat, tail: nat, n: nat, cap: nat)
    requires cap > 0 && head <= tail <= head + cap && n > 0
    ensures NoOverwrite(head, tail, n, cap) <==> tail + n <= head + cap
  {
    if tail + n <= head + cap {
      forall q, r | head <= q < r < tail + n && tail <= r ensures Slot(q, cap) != Slot(r, cap) {
        SlotsDistinct(q, r, cap);
      }
    } else {
      assert Slot(head + cap, cap) == Slot(head, cap);
    }
  }

  lemma {:induction false} JoinGrows(bufs: seq<string>, buf: string)
    ensures |WriteBatch.Join(bufs + [buf])| == |WriteBatch.Join(bufs)| + |buf|
  {
    WriteBatch.JoinConcat(bufs, [buf]);
    assert WriteBatch.Join([buf]) == buf;
  }

  class MPSCRing {
    const cap: nat
    const handles: array<int>
    const payloads: array<string>
    var head: nat
    var committed: nat
    var tail: nat  // a 64-bit word, STOP_BIT on top of the position

    ghost predicate Shape() {
      0 < cap == handles.Length == payloads.Length
    }

    ghost predicate Valid() reads this {
      Shape() && head <= committed <= Position() <= head + cap && Position() < STOP_BIT
    }

    predicate Stopped() reads this { tail >= STOP_BIT }

    function Position(): nat reads this { if Stopped() then tail - STOP_BIT else tail }

    ghost function At(q: nat): Entry
      requires Shape()
      reads handles, payloads
    {
      Entry(handles[Slot(q, cap)], payloads[Slot(q, cap)])
    }

    /** The entries of the positions lo .. hi. */
    ghost function Window(lo: nat, hi: nat): (w: seq<Entry>)
      requires Shape() && lo <= hi
      reads handles, payloads
      ensures |w| == hi - lo && forall k :: 0 <= k < hi - lo ==> w[k] == At(lo + k)
    {
      seq(hi - lo, k requires 0 <= k < hi - lo reads handles, payloads requires Shape() => At(lo + k))
    }

    /** The entries not popped yet. */
    ghost function Live(): seq<Entry>
      requires Valid()
      reads this, handles, payloads
    {
      Window(head, Position())
    }

    constructor (capacity: nat)
      requires capacity > 0
      ensures Valid() && cap == capacity && Live() == [] && !Stopped() && fresh(handles) && fresh(payloads)
      ensures head == committed == tail == 0
    {
      cap := capacity;
      handles := new int[capacity];
      payloads := new string[capacity];
      head, committed, tail := 0, 0, 0;
    }

    /** -2 after a stop, -1 when full, otherwise the entries follow the live ones in order; when they
        do not fit, one of them has replaced the oldest live entry. */
    method PushN(hs: seq<int>, ps: seq<string>) returns (r: int)
      requires Valid() && |hs| == |ps| > 0 && tail + |hs| < STOP_BIT + STOP_BIT
      requires !Stopped() ==> tail + |hs| < STOP_BIT
      modifies this`tail, handles, payloads
      ensures -2 <= r < cap && (r == -2 <==> old(Stopped()))
      ensures r == -1 <==> !old(Stopped()) && |old(Live())| == cap
      ensures r < 0 ==> unchanged(this, handles, payloads)
      ensures r >= 0 ==> r == Slot(old(tail), cap) && tail == old(tail) + |hs|
      ensures r >= 0 && |hs| <= cap ==> forall k :: 0 <= k < |hs| ==> At(old(tail) + k) == Entry(hs[k], ps[k])
      ensures r >= 0 ==> forall q: nat :: q < old(tail) && tail <= q + cap ==> At(q) == old(At(q))
      ensures r >= 0 && |old(Live())| + |hs| <= cap ==>
        Valid() && Live() == old(Live()) + seq(|hs|, k requires 0 <= k < |hs| => Entry(hs[k], ps[k]))
      ensures r >= 0 && |hs| <= cap < |old(Live())| + |hs| ==>
        var k := cap - |old(Live())|; At(head) == Entry(hs[k], ps[k])
    {
      if tail >= STOP_BIT {
        return -2;
      }
      if tail - head >= cap {
        return -1;
      }
      r := Slot(tail, cap);
      ghost var t, n := tail, |hs|;
      tail := tail + |hs|;
      Store(r, t, hs, ps);
      if t + n <= head + cap {
        ghost var more := seq(n, k requires 0 <= k < n => Entry(hs[k], ps[k]));
        assert Live()[..t - head] == old(Live());
        assert Live()[t - head..] == more;
        assert Live() == Live()[..t - head] + Live()[t - head..] == old(Live()) + more;
      } else if n <= cap {
        assert At(head) == At(t + (head + cap - t));
      }
    }

    /** The loop of a push: entry k goes to the slot of position t + k. */
    method Store(pos: nat, ghost t: nat, hs: seq<int>, ps: seq<string>)
      requires Shape() && |hs| == |ps| && pos == Slot(t, cap)
      modifies handles, payloads
      ensures |hs| <= cap ==> forall k :: 0 <= k < |hs| ==> At(t + k) == Entry(hs[k], ps[k])
      ensures forall q: nat :: q < t && t + |hs| <= q + cap ==> At(q) == old(At(q))
    {
      var i := 0;
      while i < |hs|
        invariant i <= |hs|
        invariant |hs| <= cap ==> forall k :: 0 <= k < i ==> At(t + k) == Entry(hs[k], ps[k])
        invariant forall q: nat :: q < t && t + |hs| <= q + cap ==> At(q) == old(At(q))
      {
        var idx := Slot(pos + i, cap);
        SlotAdd(t, i, cap);
        forall q: nat | q < t + i < q + cap ensures Slot(q, cap) != idx {
          SlotsDistinct(q, t + i, cap);
        }
        handles[idx] := hs[i];
        payloads[idx] := ps[i];
        i := i + 1;
      }
    }

    method Push(h: int, sv: string) returns (r: int)
      requires Valid() && (!Stopped() ==> tail + 1 < STOP_BIT)
      modifies this`tail, handles, payloads
      ensures Valid()
      ensures -2 <= r < cap && (r == -2 <==> old(Stopped()))
      ensures r == -1 <==> !old(Stopped()) && |old(Live())| == cap
      ensures r < 0 ==> unchanged(this, handles, payloads)
      ensures r >= 0 ==> r == Slot(old(tail), cap) && Live() == old(Live()) + [Entry(h, sv)]
    {
      if tail >= STOP_BIT {
        return -2;
      }
      if tail - head >= cap {
        return -1;
      }
      var pos := Slot(tail, cap);
      forall q | head <= q < tail ensures Slot(q, cap) != pos {
        SlotsDistinct(q, tail, cap);
      }
      tail := tail + 1;
      handles[pos] := h;
      payloads[pos] := sv;
      r := pos;
      assert Live() == old(Live()) + [Entry(h, sv)];
    }

    /** The oldest live entry leaves the ring. It has been sent: a reply to it has arrived. */
    method Pop() returns (h: int, sv: string)
      requires Valid() && head < committed
      modifies this`head
      ensures Valid() && old(Live()) == [Entry(h, sv)] + Live()
    {
      var pos := Slot(head, cap);
      head := head + 1;
      h, sv := handles[pos], payloads[pos];
      assert old(Live()) == [Entry(h, sv)] + Live();
    }

    /** The writer claims the oldest unsent payloads, at most numEvs of them. */
    method PrepWritev(numEvs: nat) returns (iov: seq<string>, totalBytes: nat)
      requires Valid() && !Stopped()
      modifies this`committed
      ensures Valid() && Live() == old(Live())
      ensures |iov| == Min(tail - old(committed), numEvs) && committed == old(committed) + |iov|
      ensures forall k :: 0 <= k < |iov| ==> iov[k] == Live()[old(committed) - head + k].payload
      ensures totalBytes == |WriteBatch.Join(iov)|
    {
      var start := committed;
      var n := if tail - start < numEvs then tail - start else numEvs;
      committed := committed + n;
      iov, totalBytes := Gather(start, n);
    }

    /** The loop of `prep_writev`. */
    method Gather(start: nat, n: nat) returns (iov: seq<string>, totalBytes: nat)
      requires Shape()
      ensures |iov| == n && forall k :: 0 <= k < n ==> iov[k] == At(start + k).payload
      ensures totalBytes == |WriteBatch.Join(iov)|
    {
      iov, totalBytes := [], 0;
      var i := 0;
      while i < n
        invariant 0 <= i <= n && |iov| == i && totalBytes == |WriteBatch.Join(iov)|
        invariant forall k :: 0 <= k < i ==> iov[k] == At(start + k).payload
      {
        var payload := payloads[Slot(start + i, cap)];
        JoinGrows(iov, payload);
        iov := iov + [payload];
        totalBytes := totalBytes + |payload|;
        i := i + 1;
      }
    }

    /** Every live entry is resumed with a connection error, in order; no push succeeds from now on. */
    method Drain() returns (events: seq<Event>)
      requires Valid() && !Stopped()
      modifies this`tail
      ensures Valid() && Stopped() && Live() == old(Live())
      ensures events == ErrEvents(Live(), 0, |Live()|)
    {
      var t := tail;
      tail := tail + STOP_BIT;
      assert Live() == old(Live());
      events := [];
      var i := head;
      while i != t
        invariant head <= i <= t
        invariant events == ErrEvents(Live(), 0, i - head)
      {
        events := events + [Event(handles[Slot(i, cap)], ConnErr)];
        assert Live()[i - head] == At(i);
        i := i + 1;
      }
    }

    method Reset()
      requires Valid()
      modifies this
      ensures Valid() && Live() == [] && !Stopped() && head == committed == tail == 0
    {
      head, committed, tail := 0, 0, 0;
    }
  }

  /** A batch that passes the test and is too large: with one slot free of four, the second of two
      entries takes the place of the oldest live one, which has not been popped. */
  method OneFreeSlotIsNotEnough() returns (ring: MPSCRing, r: int, ghost before: seq<Entry>)
    ensures fresh(ring) && ring.Shape() && ring.cap == 4 && ring.head == 0 && r >= 0
    ensures before == [Entry(1, "a"), Entry(2, "b"), Entry(3, "c")] && ring.At(0) == Entry(5, "e")
  {
    ring := new MPSCRing(4);
    r := ring.PushN([1, 2, 3], ["a", "b", "c"]);
    before := ring.Live();
    assert |before| == 3;
    r := ring.PushN([4, 5], ["d", "e"]);
  }
}
