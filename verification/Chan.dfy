/**
  The channel itself: a ring buffer with two indices and two wait queues, each operation one critical
  section under the channel's lock. Every operation does exactly one step of the specification.
 */
module Channels {
  import opened ChanSpec
  import opened Options

  /** Position x of a ring of n slots, for x below 2 * n. */
  function Wrap(x: nat, n: nat): nat {
    if x < n then x else x - n
  }

  /** The live part of the ring, oldest value first. */
  function Window<T>(slots: seq<T>, recvx: nat, qcount: nat): seq<T>
    requires qcount <= |slots| && (recvx < |slots| || qcount == 0)
  {
    seq(qcount, i requires 0 <= i < qcount => slots[Wrap(recvx + i, |slots|)])
  }

  /** Slot j of a ring of n is part of the live stretch of qcount slots from recvx on. */
  predicate Live(j: nat, recvx: nat, qcount: nat, n: nat) {
    recvx <= j < recvx + qcount || j + n < recvx + qcount
  }

  /** A value appended at the send index. */
  lemma WindowPush<T>(slots: seq<T>, recvx: nat, qcount: nat, x: T)
    requires qcount < |slots| && recvx < |slots|
    ensures Window(slots[Wrap(recvx + qcount, |slots|) := x], recvx, qcount + 1) == Window(slots, recvx, qcount) + [x]
  {
    var a, b := Window(slots[Wrap(recvx + qcount, |slots|) := x], recvx, qcount + 1),
                Window(slots, recvx, qcount) + [x];
    forall i | 0 <= i < |a| ensures a[i] == b[i] {
      assert Wrap(recvx + i, |slots|) < |slots|;
    }
  }

  /** A value taken at the receive index; what is written to the vacated slot does not matter. */
  lemma WindowPop<T>(slots: seq<T>, recvx: nat, qcount: nat, x: T)
    requires 0 < qcount <= |slots| && recvx < |slots|
    ensures Window(slots, recvx, qcount)[0] == slots[recvx]
    ensures Window(slots[recvx := x], Wrap(recvx + 1, |slots|), qcount - 1) == Window(slots, recvx, qcount)[1..]
  {
    var n, next := |slots|, Wrap(recvx + 1, |slots|);
    var a, b := Window(slots[recvx := x], next, qcount - 1), Window(slots, recvx, qcount);
    assert b[0] == slots[Wrap(recvx, n)];
    forall i | 0 <= i < |a| ensures a[i] == b[1..][i] {
      assert b[i + 1] == slots[Wrap(recvx + (i + 1), n)];
      assert Wrap(next + i, n) == Wrap(recvx + (i + 1), n) != recvx;
    }
  }

  /** A full ring whose head is replaced: the new value becomes the youngest. */
  lemma WindowRotate<T>(slots: seq<T>, recvx: nat, x: T)
    requires recvx < |slots|
    ensures Window(slots[recvx := x], Wrap(recvx + 1, |slots|), |slots|) == Window(slots, recvx, |slots|)[1..] + [x]
  {
    var n, next := |slots|, Wrap(recvx + 1, |slots|);
    var a, b := Window(slots[recvx := x], next, n), Window(slots, recvx, n)[1..] + [x];
    forall i | 0 <= i < n ensures a[i] == b[i] {
      if i < n - 1 {
        assert Window(slots, recvx, n)[i + 1] == slots[Wrap(recvx + (i + 1), n)];
        assert Wrap(next + i, n) == Wrap(recvx + (i + 1), n) != recvx;
      } else {
        assert Wrap(next + i, n) == recvx;
      }
    }
  }

  class HChan<T> {
    const dataqsiz: nat
    const buf: array<T>
    const zero: T
    var qcount: nat
    var sendx: nat
    var recvx: nat
    var closed: bool
    var recvq: seq<nat>
    var sendq: seq<Send<T>>
    ghost var state: Chan<T>

    /** The ring is well formed, and slots outside its live part hold nothing. */
    ghost predicate Ring()
      reads this`qcount, this`sendx, this`recvx, buf
    {
      && buf.Length == dataqsiz && qcount <= dataqsiz
      && (if dataqsiz == 0 then sendx == recvx == 0
          else recvx < dataqsiz && sendx == Wrap(recvx + qcount, dataqsiz))
      && (forall j :: 0 <= j < dataqsiz && !Live(j, recvx, qcount, dataqsiz) ==> buf[j] == zero)
    }

    ghost function Contents(): seq<T>
      requires Ring()
      reads this`qcount, this`sendx, this`recvx, buf
    {
      Window(buf[..], recvx, qcount)
    }

    ghost predicate Valid()
      reads this, buf
    {
      && Ring()
      && state == Chan(dataqsiz, closed, Contents(), sendq, recvq, state.offers, state.asks, state.delivered)
      && Inv(state)
    }

    constructor MakeChan(size: nat, zero: T)
      ensures Valid() && state == New(size) && fresh(buf)
    {
      dataqsiz, this.zero := size, zero;
      buf := new T[size](_ => zero);
      qcount, sendx, recvx, closed, recvq, sendq := 0, 0, 0, false, [], [];
      state := New(size);
      new;
      assert Contents() == [];
    }

    predicate IsFull()
      reads this
    {
      if dataqsiz == 0 then recvq == [] else qcount == dataqsiz
    }

    predicate IsEmpty()
      reads this
    {
      if dataqsiz == 0 then sendq == [] else qcount == 0
    }

    /** Copies a value into the send slot and advances the send index round the ring. */
    method Put(elem: T)
      requires Ring() && qcount < dataqsiz
      modifies this`qcount, this`sendx, buf
      ensures Ring() && Contents() == old(Contents()) + [elem]
    {
      WindowPush(buf[..], recvx, qcount, elem);
      ghost var was := buf[..];
      buf[sendx] := elem;
      assert buf[..] == was[sendx := elem];
      sendx := sendx + 1;
      if sendx == dataqsiz {
        sendx := 0;
      }
      qcount := qcount + 1;
    }

    /** Takes the value in the receive slot, clears the slot, and advances the receive index. */
    method Take() returns (x: T)
      requires Ring() && qcount > 0
      modifies this`qcount, this`recvx, buf
      ensures Ring() && [x] + Contents() == old(Contents())
    {
      WindowPop(buf[..], recvx, qcount, zero);
      ghost var was, first, count := buf[..], recvx, qcount;
      x := buf[recvx];
      buf[recvx] := zero;
      assert buf[..] == was[first := zero];
      recvx := recvx + 1;
      if recvx == dataqsiz {
        recvx := 0;
      }
      qcount := qcount - 1;
    }

    /**
      Receiving while a sender waits. Without a buffer the value comes straight from the sender; with one,
      it comes from the head of the full ring and the sender's value goes into the slot just freed.
     */
    method Recv(sg: Send<T>) returns (x: T)
      requires Ring() && qcount == dataqsiz
      modifies this`sendx, this`recvx, buf
      ensures Ring() && [x] + Contents() == old(Contents()) + [sg.elem]
    {
      if dataqsiz == 0 {
        return sg.elem;
      }
      WindowPop(buf[..], recvx, qcount, zero);
      WindowRotate(buf[..], recvx, sg.elem);
      ghost var was, first := buf[..], recvx;
      x := buf[recvx];
      buf[recvx] := sg.elem;
      assert buf[..] == was[first := sg.elem];
      recvx := recvx + 1;
      if recvx == dataqsiz {
        recvx := 0;
      }
      sendx := recvx;
    }

    /** `ready` is the blocked receiver that this send serves and wakes, if there is one. */
    method ChanSend(g: nat, elem: T, blocking: bool) returns (r: SendResult, ready: Option<nat>)
      requires Valid()
      modifies this, buf
      ensures Valid()
      ensures (state, r) == SendStep(old(state), Send(g, elem), blocking)
      ensures state.delivered == old(state.delivered) + (if ready.Some? then [(ready.value, elem)] else [])
    {
      SendKeepsInv(state, Send(g, elem), blocking);
      ghost var next := SendStep(state, Send(g, elem), blocking).0;
      // Fast path, without the lock.
      if !blocking && !closed && IsFull() {
        return SendWouldBlock, None;
      }
      if closed {
        return SendOnClosed, None;
      }
      if recvq != [] {
        // The value goes straight to whoever waits longest.
        ready := Some(recvq[0]);
        recvq, state := recvq[1..], next;
        return Sent, ready;
      }
      if qcount < dataqsiz {
        Put(elem);
        state := next;
        return Sent, None;
      }
      if !blocking {
        return SendWouldBlock, None;
      }
      sendq, state := sendq + [Send(g, elem)], next;
      return SendParked, None;
    }

    /** `ready` is the blocked sender whose value this receive takes in and who may go on, if there is one. */
    method ChanRecv(g: nat, blocking: bool) returns (r: RecvResult<T>, ready: Option<nat>)
      requires Valid()
      modifies this, buf
      ensures Valid()
      ensures (state, r) == RecvStep(old(state), g, blocking)
      ensures ready == if !old(closed) && old(sendq) != [] then Some(old(sendq)[0].g) else None
    {
      RecvKeepsInv(state, g, blocking);
      ghost var next := RecvStep(state, g, blocking).0;
      // Fast path, without the lock.
      if !blocking && IsEmpty() {
        if !closed {
          return RecvWouldBlock, None;
        }
        if IsEmpty() {
          return RecvZero, None;
        }
      }
      if closed {
        if qcount == 0 {
          return RecvZero, None;
        }
      } else if sendq != [] {
        var sg := sendq[0];
        ghost var queue := Contents() + [sg.elem];
        var x := Recv(sg);
        assert x == queue[0] && Contents() == queue[1..];
        sendq, state := sendq[1..], next;
        return Received(x), Some(sg.g);
      }
      if qcount > 0 {
        ghost var queue := Contents();
        var x := Take();
        assert x == queue[0] && Contents() == queue[1..];
        state := next;
        return Received(x), None;
      }
      if !blocking {
        return RecvWouldBlock, None;
      }
      recvq, state := recvq + [g], next;
      return RecvParked, None;
    }

    /** Closing: true unless the channel was closed before, which is a panic. Everyone who waits is woken. */
    method CloseChan() returns (ok: bool, losers: seq<nat>, panicking: seq<Send<T>>)
      requires Valid()
      modifies this
      ensures Valid() && state == CloseStep(old(state)) && ok == !old(closed)
      ensures ok ==> losers == old(recvq) && panicking == old(sendq)
    {
      CloseKeepsInv(state);
      if closed {
        return false, [], [];
      }
      losers, panicking := recvq, sendq;
      closed, recvq, sendq, state := true, [], [], CloseStep(state);
      ok := true;
    }
  }
}
