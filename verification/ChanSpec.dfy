/**
  Channels as a state machine whose steps are the critical sections of send, receive and close.
  Two histories explain the whole state: the sends that were accepted, in order, and the receives
  that were accepted, in order.
 */
module ChanSpec {

  datatype Send<T> = Send(g: nat, elem: T)

  datatype Chan<T> = Chan(
    cap: nat,
    closed: bool,
    buf: seq<T>,             // buffered values, oldest first
    sendq: seq<Send<T>>,     // blocked senders, oldest first
    recvq: seq<nat>,         // blocked receivers, oldest first
    offers: seq<Send<T>>,    // history: every send that was not refused
    asks: seq<nat>,          // history: every receive that was not refused
    delivered: seq<(nat, T)> // history: who was given what
  )

  datatype SendResult = Sent | SendParked | SendWouldBlock | SendOnClosed
  datatype RecvResult<T> = Received(elem: T) | RecvParked | RecvWouldBlock | RecvZero

  datatype Event<T> = DoSend(s: Send<T>, blocking: bool) | DoRecv(g: nat, blocking: bool) | DoClose

  function New<T>(cap: nat): Chan<T> {
    Chan(cap, false, [], [], [], [], [], [])
  }

  /** A send: to a waiting receiver, else into the buffer, else wait or give up. */
  function SendStep<T>(c: Chan<T>, s: Send<T>, blocking: bool): (Chan<T>, SendResult) {
    if c.closed then (c, SendOnClosed)
    else if c.recvq != [] then
      (c.(recvq := c.recvq[1..], offers := c.offers + [s], delivered := c.delivered + [(c.recvq[0], s.elem)]), Sent)
    else if |c.buf| < c.cap then
      (c.(buf := c.buf + [s.elem], offers := c.offers + [s]), Sent)
    else if !blocking then (c, SendWouldBlock)
    else (c.(sendq := c.sendq + [s], offers := c.offers + [s]), SendParked)
  }

  /** A receive: with a waiting sender's help, else from the buffer, else wait or give up. */
  function RecvStep<T>(c: Chan<T>, g: nat, blocking: bool): (Chan<T>, RecvResult<T>) {
    if c.closed && c.buf == [] then (c, RecvZero)
    else if !c.closed && c.sendq != [] then
      // Unbuffered: straight from the sender. Buffered: the head of the queue, and the sender's value joins the tail.
      var queue := c.buf + [c.sendq[0].elem];
      (c.(buf := queue[1..], sendq := c.sendq[1..], asks := c.asks + [g],
          delivered := c.delivered + [(g, queue[0])]), Received(queue[0]))
    else if c.buf != [] then
      (c.(buf := c.buf[1..], asks := c.asks + [g], delivered := c.delivered + [(g, c.buf[0])]), Received(c.buf[0]))
    else if !blocking then (c, RecvWouldBlock)
    else (c.(recvq := c.recvq + [g], asks := c.asks + [g]), RecvParked)
  }

  /** Closing: blocked receivers leave with the zero value, blocked senders panic; neither counts as accepted any more. */
  function CloseStep<T>(c: Chan<T>): Chan<T> {
    if c.closed then c
    else c.(closed := true, sendq := [], recvq := [],
            offers := WithoutLast(c.offers, |c.sendq|), asks := WithoutLast(c.asks, |c.recvq|))
  }

  function WithoutLast<A>(s: seq<A>, n: nat): seq<A> {
    if n <= |s| then s[..|s| - n] else []
  }

  function Step<T>(c: Chan<T>, e: Event<T>): Chan<T> {
    match e
    case DoSend(s, blocking) => SendStep(c, s, blocking).0
    case DoRecv(g, blocking) => RecvStep(c, g, blocking).0
    case DoClose => CloseStep(c)
  }

  ghost predicate IsRun<T>(cap: nat, w: seq<Chan<T>>, ev: seq<Event<T>>) {
    && |w| == |ev| + 1
    && w[0] == New(cap)
    && forall i :: 0 <= i < |ev| ==> w[i + 1] == Step(w[i], ev[i])
  }

  // ----- the state as a function of the two histories -----

  function Elems<T>(offers: seq<Send<T>>): (r: seq<T>) {
    seq(|offers|, i requires 0 <= i < |offers| => offers[i].elem)
  }

  /** Receive number i is given the value of send number i. */
  function Matched<T>(asks: seq<nat>, offers: seq<Send<T>>, k: nat): seq<(nat, T)>
    requires k <= |asks| && k <= |offers|
  {
    seq(k, i requires 0 <= i < k => (asks[i], offers[i].elem))
  }

  function Min(a: nat, b: nat): nat {
    if a <= b then a else b
  }

  /**
    The k = min(sends, receives) first of each have met, in order. Of the sends beyond k the first `cap` are
    in the buffer and the rest are blocked; the receives beyond k are blocked.
   */
  ghost predicate Inv<T>(c: Chan<T>) {
    var n := |c.offers|;
    var k := Min(n, |c.asks|);
    var top := Min(n, k + c.cap);
    && c.delivered == Matched(c.asks, c.offers, k)
    && c.buf == Elems(c.offers[k..top])
    && c.sendq == c.offers[top..]
    && c.recvq == c.asks[k..]
    && (c.closed ==> c.sendq == [] && c.recvq == [])
  }

  lemma SendKeepsInv<T>(c: Chan<T>, s: Send<T>, blocking: bool)
    requires Inv(c)
    ensures Inv(SendStep(c, s, blocking).0)
  {
    if !c.closed && c.recvq == [] && |c.buf| < c.cap {
      SendJoinsBuffer(c, s, blocking);
    }
  }

  /** A send that finds room goes to the end of the buffer. */
  lemma SendJoinsBuffer<T>(c: Chan<T>, s: Send<T>, blocking: bool)
    requires Inv(c) && !c.closed && c.recvq == [] && |c.buf| < c.cap
    ensures Inv(SendStep(c, s, blocking).0)
  {
    var m, n := |c.asks|, |c.offers|;
    var offers := c.offers + [s];
    assert offers[..m] == c.offers[..m];
    assert offers[m..n + 1] == c.offers[m..n] + [s];
    assert Elems(offers[m..n + 1]) == Elems(c.offers[m..n]) + [s.elem];
  }

  lemma RecvKeepsInv<T>(c: Chan<T>, g: nat, blocking: bool)
    requires Inv(c)
    ensures Inv(RecvStep(c, g, blocking).0)
  {
    var m := |c.asks|;
    if !c.closed && c.sendq != [] {
      HandOver(c, g, blocking);
    } else if c.buf != [] {
      var top := Min(|c.offers|, m + c.cap);
      assert (c.asks + [g])[..m] == c.asks;
      assert Elems(c.offers[m..top])[1..] == Elems(c.offers[m + 1..top]);
    }
  }

  /** A receive that takes the head of the queue while the first blocked sender joins the tail. */
  lemma HandOver<T>(c: Chan<T>, g: nat, blocking: bool)
    requires Inv(c) && !c.closed && c.sendq != []
    ensures Inv(RecvStep(c, g, blocking).0)
  {
    var m, c' := |c.asks|, RecvStep(c, g, blocking).0;
    var top := m + c.cap;
    var queue := c.offers[m..top + 1];
    assert c'.asks[..m] == c.asks;
    assert queue == c.offers[m..top] + [c.sendq[0]];
    assert c.buf + [c.sendq[0].elem] == Elems(queue);
    assert queue[1..] == c.offers[m + 1..top + 1];
    assert c'.buf == Elems(queue[1..]);
  }

  lemma CloseKeepsInv<T>(c: Chan<T>)
    requires Inv(c)
    ensures Inv(CloseStep(c))
    ensures !c.closed ==> CloseStep(c).closed
  {
  }

  lemma {:induction false} RunKeepsInv<T>(cap: nat, w: seq<Chan<T>>, ev: seq<Event<T>>, i: nat)
    requires IsRun(cap, w, ev) && i < |w|
    ensures Inv(w[i]) && w[i].cap == cap
  {
    if i > 0 {
      RunKeepsInv(cap, w, ev, i - 1);
      match ev[i - 1]
      case DoSend(s, blocking) => SendKeepsInv(w[i - 1], s, blocking);
      case DoRecv(g, blocking) => RecvKeepsInv(w[i - 1], g, blocking);
      case DoClose => CloseKeepsInv(w[i - 1]);
    }
  }

  // ----- what programs rely on -----

  /**
    First in, first out: in every state of every run the delivered values are a prefix of the accepted sends,
    in order, and the i-th receiver to arrive got the i-th of them.
   */
  lemma Fifo<T>(cap: nat, w: seq<Chan<T>>, ev: seq<Event<T>>, i: nat, d: nat)
    requires IsRun(cap, w, ev) && i < |w| && d < |w[i].delivered|
    ensures d < |w[i].offers| && d < |w[i].asks|
    ensures w[i].delivered[d] == (w[i].asks[d], w[i].offers[d].elem)
  {
    RunKeepsInv(cap, w, ev, i);
  }

  /** Nothing accepted is lost: what has not been delivered is in the buffer or with a blocked sender, in order. */
  lemma Conservation<T>(cap: nat, w: seq<Chan<T>>, ev: seq<Event<T>>, i: nat)
    requires IsRun(cap, w, ev) && i < |w|
    ensures var c := w[i];
            && |c.delivered| <= |c.offers|
            && Elems(c.offers) == Elems(c.offers[..|c.delivered|]) + c.buf + Elems(c.sendq)
            && (forall d :: 0 <= d < |c.delivered| ==> c.delivered[d].1 == Elems(c.offers)[d])
  {
    RunKeepsInv(cap, w, ev, i);
  }

  /** Receivers wait only on an empty channel, and senders wait only behind a full buffer. */
  lemma WaitQueues<T>(cap: nat, w: seq<Chan<T>>, ev: seq<Event<T>>, i: nat)
    requires IsRun(cap, w, ev) && i < |w|
    ensures w[i].recvq != [] ==> w[i].buf == [] && w[i].sendq == []
    ensures w[i].sendq != [] ==> |w[i].buf| == cap
    ensures |w[i].buf| <= cap
  {
    RunKeepsInv(cap, w, ev, i);
  }

  /** A receive answers "closed" only when every accepted value has been delivered: the buffer drains first. */
  lemma DrainsBeforeZero<T>(cap: nat, w: seq<Chan<T>>, ev: seq<Event<T>>, i: nat, g: nat, blocking: bool)
    requires IsRun(cap, w, ev) && i < |w|
    ensures RecvStep(w[i], g, blocking).1 == RecvZero
            <==> w[i].closed && |w[i].delivered| == |w[i].offers|
  {
    RunKeepsInv(cap, w, ev, i);
  }

  /** What was delivered stays delivered, and a closed channel stays closed and takes nothing more. */
  lemma {:induction false} HistoryGrows<T>(cap: nat, w: seq<Chan<T>>, ev: seq<Event<T>>, i: nat, j: nat)
    requires IsRun(cap, w, ev) && i <= j < |w|
    ensures w[i].delivered <= w[j].delivered
    ensures w[i].closed ==> w[j].closed && w[j].offers == w[i].offers
    decreases j
  {
    RunKeepsInv(cap, w, ev, j);
    if i < j {
      HistoryGrows(cap, w, ev, i, j - 1);
      RunKeepsInv(cap, w, ev, j - 1);
    }
  }

  // ----- the answer of every operation, from the histories -----

  /**
    A send is refused for good on a closed channel. On an open one it goes through if and only if fewer than
    `cap` of the accepted sends are still without a receive, and is matched at once if a receive is waiting for it;
    otherwise it parks or, if it may not block, is refused.
   */
  lemma SendAnswers<T>(cap: nat, w: seq<Chan<T>>, ev: seq<Event<T>>, i: nat, s: Send<T>, blocking: bool)
    requires IsRun(cap, w, ev) && i < |w|
    ensures var c, (c', r) := w[i], SendStep(w[i], s, blocking);
            && (r == SendOnClosed <==> c.closed)
            && (r == Sent <==> !c.closed && |c.offers| < |c.asks| + cap)
            && (r == SendParked <==> !c.closed && |c.offers| >= |c.asks| + cap && blocking)
            && (r == SendWouldBlock <==> !c.closed && |c.offers| >= |c.asks| + cap && !blocking)
    ensures var c, (c', r) := w[i], SendStep(w[i], s, blocking);
            && c'.offers == c.offers + (if r == Sent || r == SendParked then [s] else [])
            && c'.asks == c.asks && c'.closed == c.closed && c'.cap == c.cap
            && c'.delivered == c.delivered
                 + (if r == Sent && |c.offers| < |c.asks| then [(c.asks[|c.offers|], s.elem)] else [])
            && (r == SendOnClosed || r == SendWouldBlock ==> c' == c)
  {
    RunKeepsInv(cap, w, ev, i);
  }

  /**
    A receive is answered with a value if and only if some accepted send is still without a receive, and then with
    the value of the first such send. Otherwise it gets the zero value from a closed channel, and on an open one
    parks or, if it may not block, is refused.
   */
  lemma RecvAnswers<T>(cap: nat, w: seq<Chan<T>>, ev: seq<Event<T>>, i: nat, g: nat, blocking: bool)
    requires IsRun(cap, w, ev) && i < |w|
    ensures var c, (c', r) := w[i], RecvStep(w[i], g, blocking);
            && (r.Received? <==> |c.asks| < |c.offers|)
            && (r.RecvZero? <==> c.closed && |c.asks| >= |c.offers|)
            && (r.RecvParked? <==> !c.closed && |c.asks| >= |c.offers| && blocking)
            && (r.RecvWouldBlock? <==> !c.closed && |c.asks| >= |c.offers| && !blocking)
    ensures var c, (c', r) := w[i], RecvStep(w[i], g, blocking);
            && (r.Received? ==> |c.delivered| < |c.offers| && r.elem == c.offers[|c.delivered|].elem)
            && c'.delivered == c.delivered + (if r.Received? then [(g, r.elem)] else [])
            && c'.asks == c.asks + (if r.Received? || r.RecvParked? then [g] else [])
            && c'.offers == c.offers && c'.closed == c.closed && c'.cap == c.cap
            && (r.RecvZero? || r.RecvWouldBlock? ==> c' == c)
  {
    RunKeepsInv(cap, w, ev, i);
  }

  /** Closing forgets the sends that were still blocked and the receives that were still waiting, and nothing else. */
  lemma ClosingAnswers<T>(cap: nat, w: seq<Chan<T>>, ev: seq<Event<T>>, i: nat)
    requires IsRun(cap, w, ev) && i < |w| && !w[i].closed
    ensures var c, c' := w[i], CloseStep(w[i]);
            && c'.closed && c'.cap == c.cap && c'.delivered == c.delivered && c'.buf == c.buf
            && c'.offers == c.offers[..Min(|c.offers|, |c.asks| + cap)]
            && c'.asks == c.asks[..Min(|c.asks|, |c.offers|)]
            && c'.sendq == [] && c'.recvq == []
  {
    RunKeepsInv(cap, w, ev, i);
  }

  // ----- the lock-free fast paths of the non-blocking operations -----

  predicate Full<T>(c: Chan<T>) {
    if c.cap == 0 then c.recvq == [] else |c.buf| == c.cap
  }

  predicate Empty<T>(c: Chan<T>) {
    if c.cap == 0 then c.sendq == [] else c.buf == []
  }

  /**
    The fast path of a non-blocking send reads "not closed" at one moment and "full" at a later one, and then
    reports that it would block. It is right if the locked path would have said so at some moment in between.
   */
  ghost predicate SendFastPathRight<T(!new)>(cap: nat) {
    forall w: seq<Chan<T>>, ev: seq<Event<T>>, i: nat, j: nat, s: Send<T>
      {:trigger IsRun(cap, w, ev), WouldBlockBetween(w, i, j, s)} ::
      IsRun(cap, w, ev) && i <= j < |w| && !w[i].closed && Full(w[j]) ==> WouldBlockBetween(w, i, j, s)
  }

  ghost predicate WouldBlockBetween<T>(w: seq<Chan<T>>, i: nat, j: nat, s: Send<T>) {
    exists k :: i <= k <= j && k < |w| && SendStep(w[k], s, false).1 == SendWouldBlock
  }

  /** On a closed channel the buffer only shrinks, so a full buffer there was full when the channel closed. */
  lemma {:induction false} FullWhenClosed<T>(cap: nat, w: seq<Chan<T>>, ev: seq<Event<T>>, i: nat, j: nat, s: Send<T>)
    requires IsRun(cap, w, ev) && i <= j < |w| && !w[i].closed && |w[j].buf| == cap && cap > 0
    ensures WouldBlockBetween(w, i, j, s)
    decreases j
  {
    RunKeepsInv(cap, w, ev, j);
    if !w[j].closed {
      assert SendStep(w[j], s, false).1 == SendWouldBlock;
    } else {
      RunKeepsInv(cap, w, ev, j - 1);
      assert |w[j - 1].buf| >= |w[j].buf|;
      FullWhenClosed(cap, w, ev, i, j - 1, s);
    }
  }

  /**
    The fast path of send is right exactly on buffered channels. On an unbuffered one, closing it while a receiver
    waits empties the receive queue, and "full" is then read although no open state was ever full.
   */
  lemma SendFastPathExactly<T(!new, 0)>(cap: nat)
    ensures SendFastPathRight<T>(cap) <==> cap > 0
  {
    if cap > 0 {
      forall w: seq<Chan<T>>, ev: seq<Event<T>>, i: nat, j: nat, s: Send<T>
          {:trigger IsRun(cap, w, ev), WouldBlockBetween(w, i, j, s)}
        | IsRun(cap, w, ev) && i <= j < |w| && !w[i].closed && Full(w[j])
        ensures WouldBlockBetween(w, i, j, s)
      {
        RunKeepsInv(cap, w, ev, j);
        FullWhenClosed(cap, w, ev, i, j, s);
      }
    } else {
      var elem: T := *;
      ClosingUnderFastPath(Send(2, elem));
    }
  }

  /** The run that defeats the fast path: a receiver waits, a non-blocking send reads "open", the channel closes. */
  lemma ClosingUnderFastPath<T(!new)>(s: Send<T>)
    ensures !SendFastPathRight<T>(0)
  {
    var c0 := New<T>(0);
    var c1 := c0.(recvq := [1], asks := [1]);
    var c2 := c0.(closed := true);
    var w, ev := [c0, c1, c2], [DoRecv(1, true), DoClose];
    assert c1 == Step(c0, ev[0]) && c2 == Step(c1, ev[1]);
    assert IsRun(0, w, ev) by {
      forall i | 0 <= i < |ev| ensures w[i + 1] == Step(w[i], ev[i]) {
        assert i == 0 || i == 1;
      }
    }
    assert !w[1].closed && Full(w[2]);
    assert SendStep(w[1], s, false).1 == Sent && SendStep(w[2], s, false).1 == SendOnClosed;
    assert !WouldBlockBetween(w, 1, 2, s);
  }

  /**
    With the two reads the other way round, "full" at moment i and "not closed" at a later moment j, the refusal
    is right on every channel: the locked path would have blocked at i.
   */
  lemma ReorderedSendRight<T>(cap: nat, w: seq<Chan<T>>, ev: seq<Event<T>>, i: nat, j: nat, s: Send<T>)
    requires IsRun(cap, w, ev) && i <= j < |w| && Full(w[i]) && !w[j].closed
    ensures SendStep(w[i], s, false).1 == SendWouldBlock
  {
    RunKeepsInv(cap, w, ev, i);
    HistoryGrows(cap, w, ev, i, j);
  }

  /**
    The fast path of a non-blocking receive reads "empty" at moment i and "closed?" at a later moment j. If open,
    the locked path would have blocked at i; if closed and still empty at l, it would have returned zero at l.
   */
  lemma RecvFastPathRight<T>(cap: nat, w: seq<Chan<T>>, ev: seq<Event<T>>, i: nat, j: nat, l: nat, g: nat)
    requires IsRun(cap, w, ev) && i <= j <= l < |w| && Empty(w[i])
    ensures !w[j].closed ==> RecvStep(w[i], g, false).1 == RecvWouldBlock
    ensures w[j].closed && Empty(w[l]) ==> RecvStep(w[l], g, false).1 == RecvZero
  {
    RunKeepsInv(cap, w, ev, i);
    RunKeepsInv(cap, w, ev, l);
    HistoryGrows(cap, w, ev, i, j);
    HistoryGrows(cap, w, ev, j, l);
  }

  /** The same two reads the other way round, "open" at moment i and "empty" at j, justify a refusal in between. */
  ghost predicate ReorderedRecvRight<T(!new)>(cap: nat) {
    forall w: seq<Chan<T>>, ev: seq<Event<T>>, i: nat, j: nat, g: nat
      {:trigger IsRun(cap, w, ev), RecvBlocksBetween(w, i, j, g)} ::
      IsRun(cap, w, ev) && i <= j < |w| && !w[i].closed && Empty(w[j]) ==> RecvBlocksBetween(w, i, j, g)
  }

  ghost predicate RecvBlocksBetween<T>(w: seq<Chan<T>>, i: nat, j: nat, g: nat) {
    exists k :: i <= k <= j && k < |w| && RecvStep(w[k], g, false).1 == RecvWouldBlock
  }

  /** They do not, whatever the capacity: a channel that is open and offers a value may be closed and then drained. */
  lemma ReorderedRecvWrong<T(!new)>(cap: nat, s: Send<T>)
    ensures !ReorderedRecvRight<T>(cap)
  {
    var ev := [DoSend(s, true), DoClose, DoRecv(1, false)];
    var c0 := New<T>(cap);
    var c1 := Step(c0, ev[0]);
    var c2 := Step(c1, ev[1]);
    var w := [c0, c1, c2, Step(c2, ev[2])];
    assert IsRun(cap, w, ev) by {
      forall i | 0 <= i < |ev| ensures w[i + 1] == Step(w[i], ev[i]) {
        assert i == 0 || i == 1 || i == 2;
      }
    }
    forall k | 1 <= k <= 3 ensures RecvStep(w[k], 2, false).1 != RecvWouldBlock {
      assert k == 1 || k == 2 || k == 3;
    }
    assert !w[1].closed && Empty(w[3]);
    assert !RecvBlocksBetween(w, 1, 3, 2);
  }
}
