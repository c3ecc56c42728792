/** The connection: events come out of the byte stream in order, each send event with its own
    descriptor, however the kernel cuts the stream into reads. */
module WaylandConn {
  import opened Wrappers
  import opened Bytes
  import opened WaylandWire

  /** What one `recvmsg` delivers. */
  datatype Read = Chunk(bytes: Bytes, fds: seq<int>) | Broken

  datatype Event = Event(m: Message, fd: Option<int>)

  const SEND: U16 := 0
  const READ_SIZE := 4096

  /** What the connection has, and what it is still going to read. */
  datatype Link = Link(buf: Bytes, fds: seq<int>, inbox: seq<Read>)

  datatype Outcome = Got(ev: Event) | Failed

  predicate IsSend(m: Message, source: U32) {
    source != 0 && m.obj == source && m.op == SEND
  }

  /** The next read works and is not the end of the stream. */
  predicate Readable(l: Link) {
    l.inbox != [] && l.inbox[0].Chunk? && l.inbox[0] != Chunk([], [])
  }

  function AfterRead(l: Link): Link
    requires Readable(l)
  {
    Link(l.buf + l.inbox[0].bytes, l.fds + l.inbox[0].fds, l.inbox[1..])
  }

  /** `next`: frame one event, reading as often as it takes. */
  function Next(l: Link, source: U32, o: Order): (Outcome, Link)
    decreases |l.inbox|
  {
    match FrontOf(l.buf, o)
    case Malformed => (Failed, l)
    case Frame(size, m) =>
      var rest := l.(buf := l.buf[size..]);
      if !IsSend(m, source) then (Got(Event(m, None)), rest)
      else if l.fds == [] then (Failed, rest)
      else (Got(Event(m, Some(l.fds[0]))), rest.(fds := l.fds[1..]))
    case Incomplete =>
      if Readable(l) then Next(AfterRead(l), source, o)
      else (Failed, if l.inbox == [] then l else l.(inbox := l.inbox[1..]))
  }

  lemma NextUnfolds(l: Link, source: U32, o: Order)
    ensures FrontOf(l.buf, o).Malformed? ==> Next(l, source, o) == (Failed, l)
    ensures FrontOf(l.buf, o).Frame? ==>
      var m, rest := FrontOf(l.buf, o).m, l.(buf := l.buf[FrontOf(l.buf, o).size..]);
      Next(l, source, o) == if !IsSend(m, source) then (Got(Event(m, None)), rest)
                            else if l.fds == [] then (Failed, rest)
                            else (Got(Event(m, Some(l.fds[0]))), rest.(fds := l.fds[1..]))
    ensures FrontOf(l.buf, o).Incomplete? && Readable(l) ==> Next(l, source, o) == Next(AfterRead(l), source, o)
    ensures FrontOf(l.buf, o).Incomplete? && !Readable(l) ==>
      Next(l, source, o) == (Failed, if l.inbox == [] then l else l.(inbox := l.inbox[1..]))
  {
    hide FrontOf, IsSend;
  }

  function BytesOf(inbox: seq<Read>): Bytes {
    if inbox == [] then []
    else (if inbox[0].Chunk? then inbox[0].bytes else []) + BytesOf(inbox[1..])
  }

  function FdsOf(inbox: seq<Read>): seq<int> {
    if inbox == [] then []
    else (if inbox[0].Chunk? then inbox[0].fds else []) + FdsOf(inbox[1..])
  }

  function Claimed(r: Outcome): seq<int> {
    if r.Got? && r.ev.fd.Some? then [r.ev.fd.value] else []
  }

  // ---------------------------------------------------------------- on any input at all

  /** Descriptors are never lost or invented: those held and still to come before the call are the
      one it claims, then those held and still to come after it. */
  lemma {:induction false} FdsConserved(l: Link, source: U32, o: Order)
    ensures var (r, l') := Next(l, source, o);
      l.fds + FdsOf(l.inbox) == Claimed(r) + (l'.fds + FdsOf(l'.inbox))
    decreases |l.inbox|
  {
    hide FrontOf;
    match FrontOf(l.buf, o)
    case Malformed =>
    case Frame(_, m) =>
      if IsSend(m, source) && l.fds != [] {
        assert l.fds == [l.fds[0]] + l.fds[1..];
        AssocFds([l.fds[0]], l.fds[1..], FdsOf(l.inbox));
      }
    case Incomplete =>
      if Readable(l) {
        FdsConserved(AfterRead(l), source, o);
        AssocFds(l.fds, l.inbox[0].fds, FdsOf(l.inbox[1..]));
      }
  }

  lemma AssocFds(a: seq<int>, b: seq<int>, c: seq<int>)
    ensures a + b + c == a + (b + c)
  {
  }

  predicate SmallReads(inbox: seq<Read>) {
    forall i :: 0 <= i < |inbox| ==> inbox[i].Chunk? ==> |inbox[i].bytes| <= READ_SIZE
  }

  /** A send event always carries a descriptor, a body is a whole number of words, and the unframed
      bytes stay below one message and one read. */
  lemma {:induction false} NextBounds(l: Link, source: U32, o: Order)
    requires SmallReads(l.inbox) && |l.buf| < 65532 + READ_SIZE
    ensures var (r, l') := Next(l, source, o);
      && |l'.buf| < 65532 + READ_SIZE && SmallReads(l'.inbox)
      && (r.Got? ==> |r.ev.m.body| % 4 == 0 && (r.ev.fd.Some? <==> IsSend(r.ev.m, source)))
      && (r.Got? ==> |l'.buf| + |BytesOf(l'.inbox)| + 8 <= |l.buf| + |BytesOf(l.inbox)|)
    decreases |l.inbox|
  {
    match FrontOf(l.buf, o)
    case Malformed =>
    case Frame(size, _) => WordsAdd(size, 8);
    case Incomplete =>
      if Readable(l) {
        NextBounds(AfterRead(l), source, o);
      }
  }

  // ---------------------------------------------------------------- on a stream of messages

  function Stream(ms: seq<Message>, o: Order): Bytes {
    if ms == [] then [] else EncodeMessage(ms[0], o) + Stream(ms[1..], o)
  }

  function SizeOf(m: Message): nat {
    8 + |m.body|
  }

  /** How many send messages lie wholly within the first n bytes of the stream. */
  function SendsWithin(ms: seq<Message>, source: U32, n: nat): nat {
    if ms == [] || SizeOf(ms[0]) > n then 0
    else (if IsSend(ms[0], source) then 1 else 0) + SendsWithin(ms[1..], source, n - SizeOf(ms[0]))
  }

  predicate NoBreak(inbox: seq<Read>) {
    forall i :: 0 <= i < |inbox| ==> inbox[i].Chunk? && inbox[i] != Chunk([], [])
  }

  /** After each read, the descriptors of all send messages complete by then have arrived. */
  predicate Timely(l: Link, ms: seq<Message>, source: U32) {
    forall r :: 0 <= r <= |l.inbox| ==>
      SendsWithin(ms, source, |l.buf| + |BytesOf(l.inbox[..r])|) <= |l.fds| + |FdsOf(l.inbox[..r])|
  }

  /** The link is about to deliver exactly these messages. */
  predicate Carries(l: Link, ms: seq<Message>, source: U32, o: Order) {
    && (forall i :: 0 <= i < |ms| ==> Fits(ms[i]))
    && l.buf + BytesOf(l.inbox) == Stream(ms, o)
    && NoBreak(l.inbox) && Timely(l, ms, source)
  }

  lemma ReadKeeps(l: Link, ms: seq<Message>, source: U32, o: Order)
    requires Carries(l, ms, source, o) && l.inbox != []
    ensures Readable(l) && Carries(AfterRead(l), ms, source, o)
  {
    hide SendsWithin, Stream;
    var l1 := AfterRead(l);
    assert l1.buf + BytesOf(l1.inbox) == l.buf + BytesOf(l.inbox);
    forall r | 0 <= r <= |l1.inbox|
      ensures SendsWithin(ms, source, |l1.buf| + |BytesOf(l1.inbox[..r])|) <= |l1.fds| + |FdsOf(l1.inbox[..r])|
    {
      assert l.inbox[..r + 1][1..] == l1.inbox[..r];
    }
  }

  /** What starts with e starts with it in any long enough beginning. */
  lemma SplitFront(buf: Bytes, more: Bytes, e: Bytes, later: Bytes)
    requires buf + more == e + later && |e| <= |buf|
    ensures buf == e + buf[|e|..] && buf[|e|..] + more == later
  {
    assert e == (e + later)[..|e|] == (buf + more)[..|e|] == buf[..|e|];
    assert later == (e + later)[|e|..] == (buf + more)[|e|..] == buf[|e|..] + more;
  }

  lemma FrameStream(buf: Bytes, more: Bytes, ms: seq<Message>, o: Order)
    requires ms != [] && Fits(ms[0]) && buf + more == Stream(ms, o) && SizeOf(ms[0]) <= |buf|
    ensures FrontOf(buf, o) == Frame(SizeOf(ms[0]), ms[0])
    ensures buf[SizeOf(ms[0])..] + more == Stream(ms[1..], o)
  {
    hide FrontOf;
    var e := EncodeMessage(ms[0], o);
    assert |e| == SizeOf(ms[0]) && Stream(ms, o) == e + Stream(ms[1..], o);
    hide EncodeMessage, Fits, Stream;
    SplitFront(buf, more, e, Stream(ms[1..], o));
    FramesBack(ms[0], buf[|e|..], o);
  }
  /** The link after the first message has been taken from the buffer. */
  function AfterFirst(l: Link, m: Message, source: U32): Link
    requires SizeOf(m) <= |l.buf| && (IsSend(m, source) ==> l.fds != [])
  {
    Link(l.buf[SizeOf(m)..], if IsSend(m, source) then l.fds[1..] else l.fds, l.inbox)
  }

  lemma FrameTimely(l: Link, ms: seq<Message>, source: U32)
    requires Timely(l, ms, source) && ms != [] && SizeOf(ms[0]) <= |l.buf|
    ensures IsSend(ms[0], source) ==> l.fds != []
    ensures Timely(AfterFirst(l, ms[0], source), ms[1..], source)
  {
    assert l.inbox[..0] == [];
    assert SendsWithin(ms, source, |l.buf| + |BytesOf(l.inbox[..0])|) <= |l.fds| + |FdsOf(l.inbox[..0])|;
    var l' := AfterFirst(l, ms[0], source);
    forall r | 0 <= r <= |l.inbox|
      ensures SendsWithin(ms[1..], source, |l'.buf| + |BytesOf(l.inbox[..r])|) <= |l'.fds| + |FdsOf(l.inbox[..r])|
    {
      assert SendsWithin(ms, source, |l.buf| + |BytesOf(l.inbox[..r])|) <= |l.fds| + |FdsOf(l.inbox[..r])|;
    }
  }

  lemma FrameKeeps(l: Link, ms: seq<Message>, source: U32, o: Order)
    requires Carries(l, ms, source, o) && ms != [] && SizeOf(ms[0]) <= |l.buf|
    ensures FrontOf(l.buf, o) == Frame(SizeOf(ms[0]), ms[0])
    ensures IsSend(ms[0], source) ==> l.fds != []
    ensures Carries(AfterFirst(l, ms[0], source), ms[1..], source, o)
  {
    hide FrontOf, Timely, BytesOf, Stream;
    FrameStream(l.buf, BytesOf(l.inbox), ms, o);
    FrameTimely(l, ms, source);
  }

  lemma WaitKeeps(l: Link, ms: seq<Message>, source: U32, o: Order)
    requires Carries(l, ms, source, o) && ms != [] && |l.buf| < SizeOf(ms[0])
    ensures FrontOf(l.buf, o) == Incomplete && l.inbox != []
  {
    var e := EncodeMessage(ms[0], o);
    assert l.buf == (l.buf + BytesOf(l.inbox))[..|l.buf|] == Stream(ms, o)[..|l.buf|] == e[..|l.buf|];
    FrontIncomplete(ms[0], o, |l.buf|);
    assert |l.buf| + |BytesOf(l.inbox)| == |Stream(ms, o)| >= SizeOf(ms[0]);
  }

  /** One call delivers the first message, with the first descriptor if it is a send event. */
  lemma {:induction false} NextDelivers(l: Link, ms: seq<Message>, source: U32, o: Order)
    requires Carries(l, ms, source, o) && ms != []
    ensures var (r, l') := Next(l, source, o);
      r.Got? && r.ev.m == ms[0] && (r.ev.fd.Some? <==> IsSend(ms[0], source)) && Carries(l', ms[1..], source, o)
    decreases |l.inbox|
  {
    hide FrontOf, Carries;
    if SizeOf(ms[0]) <= |l.buf| {
      FrameKeeps(l, ms, source, o);
    } else {
      WaitKeeps(l, ms, source, o);
      ReadKeeps(l, ms, source, o);
      NextDelivers(AfterRead(l), ms, source, o);
    }
  }

  /** k calls in a row. */
  function NextMany(l: Link, source: U32, o: Order, k: nat): (r: (seq<Outcome>, Link))
    ensures |r.0| == k
    decreases k
  {
    if k == 0 then ([], l)
    else
      var (r, l1) := Next(l, source, o);
      var (rs, l') := NextMany(l1, source, o, k - 1);
      ([r] + rs, l')
  }

  function Gots(evs: seq<Event>): (rs: seq<Outcome>)
    ensures |rs| == |evs|
  {
    seq(|evs|, i requires 0 <= i < |evs| => Got(evs[i]))
  }

  lemma {:induction false} NextManySnoc(l: Link, source: U32, o: Order, k: nat)
    ensures var (rs, l1) := NextMany(l, source, o, k); var (r, l') := Next(l1, source, o);
      NextMany(l, source, o, k + 1) == (rs + [r], l')
    decreases k
  {
    hide Next;
    if k > 0 {
      NextManySnoc(Next(l, source, o).1, source, o, k - 1);
      var (r, l1) := Next(l, source, o);
      var (rs, l2) := NextMany(l1, source, o, k - 1);
      var last := Next(l2, source, o).0;
      assert [r] + rs + [last] == [r] + (rs + [last]);
    } else {
      assert NextMany(l, source, o, 0) == ([], l);
      var (r, l') := Next(l, source, o);
      assert NextMany(l', source, o, 0) == ([], l');
      assert [r] + [] == [] + [r];
    }
  }

  /** These are the next events of the link. */
  ghost predicate Comes(l: Link, source: U32, o: Order, evs: seq<Event>) {
    NextMany(l, source, o, |evs|).0 == Gots(evs)
  }

  /** They are, and this is the link after them. */
  ghost predicate Reads(l: Link, source: U32, o: Order, evs: seq<Event>, l': Link) {
    Comes(l, source, o, evs) && NextMany(l, source, o, |evs|).1 == l'
  }

  /** These are the next events of the link, and after them a read fails. */
  ghost predicate EndsAfter(l: Link, source: U32, o: Order, evs: seq<Event>) {
    Comes(l, source, o, evs) && Next(NextMany(l, source, o, |evs|).1, source, o).0.Failed?
  }

  lemma ReadsNone(l: Link, source: U32, o: Order)
    ensures Reads(l, source, o, [], l)
  {
  }

  lemma ReadsSnoc(l: Link, source: U32, o: Order, evs: seq<Event>, l1: Link, ev: Event, l': Link)
    requires Reads(l, source, o, evs, l1) && Next(l1, source, o) == (Got(ev), l')
    ensures Reads(l, source, o, evs + [ev], l')
  {
    hide Next;
    NextManySnoc(l, source, o, |evs|);
    assert Gots(evs + [ev]) == Gots(evs) + [Got(ev)];
  }

  /** The events of these messages when send events take the descriptors in order. */
  function Delivered(ms: seq<Message>, fds: seq<int>, source: U32): seq<Outcome> {
    if ms == [] then []
    else if !IsSend(ms[0], source) then [Got(Event(ms[0], None))] + Delivered(ms[1..], fds, source)
    else if fds == [] then []
    else [Got(Event(ms[0], Some(fds[0])))] + Delivered(ms[1..], fds[1..], source)
  }

  /** Framing does not depend on how the stream was cut: repeated calls return exactly the messages,
      in order, the i-th send event with the i-th descriptor, and leave nothing behind. */
  lemma {:induction false} FramingIndependentOfChunks(l: Link, ms: seq<Message>, source: U32, o: Order)
    requires Carries(l, ms, source, o)
    ensures var (rs, l') := NextMany(l, source, o, |ms|);
      rs == Delivered(ms, l.fds + FdsOf(l.inbox), source) && |rs| == |ms| && l'.buf == [] && BytesOf(l'.inbox) == []
    decreases |ms|
  {
    if ms == [] {
      NothingLeft(l, source, o);
    } else {
      NextManyFirst(l, source, o, |ms| - 1);
      hide Next, NextMany, Carries, IsSend, FdsOf, BytesOf, Delivered;
      NextDelivers(l, ms, source, o);
      FdsConserved(l, source, o);
      var (r, l1) := Next(l, source, o);
      FramingIndependentOfChunks(l1, ms[1..], source, o);
      DeliveredFirst(ms, r, l1.fds + FdsOf(l1.inbox), source);
    }
  }

  lemma NextManyFirst(l: Link, source: U32, o: Order, k: nat)
    ensures var (r, l1) := Next(l, source, o); var (rs, l') := NextMany(l1, source, o, k);
      NextMany(l, source, o, k + 1) == ([r] + rs, l')
  {
    hide Next;
  }

  lemma NothingLeft(l: Link, source: U32, o: Order)
    requires Carries(l, [], source, o)
    ensures l.buf == [] && BytesOf(l.inbox) == []
  {
    assert |l.buf + BytesOf(l.inbox)| == |Stream([], o)| == 0;
  }

  lemma DeliveredFirst(ms: seq<Message>, r: Outcome, later: seq<int>, source: U32)
    requires ms != [] && r.Got? && r.ev.m == ms[0] && (r.ev.fd.Some? <==> IsSend(ms[0], source))
    ensures Delivered(ms, Claimed(r) + later, source) == [r] + Delivered(ms[1..], later, source)
  {
    if r.ev.fd.Some? {
      assert (Claimed(r) + later)[1..] == later;
    } else {
      assert Claimed(r) + later == later;
    }
  }

  // ---------------------------------------------------------------- the connection object

  class Conn {
    var buf: Bytes
    var fds: seq<int>
    var inbox: seq<Read>
    var nextID: U32
    var sent: seq<Bytes>
    var closed: seq<int>
    const order: Order
    /** The events handed out so far, and whether a write has failed. */
    ghost var delivered: seq<Event>
    ghost var unsent: bool

    constructor (inbox: seq<Read>, order: Order)
      requires SmallReads(inbox)
      ensures buf == [] && fds == [] && this.inbox == inbox && nextID == 2 && sent == [] && closed == []
      ensures this.order == order && Bounded() && delivered == [] && !unsent
    {
      buf, fds, this.inbox, nextID, sent, closed, this.order := [], [], inbox, 2, [], [], order;
      delivered, unsent := [], false;
    }

    function State(): Link
      reads `buf, `fds, `inbox
    {
      Link(buf, fds, inbox)
    }

    predicate Bounded()
      reads `buf, `inbox
    {
      |buf| < 65532 + READ_SIZE && SmallReads(inbox)
    }

    /** Every descriptor this connection has received or will receive and has not handed out. */
    function AllFds(): seq<int>
      reads `fds, `inbox
    {
      fds + FdsOf(inbox)
    }

    function Unread(): nat
      reads `buf, `inbox
    {
      |buf| + |BytesOf(inbox)|
    }

    method NewID() returns (id: U32)
      modifies this`nextID
      ensures id == old(nextID) && nextID == (id + 1) % 0x1_0000_0000
    {
      id := nextID;
      nextID := (nextID + 1) % 0x1_0000_0000;
    }

    /** Sends one message; the write may fail. */
    method Request(obj: U32, op: U16, args: seq<Arg>) returns (err: bool)
      modifies this`sent, this`unsent
      ensures unsent == (old(unsent) || err)
      ensures sent == if err then old(sent) else old(sent) + [EncodeMessage(Message(obj, op, EncodeArgs(args, order)), order)]
    {
      var msg := BuildRequest(obj, op, args, order);
      err := *;
      if err {
        unsent := true;
      } else {
        sent := sent + [msg];
      }
    }

    method NextEvent(source: U32) returns (r: Outcome)
      requires Bounded()
      modifies this`buf, this`fds, this`inbox, this`delivered
      ensures delivered == if r.Got? then old(delivered) + [r.ev] else old(delivered)
      ensures (r, State()) == Next(old(State()), source, order)
      ensures Bounded() && old(AllFds()) == Claimed(r) + AllFds()
      ensures r.Got? ==> |r.ev.m.body| % 4 == 0 && (r.ev.fd.Some? <==> IsSend(r.ev.m, source))
      ensures r.Got? ==> Unread() + 8 <= old(Unread())
    {
      FdsConserved(State(), source, order);
      NextBounds(State(), source, order);
      hide FrontOf, IsSend, BytesOf, FdsOf, Next;
      ghost var start := State();
      while true
        invariant Next(State(), source, order) == Next(start, source, order) && delivered == old(delivered)
        decreases |inbox|
      {
        NextUnfolds(State(), source, order);
        var front := FrontOf(buf, order);
        if front.Malformed? {
          return Failed;
        }
        if front.Frame? {
          buf := buf[front.size..];
          if !IsSend(front.m, source) {
            delivered := delivered + [Event(front.m, None)];
            return Got(Event(front.m, None));
          }
          if fds == [] {
            return Failed;
          }
          r := Got(Event(front.m, Some(fds[0])));
          fds := fds[1..];
          delivered := delivered + [r.ev];
          return;
        }
        if inbox == [] {
          return Failed;
        }
        var read := inbox[0];
        inbox := inbox[1..];
        if read.Broken? || read == Chunk([], []) {
          return Failed;
        }
        fds := fds + read.fds;
        buf := buf + read.bytes;
      }
    }

    /** Closes the descriptors no event claimed. */
    method Close()
      modifies this`fds, this`closed
      ensures closed == old(closed) + old(fds) && fds == []
    {
      closed, fds := closed + fds, [];
    }

    method CloseFd(fd: Option<int>)
      modifies this`closed
      ensures closed == old(closed) + if fd.Some? then [fd.value] else []
    {
      if fd.Some? {
        closed := closed + [fd.value];
      }
    }
  }
}
