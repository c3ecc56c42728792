/** The connection object: requests are numbered, replies are matched by number, and events that
    arrive in between are set aside in order. */
module X11Conn {
  import opened Wrappers
  import opened Bytes
  import opened X11Wire

  /** Answers the request with this number. */
  predicate AnswersTo(p: Bytes, number: U16) {
    |p| >= 32 && (Code(p) == X_REPLY || Code(p) == X_ERROR) && Get16(p[2..]) == number
  }

  /** What was read while waiting for an answer: it came, as a reply, at the end and not before. */
  ghost predicate AnsweredBy(read: seq<Bytes>, number: U16) {
    && read != [] && AnswersTo(read[|read| - 1], number) && Code(read[|read| - 1]) == X_REPLY
    && forall i :: 0 <= i < |read| - 1 ==> !AnswersTo(read[i], number)
  }

  /** The word at offset 8 of the reply, where both replies this client waits for have their answer. */
  ghost function AnswerIn(read: seq<Bytes>, number: U16): U32
    requires AnsweredBy(read, number)
  {
    At32(read[|read| - 1], 8)
  }

  function Flatten(ps: seq<Bytes>): Bytes {
    if ps == [] then [] else Flatten(ps[..|ps| - 1]) + ps[|ps| - 1]
  }

  /** Whole packets, off the front of the stream one after the other. */
  ghost predicate Unpacked(stream: Bytes, ps: seq<Bytes>) {
    Flatten(ps) <= stream && forall i :: 0 <= i < |ps| ==> |ps[i]| >= 32 && |ps[i]| == PacketSize(ps[i])
  }

  /** They are all the whole packets there are. */
  ghost predicate Spent(stream: Bytes, ps: seq<Bytes>) {
    Unpacked(stream, ps) && TakePacket(stream[|Flatten(ps)|..]).None?
  }

  /** The answer was an error. */
  ghost predicate Refuses(read: seq<Bytes>, number: U16) {
    && read != [] && AnswersTo(read[|read| - 1], number) && Code(read[|read| - 1]) == X_ERROR
    && forall i :: 0 <= i < |read| - 1 ==> !AnswersTo(read[i], number)
  }

  lemma UnpackNext(stream: Bytes, ps: seq<Bytes>, inbox: Bytes, p: Bytes, rest: Bytes)
    requires Unpacked(stream, ps) && Flatten(ps) + inbox == stream && TakePacket(inbox) == Some((p, rest))
    ensures Unpacked(stream, ps + [p]) && Flatten(ps + [p]) + rest == stream
  {
    assert (ps + [p])[..|ps|] == ps;
    assert |p| == PacketSize(p) by {
      assert p == inbox[..PacketSize(inbox)];
      SameSize(inbox, p);
    }
    assert Flatten(ps) + (p + rest) == Flatten(ps) + p + rest;
  }

  lemma SameSize(b: Bytes, p: Bytes)
    requires |b| >= |p| >= 32 && p == b[..|p|]
    ensures PacketSize(b) == PacketSize(p)
  {
    assert b[4..][..4] == p[4..][..4];
  }

  class Conn {
    var seqNo: U16
    var root: U32
    var window: U32
    var maxReq: nat
    var pending: seq<Bytes>
    /** The bytes still to arrive; the stream ends after them. */
    var inbox: Bytes
    /** The requests written. */
    var sent: seq<Bytes>
    /** The packets read, those already looked at one by one, and whether a write has failed. */
    ghost var arrived: seq<Bytes>
    ghost var consumed: seq<Bytes>
    ghost var failed: bool
    /** All the packets there will be, as bytes. */
    ghost var stream: Bytes

    constructor (inbox: Bytes)
      ensures seqNo == 0 && pending == [] && this.inbox == inbox && sent == [] && arrived == [] && consumed == [] && !failed && stream == inbox
    {
      seqNo, root, window, maxReq, pending, this.inbox, sent := 0, 0, 0, 0, [], inbox, [];
      arrived, consumed, failed, stream := [], [], false, inbox;
    }

    /** The number of the last request is the one the server gives it. */
    predicate Numbered()
      reads `seqNo, `sent
    {
      seqNo == |sent| % 0x1_0000
    }

    /** No event is lost, repeated or moved: those read are those consumed, then those set aside. */
    ghost predicate Ordered()
      reads `arrived, `consumed, `pending
    {
      EventsOf(arrived) == EventsOf(consumed) + pending
    }

    /** The packets read so far are the first of the stream, and reading goes on behind them until it
        has failed. */
    ghost predicate Streamed()
      reads `arrived, `inbox, `stream
    {
      Unpacked(stream, arrived) && (Flatten(arrived) + inbox == stream || (inbox == [] && Spent(stream, arrived)))
    }

    /** Sends one request; the write may fail. */
    method Request(op: U8, data: U8, body: Bytes) returns (r: Option<U16>)
      requires Numbered()
      modifies `seqNo, `sent, `failed
      ensures Numbered()
      ensures if r.None? then sent == old(sent) && failed
        else r.value == seqNo && failed == old(failed) && sent == old(sent) + [X11Wire.Request(op, data, body)]
    {
      var padded := Pad4(body);
      var msg := Byte1(op) + Byte1(data) + Put16((4 + |padded|) / 4 % 0x1_0000) + padded;
      var broken := *;
      if broken {
        failed := true;
        return None;
      }
      sent := sent + [msg];
      seqNo := (seqNo + 1) % 0x1_0000;
      return Some(seqNo);
    }

    /** Reads exactly n bytes, or fails with the stream spent. */
    method ReadFull(n: nat) returns (r: Option<Bytes>)
      modifies `inbox
      ensures r == if n <= |old(inbox)| then Some(old(inbox)[..n]) else None
      ensures inbox == if n <= |old(inbox)| then old(inbox)[n..] else []
    {
      if n > |inbox| {
        inbox := [];
        return None;
      }
      r := Some(inbox[..n]);
      inbox := inbox[n..];
    }

    /** Reads one reply, error or event. */
    method Packet() returns (r: Option<Bytes>)
      modifies `inbox, `arrived
      ensures match TakePacket(old(inbox))
        case Some((p, rest)) => r == Some(p) && inbox == rest && arrived == old(arrived) + [p]
        case None => r == None && inbox == [] && arrived == old(arrived)
      ensures old(Streamed()) ==> Streamed() && (r.None? ==> Spent(stream, arrived))
    {
      hide Get32, Unpacked, Spent, Flatten;
      SpentAtEnd(stream, arrived, inbox);
      r := ReadFull(32);
      if r.None? { return; }
      var p := r.value;
      WordFrom(old(inbox), p);
      if Code(p) == X_REPLY || Code(p) % 128 == GENERIC_EVENT {
        var extra := ReadFull(4 * At32(p, 4));
        if extra.None? { return None; }
        assert p + extra.value == old(inbox)[..32 + 4 * At32(p, 4)];
        p := p + extra.value;
      }
      KeepsUnpacked(stream, arrived, old(inbox), p, inbox);
      NotSpent(stream, arrived, old(inbox));
      arrived := arrived + [p];
      return Some(p);
    }

    /** Waits for the answer to a request, setting events aside. */
    method Reply(number: U16) returns (r: Option<Bytes>, ghost read: seq<Bytes>)
      requires Ordered() && Streamed()
      modifies `inbox, `arrived, `pending
      ensures Ordered() && Streamed() && arrived == old(arrived) + read && pending == old(pending) + EventsOf(read)
      ensures (r.Some? <==> AnsweredBy(read, number)) && (r.Some? ==> r.value == read[|read| - 1])
      ensures r.None? ==> Spent(stream, arrived) || Refuses(read, number)
      ensures forall i :: 0 <= i < |read| - 1 ==> !AnswersTo(read[i], number)
    {
      hide EventsOf, TakePacket, AnswersTo, IsEvent, Unpacked, Flatten, Spent;
      read := [];
      NoEvents();
      while true
        invariant Ordered() && Streamed() && arrived == old(arrived) + read && pending == old(pending) + EventsOf(read)
        invariant forall i :: 0 <= i < |read| ==> !AnswersTo(read[i], number)
        decreases |inbox|
      {
        var packet := Packet();
        if packet.None? { return None, read; }
        var p := packet.value;
        EventsSnoc(read, p);
        EventsSnoc(old(arrived) + read, p);
        ghost var before := read;
        read := read + [p];
        assert old(arrived) + read == old(arrived) + before + [p];
        AnswerOrEvent(p, number);
        if (Code(p) == X_REPLY || Code(p) == X_ERROR) && Get16(p[2..]) == number {
          return if Code(p) == X_ERROR then None else Some(p), read;
        }
        if Code(p) != X_REPLY && Code(p) != X_ERROR {
          pending := pending + [p];
        }
      }
    }

    method InternAtom(name: Bytes) returns (r: Option<U32>, ghost read: seq<Bytes>)
      requires Numbered() && Ordered() && Streamed()
      modifies `seqNo, `sent, `failed, `inbox, `arrived, `pending
      ensures Numbered() && Ordered() && Streamed() && arrived == old(arrived) + read
      ensures sent == old(sent) + [Intern(name)] || (sent == old(sent) && failed)
      ensures r.Some? ==> sent == old(sent) + [Intern(name)] && failed == old(failed)
      ensures r.None? ==> failed || Spent(stream, arrived) || Refuses(read, seqNo)
      ensures r.Some? ==> AnsweredBy(read, seqNo) && r.value == AnswerIn(read, seqNo)
    {
      hide EventsOf, X11Wire.Request, Unpacked, Flatten;
      read := [];
      var number := Request(INTERN_ATOM, 0, Put16(|name| % 0x1_0000) + Zeros(2) + name);
      if number.None? { return None, read; }
      var p;
      p, read := Reply(number.value);
      if p.None? { return None, read; }
      return Some(At32(p.value, 8)), read;
    }

    method ChangeProperty(mode: U8, window: U32, property: U32, typ: U32, format: U8, data: Bytes) returns (err: bool)
      requires Numbered() && (format == 8 || format == 32)
      modifies `seqNo, `sent, `failed
      ensures Numbered()
      ensures if err then sent == old(sent) && failed
        else failed == old(failed) && sent == old(sent) + [X11Wire.ChangeProperty(mode, window, property, typ, format, data)]
    {
      hide X11Wire.Request;
      var r := Request(CHANGE_PROPERTY, mode, PropertyBody(window, property, typ, format, data));
      return r.None?;
    }

    method SetSelectionOwner(owner: U32, selection: U32, time: U32) returns (err: bool)
      requires Numbered()
      modifies `seqNo, `sent, `failed
      ensures Numbered()
      ensures if err then sent == old(sent) && failed
        else failed == old(failed) && sent == old(sent) + [SetOwner(owner, selection, time)]
    {
      hide X11Wire.Request;
      var r := Request(SET_SELECTION_OWNER, 0, P32(owner) + (P32(selection) + P32(time)));
      return r.None?;
    }

    /** The first screen of the setup block, if it lists one. */
    method ReadScreen(body: Bytes) returns (r: Option<Screen>)
      ensures r == ParseSetup(body)
    {
      hide Get32, Get16;
      if |body| < 32 { return None; }
      var screen := 32 + RoundUp4(Get16(body[16..])) + 8 * body[21] as int;
      if body[20] == '\0' || |body| < screen + 4 { return None; }
      return Some(Screen(At32(body, screen), OrOne(At32(body, 4)), 4 * Get16(body[18..])));
    }

    /** Opens the connection: what the server says about itself, or a refusal. */
    method Setup(authName: Bytes, authData: Bytes) returns (err: bool, ghost hello: Option<Bytes>)
      modifies `inbox, `root, `window, `maxReq, `stream, `failed
      ensures failed == (old(failed) || hello.None?)
      ensures !err ==> stream == inbox
      ensures hello.Some? ==> hello == Some(Hello(authName, authData))
      ensures !err <==> hello.Some? && SetupOf(old(inbox)).Some?
      ensures !err ==> Screen(root, window, maxReq) == SetupOf(old(inbox)).value.0 && inbox == SetupOf(old(inbox)).value.1
    {
      hide Get32, Get16, Put16, Padded, ParseSetup;
      var req := "l\0" + (Put16(11) + (Put16(0) + (Put16(|authName| % 0x1_0000) + (Put16(|authData| % 0x1_0000) + Zeros(2)))));
      req := Pad4(req + authName);
      req := Pad4(req + authData);
      var broken := *;
      if broken {
        failed := true;
        return true, None;
      }
      hello := Some(req);
      var head := ReadFull(8);
      if head.None? { return true, hello; }
      SetupSplit(old(inbox), head.value, inbox);
      var body := ReadFull(4 * Get16(head.value[6..]));
      if body.None? { return true, hello; }
      if head.value[0] as int != 1 { return true, hello; }
      var screen := ReadScreen(body.value);
      if screen.None? { return true, hello; }
      root, window, maxReq := screen.value.root, screen.value.window, screen.value.maxReq;
      stream := inbox;
      return false, hello;
    }
  }

  lemma KeepsUnpacked(stream: Bytes, ps: seq<Bytes>, inbox: Bytes, p: Bytes, rest: Bytes)
    requires TakePacket(inbox) == Some((p, rest))
    ensures Unpacked(stream, ps) && Flatten(ps) + inbox == stream ==>
      Unpacked(stream, ps + [p]) && Flatten(ps + [p]) + rest == stream
  {
    hide Unpacked, Flatten;
    if Unpacked(stream, ps) && Flatten(ps) + inbox == stream {
      UnpackNext(stream, ps, inbox, p, rest);
    }
  }

  /** When no packet can be taken any more, all have been read. */
  lemma SpentAtEnd(stream: Bytes, ps: seq<Bytes>, inbox: Bytes)
    ensures Unpacked(stream, ps) && Flatten(ps) + inbox == stream && TakePacket(inbox).None? ==> Spent(stream, ps)
  {
    hide Unpacked, Flatten, TakePacket;
    if Flatten(ps) + inbox == stream {
      assert stream[|Flatten(ps)|..] == inbox;
    }
  }

  lemma NotSpent(stream: Bytes, ps: seq<Bytes>, inbox: Bytes)
    requires TakePacket(inbox).Some?
    ensures inbox != []
  {
  }

  lemma WordFrom(b: Bytes, p: Bytes)
    requires |b| >= 32 && p == b[..32]
    ensures At32(b, 4) == At32(p, 4) && Code(b) == Code(p) && PacketSize(b) == PacketSize(p)
  {
    hide Get32;
    SameWord(b[4..], p[4..]);
  }

  lemma SetupSplit(b: Bytes, head: Bytes, rest: Bytes)
    requires |b| >= 8 && head == b[..8] && rest == b[8..]
    ensures b[0] == head[0] && Get16(b[6..]) == Get16(head[6..])
    ensures forall n: nat | 8 + n <= |b| :: b[8..8 + n] == rest[..n] && b[8 + n..] == rest[n..]
  {
  }

  lemma NoEvents()
    ensures EventsOf([]) == []
  {
  }

  lemma AnswerOrEvent(p: Bytes, number: U16)
    requires |p| >= 32
    ensures AnswersTo(p, number) <==> (Code(p) == X_REPLY || Code(p) == X_ERROR) && Get16(p[2..]) == number
    ensures IsEvent(p) <==> Code(p) != X_REPLY && Code(p) != X_ERROR
  {
  }

  function Intern(name: Bytes): Bytes {
    X11Wire.Request(INTERN_ATOM, 0, Put16(|name| % 0x1_0000) + Zeros(2) + name)
  }

  /** The server's answer to the opening: an 8-byte head that accepts, and the setup block. */
  function SetupOf(inbox: Bytes): (r: Option<(Screen, Bytes)>) {
    if |inbox| < 8 then None
    else
      var n := 8 + 4 * Get16(inbox[6..]);
      if n > |inbox| || inbox[0] as int != 1 then None
      else
        match ParseSetup(inbox[8..n])
        case None => None
        case Some(s) => Some((s, inbox[n..]))
  }
}
