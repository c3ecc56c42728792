/** What happens on a `serveWayland` connection, as a log of events and a list of requests: which
    globals were advertised, when a roundtrip is complete, and what each event calls for. */
module WaylandEvents {
  import opened Wrappers
  import opened Bytes
  import opened WaylandWire
  import opened WaylandConn
  import opened Clipboard

  const DISPLAY: U32 := 1
  const SYNC: U16 := 0
  const GET_REGISTRY: U16 := 1
  const DISPLAY_ERROR: U16 := 0
  const BIND: U16 := 0
  const GLOBAL: U16 := 0
  const DONE: U16 := 0
  const CREATE_SOURCE: U16 := 0
  const GET_DEVICE: U16 := 1
  const SET_SELECTION: U16 := 0
  const FINISHED: U16 := 2
  const OFFER: U16 := 0
  const CANCELLED: U16 := 1

  const MANAGERS: seq<Bytes> := ["ext_data_control_manager_v1", "zwlr_data_control_manager_v1"]

  /** A descriptor handed to a paste: it gets the data, if the type is offered, and is closed. */
  datatype Paste = Paste(fd: int, data: Option<Bytes>)

  function PasteFds(pastes: seq<Paste>): seq<int> {
    seq(|pastes|, i requires 0 <= i < |pastes| => pastes[i].fd)
  }

  /** The mime type a send event asks for. */
  function TypeOf(m: Message, o: Order): Bytes {
    if |m.body| % 4 == 0 then TakeStr(m.body, o).0 else []
  }

  // ---------------------------------------------------------------- the requests that take the selection

  const OFFERED: seq<Bytes> := [PASSWORD_HINT] + TEXT_TYPES

  /** The manager used: the standard one if it is there. */
  function Manager(managers: map<Bytes, U32>): (Bytes, U32)
    requires MANAGERS[0] in managers || MANAGERS[1] in managers
  {
    if MANAGERS[0] in managers then (MANAGERS[0], managers[MANAGERS[0]]) else (MANAGERS[1], managers[MANAGERS[1]])
  }

  function EncodeAll(ms: seq<Message>, o: Order): seq<Bytes> {
    seq(|ms|, i requires 0 <= i < |ms| => EncodeMessage(ms[i], o))
  }

  lemma EncodeThree(ms: seq<Message>, o: Order)
    requires |ms| == 3
    ensures EncodeAll(ms, o) == [EncodeMessage(ms[0], o), EncodeMessage(ms[1], o), EncodeMessage(ms[2], o)]
  {
    hide EncodeMessage;
  }

  lemma EncodeAllConcat(a: seq<Message>, b: seq<Message>, o: Order)
    ensures EncodeAll(a + b, o) == EncodeAll(a, o) + EncodeAll(b, o)
  {
  }

  function Binds(registry: U32, seat: U32, manager: (Bytes, U32), o: Order): seq<Message> {
    [Message(registry, BIND, EncodeArgs([Word(seat), Str("wl_seat"), Word(1), Word(4)], o)),
     Message(registry, BIND, EncodeArgs([Word(manager.1), Str(manager.0), Word(1), Word(5)], o)),
     Message(5, CREATE_SOURCE, EncodeArgs([Word(6)], o))]
  }

  function Offers(types: seq<Bytes>, o: Order): seq<Message> {
    seq(|types|, i requires 0 <= i < |types| => Message(6, OFFER, EncodeArgs([Str(types[i])], o)))
  }

  lemma NothingOffered(o: Order)
    ensures EncodeAll(Offers([], o), o) == []
  {
  }

  lemma OffersSnoc(types: seq<Bytes>, i: nat, o: Order)
    requires i < |types|
    ensures EncodeAll(Offers(types[..i + 1], o), o) ==
      EncodeAll(Offers(types[..i], o), o) + [EncodeMessage(Message(6, OFFER, EncodeArgs([Str(types[i])], o)), o)]
  {
    hide EncodeMessage, EncodeArgs;
  }

  function Takes(o: Order): seq<Message> {
    [Message(5, GET_DEVICE, EncodeArgs([Word(7), Word(4)], o)), Message(7, SET_SELECTION, EncodeArgs([Word(6)], o))]
  }

  function RegistryRequest(id: U32, o: Order): Bytes {
    EncodeMessage(Message(DISPLAY, GET_REGISTRY, EncodeArgs([Word(id)], o)), o)
  }

  function SyncRequest(id: U32, o: Order): Bytes {
    EncodeMessage(Message(DISPLAY, SYNC, EncodeArgs([Word(id)], o)), o)
  }

  function ClearRequest(device: U32, o: Order): Bytes {
    EncodeMessage(Message(device, SET_SELECTION, EncodeArgs([Word(0)], o)), o)
  }

  /** Everything sent up to the confirmation. */
  function Opening(seat: U32, manager: (Bytes, U32), o: Order): seq<Bytes> {
    [RegistryRequest(2, o), SyncRequest(3, o)] + EncodeAll(Setup(2, seat, manager, o), o) + [SyncRequest(8, o)]
  }

  function OpeningFor(g: Globals, o: Order): seq<Bytes>
    requires Suits(g)
  {
    Opening(g.seat.value, Manager(g.managers), o)
  }

  /** Bind the seat and the manager, create the source, offer the hint and then every text type, and
      set the source as the selection of the seat's device. */
  function Setup(registry: U32, seat: U32, manager: (Bytes, U32), o: Order): seq<Message> {
    Binds(registry, seat, manager, o) + Offers(OFFERED, o) + Takes(o)
  }

  function GlobalOf(m: Message, o: Order): (U32, Bytes)
    requires |m.body| % 4 == 0
  {
    var (name, rest) := TakeWord(m.body, o);
    WordsAdd(|m.body|, 4);
    (name, TakeStr(rest, o).0)
  }

  /** The one paste an event that came with a descriptor calls for. */
  function Answers(ev: Event, value: Bytes, o: Order): seq<Paste> {
    if ev.fd.Some? then [Paste(ev.fd.value, Payload(value, TypeOf(ev.m, o)))] else []
  }

  function AllAnswers(evs: seq<Event>, value: Bytes, o: Order): seq<Paste> {
    if evs == [] then [] else AllAnswers(evs[..|evs| - 1], value, o) + Answers(evs[|evs| - 1], value, o)
  }

  lemma AnswersSnoc(evs: seq<Event>, ev: Event, value: Bytes, o: Order)
    ensures AllAnswers(evs + [ev], value, o) == AllAnswers(evs, value, o) + Answers(ev, value, o)
    ensures ev.fd.None? ==> AllAnswers(evs + [ev], value, o) == AllAnswers(evs, value, o)
  {
    assert (evs + [ev])[..|evs|] == evs;
  }

  lemma NoAnswer(ev: Event, value: Bytes, o: Order)
    requires ev.fd.None?
    ensures Answers(ev, value, o) == []
  {
  }

  /** The events that came with a descriptor. */
  function Sends(evs: seq<Event>): seq<Event> {
    if evs == [] then [] else Sends(evs[..|evs| - 1]) + if evs[|evs| - 1].fd.Some? then [evs[|evs| - 1]] else []
  }

  /** The paste goes to the event's own descriptor, with the data for the type the event asks for. */
  ghost predicate RightPaste(p: Paste, ev: Event, value: Bytes, o: Order) {
    && ev.fd == Some(p.fd)
    && forall typ: Bytes, rest: Bytes | |typ| + 1 < 0x1_0000_0000 && |rest| % 4 == 0 && ev.m.body == EncodeArg(Str(typ), o) + rest ::
         Promised(typ, value, p.data)
  }

  ghost predicate AllRight(pastes: seq<Paste>, sends: seq<Event>, value: Bytes, o: Order) {
    |pastes| == |sends| && forall i :: 0 <= i < |pastes| ==> RightPaste(pastes[i], sends[i], value, o)
  }

  lemma RightAnswer(ev: Event, value: Bytes, o: Order)
    requires ev.fd.Some?
    ensures |Answers(ev, value, o)| == 1 && RightPaste(Answers(ev, value, o)[0], ev, value, o)
  {
    var p := Answers(ev, value, o)[0];
    hide EncodeArg, TakeStr, Promised, Payload;
    forall typ: Bytes, rest: Bytes | |typ| + 1 < 0x1_0000_0000 && |rest| % 4 == 0 && ev.m.body == EncodeArg(Str(typ), o) + rest
      ensures Promised(typ, value, p.data)
    {
      WordsAdd(|EncodeArg(Str(typ), o)|, |rest|);
      TakeEncodedStr(ev.m.body, typ, rest, o);
      PayloadPromised(typ, value);
    }
  }

  /** Every send event got its right paste, in order. */
  lemma {:induction false} AnswersRight(evs: seq<Event>, value: Bytes, o: Order)
    ensures AllRight(AllAnswers(evs, value, o), Sends(evs), value, o)
  {
    hide RightPaste, Answers;
    if evs != [] {
      var ev := evs[|evs| - 1];
      AnswersRight(evs[..|evs| - 1], value, o);
      if ev.fd.Some? {
        RightAnswer(ev, value, o);
      } else {
        NoAnswer(ev, value, o);
      }
    }
  }

  lemma PasteSnoc(a: seq<Paste>, b: seq<Paste>)
    ensures PasteFds(a + b) == PasteFds(a) + PasteFds(b)
  {
  }

  // ---------------------------------------------------------------- the globals

  /** The seat and the managers found so far. */
  datatype Globals = Globals(seat: Option<U32>, managers: map<Bytes, U32>)

  /** The name and interface a registry event advertises. */
  function Advert(m: Message, registry: U32, o: Order): Option<(U32, Bytes)> {
    if m.obj == registry && m.op == GLOBAL && |m.body| % 4 == 0 then Some(GlobalOf(m, o)) else None
  }

  function Advertise(g: Globals, m: Message, registry: U32, o: Order): Globals {
    match Advert(m, registry, o)
    case None => g
    case Some((name, iface)) =>
      if iface == "wl_seat" && g.seat.None? then g.(seat := Some(name))
      else if iface == MANAGERS[0] || iface == MANAGERS[1] then g.(managers := g.managers[iface := name])
      else g
  }

  function GlobalsOf(evs: seq<Event>, registry: U32, o: Order): Globals {
    if evs == [] then Globals(None, map[])
    else Advertise(GlobalsOf(evs[..|evs| - 1], registry, o), evs[|evs| - 1].m, registry, o)
  }

  lemma GlobalsSnoc(evs: seq<Event>, ev: Event, registry: U32, o: Order)
    ensures GlobalsOf(evs + [ev], registry, o) == Advertise(GlobalsOf(evs, registry, o), ev.m, registry, o)
  {
    assert (evs + [ev])[..|evs|] == evs;
  }

  ghost predicate Names(evs: seq<Event>, i: int, registry: U32, o: Order, iface: Bytes) {
    0 <= i < |evs| && Advert(evs[i].m, registry, o).Some? && Advert(evs[i].m, registry, o).value.1 == iface
  }

  function NameAt(evs: seq<Event>, i: int, registry: U32, o: Order): U32
    requires 0 <= i < |evs| && Advert(evs[i].m, registry, o).Some?
  {
    Advert(evs[i].m, registry, o).value.0
  }

  ghost predicate FirstOf(evs: seq<Event>, i: int, registry: U32, o: Order, iface: Bytes) {
    Names(evs, i, registry, o, iface) && forall j :: 0 <= j < i ==> !Names(evs, j, registry, o, iface)
  }

  ghost predicate LastOf(evs: seq<Event>, i: int, registry: U32, o: Order, iface: Bytes) {
    Names(evs, i, registry, o, iface) && forall j :: i < j < |evs| ==> !Names(evs, j, registry, o, iface)
  }

  lemma NamesSnoc(evs: seq<Event>, ev: Event, registry: U32, o: Order, iface: Bytes)
    ensures forall i :: i < |evs| ==> (Names(evs + [ev], i, registry, o, iface) <==> Names(evs, i, registry, o, iface))
    ensures forall i :: Names(evs, i, registry, o, iface) ==> NameAt(evs + [ev], i, registry, o) == NameAt(evs, i, registry, o)
    ensures Names(evs + [ev], |evs|, registry, o, iface) <==>
      Advert(ev.m, registry, o).Some? && Advert(ev.m, registry, o).value.1 == iface
    ensures forall i :: Names(evs + [ev], i, registry, o, iface) ==> i <= |evs|
  {
    hide Advert;
    forall i | i < |evs|
      ensures Names(evs + [ev], i, registry, o, iface) <==> Names(evs, i, registry, o, iface)
    {
    }
  }

  /** The seat is the first one advertised. */
  ghost predicate SeatRight(evs: seq<Event>, registry: U32, o: Order, seat: Option<U32>) {
    if seat.None? then forall i :: !Names(evs, i, registry, o, "wl_seat")
    else exists i :: FirstOf(evs, i, registry, o, "wl_seat") && NameAt(evs, i, registry, o) == seat.value
  }

  /** The manager is the last one advertised with its interface. */
  ghost predicate ManagerRight(evs: seq<Event>, registry: U32, o: Order, managers: map<Bytes, U32>, iface: Bytes) {
    if iface !in managers then forall i :: !Names(evs, i, registry, o, iface)
    else exists i :: LastOf(evs, i, registry, o, iface) && NameAt(evs, i, registry, o) == managers[iface]
  }

  lemma SeatStep(evs: seq<Event>, ev: Event, registry: U32, o: Order, g: Globals)
    requires SeatRight(evs, registry, o, g.seat)
    ensures SeatRight(evs + [ev], registry, o, Advertise(g, ev.m, registry, o).seat)
  {
    hide Advert;
    NamesSnoc(evs, ev, registry, o, "wl_seat");
    hide Names;
    if g.seat.Some? {
      var i :| FirstOf(evs, i, registry, o, "wl_seat") && NameAt(evs, i, registry, o) == g.seat.value;
      assert FirstOf(evs + [ev], i, registry, o, "wl_seat");
    } else if Names(evs + [ev], |evs|, registry, o, "wl_seat") {
      assert FirstOf(evs + [ev], |evs|, registry, o, "wl_seat");
    }
  }

  lemma ManagerStep(evs: seq<Event>, ev: Event, registry: U32, o: Order, g: Globals, iface: Bytes)
    requires ManagerRight(evs, registry, o, g.managers, iface) && (iface == MANAGERS[0] || iface == MANAGERS[1])
    ensures ManagerRight(evs + [ev], registry, o, Advertise(g, ev.m, registry, o).managers, iface)
  {
    hide Advert;
    NamesSnoc(evs, ev, registry, o, iface);
    assert iface != "wl_seat";
    hide Names;
    if Names(evs + [ev], |evs|, registry, o, iface) {
      assert LastOf(evs + [ev], |evs|, registry, o, iface);
    } else if iface in g.managers {
      var i :| LastOf(evs, i, registry, o, iface) && NameAt(evs, i, registry, o) == g.managers[iface];
      assert LastOf(evs + [ev], i, registry, o, iface);
    }
  }

  /** The seat is the first one advertised, and each manager the last one of its interface. */
  lemma {:induction false} GlobalsRight(evs: seq<Event>, registry: U32, o: Order)
    ensures SeatRight(evs, registry, o, GlobalsOf(evs, registry, o).seat)
    ensures forall k :: 0 <= k < 2 ==> ManagerRight(evs, registry, o, GlobalsOf(evs, registry, o).managers, MANAGERS[k])
  {
    if evs != [] {
      hide SeatRight, ManagerRight, GlobalsOf, Advertise;
      var init, ev := evs[..|evs| - 1], evs[|evs| - 1];
      assert evs == init + [ev];
      GlobalsSnoc(init, ev, registry, o);
      GlobalsRight(init, registry, o);
      SeatStep(init, ev, registry, o, GlobalsOf(init, registry, o));
      ManagerStep(init, ev, registry, o, GlobalsOf(init, registry, o), MANAGERS[0]);
      ManagerStep(init, ev, registry, o, GlobalsOf(init, registry, o), MANAGERS[1]);
    }
  }

  /** There is a seat and a manager. */
  predicate Suits(g: Globals) {
    g.seat.Some? && (MANAGERS[0] in g.managers || MANAGERS[1] in g.managers)
  }

  // ---------------------------------------------------------------- phases

  const SOURCE: U32 := 6
  const DEVICE: U32 := 7

  predicate IsDone(m: Message, cb: U32) {
    m.obj == cb && m.op == DONE
  }

  predicate IsError(m: Message) {
    m.obj == DISPLAY && m.op == DISPLAY_ERROR
  }

  predicate Cancels(m: Message) {
    m.obj == SOURCE && m.op == CANCELLED
  }

  predicate Finishes(m: Message) {
    m.obj == DEVICE && m.op == FINISHED
  }

  /** The events by their numbers in the protocol, whatever they carry. */
  lemma EventCodes(op: U16, body: Bytes, cb: U32)
    ensures IsDone(Message(cb, op, body), cb) <==> op == 0
    ensures IsError(Message(1, op, body)) <==> op == 0
    ensures IsSend(Message(SOURCE, op, body), SOURCE) <==> op == 0
    ensures Cancels(Message(SOURCE, op, body)) <==> op == 1
    ensures Finishes(Message(DEVICE, op, body)) <==> op == 2
    ensures forall o: Order :: Advert(Message(2, op, body), 2, o).Some? <==> op == 0 && |body| % 4 == 0
  {
    hide GlobalOf;
  }

  /** Nothing yet that ends the roundtrip waiting for cb; its claim says what was being served. */
  ghost predicate Waiting(evs: seq<Event>, cb: U32, claim: U32) {
    forall i :: 0 <= i < |evs| ==> !IsDone(evs[i].m, cb) && !IsError(evs[i].m) && (claim != 0 ==> !Finishes(evs[i].m))
  }

  /** The roundtrip was answered. */
  ghost predicate Completes(evs: seq<Event>, cb: U32, claim: U32) {
    evs != [] && Waiting(evs[..|evs| - 1], cb, claim) && IsDone(evs[|evs| - 1].m, cb)
  }

  /** An event put an end to the roundtrip before it was answered. */
  ghost predicate Breaks(evs: seq<Event>, cb: U32, claim: U32) {
    && evs != [] && Waiting(evs[..|evs| - 1], cb, claim) && !IsDone(evs[|evs| - 1].m, cb)
    && (IsError(evs[|evs| - 1].m) || (claim != 0 && Finishes(evs[|evs| - 1].m)))
  }

  /** What the phases make of a single event. */
  lemma OneEvent(ev: Event, cb: U32, claim: U32)
    ensures NoCancel([ev]) <==> !Cancels(ev.m)
    ensures Waiting([ev], cb, claim) <==> !IsDone(ev.m, cb) && !IsError(ev.m) && (claim != 0 ==> !Finishes(ev.m))
    ensures Breaks([ev], cb, claim) <==> !IsDone(ev.m, cb) && (IsError(ev.m) || (claim != 0 && Finishes(ev.m)))
  {
    assert [ev][0] == ev;
  }

  ghost predicate NoCancel(evs: seq<Event>) {
    forall i :: 0 <= i < |evs| ==> !Cancels(evs[i].m)
  }

  /** The registry roundtrip was answered and advertised what is needed. */
  ghost predicate Discovered(found: seq<Event>, o: Order) {
    Completes(found, 3, 0) && Suits(GlobalsOf(found, 2, o))
  }

  /** The confirming roundtrip was answered and the selection was not taken away in it. */
  ghost predicate Confirms(confirmed: seq<Event>) {
    Completes(confirmed, 8, SOURCE) && NoCancel(confirmed)
  }

  /** Nothing here ends the serving. */
  ghost predicate Fine(evs: seq<Event>) {
    forall i :: 0 <= i < |evs| ==> !IsError(evs[i].m) && !Finishes(evs[i].m) && !Cancels(evs[i].m)
  }

  /** Why serving ended. */
  datatype End = Lost | Deadline | CutOff

  /** Serving went on exactly up to the first event that ends it, or to a read that failed. */
  ghost predicate Stops(served: seq<Event>, end: End, stuck: bool) {
    match end
    case Deadline => Fine(served)
    case Lost => served != [] && Fine(served[..|served| - 1]) && Cancels(served[|served| - 1].m)
    case CutOff =>
      if Fine(served) then stuck
      else served != [] && Fine(served[..|served| - 1]) && (IsError(served[|served| - 1].m) || Finishes(served[|served| - 1].m))
  }

  /** The events of one connection: those of the two roundtrips, those served, and those that came
      too late to be. */
  datatype Run = Run(found: seq<Event>, confirmed: seq<Event>, served: seq<Event>, late: seq<Event>, end: End)

  /** The events came off the stream in this order, claiming a descriptor for the source once there
      is one. */
  ghost predicate FromStream(l: Link, r: Run, o: Order) {
    Comes(l, 0, o, r.found) && Comes(NextMany(l, 0, o, |r.found|).1, SOURCE, o, r.confirmed + r.served + r.late)
  }

  /** Up to the deadline nothing is sent; then the selection is cleared, unless a write fails, and
      what arrives before the sync after it is answered is late.  Otherwise only the one event that
      the reader holds is. */
  ghost predicate Closes(r: Run, opening: seq<Bytes>, sent: seq<Bytes>, unsent: bool, o: Order) {
    var cleared := opening + [ClearRequest(DEVICE, o), SyncRequest(9, o)];
    if r.end == Deadline
    then opening <= sent <= cleared && (!unsent || |r.late| > 1 ==> sent == cleared)
      && (forall i :: 0 <= i < |r.late| - 2 ==> r.late[i].m.obj != 9)
    else sent == opening && |r.late| <= 1
  }

  /** Why the selection could not be taken: a write or a read failed, an event broke a roundtrip off,
      a global is missing, or the selection was taken away. */
  ghost predicate Cause(l: Link, found: seq<Event>, confirmed: seq<Event>, unsent: bool, o: Order) {
    unsent ||
    if Discovered(found, o)
    then Breaks(confirmed, 8, SOURCE) || EndsAfter(NextMany(l, 0, o, |found|).1, SOURCE, o, confirmed)
      || (Completes(confirmed, 8, SOURCE) && !NoCancel(confirmed))
    else Breaks(found, 3, 0) || EndsAfter(l, 0, o, found) || (Completes(found, 3, 0) && !Suits(GlobalsOf(found, 2, o)))
  }

  lemma NotDiscovered(l: Link, found: seq<Event>, unsent: bool, o: Order)
    requires !Discovered(found, o)
    requires unsent || Breaks(found, 3, 0) || EndsAfter(l, 0, o, found) || (Completes(found, 3, 0) && !Suits(GlobalsOf(found, 2, o)))
    ensures Cause(l, found, [], unsent, o)
  {
  }

  lemma NotConfirmed(l: Link, found: seq<Event>, confirmed: seq<Event>, unsent: bool, o: Order)
    requires Discovered(found, o)
    requires unsent || Breaks(confirmed, 8, SOURCE) || EndsAfter(NextMany(l, 0, o, |found|).1, SOURCE, o, confirmed)
      || (Completes(confirmed, 8, SOURCE) && !NoCancel(confirmed))
    ensures Cause(l, found, confirmed, unsent, o)
  {
  }

  // ---------------------------------------------------------------- pastes before the report

  /** Events come with a descriptor exactly if they are send events. */
  ghost predicate Shaped(evs: seq<Event>, claim: U32) {
    forall i :: 0 <= i < |evs| ==> |evs[i].m.body| % 4 == 0 && (evs[i].fd.Some? <==> IsSend(evs[i].m, claim))
  }

  ghost predicate InBounds(l: Link) {
    SmallReads(l.inbox) && |l.buf| < 65532 + READ_SIZE
  }

  lemma ShapedCons(ev: Event, evs: seq<Event>, claim: U32)
    requires |ev.m.body| % 4 == 0 && (ev.fd.Some? <==> IsSend(ev.m, claim)) && Shaped(evs, claim)
    ensures Shaped([ev] + evs, claim)
  {
    hide IsSend;
  }

  lemma {:induction false} ComesShaped(l: Link, claim: U32, o: Order, evs: seq<Event>)
    requires InBounds(l) && Comes(l, claim, o, evs)
    ensures Shaped(evs, claim) && InBounds(NextMany(l, claim, o, |evs|).1)
    decreases |evs|
  {
    if evs != [] {
      NextBounds(l, claim, o);
      hide Next, InBounds, IsSend, Shaped;
      var (r, l1) := Next(l, claim, o);
      var (rs, l') := NextMany(l1, claim, o, |evs| - 1);
      assert r == Gots(evs)[0] == Got(evs[0]);
      assert rs == ([r] + rs)[1..] == Gots(evs)[1..] == Gots(evs[1..]);
      ComesShaped(l1, claim, o, evs[1..]);
      ShapedCons(evs[0], evs[1..], claim);
      assert evs == [evs[0]] + evs[1..];
    }
  }

  lemma {:induction false} SomeAnswer(evs: seq<Event>, claim: U32, value: Bytes, o: Order)
    requires Shaped(evs, claim)
    ensures AllAnswers(evs, value, o) != [] <==> exists i :: 0 <= i < |evs| && IsSend(evs[i].m, claim)
    decreases |evs|
  {
    if evs != [] {
      hide IsSend, Payload;
      var init, ev := evs[..|evs| - 1], evs[|evs| - 1];
      SomeAnswer(init, claim, value, o);
      if IsSend(ev.m, claim) {
        assert Answers(ev, value, o) != [];
        assert IsSend(evs[|evs| - 1].m, claim);
      }
    }
  }

  lemma {:induction false} AllAnswersConcat(a: seq<Event>, b: seq<Event>, value: Bytes, o: Order)
    ensures AllAnswers(a + b, value, o) == AllAnswers(a, value, o) + AllAnswers(b, value, o)
    decreases |b|
  {
    if b == [] {
      assert a + b == a && AllAnswers(b, value, o) == [];
    } else {
      hide Answers, AllAnswers;
      var init, ev := b[..|b| - 1], b[|b| - 1];
      assert b == init + [ev];
      AllAnswersConcat(a, init, value, o);
      AnswersSnoc(init, ev, value, o);
      AnswersSnoc(a + init, ev, value, o);
      Regroup(a, init, [ev]);
      Regroup(AllAnswers(a, value, o), AllAnswers(init, value, o), Answers(ev, value, o));
    }
  }

  lemma Regroup<T>(a: seq<T>, b: seq<T>, c: seq<T>)
    ensures a + b + c == a + (b + c)
  {
  }

  /** When success is reported a paste has been served already if and only if a send event came
      before the confirming sync was answered. */
  lemma PastesBeforeReport(l: Link, o: Order, found: seq<Event>, confirmed: seq<Event>, value: Bytes)
    requires InBounds(l) && Comes(l, 0, o, found) && Comes(NextMany(l, 0, o, |found|).1, SOURCE, o, confirmed)
    ensures AllAnswers(found + confirmed, value, o) != [] <==> exists i :: 0 <= i < |confirmed| && IsSend(confirmed[i].m, SOURCE)
  {
    hide InBounds, NextMany, AllAnswers, IsSend;
    ComesShaped(l, 0, o, found);
    ComesShaped(NextMany(l, 0, o, |found|).1, SOURCE, o, confirmed);
    SomeAnswer(found, 0, value, o);
    SomeAnswer(confirmed, SOURCE, value, o);
    AllAnswersConcat(found, confirmed, value, o);
    NoSource(found);
  }

  lemma NoSource(evs: seq<Event>)
    ensures forall i :: 0 <= i < |evs| ==> !IsSend(evs[i].m, 0)
  {
  }

  /** A paste asked for at once: its send event arrives in one read with the answer to the sync. */
  function EarlySend(typ: Bytes, o: Order): Message {
    Message(SOURCE, SEND, EncodeArgs([Str(typ)], o))
  }

  function SyncDone(o: Order): Message {
    Message(8, DONE, EncodeArgs([Word(0)], o))
  }

  function EarlyLink(typ: Bytes, fd: int, o: Order): Link {
    Link([], [], [Chunk(Stream([EarlySend(typ, o), SyncDone(o)], o), [fd])])
  }

  lemma EarlyCarries(typ: Bytes, fd: int, o: Order)
    requires |typ| < 1000
    ensures Carries(EarlyLink(typ, fd, o), [EarlySend(typ, o), SyncDone(o)], SOURCE, o)
  {
    var ms, l := [EarlySend(typ, o), SyncDone(o)], EarlyLink(typ, fd, o);
    ArgsShort(typ, o);
    hide EncodeMessage, EncodeArgs;
    assert l.inbox[1..] == [] && BytesOf([]) == [] && FdsOf([]) == [];
    assert Stream(ms, o) + [] == Stream(ms, o) && [] + Stream(ms, o) == Stream(ms, o) && [fd] + [] == [fd];
    forall r | 0 <= r <= |l.inbox|
      ensures SendsWithin(ms, SOURCE, |l.buf| + |BytesOf(l.inbox[..r])|) <= |l.fds| + |FdsOf(l.inbox[..r])|
    {
      if r == 0 {
        assert l.inbox[..0] == [];
      } else {
        assert l.inbox[..1] == l.inbox;
        AtMostOne(ms[1..], ms[0], o, |BytesOf(l.inbox)|);
      }
    }
  }

  lemma AtMostOne(rest: seq<Message>, first: Message, o: Order, n: nat)
    requires rest == [SyncDone(o)]
    ensures SendsWithin([first] + rest, SOURCE, n) <= 1
  {
    hide EncodeArgs;
    var ms := [first] + rest;
    assert ms[1..] == rest && ms[0] == first;
    if SizeOf(first) <= n {
      NoSends(rest, o, n - SizeOf(first));
    }
  }

  lemma NoSends(rest: seq<Message>, o: Order, n: nat)
    requires rest == [SyncDone(o)]
    ensures SendsWithin(rest, SOURCE, n) == 0
  {
    hide EncodeArgs;
    assert rest[1..] == [] && !IsSend(rest[0], SOURCE);
    if SizeOf(rest[0]) <= n {
      assert SendsWithin([], SOURCE, n - SizeOf(rest[0])) == 0;
    }
  }

  lemma ArgsShort(typ: Bytes, o: Order)
    ensures |EncodeArgs([Str(typ)], o)| <= |typ| + 8 && |EncodeArgs([Word(0)], o)| == 4
  {
    NoArgs(o);
    assert [Str(typ)][..0] == [] && [Word(0)][..0] == [];
    hide Put32;
  }

  lemma EarlyComes(typ: Bytes, fd: int, o: Order)
    requires |typ| < 1000
    ensures Comes(EarlyLink(typ, fd, o), SOURCE, o, [Event(EarlySend(typ, o), Some(fd)), Event(SyncDone(o), None)])
  {
    var ms := [EarlySend(typ, o), SyncDone(o)];
    EarlyCarries(typ, fd, o);
    hide EncodeArgs, Stream, Carries, NextMany;
    FramingIndependentOfChunks(EarlyLink(typ, fd, o), ms, SOURCE, o);
    EarlyDelivered(ms, fd, o);
  }

  // ---------------------------------------------------------------- one such stream, from its start

  /** What the registry says: a seat, a manager, and the end of the roundtrip. */
  function Advertised(name: U32, iface: Bytes, o: Order): Message {
    Message(2, GLOBAL, EncodeArgs([Word(name), Str(iface), Word(1)], o))
  }

  function RegistryDone(o: Order): Message {
    Message(3, DONE, EncodeArgs([Word(0)], o))
  }

  function Registry(o: Order): seq<Message> {
    [Advertised(1, "wl_seat", o), Advertised(2, MANAGERS[0], o), RegistryDone(o)]
  }

  function Unclaimed(ms: seq<Message>): seq<Event> {
    seq(|ms|, i requires 0 <= i < |ms| => Event(ms[i], None))
  }

  /** A first read with what the registry says, then a second with the send event and the answer. */
  function StartLink(typ: Bytes, fd: int, o: Order): Link {
    Link([], [], [Chunk(Stream(Registry(o), o), [])] + EarlyLink(typ, fd, o).inbox)
  }

  lemma AdvertisedArgs(name: U32, iface: Bytes, o: Order)
    requires |iface| < 1000
    ensures |Advertised(name, iface, o).body| <= |iface| + 20
    ensures Advert(Advertised(name, iface, o), 2, o) == Some((name, iface))
  {
    var args := [Word(name), Str(iface), Word(1)];
    var rest := EncodeArgs(args[1..], o);
    EncodeArgsCons(args, o);
    EncodeArgsCons(args[1..], o);
    assert args[1..][1..] == [Word(1)];
    AdvertisedTail(o);
    TakeEncodedWord(name, rest, o);
    TakeEncodedStr(rest, iface, EncodeArgs([Word(1)], o), o);
    hide EncodeArgs, TakeWord, TakeStr, Put32;
    assert EncodeArg(Word(name), o) + rest == Advertised(name, iface, o).body;
  }

  lemma AdvertisedTail(o: Order)
    ensures |EncodeArgs([Word(1)], o)| == 4
  {
    NoArgs(o);
    assert [Word(1)][..0] == [];
    hide Put32;
  }

  /** A message at the front of the buffer is the next event. */
  lemma NextInBuffer(m: Message, rest: Bytes, inbox: seq<Read>, o: Order)
    requires Fits(m)
    ensures Next(Link(EncodeMessage(m, o) + rest, [], inbox), 0, o) == (Got(Event(m, None)), Link(rest, [], inbox))
  {
    hide FrontOf;
    FramesBack(m, rest, o);
    var l := Link(EncodeMessage(m, o) + rest, [], inbox);
    NextUnfolds(l, 0, o);
    hide EncodeMessage, Next;
    assert l.buf[8 + |m.body|..] == rest;
  }

  /** Whole messages in the buffer are the next events, and are all gone then. */
  lemma {:induction false} AllInBuffer(ms: seq<Message>, inbox: seq<Read>, o: Order)
    requires forall i :: 0 <= i < |ms| ==> Fits(ms[i])
    ensures NextMany(Link(Stream(ms, o), [], inbox), 0, o, |ms|) == (Gots(Unclaimed(ms)), Link([], [], inbox))
    decreases |ms|
  {
    hide Next, EncodeMessage, Fits;
    if ms != [] {
      NextInBuffer(ms[0], Stream(ms[1..], o), inbox, o);
      AllInBuffer(ms[1..], inbox, o);
      assert Gots(Unclaimed(ms)) == [Got(Event(ms[0], None))] + Gots(Unclaimed(ms[1..]));
    }
  }

  lemma FirstRead(bytes: Bytes, inbox: seq<Read>, o: Order, k: nat)
    requires bytes != [] && k > 0
    ensures NextMany(Link([], [], [Chunk(bytes, [])] + inbox), 0, o, k) == NextMany(Link(bytes, [], inbox), 0, o, k)
  {
    var l := Link([], [], [Chunk(bytes, [])] + inbox);
    NextUnfolds(l, 0, o);
    assert FrontOf([], o).Incomplete? && AfterRead(l) == Link(bytes, [], inbox);
    hide Next, FrontOf;
  }

  lemma AdvertisedFits(name: U32, iface: Bytes, o: Order)
    requires |iface| < 1000
    ensures Fits(Advertised(name, iface, o))
  {
    AdvertisedArgs(name, iface, o);
    hide EncodeArgs, Advert;
  }

  lemma RegistryFits(o: Order)
    ensures forall i :: 0 <= i < |Registry(o)| ==> Fits(Registry(o)[i])
  {
    SeatFits(o);
    ManagerFits(o);
    DoneFits(o);
    hide Fits, Advertised, RegistryDone;
  }

  lemma SeatFits(o: Order)
    ensures Fits(Advertised(1, "wl_seat", o))
  {
    var seat: Bytes := "wl_seat";
    assert |seat| < 1000;
    AdvertisedFits(1, seat, o);
    hide Fits, Advertised;
  }

  lemma ManagerFits(o: Order)
    ensures Fits(Advertised(2, MANAGERS[0], o))
  {
    var manager := MANAGERS[0];
    assert |manager| < 1000;
    AdvertisedFits(2, manager, o);
    hide Fits, Advertised;
  }

  lemma DoneFits(o: Order)
    ensures Fits(RegistryDone(o))
  {
    ArgsShort([], o);
    hide EncodeArgs;
  }

  lemma SeatAdvertised(g: Globals, m: Message, name: U32, o: Order)
    requires g.seat.None? && Advert(m, 2, o) == Some((name, "wl_seat"))
    ensures Advertise(g, m, 2, o) == g.(seat := Some(name))
  {
    hide Advert;
  }

  lemma ManagerAdvertised(g: Globals, m: Message, name: U32, o: Order)
    requires Advert(m, 2, o) == Some((name, MANAGERS[0]))
    ensures Advertise(g, m, 2, o) == g.(managers := g.managers[MANAGERS[0] := name])
  {
    hide Advert;
    assert MANAGERS[0] != "wl_seat";
  }

  lemma ThreeFound(a: Event, b: Event, c: Event, o: Order)
    requires Advert(a.m, 2, o) == Some((1, "wl_seat")) && Advert(b.m, 2, o) == Some((2, MANAGERS[0])) && Advert(c.m, 2, o).None?
    ensures Suits(GlobalsOf([a, b, c], 2, o))
  {
    assert GlobalsOf([], 2, o) == Globals(None, map[]);
    assert [] + [a] == [a] && [a] + [b] == [a, b] && [a, b] + [c] == [a, b, c];
    GlobalsSnoc([], a, 2, o);
    GlobalsSnoc([a], b, 2, o);
    GlobalsSnoc([a, b], c, 2, o);
    assert forall g :: Advertise(g, c.m, 2, o) == g;
    SeatAdvertised(GlobalsOf([], 2, o), a.m, 1, o);
    ManagerAdvertised(GlobalsOf([a], 2, o), b.m, 2, o);
    hide GlobalsOf, Advert, Advertise;
  }

  lemma AdvertSeat(o: Order)
    ensures Advert(Registry(o)[0], 2, o) == Some((1, "wl_seat")) && Registry(o)[0].obj == 2
  {
    var seat: Bytes := "wl_seat";
    assert |seat| < 1000;
    AdvertisedArgs(1, seat, o);
    hide EncodeArgs, Advert;
  }

  lemma AdvertManager(o: Order)
    ensures Advert(Registry(o)[1], 2, o) == Some((2, MANAGERS[0])) && Registry(o)[1].obj == 2
  {
    var manager := MANAGERS[0];
    assert |manager| < 1000;
    AdvertisedArgs(2, manager, o);
    hide EncodeArgs, Advert;
  }

  lemma AdvertDone(o: Order)
    ensures Advert(Registry(o)[2], 2, o).None? && Registry(o)[2].obj == 3 && Registry(o)[2].op == DONE && |Registry(o)| == 3
  {
    hide EncodeArgs;
  }

  lemma RegistryFound(o: Order)
    ensures |Registry(o)| == 3 && Discovered(Unclaimed(Registry(o)), o)
    ensures forall i :: 0 <= i < 3 ==> Unclaimed(Registry(o))[i].fd.None?
  {
    AdvertSeat(o);
    AdvertManager(o);
    AdvertDone(o);
    hide Registry, Advert;
    var evs := Unclaimed(Registry(o));
    RegistryCompletes(evs);
    hide Completes, Suits, GlobalsOf;
    assert evs == [evs[0], evs[1], evs[2]];
    ThreeFound(evs[0], evs[1], evs[2], o);
  }

  lemma RegistryCompletes(evs: seq<Event>)
    requires |evs| == 3 && evs[0].m.obj == evs[1].m.obj == 2 && evs[2].m.obj == 3 && evs[2].m.op == DONE
    ensures Completes(evs, 3, 0)
  {
  }

  lemma {:induction false} NothingClaimed(evs: seq<Event>, value: Bytes, o: Order)
    requires forall i :: 0 <= i < |evs| ==> evs[i].fd.None?
    ensures AllAnswers(evs, value, o) == []
  {
    if evs != [] {
      NothingClaimed(evs[..|evs| - 1], value, o);
    }
  }

  /** So it does happen: on this stream the globals are found, the selection is confirmed, and a paste
      is served before success is reported. */
  lemma EarlyPaste(typ: Bytes, fd: int, value: Bytes, o: Order)
    requires |typ| < 1000
    ensures var l, found := StartLink(typ, fd, o), Unclaimed(Registry(o));
      var confirmed := [Event(EarlySend(typ, o), Some(fd)), Event(SyncDone(o), None)];
      && Comes(l, 0, o, found) && Discovered(found, o)
      && Comes(NextMany(l, 0, o, |found|).1, SOURCE, o, confirmed) && Confirms(confirmed)
      && |AllAnswers(found + confirmed, value, o)| == 1 && AllAnswers(found + confirmed, value, o)[0].fd == fd
      && (typ in TEXT_TYPES ==> AllAnswers(found + confirmed, value, o)[0].data == Some(value))
      && (typ == PASSWORD_HINT ==> AllAnswers(found + confirmed, value, o)[0].data == Some("secret"))
  {
    PayloadPromised(typ, value);
    var ms, found := Registry(o), Unclaimed(Registry(o));
    var confirmed := [Event(EarlySend(typ, o), Some(fd)), Event(SyncDone(o), None)];
    RegistryFits(o);
    RegistryFound(o);
    RegistryBytes(o);
    EarlyComes(typ, fd, o);
    EarlyAnswers(typ, fd, value, o);
    NothingClaimed(found, value, o);
    AllAnswersConcat(found, confirmed, value, o);
    hide Stream, EncodeArgs, NextMany, AllAnswers, Discovered, Confirms, Registry, Fits, Advertised, Payload;
    FirstRead(Stream(ms, o), EarlyLink(typ, fd, o).inbox, o, 3);
    AllInBuffer(ms, EarlyLink(typ, fd, o).inbox, o);
  }

  lemma RegistryBytes(o: Order)
    ensures Stream(Registry(o), o) != [] && |Registry(o)| == 3
  {
    hide EncodeArgs;
  }

  lemma EarlyAnswers(typ: Bytes, fd: int, value: Bytes, o: Order)
    requires |typ| < 1000
    ensures var evs := [Event(EarlySend(typ, o), Some(fd)), Event(SyncDone(o), None)];
      Confirms(evs) && AllAnswers(evs, value, o) == [Paste(fd, Payload(value, typ))]
  {
    var a, b := Event(EarlySend(typ, o), Some(fd)), Event(SyncDone(o), None);
    EarlyType(typ, o);
    EarlyConfirms(a, b);
    assert |a.m.body| % 4 == 0;
    hide EncodeArgs, Payload, TypeOf, Confirms, EarlySend, SyncDone;
    AnswersTwo(a, b, value, o);
  }

  lemma EarlyConfirms(a: Event, b: Event)
    requires a.m.obj == SOURCE && a.m.op == SEND && b.m.obj == 8 && b.m.op == DONE
    ensures Confirms([a, b])
  {
    assert [a, b][..1] == [a];
  }

  lemma AnswersTwo(a: Event, b: Event, value: Bytes, o: Order)
    requires b.fd.None?
    ensures AllAnswers([a, b], value, o) == Answers(a, value, o)
  {
    assert AllAnswers([], value, o) == [];
    hide Answers, AllAnswers;
    AnswersSnoc([], a, value, o);
    AnswersSnoc([a], b, value, o);
    assert [] + [a] == [a] && [a] + [b] == [a, b];
  }

  lemma EarlyDelivered(ms: seq<Message>, fd: int, o: Order)
    requires |ms| == 2 && IsSend(ms[0], SOURCE) && ms[1] == SyncDone(o)
    ensures [] + FdsOf([Chunk(Stream(ms, o), [fd])]) == [fd]
    ensures Delivered(ms, [fd], SOURCE) == Gots([Event(ms[0], Some(fd)), Event(ms[1], None)])
  {
    hide EncodeArgs, Stream;
    assert [Chunk(Stream(ms, o), [fd])][1..] == [] && FdsOf([]) == [] && [fd] + [] == [fd];
    assert ms[1..] == [ms[1]] && ms[1..][1..] == [] && [fd][1..] == [];
    assert Delivered([], [], SOURCE) == [];
    assert Delivered(ms[1..], [], SOURCE) == [Got(Event(ms[1], None))];
  }

  lemma EarlyType(typ: Bytes, o: Order)
    requires |typ| < 1000
    ensures TypeOf(EarlySend(typ, o), o) == typ
  {
    var b := EncodeArgs([Str(typ)], o);
    NoArgs(o);
    assert [Str(typ)][..0] == [];
    assert b == EncodeArg(Str(typ), o);
    assert b + [] == b;
    TakeEncodedStr(b, typ, [], o);
  }
}
