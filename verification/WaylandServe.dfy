/** `serveWayland`: discover the globals, take the selection, confirm it, serve pastes. */
module WaylandServe {
  import opened Wrappers
  import opened Bytes
  import opened WaylandWire
  import opened WaylandConn
  import opened WaylandEvents
  import opened Clipboard

  /** The descriptors there were at the start, and the stream the events since `from` come from. */
  datatype Books = Books(start: multiset<int>, base: Link, from: nat)

  /** The connection and the local state of one `serveWayland`. */
  class Session {
    const w: Conn
    const value: Bytes
    var registry: U32
    var seat: Option<U32>
    var managers: map<Bytes, U32>
    var source: U32
    var device: U32
    var owned: bool
    var pastes: seq<Paste>

    constructor (w: Conn, value: Bytes)
      ensures this.w == w && this.value == value && seat == None && managers == map[] && source == 0 && pastes == []
    {
      this.w, this.value := w, value;
      registry, seat, managers, source, device, owned, pastes := 0, None, map[], 0, 0, false, [];
    }

    /** Every descriptor is held, handed to a paste, closed, or still to be received. */
    ghost predicate Accounted(start: multiset<int>)
      reads `pastes, w`closed, w`fds, w`inbox
    {
      multiset(PasteFds(pastes)) + multiset(w.closed) + multiset(w.AllFds()) == start
    }

    /** The pastes are the answers to the events handed out: one for each send event, to its own
        descriptor, with what its type stands for. */
    ghost predicate Served()
      reads `pastes, w`delivered
    {
      pastes == AllAnswers(w.delivered, value, w.order)
    }

    ghost predicate Valid(b: Books)
      reads `pastes, w`buf, w`closed, w`fds, w`inbox
    {
      w.Bounded() && Accounted(b.start)
    }

    /** The events since b.from are the next of the stream. */
    ghost predicate Came(b: Books, claim: U32)
      reads w`delivered
    {
      b.from <= |w.delivered| && Comes(b.base, claim, w.order, w.delivered[b.from..])
    }

    /** They are, and the connection goes on behind them. */
    ghost predicate Tracks(b: Books, claim: U32)
      reads w`delivered, w`buf, w`fds, w`inbox
    {
      b.from <= |w.delivered| && Reads(b.base, claim, w.order, w.delivered[b.from..], w.State())
    }

    /** They are, and after them a read fails. */
    ghost predicate Stuck(b: Books, claim: U32)
      reads w`delivered
    {
      b.from <= |w.delivered| && EndsAfter(b.base, claim, w.order, w.delivered[b.from..])
    }

    function Found(): Globals
      reads `seat, `managers
    {
      Globals(seat, managers)
    }

    /** A registry event names a global: the first seat counts, and the last of each manager. */
    method HandleGlobal(m: Message)
      requires |m.body| % 4 == 0
      modifies this`seat, this`managers
      ensures Found() == Advertise(old(Found()), m, registry, w.order)
    {
      if m.obj != registry || m.op != GLOBAL {
        return;
      }
      var a := new Args(m.body, w.order);
      var name := a.Uint();
      var iface := a.String();
      var version := a.Uint();
      if iface == "wl_seat" && seat.None? {
        seat := Some(name);
      } else if iface == MANAGERS[0] || iface == MANAGERS[1] {
        managers := managers[iface := name];
      }
    }

    /** Reacts to an event that concerns the offered selection. */
    method HandleSelection(ev: Event) returns (err: bool)
      requires |ev.m.body| % 4 == 0 && (IsSend(ev.m, source) <==> ev.fd.Some?) && source == SOURCE && device == DEVICE
      modifies this`owned, this`pastes
      ensures pastes == old(pastes) + Answers(ev, value, w.order)
      ensures ev.fd.Some? ==> |pastes| == |old(pastes)| + 1 && RightPaste(pastes[|old(pastes)|], ev, value, w.order)
      ensures owned == (old(owned) && !Cancels(ev.m)) && (err <==> Finishes(ev.m))
    {
      if ev.fd.Some? { RightAnswer(ev, value, w.order); }
      hide RightPaste;
      if ev.m.obj == source && ev.m.op == SEND {
        var a := new Args(ev.m.body, w.order);
        var typ := a.String();
        pastes := pastes + [Paste(ev.fd.value, Payload(value, typ))];
      } else if ev.m.obj == source && ev.m.op == CANCELLED {
        owned := false;
      } else if ev.m.obj == device && ev.m.op == FINISHED {
        return true;
      }
      return false;
    }

    /** The next event, with the books kept. */
    method Receive(claim: U32, ghost b: Books) returns (r: Outcome)
      requires Valid(b) && Tracks(b, claim)
      modifies w`buf, w`fds, w`inbox, w`delivered
      ensures w.Bounded() && w.delivered == if r.Got? then old(w.delivered) + [r.ev] else old(w.delivered)
      ensures Came(b, claim) && (if r.Got? then Tracks(b, claim) else Stuck(b, claim))
      ensures multiset(PasteFds(pastes)) + multiset(w.closed) + multiset(Claimed(r)) + multiset(w.AllFds()) == b.start
      ensures r.Got? ==> |r.ev.m.body| % 4 == 0 && (r.ev.fd.Some? <==> IsSend(r.ev.m, claim))
      ensures r.Got? ==> w.Unread() < old(w.Unread())
    {
      hide Next, NextMany, Comes, Reads, EndsAfter, Claimed, PasteFds, FdsOf, BytesOf, SmallReads, IsSend;
      ghost var evs := w.delivered[b.from..];
      TracksCame(b.base, claim, w.order, evs, w.State());
      StuckOrNot(b.base, claim, w.order, evs, w.State());
      r := w.NextEvent(claim);
      OnlyMoved(multiset(PasteFds(pastes)) + multiset(w.closed), old(w.AllFds()), Claimed(r), w.AllFds());
      if r.Got? {
        ReadsSnoc(b.base, claim, w.order, evs, old(w.State()), r.ev, w.State());
        assert w.delivered[b.from..] == evs + [r.ev];
        TracksCame(b.base, claim, w.order, evs + [r.ev], w.State());
      }
    }

    /** Handles the event with its descriptor, if any, and the books balance again. */
    method Absorb(ev: Event, ghost b: Books) returns (err: bool)
      requires w.Bounded() && source == SOURCE && device == DEVICE && |ev.m.body| % 4 == 0 && (ev.fd.Some? <==> IsSend(ev.m, source))
      requires multiset(PasteFds(pastes)) + multiset(w.closed) + multiset(Claimed(Got(ev))) + multiset(w.AllFds()) == b.start
      modifies this`owned, this`pastes
      ensures Valid(b)
      ensures pastes == old(pastes) + Answers(ev, value, w.order)
      ensures owned == (old(owned) && !Cancels(ev.m)) && (err <==> Finishes(ev.m))
    {
      err := HandleSelection(ev);
      PasteSnoc(old(pastes), Answers(ev, value, w.order));
      assert PasteFds(Answers(ev, value, w.order)) == Claimed(Got(ev));
    }

    /** What a roundtrip is for: globals, or the selection. */
    ghost predicate Purpose(claim: U32, cb: U32)
      reads `registry, `source, `device
    {
      if claim == 0 then cb == 3 && registry == 2 else cb == 8 && claim == source == SOURCE && device == DEVICE
    }

    /** One event of a roundtrip: its end, a protocol error, or something to handle. */
    method RoundtripEvent(claim: U32, cb: U32, ghost b: Books) returns (done: bool, err: bool, ghost got: seq<Event>)
      requires Valid(b) && Served() && Tracks(b, claim) && Purpose(claim, cb)
      modifies w`buf, w`fds, w`inbox, w`delivered, this`seat, this`managers, this`owned, this`pastes
      ensures Valid(b) && Served() && Came(b, claim) && w.delivered == old(w.delivered) + got
      ensures !err ==> Tracks(b, claim) && |got| == 1
      ensures !err && !done ==> Waiting(got, cb, claim) && w.Unread() < old(w.Unread())
      ensures !err && done ==> IsDone(got[0].m, cb)
      ensures err ==> if got == [] then Stuck(b, claim) else |got| == 1 && Breaks(got, cb, claim)
      ensures claim == 0 ==> owned == old(owned) && pastes == old(pastes)
      ensures claim == 0 ==> Found() == if got == [] then old(Found()) else Advertise(old(Found()), got[0].m, registry, w.order)
      ensures claim != 0 ==> Found() == old(Found()) && owned == (old(owned) && NoCancel(got))
    {
      hide PasteFds, FdsOf, BytesOf, Payload, Answers, Comes, NextMany, Reads, EndsAfter, SmallReads, AllAnswers, Advertise, NoCancel, Waiting, Breaks;
      NoCancelNone();
      var r := Receive(claim, b);
      if r.Failed? { return true, true, []; }
      got := [r.ev];
      var m := r.ev.m;
      OneEvent(r.ev, cb, claim);
      AnswersSnoc(old(w.delivered), r.ev, value, w.order);
      if claim == 0 && (IsDone(m, cb) || IsError(m)) { NotAdvert(Found(), m, cb, w.order); }
      if m.obj == cb && m.op == DONE { return true, false, got; }
      if m.obj == DISPLAY && m.op == DISPLAY_ERROR { return true, true, got; }
      done := false;
      err := Pass(claim, r.ev, b);
    }

    /** What a roundtrip does with an event that does not end it. */
    method Pass(claim: U32, ev: Event, ghost b: Books) returns (err: bool)
      requires w.Bounded() && |ev.m.body| % 4 == 0 && (ev.fd.Some? <==> IsSend(ev.m, claim))
      requires claim != 0 ==> claim == source == SOURCE && device == DEVICE
      requires multiset(PasteFds(pastes)) + multiset(w.closed) + multiset(Claimed(Got(ev))) + multiset(w.AllFds()) == b.start
      modifies this`seat, this`managers, this`owned, this`pastes
      ensures Valid(b) && pastes == old(pastes) + Answers(ev, value, w.order) && (err <==> claim != 0 && Finishes(ev.m))
      ensures claim == 0 ==> owned == old(owned) && pastes == old(pastes) && Found() == Advertise(old(Found()), ev.m, registry, w.order)
      ensures claim != 0 ==> Found() == old(Found()) && owned == (old(owned) && !Cancels(ev.m))
    {
      hide PasteFds, FdsOf, BytesOf, SmallReads, Payload, Advertise;
      if claim == 0 {
        HandleGlobal(ev.m);
        NoAnswer(ev, value, w.order);
        assert Claimed(Got(ev)) == [];
        err := false;
      } else {
        err := Absorb(ev, b);
      }
    }

    /** Sends a sync and handles everything that arrives before it is done.  Claiming nothing, it
        collects globals; claiming the source, it serves the selection. */
    method Roundtrip(claim: U32, ghost b: Books) returns (err: bool, ghost evs: seq<Event>)
      requires Valid(b) && Served() && Tracks(b, claim) && Purpose(claim, w.nextID) && !w.unsent
      requires claim == 0 ==> Found() == Globals(None, map[])
      modifies w`buf, w`fds, w`inbox, w`delivered, w`unsent, w`nextID, w`sent
      modifies this`seat, this`managers, this`owned, this`pastes
      ensures Valid(b) && Served() && Came(b, claim) && w.nextID == old(w.nextID) + 1 && w.delivered == old(w.delivered) + evs
      ensures err <==> !Completes(evs, old(w.nextID), claim)
      ensures err ==> w.unsent || Stuck(b, claim) || Breaks(evs, old(w.nextID), claim)
      ensures !err ==> Tracks(b, claim) && !w.unsent && w.sent == old(w.sent) + [SyncRequest(old(w.nextID), w.order)]
      ensures old(w.sent) <= w.sent <= old(w.sent) + [SyncRequest(old(w.nextID), w.order)]
      ensures claim == 0 ==> owned == old(owned) && pastes == old(pastes) && Found() == GlobalsOf(evs, registry, w.order)
      ensures claim != 0 ==> Found() == old(Found()) && owned == (old(owned) && NoCancel(evs))
    {
      hide PasteFds, FdsOf, BytesOf, EncodeMessage, EncodeArgs, Session.Accounted, Session.Served, Comes,
           NextMany, Reads, EndsAfter, GlobalsOf, Advertise, IsDone, Finishes, IsError;
      evs := [];
      NoGlobals(registry, w.order);
      TracksCame(b.base, claim, w.order, w.delivered[b.from..], w.State());
      var cb := w.NewID();
      err := w.Request(DISPLAY, SYNC, [Word(cb)]);
      if err { return; }
      while true
        invariant Valid(b) && Served() && Tracks(b, claim) && !w.unsent && w.nextID == old(w.nextID) + 1
        invariant w.delivered == old(w.delivered) + evs && Waiting(evs, cb, claim)
        invariant w.sent == old(w.sent) + [SyncRequest(old(w.nextID), w.order)]
        invariant claim == 0 ==> owned == old(owned) && pastes == old(pastes) && Found() == GlobalsOf(evs, registry, w.order)
        invariant claim != 0 ==> Found() == old(Found()) && owned == (old(owned) && NoCancel(evs))
        decreases w.Unread()
      {
        ghost var got;
        var done;
        done, err, got := RoundtripEvent(claim, cb, b);
        if got != [] {
          GlobalsSnoc(evs, got[0], registry, w.order);
          assert got == [got[0]] && (evs + got)[..|evs|] == evs;
        }
        assert got == [] ==> evs + got == evs;
        evs := evs + got;
        if done || err { return; }
      }
    }

    /** Finds the seat and a manager; nothing is offered yet. */
    method Discover(ghost b: Books) returns (err: bool, ghost found: seq<Event>)
      requires Valid(b) && Served() && Tracks(b, 0) && w.nextID == 2 && w.sent == [] && Found() == Globals(None, map[]) && !w.unsent
      modifies w`buf, w`fds, w`inbox, w`delivered, w`unsent, w`nextID, w`sent
      modifies this`registry, this`seat, this`managers, this`owned, this`pastes
      ensures Valid(b) && Served() && Came(b, 0) && pastes == old(pastes) && w.delivered == old(w.delivered) + found
      ensures err <==> !Discovered(found, w.order)
      ensures err ==> w.unsent || Stuck(b, 0) || Breaks(found, 3, 0) || (Completes(found, 3, 0) && !Suits(GlobalsOf(found, 2, w.order)))
      ensures w.sent <= [RegistryRequest(2, w.order), SyncRequest(3, w.order)]
      ensures !err ==> registry == 2 && w.sent == [RegistryRequest(2, w.order), SyncRequest(3, w.order)]
      ensures !err ==> w.nextID == 4 && Tracks(b, 0) && !w.unsent && Found() == GlobalsOf(found, 2, w.order)
    {
      hide EncodeMessage, EncodeArgs, PasteFds, FdsOf, BytesOf, Payload, Session.Accounted, Session.Served,
           Conn.Bounded, Comes, NextMany, Reads, GlobalsOf, Waiting;
      found := [];
      TracksCame(b.base, 0, w.order, w.delivered[b.from..], w.State());
      registry := w.NewID();
      err := w.Request(DISPLAY, GET_REGISTRY, [Word(registry)]);
      if err { return; }
      err, found := Roundtrip(0, b);
      if err { return; }
      err := seat.None? || (MANAGERS[0] !in managers && MANAGERS[1] !in managers);
    }

    /** Binds both globals, offers every type with the hint first, and takes the selection.  All
        requests are attempted; any failure fails the whole. */
    method TakeSelection() returns (err: bool)
      requires w.nextID == 4 && Suits(Found()) && !w.unsent
      modifies w`nextID, w`sent, w`unsent, this`source, this`device
      ensures w.nextID == 8 && source == SOURCE && device == DEVICE && err == w.unsent
      ensures !err ==> w.sent == old(w.sent) + EncodeAll(Setup(registry, seat.value, Manager(managers), w.order), w.order)
    {
      hide EncodeMessage, EncodeArgs, Offers, EncodeAll, Binds, Takes, Manager;
      ghost var binds, offers, takes :=
        Binds(registry, seat.value, Manager(managers), w.order), Offers(OFFERED, w.order), Takes(w.order);
      EncodeAllConcat(binds, offers, w.order);
      EncodeAllConcat(binds + offers, takes, w.order);
      err := BindGlobals();
      var e := OfferAll();
      err := err || e;
      e := SetSelection();
      err := err || e;
    }

    method TakeIDs() returns (seatID: U32, managerID: U32)
      requires w.nextID == 4
      modifies w`nextID, this`source, this`device
      ensures w.nextID == 8 && seatID == 4 && managerID == 5 && source == SOURCE && device == DEVICE
    {
      seatID := w.NewID();
      managerID := w.NewID();
      source := w.NewID();
      device := w.NewID();
    }

    method BindGlobals() returns (err: bool)
      requires w.nextID == 4 && Suits(Found())
      modifies w`nextID, w`sent, w`unsent, this`source, this`device
      ensures w.nextID == 8 && source == SOURCE && device == DEVICE && w.unsent == (old(w.unsent) || err)
      ensures !err ==> w.sent == old(w.sent) + EncodeAll(Binds(registry, seat.value, Manager(managers), w.order), w.order)
    {
      hide EncodeMessage, EncodeArgs, Manager, EncodeAll;
      var seatID, managerID := TakeIDs();
      var (iface, name) := Manager(managers);
      var e0 := w.Request(registry, BIND, [Word(seat.value), Str("wl_seat"), Word(1), Word(seatID)]);
      var e1 := w.Request(registry, BIND, [Word(name), Str(iface), Word(1), Word(managerID)]);
      var e2 := w.Request(managerID, CREATE_SOURCE, [Word(source)]);
      err := e0 || e1 || e2;
      EncodeThree(Binds(registry, seat.value, Manager(managers), w.order), w.order);
    }

    method SetSelection() returns (err: bool)
      requires source == SOURCE && device == DEVICE
      modifies w`sent, w`unsent
      ensures w.unsent == (old(w.unsent) || err)
      ensures !err ==> w.sent == old(w.sent) + EncodeAll(Takes(w.order), w.order)
    {
      hide EncodeMessage, EncodeArgs;
      var e0 := w.Request(5, GET_DEVICE, [Word(device), Word(4)]);
      var e1 := w.Request(device, SET_SELECTION, [Word(source)]);
      err := e0 || e1;
    }

    method OfferAll() returns (err: bool)
      requires source == SOURCE
      modifies w`sent, w`unsent
      ensures w.unsent == (old(w.unsent) || err)
      ensures !err ==> w.sent == old(w.sent) + EncodeAll(Offers(OFFERED, w.order), w.order)
    {
      hide EncodeMessage, EncodeArgs, Offers, EncodeAll;
      err := false;
      NothingOffered(w.order);
      assert OFFERED[..0] == [];
      var types := [PASSWORD_HINT] + TEXT_TYPES;
      for i := 0 to |types|
        invariant w.unsent == (old(w.unsent) || err)
        invariant !err ==> w.sent == old(w.sent) + EncodeAll(Offers(OFFERED[..i], w.order), w.order)
      {
        OffersSnoc(OFFERED, i, w.order);
        var e := w.Request(source, OFFER, [Str(types[i])]);
        err := err || e;
      }
      assert OFFERED[..|OFFERED|] == OFFERED;
    }

    /** At the deadline: clears the selection, waits for that to be processed, closes what arrives. */
    method Clear(ghost b: Books) returns (dead: bool, ghost late: seq<Event>)
      requires Valid(b) && Tracks(b, SOURCE) && source == SOURCE && device == DEVICE && w.nextID == 9
      modifies w`buf, w`fds, w`inbox, w`delivered, w`unsent, w`nextID, w`sent, w`closed
      ensures Valid(b) && Came(b, SOURCE) && (!dead ==> Tracks(b, SOURCE)) && w.delivered == old(w.delivered) + late
      ensures old(w.sent) <= w.sent <= old(w.sent) + [ClearRequest(DEVICE, w.order), SyncRequest(9, w.order)]
      ensures late != [] ==> w.sent == old(w.sent) + [ClearRequest(DEVICE, w.order), SyncRequest(9, w.order)]
      ensures forall i :: 0 <= i < |late| - 1 ==> late[i].m.obj != 9
      ensures w.unsent || w.sent == old(w.sent) + [ClearRequest(DEVICE, w.order), SyncRequest(9, w.order)]
    {
      hide EncodeMessage, EncodeArgs, PasteFds, FdsOf, BytesOf, Session.Accounted, Comes, NextMany, Reads, EndsAfter;
      dead, late := false, [];
      TracksCame(b.base, SOURCE, w.order, w.delivered[b.from..], w.State());
      var err := w.Request(device, SET_SELECTION, [Word(0)]);
      if err { return; }
      var cb := w.NewID();
      err := w.Request(DISPLAY, SYNC, [Word(cb)]);
      if err { return; }
      dead, late := DrainUntil(cb, b);
    }

    method DrainUntil(cb: U32, ghost b: Books) returns (dead: bool, ghost late: seq<Event>)
      requires Valid(b) && Tracks(b, SOURCE) && cb != SOURCE && source == SOURCE
      modifies w`buf, w`fds, w`inbox, w`delivered, w`closed
      ensures Valid(b) && Came(b, SOURCE) && (!dead ==> Tracks(b, SOURCE)) && w.delivered == old(w.delivered) + late
      ensures forall i :: 0 <= i < |late| - 1 ==> late[i].m.obj != cb
    {
      hide PasteFds, FdsOf, BytesOf, Payload, Comes, NextMany, Reads, Session.Accounted;
      late := [];
      while true
        invariant Valid(b) && Tracks(b, SOURCE) && w.delivered == old(w.delivered) + late
        invariant forall i :: 0 <= i < |late| ==> late[i].m.obj != cb
        decreases w.Unread()
      {
        var deadline := *;
        if deadline {
          TracksCame(b.base, SOURCE, w.order, w.delivered[b.from..], w.State());
          return false, late;
        }
        var r := CloseNext(b);
        if r.Failed? { return true, late; }
        late := late + [r.ev];
        if r.ev.m.obj == cb {
          TracksCame(b.base, SOURCE, w.order, w.delivered[b.from..], w.State());
          return false, late;
        }
      }
    }

    /** The next event, unserved: its descriptor, if any, is closed. */
    method CloseNext(ghost b: Books) returns (r: Outcome)
      requires Valid(b) && Tracks(b, SOURCE) && source == SOURCE
      modifies w`buf, w`fds, w`inbox, w`delivered, w`closed
      ensures Valid(b) && Came(b, SOURCE) && w.delivered == if r.Got? then old(w.delivered) + [r.ev] else old(w.delivered)
      ensures (r.Got? ==> Tracks(b, SOURCE) && w.Unread() < old(w.Unread()))
    {
      hide PasteFds, FdsOf, BytesOf, Comes, NextMany, Reads, EndsAfter;
      r := Receive(source, b);
      CloseBooks(r, b);
      if r.Got? {
        w.CloseFd(r.ev.fd);
      }
    }

    lemma CloseBooks(r: Outcome, b: Books)
      requires multiset(PasteFds(pastes)) + multiset(w.closed) + multiset(Claimed(r)) + multiset(w.AllFds()) == b.start
      ensures multiset(PasteFds(pastes)) + multiset(w.closed + Claimed(r)) + multiset(w.AllFds()) == b.start
    {
    }

    /** Unless its reads have failed, the reading goroutine may hold one more event when it is
        stopped; its descriptor is closed. */
    method StopReader(dead: bool, ghost b: Books) returns (ghost late: seq<Event>)
      requires Valid(b) && Came(b, SOURCE) && (!dead ==> Tracks(b, SOURCE)) && source == SOURCE
      modifies w`buf, w`fds, w`inbox, w`delivered, w`closed
      ensures Valid(b) && Came(b, SOURCE) && w.delivered == old(w.delivered) + late && |late| <= 1
    {
      late := [];
      var pending := *;
      if pending && !dead {
        var r := CloseNext(b);
        if r.Got? {
          late := [r.ev];
        }
      }
    }

    /** Serves until the selection is lost, the deadline passes, or the connection fails.  Every event
        up to then is handled; only those that arrive while the selection is being cleared are not. */
    method ServeLoop(ghost b: Books) returns (end: End, dead: bool, ghost served: seq<Event>, ghost late: seq<Event>)
      requires Valid(b) && Served() && Tracks(b, SOURCE) && source == SOURCE && device == DEVICE && w.nextID == 9 && owned && !w.unsent
      modifies w`buf, w`fds, w`inbox, w`delivered, w`unsent, w`nextID, w`sent, w`closed, this`owned, this`pastes
      ensures Valid(b) && Came(b, SOURCE) && (!dead ==> Tracks(b, SOURCE)) && w.delivered == old(w.delivered) + served + late
      ensures pastes == AllAnswers(old(w.delivered) + served, value, w.order) && Stops(served, end, Stuck(b, SOURCE))
      ensures if end == Deadline then w.unsent || w.sent == old(w.sent) + [ClearRequest(DEVICE, w.order), SyncRequest(9, w.order)] else !w.unsent
      ensures end != Deadline ==> late == [] && w.sent == old(w.sent)
      ensures old(w.sent) <= w.sent <= old(w.sent) + [ClearRequest(DEVICE, w.order), SyncRequest(9, w.order)]
      ensures late != [] ==> w.sent == old(w.sent) + [ClearRequest(DEVICE, w.order), SyncRequest(9, w.order)]
      ensures forall i :: 0 <= i < |late| - 1 ==> late[i].m.obj != 9
    {
      hide EncodeMessage, EncodeArgs, PasteFds, FdsOf, BytesOf, Payload, Answers, AllAnswers, Session.Accounted, SyncRequest,
           ClearRequest, Comes, NextMany, Reads, Finishes, IsError, Cancels;
      dead, served, late := false, [], [];
      while owned
        invariant Valid(b) && Served() && Tracks(b, SOURCE) && !w.unsent && w.nextID == 9 && w.sent == old(w.sent)
        invariant w.delivered == old(w.delivered) + served
        invariant if owned then Fine(served) else Stops(served, Lost, false)
        decreases w.Unread()
      {
        var deadline := *;
        if deadline {
          dead, late := Clear(b);
          return Deadline, dead, served, late;
        }
        var err;
        ghost var got;
        err, dead, got := ServeEvent(b);
        assert got != [] ==> (served + got)[..|served|] == served;
        served := served + got;
        assert w.delivered == old(w.delivered) + served;
        if err { return CutOff, dead, served, late; }
      }
      TracksCame(b.base, SOURCE, w.order, w.delivered[b.from..], w.State());
      return Lost, false, served, late;
    }

    method ServeEvent(ghost b: Books) returns (err: bool, dead: bool, ghost got: seq<Event>)
      requires Valid(b) && Served() && Tracks(b, SOURCE) && source == SOURCE && device == DEVICE && owned
      modifies w`buf, w`fds, w`inbox, w`delivered, this`owned, this`pastes
      ensures Valid(b) && Served() && Came(b, SOURCE) && (if dead then Stuck(b, SOURCE) else Tracks(b, SOURCE)) && w.delivered == old(w.delivered) + got
      ensures !err ==> !dead && |got| == 1 && !IsError(got[0].m) && !Finishes(got[0].m) && owned == !Cancels(got[0].m)
      ensures !err ==> w.Unread() < old(w.Unread())
      ensures err ==> if dead then got == [] else |got| == 1 && (IsError(got[0].m) || Finishes(got[0].m))
    {
      hide PasteFds, FdsOf, BytesOf, Payload, Answers, AllAnswers, Comes, NextMany, Reads, EndsAfter;
      var r := Receive(source, b);
      dead := r.Failed?;
      if dead { return true, dead, []; }
      got := [r.ev];
      AnswersSnoc(old(w.delivered), r.ev, value, w.order);
      if r.ev.m.obj == DISPLAY && r.ev.m.op == DISPLAY_ERROR {
        NoAnswer(r.ev, value, w.order);
        return true, dead, got;
      }
      err := Absorb(r.ev, b);
    }

    /** Everything before success is reported; it has no access to the report.  It fails exactly when
        one of the two roundtrips does, and then for a cause. */
    method Prepare(ghost b: Books) returns (err: Option<ServeError>, ghost found: seq<Event>, ghost confirmed: seq<Event>)
      requires Valid(b) && b.from == 0 && b.base == w.State() && w.nextID == 2 && Found() == Globals(None, map[])
      requires pastes == [] && w.sent == [] && w.delivered == [] && !w.unsent
      modifies this, w
      ensures Valid(b) && w.closed == old(w.closed) && w.delivered == found + confirmed && Served()
      ensures err == if !Discovered(found, w.order) then Some(Unavailable) else if !Confirms(confirmed) then Some(Final) else None
      ensures err == Some(Unavailable) ==> confirmed == [] && pastes == [] && w.sent <= [RegistryRequest(2, w.order), SyncRequest(3, w.order)]
      ensures err.Some? ==> Cause(b.base, found, confirmed, w.unsent, w.order)
      ensures Comes(b.base, 0, w.order, found) && Comes(NextMany(b.base, 0, w.order, |found|).1, SOURCE, w.order, confirmed)
      ensures err.None? ==> !w.unsent && owned && source == SOURCE && device == DEVICE && w.nextID == 9
      ensures err.None? ==> w.sent == OpeningFor(GlobalsOf(found, 2, w.order), w.order)
      ensures err.None? ==> Reads(NextMany(b.base, 0, w.order, |found|).1, SOURCE, w.order, confirmed, w.State())
    {
      hide EncodeMessage, EncodeArgs, PasteFds, FdsOf, BytesOf, Payload, Session.Accounted, Conn.Bounded, Setup, EncodeAll, Manager,
           AllAnswers, SyncRequest, RegistryRequest, GlobalsOf, Waiting, NextMany, Advertise, Cause, Breaks, EndsAfter, NoCancel, Completes;
      confirmed := [];
      ReadsNone(b.base, 0, w.order);
      NoAnswers(value, w.order);
      assert w.delivered[0..] == [];
      var failed;
      failed, found := Discover(b);
      assert w.delivered == found && w.delivered[0..] == found;
      ghost var base := NextMany(b.base, 0, w.order, |found|).1;
      ReadsNone(base, SOURCE, w.order);
      if failed {
        NotDiscovered(b.base, found, w.unsent, w.order);
        return Some(Unavailable), found, [];
      }
      assert base == w.State();
      NeverCompletes(8, SOURCE);
      failed := TakeSelection();
      if failed {
        NotConfirmed(b.base, found, [], w.unsent, w.order);
        return Some(Final), found, [];
      }
      owned := true;
      ghost var b2 := Books(b.start, base, |found|);
      assert w.delivered[|found|..] == [];
      failed, confirmed := Roundtrip(source, b2);
      assert w.delivered[|found|..] == confirmed;
      if failed || !owned {
        NotConfirmed(b.base, found, confirmed, w.unsent, w.order);
        return Some(Final), found, confirmed;
      }
      return None, found, confirmed;
    }

    /** The selection was taken and confirmed: both roundtrips were answered, the globals are there
        and the selection was not taken away meanwhile. */
    ghost predicate Took(dialled: bool, run: Run) {
      dialled && Discovered(run.found, w.order) && Confirms(run.confirmed)
    }

    /** The link behind the registry roundtrip. */
    ghost function Afterwards(base: Link, run: Run): Link {
      NextMany(base, 0, w.order, |run.found|).1
    }

    /** The whole run: the events come off the stream in order; each send event up to the end of
        serving got one paste; what was sent is the set-up and, at the deadline only, the clearing. */
    ghost predicate Sound(dialled: bool, err: Option<ServeError>, run: Run, base: Link)
      reads `pastes, w`delivered, w`sent, w`unsent
    {
      && w.delivered == run.found + run.confirmed + run.served + run.late && FromStream(base, run, w.order)
      && pastes == AllAnswers(run.found + run.confirmed + run.served, value, w.order)
      && (if !dialled || !Discovered(run.found, w.order) then err == Some(Unavailable)
          else if !Confirms(run.confirmed) then err == Some(Final)
          else err == if run.end == CutOff then Some(Final) else None)
      && (if Took(dialled, run)
          then Stops(run.served, run.end, EndsAfter(Afterwards(base, run), SOURCE, w.order, run.confirmed + run.served))
            && Closes(run, OpeningFor(GlobalsOf(run.found, 2, w.order), w.order), w.sent, w.unsent, w.order)
          else run.served == [] && run.late == [] && (dialled ==> Cause(base, run.found, run.confirmed, w.unsent, w.order)))
      && (err == Some(Unavailable) ==>
            pastes == [] && run.confirmed == [] && w.sent <= [RegistryRequest(2, w.order), SyncRequest(3, w.order)])
    }

    /** Success is announced exactly when the selection was taken and confirmed.  Every event up to
        the end of serving is handled, and no descriptor is leaked or closed twice. */
    method Serve(dialled: bool, status: Status) returns (err: Option<ServeError>, ghost run: Run)
      requires w.nextID == 2 && Found() == Globals(None, map[]) && pastes == [] && w.Bounded() && w.closed == []
      requires w.sent == [] && w.delivered == [] && !w.unsent && !status.closed
      modifies this, w, status
      ensures Sound(dialled, err, run, old(w.State()))
      ensures if Took(dialled, run) then Announced(status) else Silent(status)
      ensures AllRight(pastes, Sends(run.found + run.confirmed + run.served), value, w.order)
      ensures w.fds == []
      ensures multiset(PasteFds(pastes)) + multiset(w.closed) + multiset(FdsOf(w.inbox)) == multiset(old(w.AllFds()))
    {
      hide FdsOf, SmallReads, Session.Took, Session.Sound, AllRight, AllAnswers, Sends;
      ghost var b := Books(multiset(w.AllFds()), w.State(), 0);
      assert PasteFds([]) == [];
      hide PasteFds;
      if dialled {
        err, run := Dialled(status, b);
      } else {
        err, run := Some(Unavailable), Run([], [], [], [], Deadline);
        NotDialled(b.base);
      }
      AnswersRight(run.found + run.confirmed + run.served, value, w.order);
      SoundMeans(dialled, err, run, b.base);
      w.Close();
    }

    lemma SoundMeans(dialled: bool, err: Option<ServeError>, run: Run, base: Link)
      requires Sound(dialled, err, run, base)
      ensures err.None? ==> Took(dialled, run)
      ensures err == Some(Unavailable) ==> !Took(dialled, run) && pastes == []
      ensures pastes == AllAnswers(run.found + run.confirmed + run.served, value, w.order)
    {
      hide FromStream, Discovered, Confirms, Stops, Closes, AllAnswers, OpeningFor, GlobalsOf;
    }

    lemma NotDialled(base: Link)
      requires pastes == [] && w.sent == [] && w.delivered == []
      ensures Sound(false, Some(Unavailable), Run([], [], [], [], Deadline), base) && !Took(false, Run([], [], [], [], Deadline))
    {
      hide FromStream;
      NoAnswers(value, w.order);
      NothingComes(base, w.order);
    }

    method Dialled(status: Status, ghost b: Books) returns (err: Option<ServeError>, ghost run: Run)
      requires Valid(b) && b.from == 0 && b.base == w.State() && w.nextID == 2 && Found() == Globals(None, map[])
      requires pastes == [] && w.sent == [] && w.delivered == [] && !w.unsent && !status.closed
      modifies this, w, status
      ensures Valid(b) && Sound(true, err, run, b.base)
      ensures if Took(true, run) then Announced(status) else Silent(status)
    {
      hide FdsOf, PasteFds, AllAnswers, GlobalsOf, Discovered, Confirms, Stops, Closes, Comes, Reads, NextMany, OpeningFor, Session.Accounted,
           Conn.Bounded, RegistryRequest, SyncRequest;
      ghost var found, confirmed;
      err, found, confirmed := Prepare(b);
      if err.Some? {
        run := Run(found, confirmed, [], [], Deadline);
        assert found + confirmed + [] + [] == found + confirmed + [] == found + confirmed && confirmed + [] + [] == confirmed;
        return;
      }
      status.Ready();
      err, run := Hold(found, confirmed, b);
    }

    /** From the report on: serves, and stops the reader. */
    method Hold(ghost found: seq<Event>, ghost confirmed: seq<Event>, ghost b: Books) returns (err: Option<ServeError>, ghost run: Run)
      requires Valid(b) && Served() && w.delivered == found + confirmed && !w.unsent && owned && source == SOURCE && device == DEVICE
      requires w.nextID == 9 && Comes(b.base, 0, w.order, found)
      requires Reads(NextMany(b.base, 0, w.order, |found|).1, SOURCE, w.order, confirmed, w.State())
      modifies w`buf, w`fds, w`inbox, w`delivered, w`unsent, w`nextID, w`sent, w`closed, this`owned, this`pastes
      ensures Valid(b) && run.found == found && run.confirmed == confirmed && FromStream(b.base, run, w.order)
      ensures w.delivered == found + confirmed + run.served + run.late
      ensures pastes == AllAnswers(found + confirmed + run.served, value, w.order)
      ensures Stops(run.served, run.end, EndsAfter(Afterwards(b.base, run), SOURCE, w.order, confirmed + run.served))
      ensures Closes(run, old(w.sent), w.sent, w.unsent, w.order)
      ensures err == if run.end == CutOff then Some(Final) else None
    {
      hide EncodeMessage, EncodeArgs, PasteFds, FdsOf, BytesOf, Payload, Session.Accounted, AllAnswers, SyncRequest, ClearRequest,
           NextMany, Comes, Reads, EndsAfter, Fine;
      ghost var b2 := Books(b.start, NextMany(b.base, 0, w.order, |found|).1, |found|);
      assert w.delivered[|found|..] == confirmed;
      ghost var served, late, last;
      var end, dead;
      end, dead, served, late := ServeLoop(b2);
      assert end == CutOff ==> w.delivered[|found|..] == confirmed + served;
      last := StopReader(dead, b2);
      assert w.delivered[|found|..] == confirmed + served + (late + last);
      run := Run(found, confirmed, served, late + last, end);
      err := if end == CutOff then Some(Final) else None;
    }
  }

  /** The end of the registry roundtrip advertises nothing. */
  lemma NotAdvert(g: Globals, m: Message, cb: U32, o: Order)
    requires cb != 2 && (IsDone(m, cb) || IsError(m))
    ensures Advertise(g, m, 2, o) == g
  {
  }

  lemma OnlyMoved(settled: multiset<int>, before: seq<int>, claimed: seq<int>, after: seq<int>)
    requires before == claimed + after
    ensures settled + multiset(before) == settled + multiset(claimed) + multiset(after)
  {
  }

  lemma StuckOrNot(l: Link, claim: U32, o: Order, evs: seq<Event>, l': Link)
    requires Reads(l, claim, o, evs, l')
    ensures Next(l', claim, o).0.Failed? ==> EndsAfter(l, claim, o, evs)
  {
    hide Next;
  }

  lemma TracksCame(l: Link, claim: U32, o: Order, evs: seq<Event>, l': Link)
    requires Reads(l, claim, o, evs, l')
    ensures Comes(l, claim, o, evs)
  {
  }

  lemma NeverCompletes(cb: U32, claim: U32)
    ensures !Completes([], cb, claim)
  {
  }

  lemma NoCancelNone()
    ensures NoCancel([])
  {
  }

  lemma NoGlobals(registry: U32, o: Order)
    ensures GlobalsOf([], registry, o) == Globals(None, map[])
  {
  }

  lemma NoAnswers(value: Bytes, o: Order)
    ensures AllAnswers([], value, o) == []
  {
  }

  lemma NothingComes(l: Link, o: Order)
    ensures FromStream(l, Run([], [], [], [], Deadline), o)
  {
  }
}
