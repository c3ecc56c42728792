/** `clipboard.Serve` tries the backends in turn; `serveCopy` reports the outcome exactly once. */
module Copy {
  import opened Wrappers
  import opened Bytes
  import opened Clipboard
  import Wayland = WaylandServe
  import Events = WaylandEvents
  import X11 = X11Serve
  import X11Conn
  import WaylandConn

  /** Why there is nothing on the clipboard any more, or never was; `detail` is the rest of the text.
      A failed write to a socket is sometimes passed on as it is. */
  datatype Failure = Unreadable(detail: Bytes) | Empty | NoBackend(detail: Bytes) | Backend(x11: bool, raw: bool, detail: Bytes)

  function Message(f: Failure): Bytes {
    match f
    case Unreadable(detail) => "reading the value: " + detail
    case Empty => "refusing to copy an empty value"
    case NoBackend(detail) => "no usable clipboard (" + detail + ")"
    case Backend(x11, raw, detail) => (if raw then "write " else if x11 then "x11: " else "wayland: ") + detail
  }

  /** No failure reads like the success message. */
  lemma NeverOk(f: Failure)
    ensures Message(f) != "ok"
  {
  }

  /** A connection nothing has happened on. */
  ghost predicate Unused(s: Wayland.Session)
    reads s, s.w
  {
    && s.w.nextID == 2 && s.Found() == Events.Globals(None, map[]) && s.pastes == []
    && s.w.Bounded() && s.w.closed == [] && s.w.sent == [] && s.w.delivered == [] && !s.w.unsent
  }

  ghost predicate Idle(x: X11Conn.Conn)
    reads x
  {
    x.seqNo == 0 && x.sent == [] && x.arrived == [] && x.consumed == [] && x.pending == [] && !x.failed
  }

  /** What can be had from the outside: the two connections, and which can be made at all. */
  datatype Desktop = Desktop(wayland: Wayland.Session, haveWayland: bool, x: X11Conn.Conn, haveX: bool, cookie: (Bytes, Bytes))

  ghost predicate Untouched(d: Desktop)
    reads d.wayland, d.wayland.w, d.x
  {
    Unused(d.wayland) && Idle(d.x)
  }

  /** How a backend ended, if its turn came. */
  datatype Outcome = NotTried | Ended(err: Option<ServeError>)

  /** What both backends did. */
  datatype Attempts = Attempts(wayland: Outcome, session: Events.Run, x11: Outcome, taking: X11.Taking, run: Option<X11.Run>)

  /** One of them took the clipboard. */
  ghost predicate Held(d: Desktop, a: Attempts) {
    (a.wayland.Ended? && d.wayland.Took(d.haveWayland, a.session)) || (a.x11.Ended? && a.run.Some?)
  }

  predicate GaveUp(o: Outcome) {
    o == Ended(Some(Unavailable))
  }

  /** Each backend that was tried ended as its own contract says. */
  ghost predicate Tried(d: Desktop, value: Bytes, a: Attempts, base: WaylandConn.Link, inbox: Bytes)
    reads d.wayland, d.wayland.w, d.x
  {
    && (if a.wayland.Ended? then d.wayland.Sound(d.haveWayland, a.wayland.err, a.session, base)
        else d.wayland.w.sent == [] && d.wayland.pastes == [])
    && (if a.x11.Ended? then X11.Ended(a.x11.err, d.x, d.haveX, inbox, value, a.taking, a.run) else Idle(d.x))
  }

  /** Wayland is tried unless the value is empty, and X11 if and only if Wayland is unavailable. */
  ghost predicate InTurn(value: Bytes, a: Attempts) {
    (a.wayland.Ended? <==> value != []) && (a.x11.Ended? <==> GaveUp(a.wayland))
  }

  /** The result is that of the last backend tried, and `no usable clipboard` if both are unavailable. */
  ghost predicate Chosen(err: Option<Failure>, value: Bytes, a: Attempts) {
    && (err == Some(Empty) <==> value == [])
    && (err == None <==> a.wayland == Ended(None) || a.x11 == Ended(None))
    && (err.Some? && err.value.NoBackend? <==> GaveUp(a.wayland) && GaveUp(a.x11))
    && (err.Some? && err.value.Backend? && !err.value.x11 <==> a.wayland == Ended(Some(Final)))
    && (err.Some? && err.value.Backend? && err.value.x11 <==> a.x11 == Ended(Some(Final)))
  }

  lemma Either(failed: Option<ServeError>)
    ensures failed == None || failed == Some(Unavailable) || failed == Some(Final)
  {
    if failed.Some? {
      match failed.value
      case Unavailable =>
      case Final =>
    }
  }

  /** Only the first backend that is available is used, its result is returned, and success was
      reported if and only if one of them took the clipboard. */
  method Serve(d: Desktop, value: Bytes, status: Status) returns (err: Option<Failure>, ghost a: Attempts)
    requires Untouched(d) && d.wayland.value == value && !status.closed
    modifies d.wayland, d.wayland.w, d.x, status
    ensures Tried(d, value, a, old(d.wayland.w.State()), old(d.x.inbox)) && InTurn(value, a) && Chosen(err, value, a)
    ensures if Held(d, a) then Announced(status) else Silent(status)
    ensures err.None? ==> Held(d, a)
    ensures err.Some? && !err.value.Backend? ==> !Held(d, a) && d.wayland.pastes == []
  {
    hide X11.Ended, Wayland.Session.Sound, Wayland.Session.Took, Events.AllRight, Events.Sends, Events.PasteFds, WaylandConn.FdsOf;
    a := Attempts(NotTried, Events.Run([], [], [], [], Events.Deadline), NotTried, X11.Taking([], [], [], []), None);
    if value == [] { return Some(Empty), a; }
    ghost var base := d.wayland.w.State();
    var detail: Bytes, raw: bool := *, *;
    var failed: Option<ServeError>;
    ghost var held;
    failed, held := d.wayland.Serve(d.haveWayland, status);
    d.wayland.SoundMeans(d.haveWayland, failed, held, base);
    a := a.(wayland := Ended(failed), session := held);
    Either(failed);
    if failed != Some(Unavailable) {
      return if failed.None? then None else Some(Backend(false, raw, detail)), a;
    }
    ghost var taking, run;
    failed, taking, run := X11.Serve(d.x, d.haveX, d.cookie.0, d.cookie.1, value, status);
    X11.EndedMeans(failed, d.x, d.haveX, old(d.x.inbox), value, taking, run);
    a := a.(x11 := Ended(failed), taking := taking, run := run);
    Either(failed);
    if failed != Some(Unavailable) {
      return if failed.None? then None else Some(Backend(true, raw, detail)), a;
    }
    return Some(NoBackend(detail)), a;
  }

  /** Reads the value, holds the clipboard, and reports exactly once: `ok` as soon as it is held, or
      the error that prevented it. */
  method ServeCopy(input: Option<Bytes>, d: Desktop, status: Status) returns (err: Option<Failure>, ghost a: Attempts)
    requires Untouched(d) && (input.Some? ==> d.wayland.value == input.value)
    requires status.written == [] && !status.closed && !status.reported
    modifies d.wayland, d.wayland.w, d.x, status
    ensures status.closed && |status.written| == 1
    ensures if status.reported then status.written == ["ok"] else err.Some? && status.written == [Message(err.value)] != ["ok"]
    ensures status.reported <==> Held(d, a)
    ensures match input
      case None => err.Some? && err.value.Unreadable? && Untouched(d) && a.wayland == a.x11 == NotTried
      case Some(value) =>
        Tried(d, value, a, old(d.wayland.w.State()), old(d.x.inbox)) && InTurn(value, a) && Chosen(err, value, a)
    ensures err.None? ==> status.reported
    ensures err.Some? && !err.value.Backend? ==> !status.reported && d.wayland.pastes == []
  {
    hide Message, Tried, Wayland.Session.Took;
    if input.None? {
      var detail: Bytes := *;
      NeverOk(Unreadable(detail));
      status.Fail(Message(Unreadable(detail)));
      assert status.written[0] == Message(Unreadable(detail));
      a := Attempts(NotTried, Events.Run([], [], [], [], Events.Deadline), NotTried, X11.Taking([], [], [], []), None);
      return Some(Unreadable(detail)), a;
    }
    err, a := Serve(d, input.value, status);
    if !status.reported {
      // A nil result always follows the report, so the source's third message is never used here.
      assert err.Some?;
      NeverOk(err.value);
      status.Fail(Message(err.value));
      assert status.written[0] == Message(err.value);
    }
  }
}
