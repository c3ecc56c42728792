/** `serveX11`: take the clipboard with a server timestamp, answer every request, stop when it is lost. */
module X11Serve {
  import opened Wrappers
  import opened Bytes
  import opened Clipboard
  import opened X11Wire
  import opened X11Answers
  import opened X11Conn

  /** Why serving ended. */
  datatype End = Lost | Deadline | Broken

  // ---------------------------------------------------------------- before the clipboard is owned

  /** The atoms that have to be asked for: STRING is predefined. */
  function Asked(names: seq<Bytes>): (r: seq<Bytes>)
    ensures forall k :: 0 <= k < |r| ==> r[k] in names
  {
    if names == [] then []
    else Asked(names[..|names| - 1]) + if names[|names| - 1] == "STRING" then [] else [names[|names| - 1]]
  }

  function Interns(asked: seq<Bytes>): seq<Bytes> {
    seq(|asked|, i requires 0 <= i < |asked| => Intern(asked[i]))
  }

  lemma AskedSnoc(k: nat)
    requires k < |ATOM_NAMES|
    ensures Asked(ATOM_NAMES[..k + 1]) == Asked(ATOM_NAMES[..k]) + if ATOM_NAMES[k] == "STRING" then [] else [ATOM_NAMES[k]]
  {
    assert ATOM_NAMES[..k + 1][..k] == ATOM_NAMES[..k];
  }

  /** No name occurs twice. */
  lemma NamesDiffer(k: nat)
    requires k < |ATOM_NAMES|
    ensures ATOM_NAMES[k] !in ATOM_NAMES[..k]
  {
    assert forall i, j :: 0 <= i < j < |ATOM_NAMES| ==> |ATOM_NAMES[i]| != |ATOM_NAMES[j]|;
  }

  ghost predicate Named(atoms: Atoms, names: seq<Bytes>) {
    forall name :: name in atoms <==> name in names
  }

  /** Every atom is the one in the server's answer to the request for its name, which was the
      request of that number. */
  ghost predicate AtomsFrom(atoms: Atoms, asked: seq<Bytes>, waits: seq<seq<Bytes>>, sent: nat) {
    |waits| == |asked| && forall i :: 0 <= i < |asked| ==>
      asked[i] in atoms && AnsweredBy(waits[i], (sent + i + 1) % 0x1_0000)
      && atoms[asked[i]] == AnswerIn(waits[i], (sent + i + 1) % 0x1_0000)
  }

  lemma AtomsFromSnoc(atoms: Atoms, asked: seq<Bytes>, waits: seq<seq<Bytes>>, sent: nat, name: Bytes, read: seq<Bytes>, number: U16)
    requires AtomsFrom(atoms, asked, waits, sent) && name !in atoms && number == (sent + |asked| + 1) % 0x1_0000
    requires AnsweredBy(read, number)
    ensures AtomsFrom(atoms[name := AnswerIn(read, number)], asked + [name], waits + [read], sent)
  {
    hide AnsweredBy, AnswerIn;
  }

  lemma AtomsFromMore(atoms: Atoms, asked: seq<Bytes>, waits: seq<seq<Bytes>>, sent: nat, name: Bytes, atom: U32)
    requires AtomsFrom(atoms, asked, waits, sent) && name !in atoms
    ensures AtomsFrom(atoms[name := atom], asked, waits, sent)
  {
    hide AnsweredBy, AnswerIn;
  }

  /** The waits one after the other. */
  function Chain(waits: seq<seq<Bytes>>): seq<Bytes> {
    if waits == [] then [] else Chain(waits[..|waits| - 1]) + waits[|waits| - 1]
  }

  lemma ChainSnoc(waits: seq<seq<Bytes>>, read: seq<Bytes>)
    ensures Chain(waits + [read]) == Chain(waits) + read
  {
    assert (waits + [read])[..|waits|] == waits;
  }

  /** The server was asked to change the owner. */
  ghost predicate OwnerAsked(sent: seq<Bytes>) {
    exists i :: 0 <= i < |sent| && IsSetOwner(sent[i])
  }

  predicate IsSetOwner(b: Bytes) {
    |b| > 0 && Code(b) == SET_SELECTION_OWNER
  }

  lemma OtherRequest(op: U8, data: U8, body: Bytes)
    ensures IsSetOwner(X11Wire.Request(op, data, body)) <==> op == SET_SELECTION_OWNER
  {
  }

  lemma AskedLater(sent: seq<Bytes>, more: seq<Bytes>)
    ensures OwnerAsked(sent + more) <==> OwnerAsked(sent) || OwnerAsked(more)
  {
    hide IsSetOwner;
    if OwnerAsked(sent) {
      var i :| 0 <= i < |sent| && IsSetOwner(sent[i]);
      assert IsSetOwner((sent + more)[i]);
    }
    if OwnerAsked(more) {
      var i :| 0 <= i < |more| && IsSetOwner(more[i]);
      assert IsSetOwner((sent + more)[|sent| + i]);
    }
  }

  lemma InternsOnly(asked: seq<Bytes>)
    ensures !OwnerAsked(Interns(asked))
  {
    forall i | 0 <= i < |asked|
      ensures !IsSetOwner(Intern(asked[i]))
    {
      OtherRequest(INTERN_ATOM, 0, Put16(|asked[i]| % 0x1_0000) + Zeros(2) + asked[i]);
    }
  }

  /** The last of the requests for atoms was answered with an error. */
  ghost predicate LastRefuses(waits: seq<seq<Bytes>>, sent: nat) {
    waits != [] && Refuses(waits[|waits| - 1], (sent + |waits|) % 0x1_0000)
  }

  lemma RefusedLast(waits: seq<seq<Bytes>>, read: seq<Bytes>, sent: nat, other: bool, number: U16)
    requires other || (number == (sent + |waits| + 1) % 0x1_0000 && Refuses(read, number))
    ensures other || LastRefuses(waits + [read], sent)
  {
    hide Refuses;
  }

  method InternAll(x: Conn) returns (r: Option<Atoms>, ghost waits: seq<seq<Bytes>>)
    requires x.Numbered() && x.Ordered() && x.Streamed()
    modifies x`seqNo, x`sent, x`failed, x`inbox, x`arrived, x`pending
    ensures x.Numbered() && x.Ordered() && x.Streamed() && x.arrived == old(x.arrived) + Chain(waits)
    ensures r.None? ==> x.failed || Spent(x.stream, x.arrived) || LastRefuses(waits, |old(x.sent)|)
    ensures exists k :: 0 <= k <= |ATOM_NAMES| && x.sent == old(x.sent) + Interns(Asked(ATOM_NAMES[..k]))
    ensures r.Some? ==> x.failed == old(x.failed)
    ensures r.Some? ==> Complete(r.value) && Predefined(r.value) && x.sent == old(x.sent) + Interns(Asked(ATOM_NAMES))
    ensures r.Some? ==> AtomsFrom(r.value, Asked(ATOM_NAMES), waits, |old(x.sent)|)
  {
    hide EventsOf, Asked, Interns, Intern, AnswerIn, Conn.Ordered, Conn.Streamed, AnsweredBy, Chain, AtomsFrom, Refuses, Spent, LastRefuses;
    var atoms: Atoms := map[];
    waits := [];
    NothingAsked(atoms, |x.sent|);
    for k := 0 to |ATOM_NAMES|
      invariant x.Numbered() && x.Ordered() && x.Streamed() && Named(atoms, ATOM_NAMES[..k]) && x.failed == old(x.failed)
      invariant "STRING" in atoms ==> atoms["STRING"] == ATOM_STRING
      invariant x.sent == old(x.sent) + Interns(Asked(ATOM_NAMES[..k])) && x.arrived == old(x.arrived) + Chain(waits)
      invariant AtomsFrom(atoms, Asked(ATOM_NAMES[..k]), waits, |old(x.sent)|) && |waits| == |Asked(ATOM_NAMES[..k])|
    {
      var name := ATOM_NAMES[k];
      NamesDiffer(k);
      if name == "STRING" {
        InternsNext(k, old(x.sent));
        NamedNext(atoms, k, ATOM_STRING);
        AtomsFromMore(atoms, Asked(ATOM_NAMES[..k]), waits, |old(x.sent)|, name, ATOM_STRING);
        atoms := atoms[name := ATOM_STRING];
      } else {
        InternsNext(k, old(x.sent));
        var a;
        ghost var read;
        a, read := x.InternAtom(name);
        ChainSnoc(waits, read);
        if a.None? {
          RefusedLast(waits, read, |old(x.sent)|, x.failed || Spent(x.stream, x.arrived), x.seqNo);
          return None, waits + [read];
        }
        NamedNext(atoms, k, a.value);
        AtomsFromSnoc(atoms, Asked(ATOM_NAMES[..k]), waits, |old(x.sent)|, name, read, x.seqNo);
        waits := waits + [read];
        atoms := atoms[name := a.value];
      }
    }
    assert ATOM_NAMES[..|ATOM_NAMES|] == ATOM_NAMES;
    return Some(atoms), waits;
  }

  lemma NamedNext(atoms: Atoms, k: nat, a: U32)
    requires k < |ATOM_NAMES| && Named(atoms, ATOM_NAMES[..k]) && ATOM_NAMES[k] !in ATOM_NAMES[..k]
    ensures ATOM_NAMES[k] !in atoms && Named(atoms[ATOM_NAMES[k] := a], ATOM_NAMES[..k + 1])
  {
    assert ATOM_NAMES[..k + 1] == ATOM_NAMES[..k] + [ATOM_NAMES[k]];
  }

  lemma InternsNext(k: nat, sent: seq<Bytes>)
    requires k < |ATOM_NAMES|
    ensures var name := ATOM_NAMES[k];
      && |Interns(Asked(ATOM_NAMES[..k]))| == |Asked(ATOM_NAMES[..k])|
      && (name == "STRING" ==> Asked(ATOM_NAMES[..k + 1]) == Asked(ATOM_NAMES[..k]))
      && (name != "STRING" ==> Asked(ATOM_NAMES[..k + 1]) == Asked(ATOM_NAMES[..k]) + [name])
      && (name != "STRING" ==>
            sent + Interns(Asked(ATOM_NAMES[..k + 1])) == sent + Interns(Asked(ATOM_NAMES[..k])) + [Intern(name)])
  {
    hide Intern;
    AskedSnoc(k);
    hide Asked;
  }

  lemma NothingAsked(atoms: Atoms, sent: nat)
    ensures Asked(ATOM_NAMES[..0]) == [] && Interns(Asked(ATOM_NAMES[..0])) == [] && AtomsFrom(atoms, Asked(ATOM_NAMES[..0]), [], sent) && Chain([]) == []
  {
  }

  /** Position, size 1 by 1, no border, input-only, the parent's visual, and the mask of events wanted. */
  function WindowBody(window: U32, root: U32): Bytes {
    P32(window) + (P32(root) + (Put16(0) + (Put16(0) + (Put16(1) + (Put16(1)
    + (Put16(0) + (Put16(2) + (P32(0) + (P32(0x800) + P32(0x40_0000))))))))))
  }

  /** The owner window: input-only, child of the root, listening for its own properties. */
  function WindowRequest(window: U32, root: U32): Bytes {
    X11Wire.Request(CREATE_WINDOW, 0, WindowBody(window, root))
  }

  /** A zero-length append to a property of the own window: it makes the server tell the time. */
  function ProbeRequest(window: U32): Bytes {
    X11Wire.ChangeProperty(2, window, ATOM_WM_NAME, ATOM_STRING, 8, [])
  }

  method CreateWindow(x: Conn) returns (err: bool)
    requires x.Numbered()
    modifies x`seqNo, x`sent, x`failed
    ensures x.Numbered() && old(x.sent) <= x.sent <= old(x.sent) + [WindowRequest(x.window, x.root), ProbeRequest(x.window)]
    ensures if err then x.failed else x.failed == old(x.failed)
    ensures !err ==> x.sent == old(x.sent) + [WindowRequest(x.window, x.root), ProbeRequest(x.window)]
  {
    hide X11Wire.Request;
    var r := x.Request(CREATE_WINDOW, 0,
      P32(x.window) + (P32(x.root) + (Put16(0) + (Put16(0) + (Put16(1) + (Put16(1)
      + (Put16(0) + (Put16(2) + (P32(0) + (P32(0x800) + P32(0x40_0000)))))))))));
    if r.None? { return true; }
    err := x.ChangeProperty(2, x.window, ATOM_WM_NAME, ATOM_STRING, 8, []);
  }

  /** The time this packet tells: a change of a property of the own window. */
  function TimeIn(p: Bytes, window: U32): U32
    requires |p| >= 32
  {
    if Code(p) % 128 == PROPERTY_NOTIFY && At32(p, 4) == window then At32(p, 12) else 0
  }

  lemma {:induction false} OnlyEvents(ps: seq<Bytes>)
    ensures forall i :: 0 <= i < |EventsOf(ps)| ==> IsEvent(EventsOf(ps)[i])
  {
    if ps != [] {
      OnlyEvents(ps[..|ps| - 1]);
    }
  }

  /** Taking the first event set aside keeps the order. */
  lemma TakeFirst(arrived: seq<Bytes>, consumed: seq<Bytes>, pending: seq<Bytes>)
    requires EventsOf(arrived) == EventsOf(consumed) + pending && pending != []
    ensures |pending[0]| >= 32 && EventsOf(arrived) == EventsOf(consumed + [pending[0]]) + pending[1..]
  {
    OnlyEvents(arrived);
    assert EventsOf(arrived)[|EventsOf(consumed)|] == pending[0];
    hide EventsOf;
    EventsSnoc(consumed, pending[0]);
    assert pending == [pending[0]] + pending[1..];
  }

  /** Reading a packet with nothing set aside keeps the order. */
  lemma TakeNew(arrived: seq<Bytes>, consumed: seq<Bytes>, p: Bytes)
    requires EventsOf(arrived) == EventsOf(consumed)
    ensures EventsOf(arrived + [p]) == EventsOf(consumed + [p])
  {
    EventsSnoc(arrived, p);
    EventsSnoc(consumed, p);
  }

  /** The next packet: set aside before, or read now. */
  method NextPacket(x: Conn) returns (r: Option<Bytes>)
    requires x.Ordered() && x.Streamed()
    modifies x`inbox, x`arrived, x`pending, x`consumed
    ensures x.Ordered() && x.Streamed()
    ensures if old(x.pending) != [] then r.Some? && x.arrived == old(x.arrived)
      else x.pending == [] && x.arrived == if r.Some? then old(x.arrived) + [r.value] else old(x.arrived)
    ensures r.None? ==> Spent(x.stream, x.arrived)
    ensures x.consumed == if r.Some? then old(x.consumed) + [r.value] else old(x.consumed)
    ensures r.Some? ==> |r.value| >= 32 && |x.pending| + |x.inbox| < old(|x.pending| + |x.inbox|)
  {
    hide EventsOf, Conn.Streamed, Spent, TakePacket;
    if x.pending != [] {
      TakeFirst(x.arrived, x.consumed, x.pending);
      r := Some(x.pending[0]);
      x.pending := x.pending[1..];
    } else {
      r := x.Packet();
      if r.None? { return; }
      TakeNew(old(x.arrived), x.consumed, r.value);
    }
    x.consumed := x.consumed + [r.value];
  }

  /** No packet here is an error or tells a time of the own window. */
  ghost predicate Untold(ps: seq<Bytes>, window: U32) {
    forall i :: 0 <= i < |ps| ==> |ps[i]| >= 32 && Code(ps[i]) % 128 != X_ERROR && TimeIn(ps[i], window) == 0
  }

  /** The time is the first one told about the own window, and no error came before it. */
  ghost predicate Probed(ps: seq<Bytes>, window: U32, time: U32) {
    && ps != [] && Untold(ps[..|ps| - 1], window)
    && |ps[|ps| - 1]| >= 32 && Code(ps[|ps| - 1]) % 128 != X_ERROR && TimeIn(ps[|ps| - 1], window) == time != 0
  }

  lemma ProbedSnoc(ps: seq<Bytes>, p: Bytes, window: U32)
    requires Untold(ps, window) && |p| >= 32
    ensures Code(p) % 128 == X_ERROR ==> EndsBadly(ps + [p])
    ensures Code(p) % 128 != X_ERROR ==>
      if TimeIn(p, window) == 0 then Untold(ps + [p], window) else Probed(ps + [p], window, TimeIn(p, window))
  {
    hide At32, TimeIn;
    assert (ps + [p])[..|ps|] == ps;
  }

  /** An error packet ended it. */
  ghost predicate EndsBadly(ps: seq<Bytes>) {
    ps != [] && |ps[|ps| - 1]| >= 32 && Code(ps[|ps| - 1]) % 128 == X_ERROR
  }

  ghost predicate EndsWith(ps: seq<Bytes>, qs: seq<Bytes>) {
    |qs| <= |ps| && ps[|ps| - |qs|..] == qs
  }

  lemma EndsWithSnoc(ps: seq<Bytes>, qs: seq<Bytes>, p: Bytes)
    requires EndsWith(ps, qs)
    ensures EndsWith(ps + [p], qs + [p]) && EndsWith(ps + [p], [])
  {
    assert (ps + [p])[|ps| - |qs|..] == ps[|ps| - |qs|..] + [p];
  }

  lemma NothingTold(window: U32)
    ensures Untold([], window) && EndsWith([], [])
  {
  }

  /** Learns the server's clock; what it reads for that is the last of what it looks at. */
  method ProbeTime(x: Conn) returns (r: Option<U32>, ghost probed: seq<Bytes>, ghost timing: seq<Bytes>)
    requires x.Ordered() && x.Streamed()
    modifies x`inbox, x`arrived, x`pending, x`consumed
    ensures x.Ordered() && x.Streamed() && x.arrived == old(x.arrived) + timing && x.consumed == old(x.consumed) + probed
    ensures EndsWith(probed, timing)
    ensures r.Some? ==> Probed(probed, x.window, r.value)
    ensures r.None? ==> Spent(x.stream, x.arrived) || EndsBadly(probed)
  {
    hide Conn.Ordered, Conn.Streamed, At32, Spent, EndsWith, Untold, Probed, EndsBadly;
    NothingTold(x.window);
    var time: U32 := 0;
    probed, timing := [], [];
    while time == 0
      invariant x.Ordered() && x.Streamed() && x.arrived == old(x.arrived) + timing && x.consumed == old(x.consumed) + probed
      invariant EndsWith(probed, timing) && (timing != [] ==> x.pending == [])
      invariant if time == 0 then Untold(probed, x.window) else Probed(probed, x.window, time)
      decreases |x.pending| + |x.inbox|, time == 0
    {
      ghost var aside := x.pending != [];
      var packet := NextPacket(x);
      if packet.None? { return None, probed, timing; }
      var p := packet.value;
      EndsWithSnoc(probed, timing, p);
      ProbedSnoc(probed, p, x.window);
      probed, timing := probed + [p], if aside then timing else timing + [p];
      if Code(p) % 128 == PROPERTY_NOTIFY {
        if At32(p, 4) == x.window {
          time := At32(p, 12);
        }
      } else if Code(p) % 128 == X_ERROR {
        return None, probed, timing;
      }
    }
    return Some(time), probed, timing;
  }

  function OwnerQuery(clipboard: U32): Bytes {
    X11Wire.Request(GET_SELECTION_OWNER, 0, P32(clipboard))
  }

  /** Takes the selection and asks who has it.  Another owner is final; without an answer nothing is
      known, and the next backend is tried. */
  method TakeOwnership(x: Conn, clipboard: U32, time: U32) returns (err: Option<ServeError>, ghost read: seq<Bytes>)
    requires x.Numbered() && x.Ordered() && x.Streamed() && !x.failed
    modifies x`seqNo, x`sent, x`failed, x`inbox, x`arrived, x`pending
    ensures x.Numbered() && x.Ordered() && x.Streamed() && x.arrived == old(x.arrived) + read
    ensures old(x.sent) <= x.sent <= old(x.sent) + [SetOwner(x.window, clipboard, time), OwnerQuery(clipboard)]
    ensures x.failed <==> x.sent != old(x.sent) + [SetOwner(x.window, clipboard, time), OwnerQuery(clipboard)]
    ensures err == Some(Unavailable) <==> x.failed || !AnsweredBy(read, x.seqNo)
    ensures err == Some(Unavailable) ==> x.failed || Spent(x.stream, x.arrived) || Refuses(read, x.seqNo)
    ensures err == None <==> !x.failed && AnsweredBy(read, x.seqNo) && AnswerIn(read, x.seqNo) == x.window
    ensures err == Some(Final) <==> !x.failed && AnsweredBy(read, x.seqNo) && AnswerIn(read, x.seqNo) != x.window
  {
    hide EventsOf, X11Wire.Request, At32, Conn.Streamed, Spent, Refuses;
    read := [];
    var failed := x.SetSelectionOwner(x.window, clipboard, time);
    if failed { return Some(Unavailable), read; }
    var number := x.Request(GET_SELECTION_OWNER, 0, P32(clipboard));
    if number.None? { return Some(Unavailable), read; }
    var p;
    p, read := x.Reply(number.value);
    if p.None? { return Some(Unavailable), read; }
    return if At32(p.value, 8) != x.window then Some(Final) else None, read;
  }

  // ---------------------------------------------------------------- answering

  method AppendAtoms(list: Bytes, atoms: Atoms, types: seq<Bytes>) returns (longer: Bytes)
    requires forall t :: t in types ==> t in atoms
    ensures longer == list + TextAtoms(atoms, types)
  {
    hide P32;
    longer := list;
    for k := 0 to |types|
      invariant longer == list + TextAtoms(atoms, types[..k])
    {
      assert types[..k + 1][..k] == types[..k];
      longer := longer + P32(atoms[types[k]]);
    }
    assert types[..|types|] == types;
  }

  method ListTargets(atoms: Atoms) returns (list: Bytes)
    requires Complete(atoms)
    ensures list == TargetList(atoms)
  {
    hide P32, TextAtoms;
    assert forall t :: t in TEXT_TYPES ==> t in atoms;
    list := AppendAtoms(P32(atoms["TARGETS"]) + P32(atoms[PASSWORD_HINT]), atoms, TEXT_TYPES);
  }

  /** The name looked at first among those of this atom; the map is searched in any order. */
  method FindName(atoms: Atoms, target: U32) returns (r: Option<Bytes>)
    ensures match r
      case Some(name) => name in atoms && atoms[name] == target
      case None => forall name :: name in atoms ==> atoms[name] != target
  {
    var left := atoms.Keys;
    while left != {}
      invariant left <= atoms.Keys && forall name :: name in atoms.Keys - left ==> atoms[name] != target
      decreases |left|
    {
      var name :| name in left;
      if atoms[name] == target { return Some(name); }
      left := left - {name};
    }
    return None;
  }

  /** Writes the conversion the target calls for, if it is offered and the write works: the requestor
      finds it in its own window, in the property it named, as the type of that target promises. */
  method Answer(x: Conn, a: Ask, o: Offer) returns (wrote: bool, ghost c: Option<Conversion>)
    requires x.Numbered() && Complete(o.atoms)
    modifies x`seqNo, x`sent, x`failed
    ensures x.Numbered() && Converts(a.target, o.value, o.atoms, c)
    ensures c.Some? ==> c.value.format == 8 || c.value.format == 32
    ensures if wrote then c.Some? && x.sent == old(x.sent) + [Write(a, c.value)] && x.failed == old(x.failed)
      else x.sent == old(x.sent) && (if c.Some? then x.failed else x.failed == old(x.failed))
    ensures wrote ==> Delivers(x.sent[|old(x.sent)|], a, o)
  {
    hide X11Wire.ChangeProperty, TargetList, Conn.Numbered, Delivers;
    var err;
    if a.target == o.atoms["TARGETS"] {
      var list := ListTargets(o.atoms);
      c := Some(Conversion(ATOM_ATOM, 32, TargetList(o.atoms)));
      err := x.ChangeProperty(0, a.requestor, a.property, ATOM_ATOM, 32, list);
      DeliversWrite(a, o, c.value);
      return !err, c;
    }
    var name := FindName(o.atoms, a.target);
    if name.None? { return false, None; }
    c := ConvertTo(name.value, a.target, o.value, o.atoms);
    var data := Payload(o.value, name.value);
    if data.None? { return false, c; }
    var typ := if name.value == "TEXT" then o.atoms["UTF8_STRING"] else a.target;
    err := x.ChangeProperty(0, a.requestor, a.property, typ, 8, data.value);
    DeliversWrite(a, o, c.value);
    return !err, c;
  }

  /** Answers one packet.  A request gets its notification even when the property could not be
      written, and then the notification refuses. */
  method Handle(x: Conn, p: Bytes, o: Offer) returns (lost: bool, err: bool, ghost out: seq<Bytes>)
    requires x.Numbered() && Complete(o.atoms) && |p| >= 32
    modifies x`seqNo, x`sent, x`failed, x`consumed
    ensures x.Numbered() && x.consumed == old(x.consumed) + [p] && x.sent == old(x.sent) + out
    ensures lost == Ends(p, ClipboardOf(o)) && (old(x.failed) || err ==> x.failed)
    ensures !err ==> Replies(p, o, out) || (x.failed && IsAsk(p) && out == [Notify(AskOf(p), 0)])
  {
    hide At32, X11Wire.ChangeProperty, X11Wire.Request, Converts, Conn.Numbered, Write;
    x.consumed := x.consumed + [p];
    out := [];
    lost, err := false, false;
    if Code(p) % 128 == SELECTION_CLEAR {
      lost := At32(p, 12) == ClipboardOf(o);
    } else if Code(p) % 128 == SELECTION_REQUEST {
      var a := AskOf(p);
      ghost var c := None;
      var wrote := false;
      if !Refused(a, ClipboardOf(o), o.time) {
        wrote, c := Answer(x, a, o);
        if wrote { out := [Write(a, c.value)]; }
      }
      var property := if wrote then a.property else 0;
      err := Respond(x, a, property);
      if !err {
        out := out + [Notify(a, property)];
        if wrote || c.None? {
          assert out == Outcome(a, c) && Grants(a, o, c);
        }
      }
    }
  }

  method Respond(x: Conn, a: Ask, property: U32) returns (err: bool)
    requires x.Numbered()
    modifies x`seqNo, x`sent, x`failed
    ensures x.Numbered()
    ensures if err then x.sent == old(x.sent) && x.failed
      else x.sent == old(x.sent) + [Notify(a, property)] && x.failed == old(x.failed)
  {
    hide X11Wire.Request;
    var body := P32(a.requestor) + (P32(0) + ((Byte1(SELECTION_NOTIFY) + Zeros(3)) + (P32(a.time) + (P32(a.requestor)
      + (P32(a.selection) + (P32(a.target) + (P32(property) + Zeros(8))))))));
    var r := x.Request(SEND_EVENT, 0, body);
    return r.None?;
  }

  // ---------------------------------------------------------------- serving

  ghost predicate NoneEnds(ps: seq<Bytes>, clipboard: U32) {
    forall i :: 0 <= i < |ps| ==> !Ends(ps[i], clipboard)
  }

  /** Serving stopped with the packet that took the clipboard away, and with no earlier one. */
  ghost predicate StopsAtLoss(ps: seq<Bytes>, clipboard: U32, lost: bool) {
    if lost then ps != [] && Ends(ps[|ps| - 1], clipboard) && NoneEnds(ps[..|ps| - 1], clipboard)
    else NoneEnds(ps, clipboard)
  }

  /** The events set aside before, in order. */
  method ServePending(x: Conn, o: Offer) returns (end: Option<End>, ghost handled: seq<Bytes>, ghost answers: seq<Bytes>)
    requires x.Numbered() && Complete(o.atoms) && forall i :: 0 <= i < |x.pending| ==> |x.pending[i]| >= 32
    modifies x`seqNo, x`sent, x`failed, x`consumed, x`pending
    ensures x.Numbered() && handled <= old(x.pending) && (end.None? ==> handled == old(x.pending) && x.pending == [])
    ensures x.consumed == old(x.consumed) + handled && x.sent == old(x.sent) + answers
    ensures (old(x.failed) ==> x.failed) && (x.failed || Transcript(handled, o, answers))
    ensures StopsAtLoss(handled, ClipboardOf(o), end == Some(Lost)) && end != Some(Deadline)
    ensures end == Some(Broken) ==> x.failed
  {
    hide Replies, Conn.Numbered, Ends;
    handled, answers := [], [];
    ghost var all := x.pending;
    for i := 0 to |x.pending|
      invariant x.Numbered() && x.pending == all && handled == all[..i]
      invariant x.consumed == old(x.consumed) + handled && x.sent == old(x.sent) + answers
      invariant (old(x.failed) ==> x.failed) && (x.failed || Transcript(handled, o, answers))
      invariant NoneEnds(handled, ClipboardOf(o))
    {
      var lost, err, out := Handle(x, x.pending[i], o);
      if !x.failed {
        TranscriptSnoc(handled, all[i], o, answers, out);
      }
      assert all[..i + 1] == handled + [all[i]];
      handled, answers := all[..i + 1], answers + out;
      assert handled[..i] == all[..i];
      if lost { return Some(Lost), handled, answers; }
      if err { return Some(Broken), handled, answers; }
    }
    x.pending := [];
    return None, handled, answers;
  }

  /** Everything read from now on, until the clipboard is lost, the deadline passes or the
      connection fails; at the deadline the clipboard is given up. */
  method ServeLater(x: Conn, o: Offer) returns (end: End, ghost handled: seq<Bytes>, ghost answers: seq<Bytes>)
    requires x.Numbered() && x.Streamed() && Complete(o.atoms)
    modifies x`seqNo, x`sent, x`failed, x`consumed, x`inbox, x`arrived
    ensures x.Numbered() && x.Streamed() && x.arrived == old(x.arrived) + handled && x.consumed == old(x.consumed) + handled
    ensures (old(x.failed) ==> x.failed)
    ensures x.failed || (Transcript(handled, o, answers) && x.sent == old(x.sent) + answers + Farewell(o, end))
    ensures StopsAtLoss(handled, ClipboardOf(o), end == Lost)
  {
    hide Replies, Transcript, Conn.Numbered, Conn.Streamed, Ends, SetOwner, NoneEnds, StopsAtLoss, TakePacket, ClipboardOf, Complete;
    handled, answers := [], [];
    NothingHandled(o);
    while true
      invariant x.Numbered() && x.Streamed() && x.arrived == old(x.arrived) + handled && x.consumed == old(x.consumed) + handled
      invariant (old(x.failed) ==> x.failed) && x.sent == old(x.sent) + answers
      invariant x.failed || Transcript(handled, o, answers)
      invariant NoneEnds(handled, ClipboardOf(o))
      decreases |x.inbox|
    {
      NotLost(handled, ClipboardOf(o));
      var deadline := *;
      if deadline {
        var failed := x.SetSelectionOwner(0, ClipboardOf(o), 0);
        return Deadline, handled, answers;
      }
      var packet := x.Packet();
      if packet.None? { return Broken, handled, answers; }
      var lost, err, out := Handle(x, packet.value, o);
      if !x.failed {
        TranscriptSnoc(handled, packet.value, o, answers, out);
      }
      StopsSnoc(handled, packet.value, ClipboardOf(o), lost);
      handled, answers := handled + [packet.value], answers + out;
      if lost { return Lost, handled, answers; }
      if err { return Broken, handled, answers; }
    }
  }

  lemma NothingHandled(o: Offer)
    requires Complete(o.atoms)
    ensures Transcript([], o, []) && NoneEnds([], ClipboardOf(o))
  {
    hide Complete;
  }

  lemma NotLost(ps: seq<Bytes>, clipboard: U32)
    ensures StopsAtLoss(ps, clipboard, false) <==> NoneEnds(ps, clipboard)
  {
  }

  lemma StopsSnoc(ps: seq<Bytes>, p: Bytes, clipboard: U32, lost: bool)
    requires NoneEnds(ps, clipboard) && lost == Ends(p, clipboard)
    ensures StopsAtLoss(ps + [p], clipboard, lost) && (!lost ==> NoneEnds(ps + [p], clipboard))
  {
    hide Ends;
    assert (ps + [p])[..|ps|] == ps;
  }

  /** At the deadline the selection is cleared. */
  function Farewell(o: Offer, end: End): seq<Bytes>
    requires Complete(o.atoms)
  {
    if end == Deadline then [SetOwner(0, ClipboardOf(o), 0)] else []
  }

  lemma {:induction false} TranscriptConcat(ps: seq<Bytes>, qs: seq<Bytes>, o: Offer, out: seq<Bytes>, more: seq<Bytes>)
    requires Complete(o.atoms) && Transcript(ps, o, out) && Transcript(qs, o, more)
    ensures Transcript(ps + qs, o, out + more)
    decreases |qs|
  {
    hide Replies, Complete;
    if qs == [] {
      assert ps + qs == ps && out + more == out;
    } else {
      var before, last := LastReply(qs, o, more);
      hide Transcript;
      var init := qs[..|qs| - 1];
      TranscriptConcat(ps, init, o, out, before);
      TranscriptSnoc(ps + init, qs[|qs| - 1], o, out + before, last);
      assert ps + qs == ps + init + [qs[|qs| - 1]];
      assert out + more == out + before + last;
    }
  }

  lemma StopsConcat(ps: seq<Bytes>, qs: seq<Bytes>, clipboard: U32, lost: bool)
    requires NoneEnds(ps, clipboard) && StopsAtLoss(qs, clipboard, lost)
    ensures StopsAtLoss(ps + qs, clipboard, lost)
  {
    hide Ends;
    if lost {
      assert (ps + qs)[..|ps + qs| - 1] == ps + qs[..|qs| - 1];
    }
  }

  /** Hands every event exactly once to `Handle`: those set aside, then those read later, in order.
      Only when serving is over early are some of those set aside left. */
  method ServeEvents(x: Conn, o: Offer) returns (end: End, ghost handled: seq<Bytes>, ghost answers: seq<Bytes>, ghost rest: seq<Bytes>)
    requires x.Numbered() && x.Streamed() && Complete(o.atoms) && forall i :: 0 <= i < |x.pending| ==> |x.pending[i]| >= 32
    modifies x`seqNo, x`sent, x`failed, x`consumed, x`inbox, x`arrived, x`pending
    ensures x.Streamed() && old(x.arrived) <= x.arrived && x.consumed == old(x.consumed) + handled
    ensures handled + rest == old(x.pending) + x.arrived[|old(x.arrived)|..] && (rest == [] || end == Lost || x.failed)
    ensures old(x.failed) ==> x.failed
    ensures x.failed || (Transcript(handled, o, answers) && x.sent == old(x.sent) + answers + Farewell(o, end))
    ensures StopsAtLoss(handled, ClipboardOf(o), end == Lost)
  {
    hide Replies, Transcript, Conn.Numbered, Conn.Streamed, Ends, SetOwner, Farewell, StopsAtLoss;
    var early;
    early, handled, answers := ServePending(x, o);
    rest := old(x.pending)[|handled|..];
    assert old(x.pending) == handled + rest;
    if early.Some? {
      NoFarewell(o, early.value);
      return early.value, handled, answers, rest;
    }
    ghost var later, more;
    end, later, more := ServeLater(x, o);
    NotLost(handled, ClipboardOf(o));
    StopsConcat(handled, later, ClipboardOf(o), end == Lost);
    if !x.failed {
      TranscriptConcat(handled, later, o, answers, more);
    }
    handled, answers, rest := handled + later, answers + more, [];
  }

  lemma NoFarewell(o: Offer, end: End)
    requires Complete(o.atoms) && end != Deadline
    ensures Farewell(o, end) == []
  {
  }

  // ---------------------------------------------------------------- the whole backend

  /** What was sent before the clipboard was confirmed. */
  function Opening(s: Screen, o: Offer): seq<Bytes>
    requires Complete(o.atoms)
  {
    Interns(Asked(ATOM_NAMES)) + [WindowRequest(s.window, s.root), ProbeRequest(s.window)]
      + [SetOwner(s.window, ClipboardOf(o), o.time), OwnerQuery(ClipboardOf(o))]
  }

  /** How the clipboard was taken: the packets read for each atom, those read for the time, those
      looked at for it, and those read for the owner. */
  datatype Taking = Taking(interned: seq<seq<Bytes>>, timing: seq<Bytes>, probed: seq<Bytes>, owner: seq<Bytes>)

  function ReadBy(t: Taking): seq<Bytes> {
    Chain(t.interned) + t.timing + t.owner
  }

  /** The server answered every request for an atom and told the time, and what was read for the
      owner is all that was read after that. */
  ghost predicate Located(t: Taking, window: U32) {
    && |t.interned| == |Asked(ATOM_NAMES)| && (forall i :: 0 <= i < |t.interned| ==> AnsweredBy(t.interned[i], (i + 1) % 0x1_0000))
    && EndsWith(t.probed, t.timing) && t.probed != [] && |t.probed[|t.probed| - 1]| >= 32
    && Probed(t.probed, window, TimeIn(t.probed[|t.probed| - 1], window))
  }

  lemma LocatedBy(t: Taking, window: U32, atoms: Atoms, time: U32)
    requires AtomsFrom(atoms, Asked(ATOM_NAMES), t.interned, 0) && Probed(t.probed, window, time) && EndsWith(t.probed, t.timing)
    ensures Located(t, window)
  {
    hide AnsweredBy, AnswerIn, Asked, EndsWith;
  }

  /** The server named every atom, told the time, and confirmed the owner. */
  ghost predicate Taken(t: Taking, s: Screen, o: Offer) {
    && Complete(o.atoms) && Predefined(o.atoms) && AtomsFrom(o.atoms, Asked(ATOM_NAMES), t.interned, 0)
    && Probed(t.probed, s.window, o.time) && EndsWith(t.probed, t.timing)
    && var number := |Opening(s, o)| % 0x1_0000; AnsweredBy(t.owner, number) && AnswerIn(t.owner, number) == s.window
  }

  /** Why the clipboard could not be taken: a write failed, there were no more packets, or the server
      answered a request with an error. */
  ghost predicate GaveUp(t: Taking, sent: nat, stream: Bytes, failed: bool) {
    failed || Spent(stream, ReadBy(t)) || LastRefuses(t.interned, 0) || EndsBadly(t.probed) || Refuses(t.owner, sent % 0x1_0000)
  }

  /** The server answered that somebody else owns the clipboard. */
  ghost predicate Denied(t: Taking, sent: nat, window: U32) {
    AnsweredBy(t.owner, sent % 0x1_0000) && AnswerIn(t.owner, sent % 0x1_0000) != window
  }

  /** A run that got as far as reporting success; `later` is what was read after that. */
  datatype Run = Run(screen: Screen, o: Offer, taking: Taking, end: End, later: seq<Bytes>, handled: seq<Bytes>,
                     rest: seq<Bytes>, answers: seq<Bytes>)

  /** What such a run did: the server confirmed the clipboard; every event read went to the probe or,
      once and in order, to the handler; and everything sent is the opening, the answers, and the
      farewell. */
  ghost predicate Sound(r: Run, arrived: seq<Bytes>, sent: seq<Bytes>, failed: bool) {
    && Taken(r.taking, r.screen, r.o) && |r.o.value| <= r.screen.maxReq - 24
    && arrived == ReadBy(r.taking) + r.later
    && EventsOf(arrived) == EventsOf(r.taking.probed + r.handled + r.rest)
    && (r.rest == [] || r.end == Lost || failed)
    && (failed || (Transcript(r.handled, r.o, r.answers) && sent == Opening(r.screen, r.o) + r.answers + Farewell(r.o, r.end)))
    && StopsAtLoss(r.handled, ClipboardOf(r.o), r.end == Lost)
  }

  /** Everything up to the request for the owner. */
  method Locate(x: Conn) returns (r: Option<(Atoms, U32)>, ghost t: Taking)
    requires x.Numbered() && x.Ordered() && x.Streamed() && x.sent == [] && x.consumed == [] && x.arrived == [] && !x.failed
    modifies x`seqNo, x`sent, x`failed, x`inbox, x`arrived, x`pending, x`consumed
    ensures x.Numbered() && x.Ordered() && x.Streamed() && x.consumed == t.probed && x.arrived == ReadBy(t)
    ensures !OwnerAsked(x.sent) && t.owner == [] && (r.None? ==> GaveUp(t, |x.sent|, x.stream, x.failed))
    ensures r.Some? ==> !x.failed && x.sent == Interns(Asked(ATOM_NAMES)) + [WindowRequest(x.window, x.root), ProbeRequest(x.window)]
    ensures r.Some? ==> Complete(r.value.0) && Predefined(r.value.0)
    ensures r.Some? ==> AtomsFrom(r.value.0, Asked(ATOM_NAMES), t.interned, 0) && Probed(t.probed, x.window, r.value.1)
    ensures EndsWith(t.probed, t.timing)
  {
    hide EventsOf, Conn.Ordered, Conn.Streamed, Conn.Numbered, Complete, Predefined, Asked, Interns, WindowRequest, ProbeRequest, Probed, AtomsFrom, Chain,
         OwnerAsked, Refuses, Spent, LastRefuses, EndsBadly, ReadBy, AnsweredBy, AnswerIn;
    var atoms;
    ghost var waits, probed, timing;
    atoms, waits := InternAll(x);
    t := Taking(waits, [], [], []);
    Parts(t);
    ghost var sent := x.sent;
    InternsOnlyPrefix(sent);
    if atoms.None? { return None, t; }
    var failed := CreateWindow(x);
    StillNotAsked(sent, x.sent, x.window, x.root);
    if failed { return None, t; }
    var time;
    time, probed, timing := ProbeTime(x);
    t := Taking(waits, timing, probed, []);
    Parts(t);
    if time.None? { return None, t; }
    return Some((atoms.value, time.value)), t;
  }

  /** Takes the clipboard: atoms, window, time and ownership, or the error and its cause.  Once the
      owner was asked for, the error is `unavailable` exactly when a write or the answer failed. */
  method Acquire(x: Conn, value: Bytes) returns (r: Result<Offer, ServeError>, ghost t: Taking)
    requires x.Numbered() && x.Ordered() && x.Streamed() && x.sent == [] && x.consumed == [] && x.arrived == [] && !x.failed
    modifies x`seqNo, x`sent, x`failed, x`inbox, x`arrived, x`pending, x`consumed
    ensures x.Numbered() && x.Ordered() && x.Streamed() && x.consumed == t.probed && x.arrived == ReadBy(t)
    ensures r.Ok? ==> r.value.value == value && Taken(t, Screen(x.root, x.window, x.maxReq), r.value)
    ensures r.Ok? ==> x.sent == Opening(Screen(x.root, x.window, x.maxReq), r.value) && !x.failed
    ensures r.Err? ==> if r.error == Unavailable then GaveUp(t, |x.sent|, x.stream, x.failed) else Denied(t, |x.sent|, x.window)
    ensures OwnerAsked(x.sent) ==> Located(t, x.window)
    ensures r.Err? && OwnerAsked(x.sent) ==> (r.error == Unavailable <==> x.failed || !AnsweredBy(t.owner, |x.sent| % 0x1_0000))
    ensures r.Err? && !OwnerAsked(x.sent) ==> r.error == Unavailable
  {
    hide EventsOf, Conn.Ordered, Conn.Streamed, Asked, Interns, WindowRequest, ProbeRequest, OwnerQuery, SetOwner, Probed, AnsweredBy,
         AnswerIn, AtomsFrom, Chain, Complete, Predefined, ClipboardOf, OwnerAsked, Refuses, Spent, LastRefuses, EndsBadly, ReadBy, EndsWith, Located;
    var found;
    found, t := Locate(x);
    if found.None? { return Err(Unavailable), t; }
    var o := Offer(value, found.value.0, found.value.1);
    ghost var sent, read := x.sent, [];
    Parts(t);
    var err;
    err, read := TakeOwnership(x, ClipboardOf(o), o.time);
    t := t.(owner := read);
    Parts(t);
    LocatedBy(t, x.window, o.atoms, o.time);
    AskedOrFailed(sent, x.sent, x.window, ClipboardOf(o), o.time);
    if err.Some? { return Err(err.value), t; }
    return Ok(o), t;
  }

  lemma Parts(t: Taking)
    ensures ReadBy(t) == Chain(t.interned) + t.timing + t.owner
    ensures t.owner == [] ==> ReadBy(t) == Chain(t.interned) + t.timing
    ensures t.owner == [] && t.timing == [] ==> ReadBy(t) == Chain(t.interned) == [] + Chain(t.interned)
    ensures t.owner == [] && t.timing == [] && t.probed == [] ==> EndsWith(t.probed, t.timing)
  {
    hide Chain;
  }

  lemma InternsOnlyPrefix(sent: seq<Bytes>)
    requires exists k :: 0 <= k <= |ATOM_NAMES| && sent == [] + Interns(Asked(ATOM_NAMES[..k]))
    ensures !OwnerAsked(sent)
  {
    hide Asked, Interns, OwnerAsked;
    var k :| 0 <= k <= |ATOM_NAMES| && sent == [] + Interns(Asked(ATOM_NAMES[..k]));
    InternsOnly(Asked(ATOM_NAMES[..k]));
    assert [] + Interns(Asked(ATOM_NAMES[..k])) == Interns(Asked(ATOM_NAMES[..k]));
  }

  lemma StillNotAsked(before: seq<Bytes>, sent: seq<Bytes>, window: U32, root: U32)
    requires !OwnerAsked(before) && before <= sent <= before + [WindowRequest(window, root), ProbeRequest(window)]
    ensures !OwnerAsked(sent)
  {
    OtherRequest(CREATE_WINDOW, 0, WindowBody(window, root));
    OtherRequest(CHANGE_PROPERTY, 2, PropertyBody(window, ATOM_WM_NAME, ATOM_STRING, 8, []));
    hide IsSetOwner, X11Wire.Request;
    assert sent == before + sent[|before|..] && sent[|before|..] <= [WindowRequest(window, root), ProbeRequest(window)];
    AskedLater(before, sent[|before|..]);
  }

  lemma AskedOrFailed(before: seq<Bytes>, sent: seq<Bytes>, window: U32, clipboard: U32, time: U32)
    requires !OwnerAsked(before) && before <= sent <= before + [SetOwner(window, clipboard, time), OwnerQuery(clipboard)]
    ensures OwnerAsked(sent) <==> sent != before
  {
    OtherRequest(SET_SELECTION_OWNER, 0, P32(window) + (P32(clipboard) + P32(time)));
    hide IsSetOwner, X11Wire.Request;
    assert sent == before + sent[|before|..] && sent[|before|..] <= [SetOwner(window, clipboard, time), OwnerQuery(clipboard)];
    AskedLater(before, sent[|before|..]);
    if sent != before {
      assert IsSetOwner(sent[|before|..][0]);
    }
  }

  lemma PendingAreEvents(arrived: seq<Bytes>, consumed: seq<Bytes>, pending: seq<Bytes>)
    requires EventsOf(arrived) == EventsOf(consumed) + pending
    ensures forall i :: 0 <= i < |pending| ==> IsEvent(pending[i]) && |pending[i]| >= 32
  {
    OnlyEvents(arrived);
    forall i | 0 <= i < |pending| ensures IsEvent(pending[i]) && |pending[i]| >= 32 {
      assert EventsOf(arrived)[|EventsOf(consumed)| + i] == pending[i];
    }
  }

  lemma {:induction false} EventsConcat(ps: seq<Bytes>, qs: seq<Bytes>)
    ensures EventsOf(ps + qs) == EventsOf(ps) + EventsOf(qs)
    decreases |qs|
  {
    if qs == [] {
      assert ps + qs == ps;
    } else {
      var init, last := qs[..|qs| - 1], qs[|qs| - 1];
      EventsConcat(ps, init);
      EventsSnoc(ps + init, last);
      EventsSnoc(init, last);
      assert ps + qs == ps + init + [last] && qs == init + [last];
    }
  }

  lemma {:induction false} AllEvents(ps: seq<Bytes>)
    requires forall i :: 0 <= i < |ps| ==> IsEvent(ps[i])
    ensures EventsOf(ps) == ps
  {
    if ps != [] {
      AllEvents(ps[..|ps| - 1]);
    }
  }

  lemma EventsAccounted(before: seq<Bytes>, probed: seq<Bytes>, pending: seq<Bytes>, later: seq<Bytes>, taken: seq<Bytes>)
    requires EventsOf(before) == EventsOf(probed) + pending && taken == pending + later
    ensures EventsOf(before + later) == EventsOf(probed + taken)
  {
    hide EventsOf, IsEvent;
    PendingAreEvents(before, probed, pending);
    AllEvents(pending);
    EventsConcat(before, later);
    EventsConcat(probed, taken);
    EventsConcat(pending, later);
    PacketsAssoc(EventsOf(probed), pending, EventsOf(later));
  }

  lemma PacketsAssoc(a: seq<Bytes>, b: seq<Bytes>, c: seq<Bytes>)
    ensures a + b + c == a + (b + c)
  {
  }

  /** Success is reported exactly once, when the clipboard is confirmed, and not at all by a call
      that lets another backend try.  When it is not, the packets read say why. */
  method Serve(x: Conn, dialled: bool, authName: Bytes, authData: Bytes, value: Bytes, status: Status)
    returns (err: Option<ServeError>, ghost t: Taking, ghost run: Option<Run>)
    requires x.seqNo == 0 && x.sent == [] && x.arrived == [] && x.consumed == [] && x.pending == [] && !x.failed && !status.closed
    modifies x, status
    ensures Ended(err, x, dialled, old(x.inbox), value, t, run)
    ensures if run.Some? then Announced(status) else Silent(status)
  {
    hide EventsOf, SetupOf, Conn.Numbered, Conn.Ordered, Conn.Streamed, Transcript, Opening, Farewell, StopsAtLoss, Taken, ReadBy, Complete,
         IsEvent, Unpacked, OwnerAsked, GaveUp, Denied, AnsweredBy, Located;
    run, t := None, Taking([], [], [], []);
    NotAsked();
    NothingRead(t);
    if !dialled { return Some(Unavailable), t, run; }
    var failed, hello := x.Setup(authName, authData);
    if failed {
      if x.failed { FailedWrite(t, |x.sent|, x.stream); }
      return Some(Unavailable), t, run;
    }
    if |value| > x.maxReq - 24 { return Some(Final), t, run; }
    NothingYet(x);
    var o;
    o, t := Acquire(x, value);
    if o.Err? {
      StreamedMeans(x);
      return Some(o.error), t, run;
    }
    status.Ready();
    err, run := Hold(x, o.value, t);
  }

  /** How a call ends: it reported success and then served the run, or it did not. */
  ghost predicate Ended(err: Option<ServeError>, x: Conn, dialled: bool, inbox: Bytes, value: Bytes, t: Taking, run: Option<Run>)
    reads x
  {
    match run
    case None => err.Some? && Unserved(err.value, x, dialled, inbox, value, t)
    case Some(r) =>
      && err == (if r.end == Broken then Some(Final) else None) && dialled
      && r.o.value == value && r.screen == Screen(x.root, x.window, x.maxReq) && r.taking == t
      && SetupOf(inbox) == Some((r.screen, x.stream)) && Unpacked(x.stream, x.arrived)
      && x.consumed == t.probed + r.handled && Sound(r, x.arrived, x.sent, x.failed)
  }

  lemma EndedMeans(err: Option<ServeError>, x: Conn, dialled: bool, inbox: Bytes, value: Bytes, t: Taking, run: Option<Run>)
    requires Ended(err, x, dialled, inbox, value, t, run)
    ensures err.None? ==> run.Some?
    ensures err == Some(Unavailable) ==> run.None?
  {
    hide Unserved, Unpacked, Sound, SetupOf;
  }

  /** How a call ends that never reports success.  The error is final if the value is too large or
      another owner was confirmed; it is `unavailable` if there was no connection or for one of the
      causes given up for.  Once the owner was asked for, that is exactly when a write failed or the
      question was not answered. */
  ghost predicate Unserved(err: ServeError, x: Conn, dialled: bool, inbox: Bytes, value: Bytes, t: Taking)
    reads x
  {
    var setup := SetupOf(inbox);
    var large := dialled && !x.failed && setup.Some? && |value| > setup.value.0.maxReq - 24;
    && x.arrived == ReadBy(t)
    && (x.arrived != [] || OwnerAsked(x.sent) ==> setup.Some? && x.stream == setup.value.1 && Unpacked(x.stream, x.arrived))
    && (if OwnerAsked(x.sent)
        then Located(t, setup.value.0.window)
          && (err == Unavailable <==> x.failed || !AnsweredBy(t.owner, |x.sent| % 0x1_0000))
          && (err == Final ==> Denied(t, |x.sent|, setup.value.0.window))
        else err == if large then Final else Unavailable)
    && (err == Unavailable ==> !dialled || setup.None? || GaveUp(t, |x.sent|, setup.value.1, x.failed))
  }

  lemma NothingRead(t: Taking)
    requires t == Taking([], [], [], [])
    ensures ReadBy(t) == []
  {
  }

  lemma FailedWrite(t: Taking, sent: nat, stream: Bytes)
    ensures forall s :: GaveUp(t, sent, s, true)
  {
  }

  lemma NotAsked()
    ensures !OwnerAsked([])
  {
  }

  /** From the report on: serves until the end. */
  method Hold(x: Conn, o: Offer, ghost t: Taking) returns (err: Option<ServeError>, ghost run: Option<Run>)
    requires x.Numbered() && x.Ordered() && x.Streamed() && x.consumed == t.probed && !x.failed && |o.value| <= x.maxReq - 24
    requires Taken(t, Screen(x.root, x.window, x.maxReq), o) && x.sent == Opening(Screen(x.root, x.window, x.maxReq), o)
    requires x.arrived == ReadBy(t)
    modifies x`seqNo, x`sent, x`failed, x`consumed, x`inbox, x`arrived, x`pending
    ensures run.Some? && err == (if run.value.end == Broken then Some(Final) else None) && Unpacked(x.stream, x.arrived)
    ensures run.value.o == o && run.value.taking == t && run.value.screen == Screen(x.root, x.window, x.maxReq)
    ensures x.consumed == run.value.taking.probed + run.value.handled && Sound(run.value, x.arrived, x.sent, x.failed)
  {
    hide EventsOf, Conn.Numbered, Conn.Streamed, Conn.Ordered, Transcript, Opening, Farewell, StopsAtLoss, IsEvent, Unpacked, ReadBy,
         AtomsFrom, Probed, AnsweredBy, AnswerIn;
    assert Complete(o.atoms);
    hide Complete, Taken;
    ghost var before, pending := x.arrived, x.pending;
    OrderedMeans(x);
    PendingAreEvents(before, t.probed, pending);
    var end, handled, answers, rest := ServeEvents(x, o);
    StreamedMeans(x);
    ghost var later := x.arrived[|before|..];
    assert x.arrived == before + later;
    EventsAccounted(before, t.probed, pending, later, handled + rest);
    assert t.probed + handled + rest == t.probed + (handled + rest);
    run := Some(Run(Screen(x.root, x.window, x.maxReq), o, t, end, later, handled, rest, answers));
    return if end == Broken then Some(Final) else None, run;
  }

  lemma StreamedMeans(x: Conn)
    requires x.Streamed()
    ensures Unpacked(x.stream, x.arrived)
  {
  }

  lemma NothingYet(x: Conn)
    requires x.seqNo == 0 && x.sent == [] && x.arrived == [] && x.consumed == [] && x.pending == [] && x.stream == x.inbox
    ensures x.Numbered() && x.Ordered() && x.Streamed()
  {
  }

  lemma OrderedMeans(x: Conn)
    requires x.Ordered()
    ensures EventsOf(x.arrived) == EventsOf(x.consumed) + x.pending
  {
  }

  /** In a run whose writes all worked, each request handled got its one notification, in order, and
      each notification says truly whether the conversion was written just before it, where and as the
      requestor expects it. */
  lemma AllAnswered(r: Run, arrived: seq<Bytes>, sent: seq<Bytes>)
    requires Sound(r, arrived, sent, false) && Nonzero(r.o.atoms)
    ensures Match(NotifiesOf(r.answers), AsksOf(r.handled))
    ensures forall n :: 0 <= n < |r.answers| && IsNotify(r.answers[n]) ==> TrueAt(AsksOf(r.handled), r.o, r.answers, n)
    ensures forall n :: 0 <= n < |r.answers| && IsNotify(r.answers[n]) ==> RightAt(AsksOf(r.handled), r.o, r.answers, n)
  {
    hide TrueAt, RightAt, Match, IsNotify, Transcript, EventsOf, StopsAtLoss, Probed, AtomsFrom, ReadBy;
    EveryAskAnswered(r.handled, r.o, r.answers);
    forall n | 0 <= n < |r.answers| && IsNotify(r.answers[n])
      ensures TrueAt(AsksOf(r.handled), r.o, r.answers, n)
      ensures RightAt(AsksOf(r.handled), r.o, r.answers, n)
    {
      EveryNotifyTrue(r.handled, r.o, r.answers, n);
      EveryNotifyRight(r.handled, r.o, r.answers, n);
    }
  }

  lemma ConvertedData(a: Ask, o: Offer, c: Conversion)
    requires Complete(o.atoms) && Grants(a, o, Some(c)) && a.target != o.atoms["TARGETS"]
    ensures c.format == 8 && (c.data == o.value || c.data == HINT_PAYLOAD)
  {
  }

  lemma ConvertedTargets(a: Ask, o: Offer, c: Conversion)
    requires Complete(o.atoms) && Grants(a, o, Some(c)) && a.target == o.atoms["TARGETS"]
    ensures c == Conversion(ATOM_ATOM, 32, TargetList(o.atoms))
  {
    hide Complete, Refused;
  }

  /** No property write exceeds the server's limit, if that is at least what the list of targets takes. */
  lemma WritesFit(r: Run, arrived: seq<Bytes>, sent: seq<Bytes>, a: Ask, c: Conversion, words: U16)
    requires Sound(r, arrived, sent, false) && r.screen.maxReq == 4 * words >= 52
    requires Grants(a, r.o, Some(c)) && (c.format == 8 || c.format == 32)
    ensures |Write(a, c)| <= r.screen.maxReq
  {
    hide Grants, TargetList, ChangeProperty, Transcript, Probed, StopsAtLoss, EventsOf, AtomsFrom, AnsweredBy, ReadBy;
    assert "TARGETS" in r.o.atoms;
    hide Complete;
    if a.target == r.o.atoms["TARGETS"] {
      ConvertedTargets(a, r.o, c);
      TargetsFit(a.requestor, a.property, r.o.atoms);
    } else {
      ConvertedData(a, r.o, c);
      ValueFits(c.data, words, a.requestor, a.property, c.typ);
    }
  }
}
