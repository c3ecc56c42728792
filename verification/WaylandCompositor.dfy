/** The requests of `serveWayland` as a compositor hears them: it creates the objects it is asked for,
    under the numbers the protocol demands, and keeps the selection of its seat. */
module WaylandCompositor {
  import opened Wrappers
  import opened Bytes
  import opened WaylandWire
  import opened WaylandConn
  import opened WaylandEvents

  datatype Object =
    | Registry | Callback | Seat
    | DataControl(iface: Bytes)
    | Source(types: seq<Bytes>)
    | Device(seat: U32)

  /** Objects are numbered by the client, each with the next number; the display is object 1. */
  datatype Compositor = Compositor(globals: map<U32, Bytes>, objects: map<U32, Object>, next: nat, synced: seq<U32>,
                                   selection: map<U32, seq<Bytes>>)

  /** Before the client has said anything. */
  function Connected(globals: map<U32, Bytes>): Compositor {
    Compositor(globals, map[], 2, [], map[])
  }

  predicate Is(c: Compositor, id: U32, ob: Object) {
    id in c.objects && c.objects[id] == ob
  }

  predicate IsManager(c: Compositor, id: U32) {
    id in c.objects && c.objects[id].DataControl?
  }

  predicate IsSource(c: Compositor, id: U32) {
    id in c.objects && c.objects[id].Source?
  }

  predicate IsDevice(c: Compositor, id: U32) {
    id in c.objects && c.objects[id].Device?
  }

  function Create(c: Compositor, id: U32, ob: Object): Option<Compositor> {
    if id == c.next then Some(c.(objects := c.objects[id := ob], next := c.next + 1)) else None
  }

  /** The arguments a request to this object takes. */
  function Signature(c: Compositor, obj: U32, op: U16): Option<seq<Kind>> {
    if obj == 1 then if op <= 1 then Some([WordKind]) else None
    else if Is(c, obj, Registry) && op == 0 then Some([WordKind, StrKind, WordKind, WordKind])
    else if IsManager(c, obj) && op == 0 then Some([WordKind])
    else if IsManager(c, obj) && op == 1 then Some([WordKind, WordKind])
    else if IsSource(c, obj) && op == 0 then Some([StrKind])
    else if IsDevice(c, obj) && op == 0 then Some([WordKind])
    else None
  }

  /** Syncing and asking for the registry. */
  function OnDisplay(c: Compositor, op: U16, id: U32): Option<Compositor> {
    if op == 0 then Create(c.(synced := c.synced + [id]), id, Callback) else Create(c, id, Registry)
  }

  /** Binding version 1 of an advertised global. */
  function OnRegistry(c: Compositor, name: U32, iface: Bytes, version: U32, id: U32): Option<Compositor> {
    if name !in c.globals || c.globals[name] != iface || version != 1 then None
    else if BoundAs(iface).None? then None
    else Create(c, id, BoundAs(iface).value)
  }

  function BoundAs(iface: Bytes): Option<Object> {
    if iface == "wl_seat" then Some(Seat)
    else if iface in ["ext_data_control_manager_v1", "zwlr_data_control_manager_v1"] then Some(DataControl(iface))
    else None
  }

  lemma Bindable()
    ensures BoundAs("wl_seat") == Some(Seat) && |MANAGERS| == 2
    ensures forall k :: 0 <= k < 2 ==> BoundAs(MANAGERS[k]) == Some(DataControl(MANAGERS[k])) && |MANAGERS[k]| <= 100
  {
  }

  /** The device of a seat. */
  function OnManager(c: Compositor, id: U32, seat: U32): Option<Compositor> {
    if Is(c, seat, Seat) then Create(c, id, Device(seat)) else None
  }

  /** Another type is offered. */
  function OnSource(c: Compositor, obj: U32, typ: Bytes): Option<Compositor>
    requires IsSource(c, obj)
  {
    Some(c.(objects := c.objects[obj := Source(c.objects[obj].types + [typ])]))
  }

  /** The selection of the device's seat is set to the source, or cleared. */
  function OnDevice(c: Compositor, obj: U32, source: U32): Option<Compositor>
    requires IsDevice(c, obj)
  {
    var seat := c.objects[obj].seat;
    if source == 0 then Some(c.(selection := c.selection - {seat}))
    else if IsSource(c, source) then Some(c.(selection := c.selection[seat := c.objects[source].types]))
    else None
  }

  /** One request, its arguments read; None is a protocol error. */
  function Act(c: Compositor, obj: U32, op: U16, args: seq<Arg>): Option<Compositor>
    requires Signature(c, obj, op) == Some(KindsOf(args))
  {
    KindsRead(args);
    if obj == 1 then OnDisplay(c, op, args[0].n)
    else if Is(c, obj, Registry) then OnRegistry(c, args[0].n, args[1].s, args[2].n, args[3].n)
    else if IsManager(c, obj) && op == 0 then Create(c, args[0].n, Source([]))
    else if IsManager(c, obj) then OnManager(c, args[0].n, args[1].n)
    else if IsSource(c, obj) then OnSource(c, obj, args[0].s)
    else OnDevice(c, obj, args[0].n)
  }

  lemma KindsRead(args: seq<Arg>)
    ensures |KindsOf(args)| == |args| && forall i :: 0 <= i < |args| ==> (args[i].Word? <==> KindsOf(args)[i].WordKind?)
  {
  }

  lemma {:induction false} TakenKinds(kinds: seq<Kind>, b: Bytes, o: Order)
    requires |b| % 4 == 0
    ensures KindsOf(Take(kinds, b, o).0) == kinds
    decreases |kinds|
  {
    hide TakeStr;
    if kinds != [] {
      WordsAdd(|b|, 4);
      TakenKinds(kinds[1..], if kinds[0].WordKind? then TakeWord(b, o).1 else TakeStr(b, o).1, o);
    }
  }

  /** One request as bytes: exactly one message, with exactly its arguments. */
  function Hear(c: Compositor, b: Bytes, o: Order): Option<Compositor> {
    match FrontOf(b, o)
    case Frame(size, m) =>
      if size != |b| || Signature(c, m.obj, m.op).None? then None
      else
        WordsAdd(size, 8);
        var kinds := Signature(c, m.obj, m.op).value;
        var (args, rest) := Take(kinds, m.body, o);
        TakenKinds(kinds, m.body, o);
        if rest != [] then None else Act(c, m.obj, m.op, args)
    case _ => None
  }

  function Listen(c: Compositor, bs: seq<Bytes>, o: Order): Option<Compositor>
    decreases |bs|
  {
    if bs == [] then Some(c)
    else
      var next := Hear(c, bs[0], o);
      if next.None? then None else Listen(next.value, bs[1..], o)
  }

  // ---------------------------------------------------------------- hearing what was said

  lemma {:induction false} ArgsShort(args: seq<Arg>, o: Order)
    requires forall i :: 0 <= i < |args| ==> args[i].Str? ==> |args[i].s| <= 100
    ensures |EncodeArgs(args, o)| <= 112 * |args|
  {
    if args != [] {
      hide Put32;
      ArgsShort(args[..|args| - 1], o);
    }
  }

  /** A request with short strings is heard as it was said. */
  lemma Told(c: Compositor, obj: U32, op: U16, args: seq<Arg>, o: Order)
    requires |args| <= 4 && forall i :: 0 <= i < |args| ==> args[i].Str? ==> |args[i].s| <= 100
    requires Signature(c, obj, op) == Some(KindsOf(args))
    ensures Hear(c, EncodeMessage(Message(obj, op, EncodeArgs(args, o)), o), o) == Act(c, obj, op, args)
  {
    var m := Message(obj, op, EncodeArgs(args, o));
    var b := EncodeMessage(m, o);
    ArgsShort(args, o);
    FramesBack(m, [], o);
    ArgsRoundTrip(args, [], o);
    hide EncodeMessage, EncodeArgs, FrontOf, Signature, Act, Take, KindsOf;
    assert b + [] == b && m.body + [] == m.body;
  }

  lemma ListenOne(c: Compositor, b: Bytes, o: Order)
    ensures Listen(c, [b], o) == Hear(c, b, o)
  {
    hide Hear;
    assert [b][1..] == [];
  }

  lemma {:induction false} ListenConcat(c: Compositor, a: seq<Bytes>, b: seq<Bytes>, o: Order)
    ensures Listen(c, a + b, o) == if Listen(c, a, o).Some? then Listen(Listen(c, a, o).value, b, o) else None
    decreases |a|
  {
    hide Hear;
    if a == [] {
      assert a + b == b;
    } else {
      var next := Hear(c, a[0], o);
      assert (a + b)[1..] == a[1..] + b;
      if next.Some? {
        ListenConcat(next.value, a[1..], b, o);
      }
    }
  }

  /** One more request after some. */
  lemma ListenSnoc(c: Compositor, before: seq<Bytes>, b: Bytes, o: Order)
    requires Listen(c, before, o).Some?
    ensures Listen(c, before + [b], o) == Hear(Listen(c, before, o).value, b, o)
  {
    hide Hear, Listen;
    ListenConcat(c, before, [b], o);
    ListenOne(Listen(c, before, o).value, b, o);
  }

  lemma Kinds(n: U32, m: U32, s: Bytes, k: U32)
    ensures KindsOf([Word(n)]) == [WordKind] && KindsOf([Word(n), Word(m)]) == [WordKind, WordKind] && KindsOf([Str(s)]) == [StrKind]
    ensures KindsOf([Word(n), Str(s), Word(m), Word(k)]) == [WordKind, StrKind, WordKind, WordKind]
  {
  }

  lemma HearRegistry(c: Compositor, o: Order)
    requires c.next == 2
    ensures Hear(c, RegistryRequest(2, o), o) == Some(c.(objects := c.objects[2 := Registry], next := 3))
  {
    Kinds(2, 0, [], 0);
    Told(c, 1, 1, [Word(2)], o);
    hide Hear, EncodeMessage, EncodeArgs;
  }

  lemma HearSync(c: Compositor, id: U32, o: Order)
    requires c.next == id
    ensures Hear(c, SyncRequest(id, o), o) == Some(c.(objects := c.objects[id := Callback], next := id + 1, synced := c.synced + [id]))
  {
    Kinds(id, 0, [], 0);
    Told(c, 1, 0, [Word(id)], o);
    hide Hear, EncodeMessage, EncodeArgs;
  }

  function BindArgs(name: U32, iface: Bytes, id: U32): (args: seq<Arg>)
    ensures |args| == 4 && args[0] == Word(name) && args[1] == Str(iface) && args[2] == Word(1) && args[3] == Word(id)
  {
    [Word(name), Str(iface), Word(1), Word(id)]
  }

  lemma ActBind(c: Compositor, name: U32, iface: Bytes, id: U32, ob: Object)
    requires c.next == id && Is(c, 2, Registry) && name in c.globals && c.globals[name] == iface && BoundAs(iface) == Some(ob)
    ensures Signature(c, 2, 0) == Some(KindsOf(BindArgs(name, iface, id)))
    ensures Act(c, 2, 0, BindArgs(name, iface, id)) == Some(c.(objects := c.objects[id := ob], next := id + 1))
  {
    Kinds(name, 1, iface, id);
    assert KindsOf(BindArgs(name, iface, id)) == [WordKind, StrKind, WordKind, WordKind];
    hide BoundAs, KindsOf, BindArgs;
  }

  lemma HearBind(c: Compositor, name: U32, iface: Bytes, id: U32, ob: Object, o: Order)
    requires c.next == id && Is(c, 2, Registry) && name in c.globals && c.globals[name] == iface && |iface| <= 100
    requires BoundAs(iface) == Some(ob)
    ensures Hear(c, EncodeMessage(Message(2, BIND, EncodeArgs(BindArgs(name, iface, id), o)), o), o) ==
      Some(c.(objects := c.objects[id := ob], next := id + 1))
  {
    hide BoundAs, Hear, EncodeMessage, EncodeArgs, Act, Signature, KindsOf, BindArgs, Is;
    ActBind(c, name, iface, id, ob);
    Told(c, 2, 0, BindArgs(name, iface, id), o);
  }

  lemma HearCreate(c: Compositor, o: Order)
    requires c.next == 6 && IsManager(c, 5)
    ensures Hear(c, EncodeMessage(Message(5, CREATE_SOURCE, EncodeArgs([Word(6)], o)), o), o) ==
      Some(c.(objects := c.objects[6 := Source([])], next := 7))
  {
    Kinds(6, 0, [], 0);
    Told(c, 5, 0, [Word(6)], o);
    hide Hear, EncodeMessage, EncodeArgs;
  }

  lemma HearOffer(c: Compositor, typ: Bytes, o: Order)
    requires IsSource(c, 6) && |typ| <= 100
    ensures Hear(c, EncodeMessage(Message(6, OFFER, EncodeArgs([Str(typ)], o)), o), o) ==
      Some(c.(objects := c.objects[6 := Source(c.objects[6].types + [typ])]))
  {
    Kinds(0, 0, typ, 0);
    Told(c, 6, 0, [Str(typ)], o);
    hide Hear, EncodeMessage, EncodeArgs;
  }

  lemma HearDevice(c: Compositor, o: Order)
    requires c.next == 7 && IsManager(c, 5) && Is(c, 4, Seat)
    ensures Hear(c, EncodeMessage(Takes(o)[0], o), o) == Some(c.(objects := c.objects[7 := Device(4)], next := 8))
  {
    Kinds(7, 4, [], 0);
    Told(c, 5, 1, [Word(7), Word(4)], o);
    hide Hear, EncodeMessage, EncodeArgs;
  }

  lemma HearSelection(c: Compositor, o: Order)
    requires Is(c, 7, Device(4)) && IsSource(c, 6)
    ensures Hear(c, EncodeMessage(Takes(o)[1], o), o) == Some(c.(selection := c.selection[4 := c.objects[6].types]))
  {
    Kinds(6, 0, [], 0);
    Told(c, 7, 0, [Word(6)], o);
    hide Hear, EncodeMessage, EncodeArgs;
  }

  lemma HearClear(c: Compositor, o: Order)
    requires Is(c, 7, Device(4))
    ensures Hear(c, ClearRequest(7, o), o) == Some(c.(selection := c.selection - {4}))
  {
    Kinds(0, 0, [], 0);
    Told(c, 7, 0, [Word(0)], o);
    hide Hear, EncodeMessage, EncodeArgs;
  }

  // ---------------------------------------------------------------- the whole conversation

  /** The types are added to those of the source, in order. */
  lemma {:induction false} HearOffers(c: Compositor, types: seq<Bytes>, o: Order)
    requires IsSource(c, 6) && forall t :: t in types ==> |t| <= 100
    ensures Listen(c, EncodeAll(Offers(types, o), o), o) == Some(c.(objects := c.objects[6 := Source(c.objects[6].types + types)]))
    decreases |types|
  {
    hide Hear, EncodeArgs, EncodeMessage;
    if types == [] {
      NothingOffered(o);
      assert c.objects[6].types + [] == c.objects[6].types && c.objects[6 := c.objects[6]] == c.objects;
    } else {
      var n := |types| - 1;
      assert types[..n + 1] == types && c.objects[6].types + types == c.objects[6].types + types[..n] + [types[n]];
      HearOffers(c, types[..n], o);
      OffersSnoc(types, n, o);
      var c' := c.(objects := c.objects[6 := Source(c.objects[6].types + types[..n])]);
      HearOffer(c', types[n], o);
      assert c'.objects[6 := Source(c.objects[6].types + types)] == c.objects[6 := Source(c.objects[6].types + types)];
      ListenSnoc(c, EncodeAll(Offers(types[..n], o), o), EncodeMessage(Message(6, OFFER, EncodeArgs([Str(types[n])], o)), o), o);
    }
  }

  /** The compositor advertised the globals the client found. */
  ghost predicate Advertises(globals: map<U32, Bytes>, g: Globals)
    requires Suits(g)
  {
    && g.seat.value in globals && globals[g.seat.value] == "wl_seat"
    && forall iface :: iface in g.managers && iface in MANAGERS ==> g.managers[iface] in globals && globals[g.managers[iface]] == iface
  }

  /** Two requests lead from one state to another by way of a third. */
  lemma ListenTwo(c: Compositor, a: Bytes, b: Bytes, c1: Compositor, c2: Compositor, o: Order)
    requires Hear(c, a, o) == Some(c1) && Hear(c1, b, o) == Some(c2)
    ensures Listen(c, [a, b], o) == Some(c2)
  {
    hide Hear, Listen;
    ListenOne(c, a, o);
    ListenSnoc(c, [a], b, o);
    assert [a] + [b] == [a, b];
  }

  lemma ListenThen(c: Compositor, a: seq<Bytes>, b: seq<Bytes>, c1: Compositor, c2: Compositor, o: Order)
    requires Listen(c, a, o) == Some(c1) && Listen(c1, b, o) == Some(c2)
    ensures Listen(c, a + b, o) == Some(c2)
  {
    hide Listen;
    ListenConcat(c, a, b, o);
  }

  /** After the registry roundtrip, after the binds, and with the source complete. */
  function Discovering(globals: map<U32, Bytes>): Compositor {
    Compositor(globals, map[2 := Registry, 3 := Callback], 4, [3], map[])
  }

  function Bound(globals: map<U32, Bytes>, iface: Bytes, types: seq<Bytes>): Compositor {
    Compositor(globals, map[2 := Registry, 3 := Callback, 4 := Seat, 5 := DataControl(iface), 6 := Source(types)], 7, [3], map[])
  }

  /** The selection is taken and the sync that confirms it is asked for. */
  function Owning(globals: map<U32, Bytes>, iface: Bytes, types: seq<Bytes>): Compositor {
    Compositor(globals, map[2 := Registry, 3 := Callback, 4 := Seat, 5 := DataControl(iface), 6 := Source(types), 7 := Device(4), 8 := Callback],
               9, [3, 8], map[4 := types])
  }

  lemma DiscoverHeard(globals: map<U32, Bytes>, o: Order)
    ensures Listen(Connected(globals), [RegistryRequest(2, o), SyncRequest(3, o)], o) == Some(Discovering(globals))
  {
    hide Hear, Listen, RegistryRequest, SyncRequest;
    var c := Connected(globals);
    HearRegistry(c, o);
    var c1 := c.(objects := c.objects[2 := Registry], next := 3);
    HearSync(c1, 3, o);
    assert c.synced + [3] == [3];
    assert c1.objects[3 := Callback] == Discovering(globals).objects;
    ListenTwo(c, RegistryRequest(2, o), SyncRequest(3, o), c1, Discovering(globals), o);
  }

  lemma BoundObjects(globals: map<U32, Bytes>, iface: Bytes)
    ensures var c := Discovering(globals);
      Bound(globals, iface, []) == c.(objects := c.objects[4 := Seat][5 := DataControl(iface)][6 := Source([])], next := 7)
  {
  }

  lemma SourceObject(globals: map<U32, Bytes>, iface: Bytes, types: seq<Bytes>)
    ensures var c := Bound(globals, iface, []);
      Bound(globals, iface, types) == c.(objects := c.objects[6 := Source(types)]) && IsSource(c, 6) && c.objects[6].types == []
  {
    assert Bound(globals, iface, types).objects == Bound(globals, iface, []).objects[6 := Source(types)];
  }

  /** Three requests to a compositor that knows the registry as object 2. */
  lemma ThreeHeard(c: Compositor, seat: U32, wl: Bytes, name: U32, iface: Bytes, o: Order) returns (c1: Compositor, c2: Compositor)
    requires c.next == 4 && Is(c, 2, Registry) && seat in c.globals && c.globals[seat] == wl && name in c.globals && c.globals[name] == iface
    requires BoundAs(wl) == Some(Seat) && BoundAs(iface) == Some(DataControl(iface)) && |wl| <= 100 && |iface| <= 100
    ensures Hear(c, EncodeMessage(Message(2, BIND, EncodeArgs(BindArgs(seat, wl, 4), o)), o), o) == Some(c1)
    ensures Hear(c1, EncodeMessage(Message(2, BIND, EncodeArgs(BindArgs(name, iface, 5), o)), o), o) == Some(c2)
    ensures Hear(c2, EncodeMessage(Message(5, CREATE_SOURCE, EncodeArgs([Word(6)], o)), o), o) ==
      Some(c.(objects := c.objects[4 := Seat][5 := DataControl(iface)][6 := Source([])], next := 7))
  {
    hide Hear, EncodeMessage, EncodeArgs, BoundAs, BindArgs;
    HearBind(c, seat, wl, 4, Seat, o);
    c1 := c.(objects := c.objects[4 := Seat], next := 5);
    HearBind(c1, name, iface, 5, DataControl(iface), o);
    c2 := c1.(objects := c1.objects[5 := DataControl(iface)], next := 6);
    HearCreate(c2, o);
  }

  lemma ListenThree(c: Compositor, a: Bytes, b: Bytes, d: Bytes, c1: Compositor, c2: Compositor, c3: Compositor, o: Order)
    requires Hear(c, a, o) == Some(c1) && Hear(c1, b, o) == Some(c2) && Hear(c2, d, o) == Some(c3)
    ensures Listen(c, [a, b, d], o) == Some(c3)
  {
    hide Hear, Listen;
    ListenTwo(c, a, b, c1, c2, o);
    ListenSnoc(c, [a, b], d, o);
    assert [a, b] + [d] == [a, b, d];
  }

  lemma BindsHeard(globals: map<U32, Bytes>, seat: U32, name: U32, iface: Bytes, o: Order)
    requires seat in globals && globals[seat] == "wl_seat" && name in globals && globals[name] == iface
    requires BoundAs(iface) == Some(DataControl(iface)) && |iface| <= 100
    ensures Listen(Discovering(globals), EncodeAll(Binds(2, seat, (iface, name), o), o), o) == Some(Bound(globals, iface, []))
  {
    Bindable();
    var ms := Binds(2, seat, (iface, name), o);
    SeatArgs(seat, name, iface, o);
    hide Hear, Listen, EncodeMessage, EncodeArgs, BoundAs, Binds, BindArgs;
    EncodeThree(ms, o);
    BoundObjects(globals, iface);
    var c := Discovering(globals);
    assert c.next == 4 && Is(c, 2, Registry) && c.globals == globals;
    hide Discovering, Bound, Is;
    var c1, c2 := ThreeHeard(c, seat, "wl_seat", name, iface, o);
    ListenThree(c, EncodeMessage(ms[0], o), EncodeMessage(ms[1], o), EncodeMessage(ms[2], o), c1, c2, Bound(globals, iface, []), o);
  }

  lemma SeatArgs(seat: U32, name: U32, iface: Bytes, o: Order)
    ensures |"wl_seat"| <= 100
    ensures Binds(2, seat, (iface, name), o) ==
      [Message(2, BIND, EncodeArgs(BindArgs(seat, "wl_seat", 4), o)), Message(2, BIND, EncodeArgs(BindArgs(name, iface, 5), o)),
       Message(5, CREATE_SOURCE, EncodeArgs([Word(6)], o))]
  {
    hide EncodeArgs;
  }

  lemma OffersHeard(globals: map<U32, Bytes>, iface: Bytes, types: seq<Bytes>, o: Order)
    requires forall t :: t in types ==> |t| <= 100
    ensures Listen(Bound(globals, iface, []), EncodeAll(Offers(types, o), o), o) == Some(Bound(globals, iface, types))
  {
    SourceObject(globals, iface, types);
    hide Listen, Offers, EncodeAll, Bound;
    HearOffers(Bound(globals, iface, []), types, o);
    assert [] + types == types;
  }

  lemma TakesHeard(globals: map<U32, Bytes>, iface: Bytes, types: seq<Bytes>, o: Order)
    ensures Listen(Bound(globals, iface, types), EncodeAll(Takes(o), o) + [SyncRequest(8, o)], o) == Some(Owning(globals, iface, types))
  {
    hide Hear, Listen, EncodeMessage, EncodeArgs, SyncRequest;
    var c := Bound(globals, iface, types);
    HearDevice(c, o);
    var c1 := c.(objects := c.objects[7 := Device(4)], next := 8);
    HearSelection(c1, o);
    var c2 := c1.(selection := c1.selection[4 := types]);
    var a, b := EncodeMessage(Takes(o)[0], o), EncodeMessage(Takes(o)[1], o);
    ListenTwo(c, a, b, c1, c2, o);
    assert EncodeAll(Takes(o), o) == [a, b];
    HearSync(c2, 8, o);
    assert c2.synced + [8] == [3, 8] && c2.objects[8 := Callback] == Owning(globals, iface, types).objects;
    ListenSnoc(c, [a, b], SyncRequest(8, o), o);
  }

  lemma OpeningParts(seat: U32, manager: (Bytes, U32), o: Order)
    ensures Opening(seat, manager, o) == [RegistryRequest(2, o), SyncRequest(3, o)]
      + (EncodeAll(Binds(2, seat, manager, o), o) + (EncodeAll(Offers(OFFERED, o), o) + (EncodeAll(Takes(o), o) + [SyncRequest(8, o)])))
  {
    hide RegistryRequest, SyncRequest, EncodeAll, Binds, Offers, Takes;
    EncodeAllConcat(Binds(2, seat, manager, o) + Offers(OFFERED, o), Takes(o), o);
    EncodeAllConcat(Binds(2, seat, manager, o), Offers(OFFERED, o), o);
  }

  const WANTED: seq<Bytes> :=
    ["x-kde-passwordManagerHint", "text/plain;charset=utf-8", "text/plain", "UTF8_STRING", "STRING", "TEXT"]

  /** The standard manager if it was advertised. */
  function Preferred(g: Globals): Bytes {
    if "ext_data_control_manager_v1" in g.managers then "ext_data_control_manager_v1" else "zwlr_data_control_manager_v1"
  }

  lemma PreferredBound(globals: map<U32, Bytes>, g: Globals)
    requires Suits(g) && Advertises(globals, g)
    ensures Manager(g.managers).0 == Preferred(g) && BoundAs(Preferred(g)) == Some(DataControl(Preferred(g))) && |Preferred(g)| <= 100
    ensures Manager(g.managers).1 in globals && globals[Manager(g.managers).1] == Preferred(g)
  {
    assert MANAGERS[0] in MANAGERS && MANAGERS[1] in MANAGERS;
  }

  lemma OfferedWanted()
    ensures OFFERED == WANTED && forall t :: t in OFFERED ==> |t| <= 100
  {
  }

  lemma OpeningListened(globals: map<U32, Bytes>, g: Globals, o: Order)
    requires Suits(g) && Advertises(globals, g)
    ensures Listen(Connected(globals), OpeningFor(g, o), o) == Some(Owning(globals, Preferred(g), WANTED))
  {
    PreferredBound(globals, g);
    OfferedWanted();
    var m := Manager(g.managers);
    var iface := Preferred(g);
    hide Listen, Opening, Advertises, Preferred, Manager, BoundAs, EncodeAll, Binds, Offers, Takes, RegistryRequest, SyncRequest;
    OpeningParts(g.seat.value, m, o);
    DiscoverHeard(globals, o);
    BindsHeard(globals, g.seat.value, m.1, iface, o);
    OffersHeard(globals, iface, OFFERED, o);
    TakesHeard(globals, iface, OFFERED, o);
    var last := EncodeAll(Takes(o), o) + [SyncRequest(8, o)];
    var offers := EncodeAll(Offers(OFFERED, o), o);
    var binds := EncodeAll(Binds(2, g.seat.value, m, o), o);
    var taken := Owning(globals, iface, OFFERED);
    ListenThen(Bound(globals, iface, []), offers, last, Bound(globals, iface, OFFERED), taken, o);
    ListenThen(Discovering(globals), binds, offers + last, Bound(globals, iface, []), taken, o);
    ListenThen(Connected(globals), [RegistryRequest(2, o), SyncRequest(3, o)], binds + (offers + last), Discovering(globals), taken, o);
  }

  /** Every advertisement is of one of these globals. */
  ghost predicate Announced(globals: map<U32, Bytes>, found: seq<Event>, o: Order) {
    forall i :: 0 <= i < |found| && Advert(found[i].m, 2, o).Some? ==>
      NameAt(found, i, 2, o) in globals && globals[NameAt(found, i, 2, o)] == Advert(found[i].m, 2, o).value.1
  }

  lemma FoundAdvertised(globals: map<U32, Bytes>, found: seq<Event>, o: Order)
    requires Announced(globals, found, o) && Suits(GlobalsOf(found, 2, o))
    ensures Advertises(globals, GlobalsOf(found, 2, o))
  {
    GlobalsRight(found, 2, o);
    hide GlobalsOf, Advert;
    var g := GlobalsOf(found, 2, o);
    assert SeatRight(found, 2, o, g.seat);
    forall iface | iface in g.managers && iface in MANAGERS
      ensures g.managers[iface] in globals && globals[g.managers[iface]] == iface
    {
      var k :| 0 <= k < 2 && MANAGERS[k] == iface;
      assert ManagerRight(found, 2, o, g.managers, MANAGERS[k]);
    }
  }

  /** What the client says up to the confirmation, to a compositor that announced its globals, gives
      the selection of the seat to a source of exactly the wanted types, by the preferred manager, and
      asks for both syncs; there is no protocol error. */
  lemma OpeningTakesSelection(globals: map<U32, Bytes>, found: seq<Event>, o: Order)
    requires Announced(globals, found, o) && Discovered(found, o)
    ensures var g := GlobalsOf(found, 2, o);
      Listen(Connected(globals), OpeningFor(g, o), o) == Some(Owning(globals, Preferred(g), WANTED))
  {
    hide Listen, GlobalsOf, Announced, Advertises, Preferred, OpeningFor, Completes;
    FoundAdvertised(globals, found, o);
    OpeningListened(globals, GlobalsOf(found, 2, o), o);
  }

  /** What it says at the deadline clears that selection and asks for one more sync. */
  lemma ClearingClears(globals: map<U32, Bytes>, iface: Bytes, o: Order)
    ensures var c := Listen(Owning(globals, iface, WANTED), [ClearRequest(DEVICE, o), SyncRequest(9, o)], o);
      c.Some? && c.value.selection == map[] && c.value.synced == [3, 8, 9]
  {
    hide Hear, Listen, ClearRequest, SyncRequest;
    var c := Owning(globals, iface, WANTED);
    HearClear(c, o);
    var c1 := c.(selection := c.selection - {4});
    HearSync(c1, 9, o);
    var c2 := c1.(objects := c1.objects[9 := Callback], next := 10, synced := c1.synced + [9]);
    ListenTwo(c, ClearRequest(DEVICE, o), SyncRequest(9, o), c1, c2, o);
  }
}
