/** What a selection owner sends for each packet it is given; see section 2.2 of the ICCCM. */
module X11Answers {
  import opened Wrappers
  import opened Bytes
  import opened Clipboard
  import opened X11Wire

  type Atoms = map<Bytes, U32>

  const ATOM_NAMES: seq<Bytes> := ["CLIPBOARD", "TARGETS", PASSWORD_HINT] + TEXT_TYPES

  ghost predicate Complete(atoms: Atoms) {
    forall name :: name in atoms <==> name in ATOM_NAMES
  }

  ghost predicate Injective(atoms: Atoms) {
    forall a, b :: a in atoms && b in atoms && atoms[a] == atoms[b] ==> a == b
  }

  ghost predicate Nonzero(atoms: Atoms) {
    forall a :: a in atoms ==> atoms[a] != 0
  }

  function TextAtoms(atoms: Atoms, types: seq<Bytes>): Bytes
    requires forall t :: t in types ==> t in atoms
  {
    if types == [] then [] else TextAtoms(atoms, types[..|types| - 1]) + P32(atoms[types[|types| - 1]])
  }

  function TargetList(atoms: Atoms): Bytes
    requires Complete(atoms)
  {
    P32(atoms["TARGETS"]) + P32(atoms[PASSWORD_HINT]) + TextAtoms(atoms, TEXT_TYPES)
  }

  /** What is written for a target: a property type, a format and the data. */
  datatype Conversion = Conversion(typ: U32, format: U8, data: Bytes)

  /** The conversion to the type of one name. */
  function ConvertTo(name: Bytes, target: U32, value: Bytes, atoms: Atoms): (c: Option<Conversion>)
    requires Complete(atoms)
    ensures c.Some? ==> c.value.format == 8
  {
    match Payload(value, name)
    case Some(data) => Some(Conversion(if name == "TEXT" then atoms["UTF8_STRING"] else target, 8, data))
    case None => None
  }

  /** The conversion a target calls for: it is the list of targets, or some name's. */
  ghost predicate Converts(target: U32, value: Bytes, atoms: Atoms, c: Option<Conversion>)
    requires Complete(atoms)
  {
    if target == atoms["TARGETS"] then c == Some(Conversion(ATOM_ATOM, 32, TargetList(atoms)))
    else if exists name :: name in atoms && atoms[name] == target
    then exists name :: name in atoms && atoms[name] == target && c == ConvertTo(name, target, value, atoms)
    else c == None
  }

  /** With distinct atoms it does not matter in which order the names are looked at. */
  lemma ConvertsUnique(target: U32, value: Bytes, atoms: Atoms, c: Option<Conversion>, d: Option<Conversion>)
    requires Complete(atoms) && Injective(atoms)
    requires Converts(target, value, atoms, c) && Converts(target, value, atoms, d)
    ensures c == d
  {
  }

  /** A property is written only for a target other than None. */
  lemma ConvertsNonzero(target: U32, value: Bytes, atoms: Atoms, c: Option<Conversion>)
    requires Complete(atoms) && Nonzero(atoms) && Converts(target, value, atoms, c) && c.Some?
    ensures target != 0
  {
    assert "TARGETS" in ATOM_NAMES;
  }

  /** The size of the list of targets, which the code does not check against the server's limit. */
  lemma TargetsFit(window: U32, property: U32, atoms: Atoms)
    requires Complete(atoms)
    ensures |ChangeProperty(0, window, property, ATOM_ATOM, 32, TargetList(atoms))| == 52
  {
    TextAtomsLength(atoms, TEXT_TYPES);
    hide TextAtoms;
    assert |TargetList(atoms)| == 28;
  }

  lemma {:induction false} TextAtomsLength(atoms: Atoms, types: seq<Bytes>)
    requires forall t :: t in types ==> t in atoms
    ensures |TextAtoms(atoms, types)| == 4 * |types|
  {
    if types != [] {
      TextAtomsLength(atoms, types[..|types| - 1]);
    }
  }

  // ---------------------------------------------------------------- one packet

  /** What is being served: the value, the atoms of this display, and since when. */
  datatype Offer = Offer(value: Bytes, atoms: Atoms, time: U32)

  /** The selection that is served. */
  function ClipboardOf(o: Offer): U32
    requires Complete(o.atoms)
  {
    o.atoms["CLIPBOARD"]
  }

  /** The one atom that is not asked for has its predefined value. */
  ghost predicate Predefined(atoms: Atoms)
    requires Complete(atoms)
  {
    atoms["STRING"] == 31
  }

  predicate IsAsk(p: Bytes) {
    |p| >= 32 && Code(p) % 128 == SELECTION_REQUEST
  }

  /** Somebody else owns the clipboard now. */
  predicate Ends(p: Bytes, clipboard: U32) {
    |p| >= 32 && Code(p) % 128 == SELECTION_CLEAR && At32(p, 12) == clipboard
  }

  /** A request for another selection, or from before the clipboard was owned. */
  predicate Refused(a: Ask, clipboard: U32, time: U32) {
    a.selection != clipboard || (a.time != 0 && a.time < time)
  }

  function Write(a: Ask, c: Conversion): Bytes
    requires c.format == 8 || c.format == 32
  {
    ChangeProperty(0, a.requestor, a.property, c.typ, c.format, c.data)
  }

  /** The requests sent for a conversion that was made, or not. */
  function Outcome(a: Ask, c: Option<Conversion>): seq<Bytes>
    requires c.Some? ==> c.value.format == 8 || c.value.format == 32
  {
    match c
    case Some(v) => [Write(a, v), Notify(a, a.property)]
    case None => [Notify(a, 0)]
  }

  /** The conversion a request gets: none if it is refused. */
  ghost predicate Grants(a: Ask, o: Offer, c: Option<Conversion>)
    requires Complete(o.atoms)
  {
    if Refused(a, ClipboardOf(o), o.time) then c == None else Converts(a.target, o.value, o.atoms, c)
  }

  /** The requests sent for one packet. */
  ghost predicate Replies(p: Bytes, o: Offer, out: seq<Bytes>)
    requires Complete(o.atoms)
  {
    if !IsAsk(p) then out == []
    else exists c: Option<Conversion> | c.Some? ==> c.value.format == 8 || c.value.format == 32 ::
      Grants(AskOf(p), o, c) && out == Outcome(AskOf(p), c)
  }

  lemma GrantUnique(a: Ask, o: Offer, c: Option<Conversion>, d: Option<Conversion>)
    requires Complete(o.atoms) && Injective(o.atoms) && Grants(a, o, c) && Grants(a, o, d)
    ensures c == d
  {
    hide Converts, Injective;
    if !Refused(a, ClipboardOf(o), o.time) {
      ConvertsUnique(a.target, o.value, o.atoms, c, d);
    }
  }

  lemma RepliesUnique(p: Bytes, o: Offer, out: seq<Bytes>, other: seq<Bytes>)
    requires Complete(o.atoms) && Injective(o.atoms) && Replies(p, o, out) && Replies(p, o, other)
    ensures out == other
  {
    hide Grants, Outcome, AskOf, Complete, Injective;
    if IsAsk(p) {
      var c: Option<Conversion> :| (c.Some? ==> c.value.format == 8 || c.value.format == 32) && Grants(AskOf(p), o, c)
        && out == Outcome(AskOf(p), c);
      var d: Option<Conversion> :| (d.Some? ==> d.value.format == 8 || d.value.format == 32) && Grants(AskOf(p), o, d)
        && other == Outcome(AskOf(p), d);
      GrantUnique(AskOf(p), o, c, d);
    }
  }

  predicate IsNotify(b: Bytes) {
    |b| == 44 && Code(b) == SEND_EVENT
  }

  /** The conversion the target calls for was written, to the property asked for, before the rest. */
  ghost predicate WroteFirst(a: Ask, o: Offer, out: seq<Bytes>)
    requires Complete(o.atoms)
  {
    |out| == 2 && exists c: Conversion | c.format == 8 || c.format == 32 :: Grants(a, o, Some(c)) && out[0] == Write(a, c)
  }

  lemma OutcomeParts(a: Ask, c: Option<Conversion>)
    requires c.Some? ==> c.value.format == 8 || c.value.format == 32
    ensures var out := Outcome(a, c);
      && |out| == (if c.Some? then 2 else 1) && IsNotify(out[|out| - 1]) && Tells(out[|out| - 1], a)
      && At32(out[|out| - 1], 32) == (if c.Some? then a.property else 0)
      && (c.Some? ==> out[0] == Write(a, c.value) && !IsNotify(out[0]))
  {
    hide NotifyBody, At32;
    NotifyFields(a, if c.Some? then a.property else 0);
  }

  lemma AskHasProperty(p: Bytes, o: Offer, c: Option<Conversion>)
    requires Complete(o.atoms) && Nonzero(o.atoms) && IsAsk(p) && Grants(AskOf(p), o, c) && c.Some?
    ensures AskOf(p).property != 0
  {
    ConvertsNonzero(AskOf(p).target, o.value, o.atoms, c);
  }

  /** Exactly one notification is sent, last, for what was asked; its property is nonzero if and only
      if the conversion the target calls for was written to that property just before. */
  lemma OneTrueNotify(p: Bytes, o: Offer, out: seq<Bytes>)
    requires Complete(o.atoms) && Nonzero(o.atoms) && IsAsk(p) && Replies(p, o, out)
    ensures 1 <= |out| <= 2 && IsNotify(out[|out| - 1]) && (|out| == 2 ==> !IsNotify(out[0]))
    ensures Tells(out[|out| - 1], AskOf(p))
    ensures var property := At32(out[|out| - 1], 32);
      && (property != 0 <==> WroteFirst(AskOf(p), o, out))
      && (property != 0 ==> property == AskOf(p).property)
      && (property == 0 ==> Grants(AskOf(p), o, None))
  {
    hide Grants, Outcome, IsNotify, Tells, At32, Write, AskOf;
    var a := AskOf(p);
    var c: Option<Conversion> :| (c.Some? ==> c.value.format == 8 || c.value.format == 32) && Grants(a, o, c) && out == Outcome(a, c);
    OutcomeParts(a, c);
    if c.Some? {
      AskHasProperty(p, o, c);
      assert Grants(a, o, Some(c.value));
    }
  }

  /** The notification goes to the requestor and names the selection, target and time it asked with. */
  predicate Tells(b: Bytes, a: Ask) {
    && |b| == 44 && At32(b, 4) == a.requestor && Code(b[12..]) == SELECTION_NOTIFY && At32(b, 16) == a.time
    && At32(b, 24) == a.selection && At32(b, 28) == a.target && At32(b, 8) == 0 && At32(b, 20) == a.requestor
  }

  // ---------------------------------------------------------------- a run

  /** The requests sent for packets handled one after the other. */
  ghost predicate Transcript(ps: seq<Bytes>, o: Offer, out: seq<Bytes>)
    requires Complete(o.atoms)
  {
    if ps == [] then out == []
    else exists k | 0 <= k <= |out| ::
      Transcript(ps[..|ps| - 1], o, out[..k]) && Replies(ps[|ps| - 1], o, out[k..])
  }

  lemma TranscriptSnoc(ps: seq<Bytes>, p: Bytes, o: Offer, out: seq<Bytes>, more: seq<Bytes>)
    requires Complete(o.atoms) && Transcript(ps, o, out) && Replies(p, o, more)
    ensures Transcript(ps + [p], o, out + more)
  {
    hide Replies;
    assert (ps + [p])[..|ps|] == ps;
    assert (out + more)[..|out|] == out && (out + more)[|out|..] == more;
  }

  lemma LastReply(ps: seq<Bytes>, o: Offer, out: seq<Bytes>) returns (before: seq<Bytes>, more: seq<Bytes>)
    requires Complete(o.atoms) && Transcript(ps, o, out) && ps != []
    ensures out == before + more && Transcript(ps[..|ps| - 1], o, before) && Replies(ps[|ps| - 1], o, more)
  {
    hide Replies, Complete;
    var k :| 0 <= k <= |out| && Transcript(ps[..|ps| - 1], o, out[..k]) && Replies(ps[|ps| - 1], o, out[k..]);
    before, more := out[..k], out[k..];
  }

  /** With distinct atoms the order in which the client's map is searched makes no difference. */
  lemma {:induction false} TranscriptUnique(ps: seq<Bytes>, o: Offer, out: seq<Bytes>, other: seq<Bytes>)
    requires Complete(o.atoms) && Injective(o.atoms) && Transcript(ps, o, out) && Transcript(ps, o, other)
    ensures out == other
    decreases |ps|
  {
    if ps != [] {
      hide Replies, Complete, Injective, Transcript;
      var before, more := LastReply(ps, o, out);
      var before', more' := LastReply(ps, o, other);
      TranscriptUnique(ps[..|ps| - 1], o, before, before');
      RepliesUnique(ps[|ps| - 1], o, more, more');
    }
  }

  function AsksOf(ps: seq<Bytes>): (r: seq<Ask>) {
    if ps == [] then []
    else AsksOf(ps[..|ps| - 1]) + if IsAsk(ps[|ps| - 1]) then [AskOf(ps[|ps| - 1])] else []
  }

  function NotifiesOf(out: seq<Bytes>): (r: seq<Bytes>) {
    if out == [] then []
    else NotifiesOf(out[..|out| - 1]) + if IsNotify(out[|out| - 1]) then [out[|out| - 1]] else []
  }

  lemma NotifiesSnoc(out: seq<Bytes>, b: Bytes)
    ensures NotifiesOf(out + [b]) == NotifiesOf(out) + if IsNotify(b) then [b] else []
  {
    assert (out + [b])[..|out|] == out;
  }

  lemma NotifiesOfOne(p: Bytes, o: Offer, before: seq<Bytes>, out: seq<Bytes>)
    requires Complete(o.atoms) && Nonzero(o.atoms) && Replies(p, o, out)
    ensures IsAsk(p) ==> out != []
    ensures NotifiesOf(before + out) == NotifiesOf(before) + if IsAsk(p) then [out[|out| - 1]] else []
  {
    hide NotifiesOf, IsNotify, Tells, At32, WroteFirst, Grants, Outcome;
    if IsAsk(p) {
      OneTrueNotify(p, o, out);
      var init, n := out[..|out| - 1], out[|out| - 1];
      assert before + out == before + init + [n];
      NotifiesSnoc(before + init, n);
      if |out| == 2 {
        assert init == [out[0]];
        NotifiesSnoc(before, out[0]);
      } else {
        assert before + init == before;
      }
    } else {
      assert before + out == before;
    }
  }

  /** One notification for each request, in the same order. */
  ghost predicate Match(notifies: seq<Bytes>, asks: seq<Ask>) {
    |notifies| == |asks| && forall i :: 0 <= i < |asks| ==> Tells(notifies[i], asks[i])
  }

  /** Over a whole run the notifications are the requests' own, one each, in the order asked. */
  lemma {:induction false} EveryAskAnswered(ps: seq<Bytes>, o: Offer, out: seq<Bytes>)
    requires Complete(o.atoms) && Nonzero(o.atoms) && Transcript(ps, o, out)
    ensures Match(NotifiesOf(out), AsksOf(ps))
    decreases |ps|
  {
    if ps != [] {
      hide Replies, NotifiesOf, IsNotify, AskOf, IsAsk, Tells, WroteFirst, Complete, Nonzero, Match, Transcript;
      var before, more := LastReply(ps, o, out);
      EveryAskAnswered(ps[..|ps| - 1], o, before);
      NextAnswered(ps[..|ps| - 1], ps[|ps| - 1], o, before, more);
    } else {
      assert NotifiesOf([]) == [];
    }
  }

  lemma NextAnswered(init: seq<Bytes>, last: Bytes, o: Offer, before: seq<Bytes>, out: seq<Bytes>)
    requires Complete(o.atoms) && Nonzero(o.atoms) && Replies(last, o, out)
    requires Match(NotifiesOf(before), AsksOf(init))
    ensures Match(NotifiesOf(before + out), AsksOf(init) + if IsAsk(last) then [AskOf(last)] else [])
  {
    hide Replies, NotifiesOf, IsNotify, Tells, At32, WroteFirst, AskOf, AsksOf, Complete, Nonzero, IsAsk;
    NotifiesOfOne(last, o, before, out);
    if IsAsk(last) {
      OneTrueNotify(last, o, out);
    }
  }

  /** A run of answers ends with a notification. */
  lemma {:induction false} EndsWithNotify(ps: seq<Bytes>, o: Offer, out: seq<Bytes>)
    requires Complete(o.atoms) && Nonzero(o.atoms) && Transcript(ps, o, out) && out != []
    ensures IsNotify(out[|out| - 1])
    decreases |ps|
  {
    if ps != [] {
      hide Replies, IsNotify, Tells, AskOf, WroteFirst, Complete, Nonzero, Transcript, At32;
      var before, more := LastReply(ps, o, out);
      var last := ps[|ps| - 1];
      if IsAsk(last) {
        OneTrueNotify(last, o, more);
      } else {
        NoReply(last, o, more);
        EndsWithNotify(ps[..|ps| - 1], o, before);
      }
    }
  }

  lemma NoReply(p: Bytes, o: Offer, out: seq<Bytes>)
    requires Complete(o.atoms) && Replies(p, o, out) && !IsAsk(p)
    ensures out == []
  {
  }

  /** The conversion the request calls for was written just before position n. */
  ghost predicate WrittenBefore(a: Ask, o: Offer, out: seq<Bytes>, n: nat)
    requires Complete(o.atoms) && n < |out|
  {
    n > 0 && WroteFirst(a, o, [out[n - 1], out[n]])
  }

  /** The notification at n answers the request of its rank, and is true. */
  ghost predicate TrueAt(asks: seq<Ask>, o: Offer, out: seq<Bytes>, n: nat)
    requires Complete(o.atoms) && n < |out|
  {
    var i := |NotifiesOf(out[..n])|;
    && i < |asks| && Tells(out[n], asks[i])
    && (At32(out[n], 32) != 0 <==> WrittenBefore(asks[i], o, out, n))
    && (At32(out[n], 32) != 0 ==> At32(out[n], 32) == asks[i].property)
    && (At32(out[n], 32) == 0 ==> Grants(asks[i], o, None))
  }

  lemma EarlierTrue(asks: seq<Ask>, more: seq<Ask>, o: Offer, before: seq<Bytes>, out: seq<Bytes>, n: nat)
    requires Complete(o.atoms) && n < |before| && TrueAt(asks, o, before, n)
    ensures TrueAt(asks + more, o, before + out, n)
  {
    hide NotifiesOf, Tells, At32, WroteFirst, Grants, Complete;
    assert (before + out)[..n] == before[..n] && (before + out)[n] == before[n];
    if n > 0 {
      assert (before + out)[n - 1] == before[n - 1];
    }
  }

  lemma NotWritten(a: Ask, o: Offer, x: Bytes, y: Bytes)
    requires Complete(o.atoms) && IsNotify(x)
    ensures !WroteFirst(a, o, [x, y])
  {
    hide Grants;
    forall c: Conversion | c.format == 8 || c.format == 32
      ensures Write(a, c) != x
    {
      assert Code(Write(a, c)) == CHANGE_PROPERTY;
    }
  }

  lemma LastWritten(asks: seq<Ask>, a: Ask, o: Offer, before: seq<Bytes>, w: Bytes, b: Bytes)
    requires Complete(o.atoms) && |NotifiesOf(before)| == |asks| && !IsNotify(w) && Tells(b, a)
    requires (At32(b, 32) != 0 <==> WroteFirst(a, o, [w, b])) && (At32(b, 32) != 0 ==> At32(b, 32) == a.property)
    requires At32(b, 32) == 0 ==> Grants(a, o, None)
    ensures TrueAt(asks + [a], o, before + [w, b], |before| + 1)
  {
    hide NotifiesOf, Tells, At32, WroteFirst, Grants, Complete, IsNotify;
    var all := before + [w, b];
    assert all[..|before| + 1] == before + [w] && all[|before|] == w && all[|before| + 1] == b;
    NotifiesSnoc(before, w);
    assert (asks + [a])[|asks|] == a;
  }

  lemma LastRefused(asks: seq<Ask>, a: Ask, o: Offer, before: seq<Bytes>, b: Bytes)
    requires Complete(o.atoms) && |NotifiesOf(before)| == |asks| && Tells(b, a) && At32(b, 32) == 0 && Grants(a, o, None)
    requires before != [] ==> IsNotify(before[|before| - 1])
    ensures TrueAt(asks + [a], o, before + [b], |before|)
  {
    hide NotifiesOf, Tells, At32, WroteFirst, Grants, Complete, IsNotify;
    var all := before + [b];
    assert all[..|before|] == before && all[|before|] == b;
    if before != [] {
      assert all[|before| - 1] == before[|before| - 1];
      NotWritten(a, o, all[|before| - 1], b);
    }
    assert (asks + [a])[|asks|] == a;
  }

  lemma LastTrue(asks: seq<Ask>, last: Bytes, o: Offer, before: seq<Bytes>, out: seq<Bytes>)
    requires Complete(o.atoms) && Nonzero(o.atoms) && IsAsk(last) && Replies(last, o, out)
    requires |NotifiesOf(before)| == |asks| && (before != [] ==> IsNotify(before[|before| - 1]))
    ensures out != [] && TrueAt(asks + [AskOf(last)], o, before + out, |before + out| - 1)
  {
    hide NotifiesOf, Tells, At32, WroteFirst, Grants, Complete, IsNotify, AskOf, Replies, TrueAt;
    OneTrueNotify(last, o, out);
    if |out| == 2 {
      assert out == [out[0], out[1]];
      LastWritten(asks, AskOf(last), o, before, out[0], out[1]);
    } else {
      assert out == [out[0]];
      NotTwo(AskOf(last), o, out);
      LastRefused(asks, AskOf(last), o, before, out[0]);
    }
  }

  lemma NotTwo(a: Ask, o: Offer, out: seq<Bytes>)
    requires Complete(o.atoms) && |out| != 2
    ensures !WroteFirst(a, o, out)
  {
  }

  /** Over a whole run: every notification answers the request of its rank, and its property is
      nonzero if and only if the conversion that request calls for was written just before it. */
  lemma {:induction false} EveryNotifyTrue(ps: seq<Bytes>, o: Offer, out: seq<Bytes>, n: nat)
    requires Complete(o.atoms) && Nonzero(o.atoms) && Transcript(ps, o, out) && n < |out| && IsNotify(out[n])
    ensures TrueAt(AsksOf(ps), o, out, n)
    decreases |ps|
  {
    hide Replies, IsNotify, Tells, AskOf, WroteFirst, Complete, Nonzero, TrueAt, At32, NotifiesOf, Match;
    if ps != [] {
      hide Transcript;
      var init, last := ps[..|ps| - 1], ps[|ps| - 1];
      var before, more := LastReply(ps, o, out);
      if n < |before| {
        EveryNotifyTrue(init, o, before, n);
        EarlierTrue(AsksOf(init), if IsAsk(last) then [AskOf(last)] else [], o, before, more, n);
      } else {
        OnlyLast(last, o, more, n - |before|);
        EveryAskAnswered(init, o, before);
        MatchLength(NotifiesOf(before), AsksOf(init));
        if before != [] {
          EndsWithNotify(init, o, before);
        }
        LastTrue(AsksOf(init), last, o, before, more);
      }
    }
  }

  lemma MatchLength(notifies: seq<Bytes>, asks: seq<Ask>)
    requires Match(notifies, asks)
    ensures |notifies| == |asks|
  {
  }

  /** The one notification among the answers to a packet is the last of them. */
  lemma OnlyLast(p: Bytes, o: Offer, out: seq<Bytes>, k: nat)
    requires Complete(o.atoms) && Nonzero(o.atoms) && Replies(p, o, out) && k < |out| && IsNotify(out[k])
    ensures IsAsk(p) && k == |out| - 1
  {
    hide Complete, Nonzero, IsNotify, Tells, WroteFirst, At32, AskOf;
    if IsAsk(p) {
      OneTrueNotify(p, o, out);
    } else {
      NoReply(p, o, out);
    }
  }

  // ---------------------------------------------------------------- what the requestor finds

  /** The request may be served: it is about the clipboard and not from before it was owned, and its
      target is the list of targets, the hint, or a text type. */
  ghost predicate Deserves(a: Ask, o: Offer)
    requires Complete(o.atoms)
  {
    && a.selection == o.atoms["CLIPBOARD"] && (a.time == 0 || a.time >= o.time)
    && exists name | name in o.atoms :: o.atoms[name] == a.target && Offered(name)
  }

  predicate Offered(name: Bytes) {
    name == "TARGETS" || name == "x-kde-passwordManagerHint"
    || name in ["text/plain;charset=utf-8", "text/plain", "UTF8_STRING", "STRING", "TEXT"]
  }

  /** The request replaces the property that was asked for, of the requestor's window. */
  ghost predicate Addressed(w: Bytes, a: Ask) {
    |w| >= 24 && Code(w) == 18 && w[1] == '\0' && At32(w, 4) == a.requestor && At32(w, 8) == a.property
  }

  /** It writes the data promised for the type of that name, in bytes; TEXT is written as UTF8_STRING. */
  ghost predicate WritesType(w: Bytes, name: Bytes, a: Ask, o: Offer)
    requires Complete(o.atoms) && |w| >= 24
  {
    exists data: Bytes | |w| >= 24 + |data| ::
      && Promised(name, o.value, Some(data)) && w[24..24 + |data|] == data && At32(w, 20) == |data| % 0x1_0000_0000
      && w[16] as int == 8 && At32(w, 12) == if name == "TEXT" then o.atoms["UTF8_STRING"] else a.target
  }

  function AtomNamed(atoms: Atoms, name: Bytes): U32 {
    if name in atoms then atoms[name] else 0
  }

  function TargetNames(): (r: seq<Bytes>)
    ensures |r| == 7
  {
    ["TARGETS", "x-kde-passwordManagerHint", "text/plain;charset=utf-8", "text/plain", "UTF8_STRING", "STRING", "TEXT"]
  }

  /** It writes the list of all targets, as atoms. */
  ghost predicate WritesTargets(w: Bytes, atoms: Atoms) {
    && |w| == 52 && At32(w, 12) == 4 && w[16] as int == 32 && At32(w, 20) == 7
    && forall k: nat :: k < 7 ==> At32(w, 24 + 4 * k) == AtomNamed(atoms, TargetNames()[k])
  }

  ghost predicate Delivers(w: Bytes, a: Ask, o: Offer)
    requires Complete(o.atoms)
  {
    && Addressed(w, a)
    && if a.target == o.atoms["TARGETS"] then WritesTargets(w, o.atoms)
       else exists name | name in o.atoms && o.atoms[name] == a.target :: Offered(name) && WritesType(w, name, a, o)
  }

  lemma NamesComplete(atoms: Atoms)
    requires Complete(atoms)
    ensures "TARGETS" in atoms && "UTF8_STRING" in atoms && "CLIPBOARD" in atoms && PASSWORD_HINT in atoms
    ensures forall t :: t in TEXT_TYPES ==> t in atoms
  {
  }

  lemma WriteFields(a: Ask, c: Conversion)
    requires c.format == 8 || c.format == 32
    ensures var w := Write(a, c);
      && Addressed(w, a) && |w| >= 24 + |c.data| && At32(w, 12) == c.typ && w[16] as int == c.format
      && At32(w, 20) == (if c.format == 8 then |c.data| else |c.data| / 4) % 0x1_0000_0000 && w[24..24 + |c.data|] == c.data
  {
    ChangePropertyFields(0, a.requestor, a.property, c.typ, c.format, c.data);
    hide ChangeProperty, At32;
  }

  lemma TypeDelivered(name: Bytes, a: Ask, o: Offer, c: Conversion)
    requires Complete(o.atoms) && ConvertTo(name, a.target, o.value, o.atoms) == Some(c) && name in o.atoms
    ensures c.format == 8 && Offered(name) && WritesType(Write(a, c), name, a, o)
  {
    NamesComplete(o.atoms);
    PayloadPromised(name, o.value);
    PayloadOffered(name, o.value);
    WriteFields(a, c);
    hide Complete, Promised, Write, At32, Offered;
  }

  lemma PayloadOffered(name: Bytes, value: Bytes)
    ensures Payload(value, name).Some? <==> Offered(name) && name != "TARGETS"
  {
  }

  /** Five atoms one after the other. */
  lemma FiveAtoms(atoms: Atoms, types: seq<Bytes>)
    requires |types| == 5 && forall t :: t in types ==> t in atoms
    ensures TextAtoms(atoms, types) == P32(atoms[types[0]]) + (P32(atoms[types[1]]) + (P32(atoms[types[2]])
      + (P32(atoms[types[3]]) + P32(atoms[types[4]]))))
  {
    hide P32;
    assert types[..5] == types;
    AtomsSnoc(atoms, types, 4);
    AtomsSnoc(atoms, types, 3);
    AtomsSnoc(atoms, types, 2);
    AtomsSnoc(atoms, types, 1);
    AtomsSnoc(atoms, types, 0);
    assert types[..0] == [] && TextAtoms(atoms, []) == [];
    hide TextAtoms;
  }

  lemma AtomsSnoc(atoms: Atoms, types: seq<Bytes>, k: nat)
    requires k < |types| && forall t :: t in types ==> t in atoms
    ensures TextAtoms(atoms, types[..k + 1]) == TextAtoms(atoms, types[..k]) + P32(atoms[types[k]])
  {
    assert types[..k + 1][..k] == types[..k];
    hide P32;
  }

  /** Words one after the other are found at offsets 4 apart. */
  lemma FiveWords(w: Bytes, i: nat, a: U32, b: U32, c: U32, d: U32, e: U32)
    requires i <= |w| && w[i..] == P32(a) + (P32(b) + (P32(c) + (P32(d) + P32(e))))
    ensures |w| == i + 20 && At32(w, i) == a && At32(w, i + 4) == b && At32(w, i + 8) == c && At32(w, i + 12) == d && At32(w, i + 16) == e
  {
    hide P32, At32;
    WordThen(w, i, a, P32(b) + (P32(c) + (P32(d) + P32(e))));
    WordThen(w, i + 4, b, P32(c) + (P32(d) + P32(e)));
    WordThen(w, i + 8, c, P32(d) + P32(e));
    WordThen(w, i + 12, d, P32(e));
    assert P32(e) + [] == P32(e);
    WordThen(w, i + 16, e, []);
  }

  lemma TargetWords(w: Bytes, atoms: Atoms, names: seq<Bytes>, list: Bytes)
    requires |w| == 52 && |names| == 7 && forall t :: t in names ==> t in atoms
    requires w[24..] == P32(atoms[names[0]]) + P32(atoms[names[1]]) + list && list == TextAtoms(atoms, names[2..])
    ensures forall k: nat :: k < 7 ==> At32(w, 24 + 4 * k) == AtomNamed(atoms, names[k])
  {
    var types := names[2..];
    FiveAtoms(atoms, types);
    hide P32, At32, TextAtoms;
    assert w[24..] == P32(atoms[names[0]]) + (P32(atoms[names[1]]) + list);
    WordThen(w, 24, atoms[names[0]], P32(atoms[names[1]]) + list);
    WordThen(w, 28, atoms[names[1]], list);
    FiveWords(w, 32, atoms[types[0]], atoms[types[1]], atoms[types[2]], atoms[types[3]], atoms[types[4]]);
    assert 24 + 4 * 0 == 24 && 24 + 4 * 1 == 28 && 24 + 4 * 2 == 32 && 24 + 4 * 3 == 36 && 24 + 4 * 4 == 40;
    forall k: nat | k < 7
      ensures At32(w, 24 + 4 * k) == AtomNamed(atoms, names[k])
    {
      assert names[k] in names;
      if k == 0 {} else if k == 1 {} else if k == 2 {} else if k == 3 {} else if k == 4 {} else if k == 5 {} else {}
    }
  }

  lemma TargetNamesAre(atoms: Atoms)
    requires Complete(atoms)
    ensures TargetNames()[0] == "TARGETS" && TargetNames()[1] == PASSWORD_HINT && TargetNames()[2..] == TEXT_TYPES
    ensures forall t :: t in TargetNames() ==> t in atoms
  {
    assert forall t :: t in TargetNames() ==> t in ATOM_NAMES;
  }

  lemma TargetListWords(w: Bytes, atoms: Atoms)
    requires Complete(atoms) && |w| == 52 && w[24..] == TargetList(atoms)
    requires At32(w, 12) == 4 && w[16] as int == 32 && At32(w, 20) == 7
    ensures WritesTargets(w, atoms)
  {
    TargetNamesAre(atoms);
    var names := TargetNames();
    assert names[0] in names && names[1] in names;
    hide At32, Complete, TargetNames, TextAtoms, P32, AtomNamed;
    TargetWords(w, atoms, names, TextAtoms(atoms, names[2..]));
  }

  lemma ListWritten(a: Ask, list: Bytes)
    requires |list| == 28
    ensures var w := Write(a, Conversion(ATOM_ATOM, 32, list));
      |w| == 52 && At32(w, 12) == 4 && w[16] as int == 32 && At32(w, 20) == 7 && w[24..] == list
  {
    var c := Conversion(ATOM_ATOM, 32, list);
    var w := Write(a, c);
    assert |w| == 52;
    hide At32, Addressed, Write;
    WriteFields(a, c);
    Tail(w, 24, list);
  }

  lemma TargetsDelivered(a: Ask, o: Offer)
    requires Complete(o.atoms)
    ensures WritesTargets(Write(a, Conversion(ATOM_ATOM, 32, TargetList(o.atoms))), o.atoms)
  {
    hide TargetList, Write, At32, Complete, WritesTargets;
    TargetListLength(o.atoms);
    ListWritten(a, TargetList(o.atoms));
    TargetListWords(Write(a, Conversion(ATOM_ATOM, 32, TargetList(o.atoms))), o.atoms);
  }

  lemma Tail(w: Bytes, i: nat, data: Bytes)
    requires |w| == i + |data| && w[i..i + |data|] == data
    ensures w[i..] == data
  {
  }

  lemma TargetListLength(atoms: Atoms)
    requires Complete(atoms)
    ensures |TargetList(atoms)| == 28
  {
    TextAtomsLength(atoms, TEXT_TYPES);
    hide TextAtoms;
  }

  /** The conversion a target calls for is written where and as the requestor expects it. */
  lemma DeliversWrite(a: Ask, o: Offer, c: Conversion)
    requires Complete(o.atoms) && Converts(a.target, o.value, o.atoms, Some(c))
    requires c.format == 8 || c.format == 32
    ensures Delivers(Write(a, c), a, o)
  {
    NamesComplete(o.atoms);
    WriteFields(a, c);
    hide Complete, Write, WritesType, WritesTargets, At32, ConvertTo, TargetList;
    if a.target == o.atoms["TARGETS"] {
      TargetsDelivered(a, o);
    } else {
      var name :| name in o.atoms && o.atoms[name] == a.target && Some(c) == ConvertTo(name, a.target, o.value, o.atoms);
      TypeDelivered(name, a, o, c);
    }
  }

  /** A request is granted a conversion only if it deserves one, and with distinct atoms if it does. */
  lemma GrantedDeserves(a: Ask, o: Offer, c: Option<Conversion>)
    requires Complete(o.atoms) && Grants(a, o, c)
    ensures c.Some? ==> Deserves(a, o)
    ensures Injective(o.atoms) && c.None? ==> !Deserves(a, o)
  {
    NamesComplete(o.atoms);
    hide Complete;
    forall name | name in o.atoms && o.atoms[name] == a.target
      ensures Payload(o.value, name).Some? <==> Offered(name) && name != "TARGETS"
      ensures name == "TARGETS" ==> Offered(name)
    {
      PayloadOffered(name, o.value);
    }
    hide Payload, Offered, TargetList;
  }

  /** What is sent for a request is what the requestor expects: a nonzero property was written with
      the promised data, and it is nonzero only if the request may be served, with distinct atoms
      exactly then. */
  ghost predicate Right(a: Ask, o: Offer, property: U32, before: Option<Bytes>)
    requires Complete(o.atoms)
  {
    && (property != 0 ==> property == a.property && Deserves(a, o) && before.Some? && Delivers(before.value, a, o))
    && (Injective(o.atoms) && property == 0 ==> !Deserves(a, o))
  }

  lemma WrittenRight(a: Ask, o: Offer, property: U32, out: seq<Bytes>)
    requires Complete(o.atoms) && (property != 0 <==> WroteFirst(a, o, out)) && (property != 0 ==> property == a.property)
    requires property == 0 ==> Grants(a, o, None)
    ensures Right(a, o, property, if |out| == 2 then Some(out[0]) else None)
  {
    hide Complete, Injective, Converts, Deserves, Delivers, Write;
    if property == 0 {
      GrantedDeserves(a, o, None);
    } else {
      var c: Conversion :| (c.format == 8 || c.format == 32) && Grants(a, o, Some(c)) && out[0] == Write(a, c);
      GrantedDeserves(a, o, Some(c));
      DeliversWrite(a, o, c);
    }
  }

  /** One request: exactly one notification is sent, last, for what was asked, and it is right. */
  lemma OneRightNotify(p: Bytes, o: Offer, out: seq<Bytes>)
    requires Complete(o.atoms) && Nonzero(o.atoms) && IsAsk(p) && Replies(p, o, out)
    ensures 1 <= |out| <= 2 && IsNotify(out[|out| - 1]) && (|out| == 2 ==> !IsNotify(out[0])) && Tells(out[|out| - 1], AskOf(p))
    ensures Right(AskOf(p), o, At32(out[|out| - 1], 32), if |out| == 2 then Some(out[0]) else None)
  {
    hide Complete, Nonzero, Replies, Tells, At32, Grants, WroteFirst, AskOf, Right;
    OneTrueNotify(p, o, out);
    WrittenRight(AskOf(p), o, At32(out[|out| - 1], 32), out);
  }

  /** The notification at n answers the request of its rank, and is right. */
  ghost predicate RightAt(asks: seq<Ask>, o: Offer, out: seq<Bytes>, n: nat)
    requires Complete(o.atoms) && n < |out|
  {
    var i := |NotifiesOf(out[..n])|;
    && i < |asks| && Tells(out[n], asks[i])
    && Right(asks[i], o, At32(out[n], 32), if n > 0 then Some(out[n - 1]) else None)
  }

  /** Over a whole run every notification is right for its requestor. */
  lemma EveryNotifyRight(ps: seq<Bytes>, o: Offer, out: seq<Bytes>, n: nat)
    requires Complete(o.atoms) && Nonzero(o.atoms) && Transcript(ps, o, out) && n < |out| && IsNotify(out[n])
    ensures RightAt(AsksOf(ps), o, out, n)
  {
    hide Complete, Nonzero, Transcript, NotifiesOf, AsksOf, At32, Grants, WroteFirst, Right;
    EveryNotifyTrue(ps, o, out, n);
    var a := AsksOf(ps)[|NotifiesOf(out[..n])|];
    if n > 0 {
      WrittenRight(a, o, At32(out[n], 32), [out[n - 1], out[n]]);
    } else {
      NotTwo(a, o, []);
      WrittenRight(a, o, At32(out[n], 32), []);
    }
  }
}
