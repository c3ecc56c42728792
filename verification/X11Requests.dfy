/** The requests of this client as a server hears them; see section 9 of the X Window System Protocol. */
module X11Requests {
  import opened Wrappers
  import opened Bytes
  import opened X11Wire
  import opened X11Answers
  import opened X11Conn
  import opened X11Serve
  import X11Refused

  datatype Said =
    | InternAtom(name: Bytes)
    | CreateWindow(window: U32, parent: U32, x: U16, y: U16, width: U16, height: U16, border: U16, kind: U16,
                   visual: U32, mask: U32, events: U32)
    | ChangeProperty(mode: U8, window: U32, property: U32, typ: U32, data: Bytes)
    | SetSelectionOwner(owner: U32, selection: U32, time: U32)
    | GetSelectionOwner(selection: U32)
    | Unknown

  /** What a request asks for, each field read from its place. */
  function Hear(b: Bytes): Said {
    if |b| < 8 then Unknown
    else if Code(b) == 16 && b[1] == '\0' && |b| >= 8 + Get16(b[4..]) then InternAtom(b[8..8 + Get16(b[4..])])
    else if Code(b) == 1 && b[1] == '\0' && |b| == 36 then
      CreateWindow(At32(b, 4), At32(b, 8), Get16(b[12..]), Get16(b[14..]), Get16(b[16..]), Get16(b[18..]), Get16(b[20..]),
                   Get16(b[22..]), At32(b, 24), At32(b, 28), At32(b, 32))
    else if Code(b) == 18 && |b| >= 24 && b[16] as int == 8 && |b| >= 24 + At32(b, 20) then
      ChangeProperty(b[1] as int, At32(b, 4), At32(b, 8), At32(b, 12), b[24..24 + At32(b, 20)])
    else if Code(b) == 22 && |b| == 16 then SetSelectionOwner(At32(b, 4), At32(b, 8), At32(b, 12))
    else if Code(b) == 23 && |b| == 8 then GetSelectionOwner(At32(b, 4))
    else Unknown
  }

  function Heard(bs: seq<Bytes>): (r: seq<Said>)
    ensures |r| == |bs| && forall i :: 0 <= i < |bs| ==> r[i] == Hear(bs[i])
  {
    seq(|bs|, i requires 0 <= i < |bs| => Hear(bs[i]))
  }

  lemma HearIntern(name: Bytes)
    requires |name| < 0x1_0000
    ensures Hear(Intern(name)) == InternAtom(name)
  {
    var b := Intern(name);
    var body := InternBody(name);
    hide Intern, Padding;
    RequestBody(INTERN_ATOM, 0, body);
    hide X11Wire.Request;
    NameFields(b, name, Zeros(Padding(|body|)));
  }

  lemma InternBody(name: Bytes) returns (body: Bytes)
    requires |name| < 0x1_0000
    ensures body == Put16(|name|) + Zeros(2) + name && Intern(name) == X11Wire.Request(INTERN_ATOM, 0, body)
  {
    hide Put16, X11Wire.Request;
    body := Put16(|name|) + Zeros(2) + name;
    assert |name| % 0x1_0000 == |name|;
  }

  lemma NameFields(b: Bytes, name: Bytes, z: Bytes)
    requires |b| >= 4 && |name| < 0x1_0000 && b[4..] == Put16(|name|) + Zeros(2) + name + z
    ensures |b| >= 8 + |name| && Get16(b[4..]) == |name| && b[8..8 + |name|] == name
  {
    hide Put16, Get16;
    assert b[4..] == Put16(|name|) + (Zeros(2) + (name + z));
    HalfThen(b, 4, |name|, Zeros(2) + (name + z));
    Skip(b, 6, Zeros(2), name + z);
    assert b[8..8 + |name|] == b[8..][..|name|] == name;
  }

  lemma HearWindow(window: U32, root: U32)
    ensures Hear(WindowRequest(window, root)) == CreateWindow(window, root, 0, 0, 1, 1, 0, 2, 0, 0x800, 0x40_0000)
  {
    var b := WindowRequest(window, root);
    var body := WindowBody(window, root);
    RequestBody(CREATE_WINDOW, 0, body);
    assert |body| == 32 && |b| == 36;
    assert b[4..] == body;
    hide WindowRequest, Put16, Put32, Get16, Get32;
    WindowFields(b, window, root);
  }

  lemma WindowFields(b: Bytes, window: U32, root: U32)
    requires |b| == 36 && b[4..] == WindowBody(window, root)
    ensures At32(b, 4) == window && At32(b, 8) == root && Get16(b[12..]) == 0 && Get16(b[14..]) == 0 && Get16(b[16..]) == 1
    ensures Get16(b[18..]) == 1 && Get16(b[20..]) == 0 && Get16(b[22..]) == 2 && At32(b, 24) == 0
    ensures At32(b, 28) == 0x800 && At32(b, 32) == 0x40_0000
  {
    hide At32, Get16, Put16, P32;
    var tail := P32(0) + (P32(0x800) + P32(0x40_0000));
    WordThen(b, 4, window, P32(root) + (Put16(0) + (Put16(0) + (Put16(1) + (Put16(1) + (Put16(0) + (Put16(2) + tail)))))));
    WordThen(b, 8, root, Put16(0) + (Put16(0) + (Put16(1) + (Put16(1) + (Put16(0) + (Put16(2) + tail))))));
    HalfThen(b, 12, 0, Put16(0) + (Put16(1) + (Put16(1) + (Put16(0) + (Put16(2) + tail)))));
    HalfThen(b, 14, 0, Put16(1) + (Put16(1) + (Put16(0) + (Put16(2) + tail))));
    HalfThen(b, 16, 1, Put16(1) + (Put16(0) + (Put16(2) + tail)));
    HalfThen(b, 18, 1, Put16(0) + (Put16(2) + tail));
    HalfThen(b, 20, 0, Put16(2) + tail);
    HalfThen(b, 22, 2, tail);
    WordThen(b, 24, 0, P32(0x800) + P32(0x40_0000));
    WordThen(b, 28, 0x800, P32(0x40_0000));
    assert P32(0x40_0000) + [] == P32(0x40_0000);
    WordThen(b, 32, 0x40_0000, []);
  }

  lemma HearProbe(window: U32)
    ensures Hear(ProbeRequest(window)) == ChangeProperty(2, window, 39, 31, [])
  {
    ChangePropertyFields(2, window, ATOM_WM_NAME, ATOM_STRING, 8, []);
    hide X11Wire.ChangeProperty, At32;
  }

  lemma HearSetOwner(owner: U32, selection: U32, time: U32)
    ensures Hear(SetOwner(owner, selection, time)) == SetSelectionOwner(owner, selection, time)
  {
    SetOwnerFields(owner, selection, time);
    hide SetOwner, At32;
  }

  lemma HearQuery(selection: U32)
    ensures Hear(OwnerQuery(selection)) == GetSelectionOwner(selection)
  {
    var b := OwnerQuery(selection);
    RequestBody(GET_SELECTION_OWNER, 0, P32(selection));
    assert |b| == 8;
    assert b[4..] == P32(selection) + [];
    WordThen(b, 4, selection, []);
    hide OwnerQuery, At32;
  }

  lemma {:induction false} AskedMore(before: seq<Bytes>, names: seq<Bytes>)
    requires "STRING" !in names
    ensures Asked(before + names) == Asked(before) + names
    decreases |names|
  {
    if names == [] {
      assert before + names == before;
    } else {
      var n := |names| - 1;
      assert (before + names)[..|before| + n] == before + names[..n] && names[n] in names;
      AskedMore(before, names[..n]);
      assert names == names[..n] + [names[n]];
    }
  }

  lemma AskedOne(before: seq<Bytes>)
    ensures Asked(before + ["STRING"]) == Asked(before) && Asked([]) == []
  {
    assert (before + ["STRING"])[..|before|] == before;
  }

  const WANTED: seq<Bytes> :=
    ["CLIPBOARD", "TARGETS", "x-kde-passwordManagerHint", "text/plain;charset=utf-8", "text/plain", "UTF8_STRING", "TEXT"]

  lemma NameLengths()
    ensures |ATOM_NAMES| == 8 && |ATOM_NAMES[6]| == 6 && ATOM_NAMES[6] == "STRING"
    ensures forall k :: 0 <= k < 8 && k != 6 ==> |ATOM_NAMES[k]| != 6
  {
  }

  /** The names asked for, in order. */
  lemma AskedNames()
    ensures |ATOM_NAMES| == 8 && Asked(ATOM_NAMES) == ATOM_NAMES[..6] + ATOM_NAMES[7..]
  {
    NameLengths();
    var names := ATOM_NAMES;
    hide *;
    AskedAllBut(names);
  }

  lemma AskedAllBut(names: seq<Bytes>)
    requires |names| == 8 && names[6] == "STRING" && forall k :: 0 <= k < 8 && k != 6 ==> |names[k]| != |names[6]|
    ensures Asked(names) == names[..6] + names[7..]
  {
    var skipped := names[6];
    assert skipped !in names[..6] && skipped !in names[7..] && names == names[..6] + [skipped] + names[7..];
    AskedAround(names[..6], skipped, names[7..]);
  }

  lemma AskedAround(before: seq<Bytes>, skipped: Bytes, after: seq<Bytes>)
    requires skipped == "STRING" && skipped !in before && skipped !in after
    ensures Asked(before + [skipped] + after) == before + after
  {
    hide *;
    AskedOne([]);
    AskedOne(before);
    AskedMore([], before);
    assert [] + before == before;
    AskedMore(before + [skipped], after);
  }

  lemma WantedNames()
    ensures |ATOM_NAMES| == 8 && WANTED == ATOM_NAMES[..6] + ATOM_NAMES[7..]
    ensures forall k :: 0 <= k < |WANTED| ==> |WANTED[k]| < 0x1_0000
  {
  }

  lemma InternsHeard(names: seq<Bytes>)
    requires forall k :: 0 <= k < |names| ==> |names[k]| < 0x1_0000
    ensures Heard(Interns(names)) == seq(|names|, k requires 0 <= k < |names| => InternAtom(names[k]))
  {
    hide Hear, Intern;
    forall k | 0 <= k < |names|
      ensures Hear(Intern(names[k])) == InternAtom(names[k])
    {
      HearIntern(names[k]);
    }
  }

  lemma HeardConcat(a: seq<Bytes>, b: seq<Bytes>)
    ensures Heard(a + b) == Heard(a) + Heard(b)
  {
    hide Hear;
  }

  lemma LastHeard(s: Screen, clipboard: U32, time: U32)
    ensures Heard([WindowRequest(s.window, s.root), ProbeRequest(s.window)]) ==
      [CreateWindow(s.window, s.root, 0, 0, 1, 1, 0, 2, 0, 0x800, 0x40_0000), ChangeProperty(2, s.window, 39, 31, [])]
    ensures Heard([SetOwner(s.window, clipboard, time), OwnerQuery(clipboard)]) ==
      [SetSelectionOwner(s.window, clipboard, time), GetSelectionOwner(clipboard)]
  {
    HearWindow(s.window, s.root);
    HearProbe(s.window);
    HearSetOwner(s.window, clipboard, time);
    HearQuery(clipboard);
    hide Hear, WindowRequest, ProbeRequest, SetOwner, OwnerQuery;
  }

  /** The server is asked for every atom but STRING, for an input-only window that hears of its own
      property changes, for one such change, for the clipboard, and who has it. */
  lemma OpeningHeard(s: Screen, o: Offer)
    requires Complete(o.atoms)
    ensures "CLIPBOARD" in o.atoms
    ensures Heard(Opening(s, o)) == seq(|WANTED|, k requires 0 <= k < |WANTED| => InternAtom(WANTED[k]))
      + [CreateWindow(s.window, s.root, 0, 0, 1, 1, 0, 2, 0, 0x800, 0x40_0000), ChangeProperty(2, s.window, 39, 31, [])]
      + [SetSelectionOwner(s.window, o.atoms["CLIPBOARD"], o.time), GetSelectionOwner(o.atoms["CLIPBOARD"])]
  {
    NamesComplete(o.atoms);
    AskedNames();
    WantedNames();
    hide Heard, Interns, Asked, WindowRequest, ProbeRequest, SetOwner, OwnerQuery, Complete;
    InternsHeard(WANTED);
    LastHeard(s, o.atoms["CLIPBOARD"], o.time);
    var a := Interns(WANTED);
    var b := [WindowRequest(s.window, s.root), ProbeRequest(s.window)];
    HeardConcat(a + b, [SetOwner(s.window, o.atoms["CLIPBOARD"], o.time), OwnerQuery(o.atoms["CLIPBOARD"])]);
    HeardConcat(a, b);
  }

  /** At the deadline, and only then, the clipboard is left without an owner. */
  lemma FarewellHeard(o: Offer, end: End)
    requires Complete(o.atoms)
    ensures "CLIPBOARD" in o.atoms
    ensures Heard(Farewell(o, end)) == if end == Deadline then [SetSelectionOwner(0, o.atoms["CLIPBOARD"], 0)] else []
  {
    NamesComplete(o.atoms);
    HearSetOwner(0, o.atoms["CLIPBOARD"], 0);
    hide Hear, SetOwner, Complete;
  }

  // ---------------------------------------------------------------- what the server says

  /** A request for a conversion is event 30, and is never taken for a loss of the clipboard. */
  lemma AskHeard(sequence: U16, owner: U32, a: Ask, clipboard: U32)
    ensures var p := PrintAsk(sequence, owner, a); |p| == 32 && Code(p) == 30 && IsAsk(p) && !Ends(p, clipboard)
  {
    var p := PrintAsk(sequence, owner, a);
    assert Code(p) == 30;
    hide PrintAsk;
  }

  /** Event 29 ends the ownership if and only if it is about the clipboard. */
  lemma ClearHeard(sequence: U16, time: U32, owner: U32, selection: U32, clipboard: U32)
    ensures var p := PrintClear(sequence, time, owner, selection);
      |p| == 32 && Code(p) == 29 && !IsAsk(p) && (Ends(p, clipboard) <==> selection == clipboard)
  {
    ClearFields(sequence, time, owner, selection);
    hide PrintClear, At32;
  }

  /** Event 28 tells the time if and only if it is about the own window. */
  lemma ChangeHeard(window: U32, time: U32, own: U32)
    ensures var p := X11Refused.Change(window, time);
      |p| == 32 && Code(p) == 28 && TimeIn(p, own) == if window == own then time else 0
  {
    X11Refused.ChangeFields(window, time);
    hide X11Refused.Change, At32, PacketSize;
  }

  /** A reply of 32 bytes is packet kind 1, and an error kind 0; both carry the number answered. */
  lemma ReplyHeard(number: U16, word: U32)
    ensures var p := X11Refused.Reply(number, word);
      |p| == 32 && Code(p) == 1 && Get16(p[2..]) == number && AnsweredBy([p], number) && AnswerIn([p], number) == word
    ensures var p := X11Refused.Refusal(number);
      |p| == 32 && Code(p) == 0 && Get16(p[2..]) == number && Refuses([p], number) && !AnsweredBy([p], number)
  {
    X11Refused.ReplyFields(number, word);
    X11Refused.RefusalFields(number);
    X11Refused.OneReply(number, word);
    X11Refused.RefusalRefuses(number);
    hide X11Refused.Reply, X11Refused.Refusal, At32, PacketSize;
  }

  /** The setup is accepted if and only if the head's first byte says so; then the block after it is
      what is parsed. */
  lemma SetupHeard(status: Byte, middle: Bytes, block: Bytes, rest: Bytes)
    requires |middle| == 5 && |block| % 4 == 0 && |block| / 4 < 0x1_0000
    ensures var parsed := ParseSetup(block);
      SetupOf([status] + (middle + (Put16(|block| / 4) + (block + rest)))) ==
        if status as int == 1 && parsed.Some? then Some((parsed.value, rest)) else None
  {
    var n := |block| / 4;
    var b := [status] + (middle + (Put16(n) + (block + rest)));
    hide ParseSetup, Put16, Get16;
    assert b[0..] == b;
    Skip(b, 0, [status], middle + (Put16(n) + (block + rest)));
    Skip(b, 1, middle, Put16(n) + (block + rest));
    HalfThen(b, 6, n, block + rest);
    assert b[8..8 + |block|] == b[8..][..|block|] == block && b[8 + |block|..] == b[8..][|block|..] == rest;
  }
}
