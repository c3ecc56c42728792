/** A server that answers everything but the question who owns the clipboard: it has been asked to make
    the client the owner, and yet the next backend is tried. */
module X11Refused {
  import opened Bytes
  import opened X11Wire
  import opened X11Answers
  import opened X11Conn
  import opened X11Serve

  // ---------------------------------------------------------------- the packets

  function Reply(number: U16, word: U32): (p: Bytes)
    ensures |p| == 32
  {
    Byte1(X_REPLY) + (Byte1(0) + (Put16(number) + (P32(0) + (P32(word) + Zeros(20)))))
  }

  function Refusal(number: U16): (p: Bytes)
    ensures |p| == 32
  {
    Byte1(X_ERROR) + (Byte1(0) + (Put16(number) + Zeros(28)))
  }

  /** The change of the probed property, with the time it happened. */
  function Change(window: U32, time: U32): (p: Bytes)
    ensures |p| == 32
  {
    Byte1(PROPERTY_NOTIFY) + (Zeros(3) + (P32(window) + (P32(ATOM_WM_NAME) + (P32(time) + Zeros(16)))))
  }

  lemma ReplyFields(number: U16, word: U32)
    ensures var p := Reply(number, word);
      Code(p) == X_REPLY && AnswersTo(p, number) && PacketSize(p) == 32 && At32(p, 8) == word
  {
    var p := Reply(number, word);
    var t2 := P32(word) + Zeros(20);
    var t1 := P32(0) + t2;
    GetPut16(number, t1);
    GetPut32(0, Little, t2);
    GetPut32(word, Little, Zeros(20));
    hide Put16, Put32, Get16, Get32;
    assert p[0..] == p;
    Skip(p, 0, Byte1(X_REPLY), Byte1(0) + (Put16(number) + t1));
    Skip(p, 1, Byte1(0), Put16(number) + t1);
    Skip(p, 2, Put16(number), t1);
    Skip(p, 4, P32(0), t2);
  }

  lemma RefusalFields(number: U16)
    ensures var p := Refusal(number); Code(p) == X_ERROR && AnswersTo(p, number) && PacketSize(p) == 32
  {
    var p := Refusal(number);
    GetPut16(number, Zeros(28));
    hide Put16, Get16;
    assert p[0..] == p;
    Skip(p, 0, Byte1(X_ERROR), Byte1(0) + (Put16(number) + Zeros(28)));
    Skip(p, 1, Byte1(0), Put16(number) + Zeros(28));
  }

  lemma ChangeFields(window: U32, time: U32)
    ensures var p := Change(window, time);
      Code(p) == PROPERTY_NOTIFY && PacketSize(p) == 32 && At32(p, 4) == window && At32(p, 12) == time
  {
    var p := Change(window, time);
    var t3 := P32(time) + Zeros(16);
    var t2 := P32(ATOM_WM_NAME) + t3;
    var t1 := P32(window) + t2;
    GetPut32(window, Little, t2);
    GetPut32(time, Little, Zeros(16));
    hide Put32, Get32;
    assert p[0..] == p;
    Skip(p, 0, Byte1(PROPERTY_NOTIFY), Zeros(3) + t1);
    Skip(p, 1, Zeros(3), t1);
    Skip(p, 4, P32(window), t2);
    Skip(p, 8, P32(ATOM_WM_NAME), t3);
  }

  // ---------------------------------------------------------------- the atoms

  function AtomOf(name: Bytes): U32 {
    if name == "STRING" then ATOM_STRING else 100 + |name| % 1000
  }

  function ServerAtoms(): Atoms {
    map name | name in ATOM_NAMES :: AtomOf(name)
  }

  /** One reply for every name asked for. */
  function Interned(asked: seq<Bytes>): (waits: seq<seq<Bytes>>)
    ensures |waits| == |asked|
  {
    seq(|asked|, i requires 0 <= i < |asked| => [Reply((i + 1) % 0x1_0000, AtomOf(asked[i]))])
  }

  lemma OneReply(number: U16, word: U32)
    ensures AnsweredBy([Reply(number, word)], number) && AnswerIn([Reply(number, word)], number) == word
  {
    ReplyFields(number, word);
    hide Reply, At32, PacketSize;
  }

  lemma AtomsNamed(asked: seq<Bytes>)
    requires forall k :: 0 <= k < |asked| ==> asked[k] in ATOM_NAMES
    ensures AtomsFrom(ServerAtoms(), asked, Interned(asked), 0)
  {
    hide AnsweredBy, AnswerIn, Reply, AtomOf;
    forall i | 0 <= i < |asked|
      ensures AnsweredBy(Interned(asked)[i], (0 + i + 1) % 0x1_0000)
      ensures AnswerIn(Interned(asked)[i], (0 + i + 1) % 0x1_0000) == AtomOf(asked[i])
    {
      OneReply((i + 1) % 0x1_0000, AtomOf(asked[i]));
    }
  }

  // ---------------------------------------------------------------- the stream

  ghost predicate Whole(ps: seq<Bytes>) {
    forall i :: 0 <= i < |ps| ==> |ps[i]| == 32 && PacketSize(ps[i]) == 32
  }

  lemma WholeSnoc(ps: seq<Bytes>, p: Bytes)
    requires Whole(ps) && |p| == 32 && PacketSize(p) == 32
    ensures Whole(ps + [p]) && EventsOf(ps + [p]) == EventsOf(ps) + if IsEvent(p) then [p] else []
  {
    EventsSnoc(ps, p);
    hide PacketSize, EventsOf, IsEvent;
  }

  lemma OneMoreReply(ps: seq<Bytes>, number: U16, word: U32)
    requires Whole(ps) && EventsOf(ps) == []
    ensures Whole(ps + [Reply(number, word)]) && EventsOf(ps + [Reply(number, word)]) == []
  {
    ReplyFields(number, word);
    assert !IsEvent(Reply(number, word));
    hide Reply, PacketSize, EventsOf, IsEvent, Whole;
    WholeSnoc(ps, Reply(number, word));
  }

  lemma InternedSnoc(asked: seq<Bytes>, n: nat)
    requires |asked| == n + 1
    ensures Interned(asked) == Interned(asked[..n]) + [[Reply((n + 1) % 0x1_0000, AtomOf(asked[n]))]]
  {
    hide Reply, AtomOf;
  }

  lemma NoneInterned()
    ensures Chain(Interned([])) == [] && Whole([]) && EventsOf([]) == []
  {
  }

  lemma {:induction false} RepliesWhole(asked: seq<Bytes>)
    ensures Whole(Chain(Interned(asked))) && EventsOf(Chain(Interned(asked))) == []
  {
    hide Reply, AtomOf, Chain, EventsOf, Whole, Interned;
    NoneInterned();
    if asked != [] {
      var n := |asked| - 1;
      RepliesWhole(asked[..n]);
      InternedSnoc(asked, n);
      ChainSnoc(Interned(asked[..n]), [Reply((n + 1) % 0x1_0000, AtomOf(asked[n]))]);
      OneMoreReply(Chain(Interned(asked[..n])), (n + 1) % 0x1_0000, AtomOf(asked[n]));
    }
  }

  /** What is read on that connection. */
  function Logs(window: U32, time: U32, number: U16): Taking {
    Taking(Interned(Asked(ATOM_NAMES)), [Change(window, time)], [Change(window, time)], [Refusal(number)])
  }

  lemma LogsWhole(window: U32, time: U32, number: U16)
    ensures Whole(ReadBy(Logs(window, time, number)))
    ensures EventsOf(ReadBy(Logs(window, time, number))) == [Change(window, time)]
  {
    var c, e := Change(window, time), Refusal(number);
    ChangeFields(window, time);
    RefusalFields(number);
    assert IsEvent(c) && !IsEvent(e);
    hide Asked, Interned, Change, Refusal, PacketSize, Chain, EventsOf, IsEvent, Whole;
    RepliesWhole(Asked(ATOM_NAMES));
    WholeSnoc(Chain(Interned(Asked(ATOM_NAMES))), c);
    WholeSnoc(Chain(Interned(Asked(ATOM_NAMES))) + [c], e);
    assert [] + [c] == [c] && [c] + [] == [c];
  }

  lemma WholeUnpacks(ps: seq<Bytes>)
    requires Whole(ps)
    ensures Unpacked(Flatten(ps), ps)
  {
    hide PacketSize, Flatten;
  }

  lemma RefusalRefuses(number: U16)
    ensures Refuses([Refusal(number)], number) && !AnsweredBy([Refusal(number)], number)
  {
    RefusalFields(number);
    hide Refusal, PacketSize;
  }

  lemma ChangeProbed(window: U32, time: U32)
    requires time != 0
    ensures Probed([Change(window, time)], window, time)
  {
    ChangeFields(window, time);
    hide Change, PacketSize, At32;
  }

  /** Atoms, time and events are as in a call that succeeds, and all is read from whole packets. */
  ghost predicate LikeTaken(t: Taking, s: Screen, o: Offer) {
    && AtomsFrom(o.atoms, Asked(ATOM_NAMES), t.interned, 0)
    && Probed(t.probed, s.window, o.time) && EndsWith(t.probed, t.timing)
    && Unpacked(Flatten(ReadBy(t)), ReadBy(t)) && EventsOf(ReadBy(t)) == t.probed
  }

  lemma LogsLikeTaken(s: Screen, value: Bytes, time: U32, number: U16)
    requires time != 0
    ensures LikeTaken(Logs(s.window, time, number), s, Offer(value, ServerAtoms(), time))
  {
    hide Change, Refusal, Interned, Asked, ReadBy, EventsOf, AtomsFrom, Probed, Whole, ServerAtoms, Unpacked, Flatten;
    AtomsNamed(Asked(ATOM_NAMES));
    ChangeProbed(s.window, time);
    LogsWhole(s.window, time, number);
    WholeUnpacks(ReadBy(Logs(s.window, time, number)));
  }

  lemma AtomsComplete()
    ensures Complete(ServerAtoms()) && Predefined(ServerAtoms())
  {
    assert "STRING" in ATOM_NAMES;
  }

  /** The stream on which it happens, whatever the screen and the value: the last packet, the only one
      after the owner was asked for, is an error for that question.  With these logs the call gives
      up as unavailable. */
  lemma OwnerUnknown(s: Screen, value: Bytes, time: U32)
    requires time != 0
    ensures var o := Offer(value, ServerAtoms(), time);
      && Complete(o.atoms) && Predefined(o.atoms) && OwnerAsked(Opening(s, o))
      && var t := Logs(s.window, time, |Opening(s, o)| % 0x1_0000);
         && LikeTaken(t, s, o) && !AnsweredBy(t.owner, |Opening(s, o)| % 0x1_0000)
         && GaveUp(t, |Opening(s, o)|, Flatten(ReadBy(t)), false)
  {
    AtomsComplete();
    var o := Offer(value, ServerAtoms(), time);
    hide Complete, Predefined, Change, Refusal, Interned, Asked, Opening, ReadBy, AnsweredBy, OwnerAsked, LikeTaken, ServerAtoms, Refuses, Spent,
         LastRefuses, EndsBadly;
    OpeningAsks(s, o);
    var number := |Opening(s, o)| % 0x1_0000;
    LogsLikeTaken(s, value, time, number);
    RefusalRefuses(number);
  }

  lemma OpeningAsks(s: Screen, o: Offer)
    requires Complete(o.atoms)
    ensures OwnerAsked(Opening(s, o))
  {
    OtherRequest(SET_SELECTION_OWNER, 0, P32(s.window) + (P32(ClipboardOf(o)) + P32(o.time)));
    hide IsSetOwner, X11Wire.Request, Interns, Asked;
    var last := [SetOwner(s.window, ClipboardOf(o), o.time), OwnerQuery(ClipboardOf(o))];
    assert IsSetOwner(last[0]);
    AskedLater(Interns(Asked(ATOM_NAMES)) + [WindowRequest(s.window, s.root), ProbeRequest(s.window)], last);
  }
}
