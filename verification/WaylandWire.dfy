/** The Wayland wire format: messages out, and events framed from reads of any sizes with file
    descriptors arriving beside the byte stream. */
module WaylandWire {
  import opened Bytes

  // ---------------------------------------------------------------- arguments

  datatype Arg = Word(n: U32) | Str(s: Bytes)

  datatype Kind = WordKind | StrKind

  /** A string goes as its length with the final NUL, its bytes, the NUL, and padding. */
  function EncodeArg(a: Arg, o: Order): (b: Bytes)
    ensures |b| % 4 == 0 && |b| >= 4
  {
    match a
    case Word(n) => Put32(n, o)
    case Str(s) =>
      var p := Padded(s + ['\0']);
      WordsAdd(4, |p|);
      Put32((|s| + 1) % 0x1_0000_0000, o) + p
  }

  function EncodeArgs(args: seq<Arg>, o: Order): (b: Bytes)
    ensures |b| % 4 == 0
  {
    if args == [] then []
    else
      var init, last := EncodeArgs(args[..|args| - 1], o), EncodeArg(args[|args| - 1], o);
      WordsAdd(|init|, |last|);
      init + last
  }

  // ---------------------------------------------------------------- messages

  datatype Message = Message(obj: U32, op: U16, body: Bytes)

  /** The size field has 16 bits; a longer message would carry its size modulo 65536. */
  function EncodeMessage(m: Message, o: Order): (b: Bytes)
    ensures |b| == 8 + |m.body|
  {
    Put32(m.obj, o) + Put32((8 + |m.body|) % 0x1_0000 * 0x1_0000 + m.op, o) + m.body
  }

  /** `request`, up to the write. */
  method BuildRequest(obj: U32, op: U16, args: seq<Arg>, o: Order) returns (msg: Bytes)
    ensures msg == EncodeMessage(Message(obj, op, EncodeArgs(args, o)), o)
  {
    hide Put32, Padded, EncodeArgs;
    NoArgs(o);
    assert args[..0] == [];
    var body: Bytes := [];
    for i := 0 to |args|
      invariant body == EncodeArgs(args[..i], o)
    {
      EncodeArgsSnoc(args, i, o);
      match args[i] {
        case Word(n) =>
          body := body + Put32(n, o);
        case Str(s) =>
          body := AppendString(body, s, o);
      }
    }
    assert args[..|args|] == args;
    msg := Put32(obj, o) + Put32((8 + |body|) % 0x1_0000 * 0x1_0000 + op, o) + body;
  }

  /** The string case of `request`, which pads the message built so far. */
  method AppendString(before: Bytes, s: Bytes, o: Order) returns (body: Bytes)
    requires |before| % 4 == 0
    ensures body == before + EncodeArg(Str(s), o)
  {
    hide Put32, Padded, Padding;
    var size := Put32((|s| + 1) % 0x1_0000_0000, o);
    body := before + size;
    WordsAdd(|before|, |size|);
    PadWhole(body, s + ['\0']);
    body := Pad4(body + (s + ['\0']));
    assert body == before + (size + Padded(s + ['\0']));
  }

  lemma EncodeArgsSnoc(args: seq<Arg>, i: nat, o: Order)
    requires i < |args|
    ensures EncodeArgs(args[..i + 1], o) == EncodeArgs(args[..i], o) + EncodeArg(args[i], o)
  {
    assert args[..i + 1][..i] == args[..i];
  }

  /** Padding the whole message is padding its last string. */
  lemma PadWhole(a: Bytes, b: Bytes)
    requires |a| % 4 == 0
    ensures Padded(a + b) == a + Padded(b)
  {
    PaddingAdd(|a|, |b|);
    hide Padding;
  }

  datatype Framed = Malformed | Incomplete | Frame(size: nat, m: Message)

  /** What is at the front of the unframed bytes. */
  function FrontOf(buf: Bytes, o: Order): (f: Framed)
    ensures f.Frame? ==> 8 <= f.size <= |buf| && f.size < 0x1_0000 && f.size % 4 == 0 && |f.m.body| == f.size - 8
    ensures f.Incomplete? ==> |buf| < 65532
  {
    if |buf| < 8 then Incomplete
    else
      var word := Get32(buf[4..], o);
      var size := word / 0x1_0000;
      if size < 8 || size % 4 != 0 then Malformed
      else if |buf| < size then Incomplete
      else Frame(size, Message(Get32(buf, o), word % 0x1_0000, buf[8..size]))
  }

  predicate Fits(m: Message) {
    8 + |m.body| < 0x1_0000 && |m.body| % 4 == 0
  }

  lemma HeaderWord(size: nat, op: U16)
    ensures (size % 0x1_0000 * 0x1_0000 + op) / 0x1_0000 == size % 0x1_0000
    ensures (size % 0x1_0000 * 0x1_0000 + op) % 0x1_0000 == op
  {
  }

  /** The object, then a word of the size above the opcode, then the body. */
  lemma FrontHeader(m: Message, rest: Bytes, o: Order)
    ensures var buf := EncodeMessage(m, o) + rest;
      Get32(buf, o) == m.obj && Get32(buf[4..], o) == (8 + |m.body|) % 0x1_0000 * 0x1_0000 + m.op
      && buf[8..8 + |m.body|] == m.body && buf[8 + |m.body|..] == rest
  {
    var word := (8 + |m.body|) % 0x1_0000 * 0x1_0000 + m.op;
    var buf := EncodeMessage(m, o) + rest;
    assert buf == Put32(m.obj, o) + (Put32(word, o) + (m.body + rest));
    GetPut32(m.obj, o, Put32(word, o) + (m.body + rest));
    GetPut32(word, o, m.body + rest);
    assert buf[8..] == buf[4..][4..] == m.body + rest;
  }

  /** A message with a whole number of words is framed back exactly if it is under 65536 bytes;
      a longer one is taken for something else. */
  lemma FramesBack(m: Message, rest: Bytes, o: Order)
    requires |m.body| % 4 == 0
    ensures FrontOf(EncodeMessage(m, o) + rest, o) == Frame(8 + |m.body|, m) <==> Fits(m)
  {
    hide EncodeMessage, Get32;
    FrontHeader(m, rest, o);
    HeaderWord(8 + |m.body|, m.op);
    WordsAdd(8, |m.body|);
  }

  /** While the message is not all there, its beginning is waited on. */
  lemma FrontIncomplete(m: Message, o: Order, k: nat)
    requires Fits(m) && k < 8 + |m.body|
    ensures FrontOf(EncodeMessage(m, o)[..k], o) == Incomplete
  {
    hide EncodeMessage, Get32;
    if k >= 8 {
      FrontHeader(m, [], o);
      HeaderWord(8 + |m.body|, m.op);
      WordsAdd(8, |m.body|);
      var e := EncodeMessage(m, o);
      assert e + [] == e;
      assert e[..k][4..][..4] == e[4..][..4];
      SameWord(e[..k][4..], e[4..], o);
    }
  }

  lemma SameWord(a: Bytes, b: Bytes, o: Order)
    requires |a| >= 4 && |b| >= 4 && a[..4] == b[..4]
    ensures Get32(a, o) == Get32(b, o)
  {
    assert forall i :: 0 <= i < 4 ==> a[i] == a[..4][i] && b[i] == b[..4][i];
  }

  // ---------------------------------------------------------------- decoding arguments

  function TakeWord(b: Bytes, o: Order): (U32, Bytes) {
    if |b| < 4 then (0, []) else (Get32(b, o), b[4..])
  }

  /** No slice of a whole number of words goes out of range, whatever the length word says. */
  function TakeStr(b: Bytes, o: Order): (r: (Bytes, Bytes))
    requires |b| % 4 == 0
    ensures |r.1| % 4 == 0 && |r.1| <= |b|
  {
    var (n, rest) := TakeWord(b, o);
    if n == 0 || n > |rest| then ([], [])
    else
      RoundUpBelow(n, |rest|);
      (rest[..n - 1], rest[RoundUp4(n)..])
  }

  /** `wlArgs`: an event body consumed from the front. */
  class Args {
    var rest: Bytes
    const order: Order

    constructor (body: Bytes, o: Order)
      ensures rest == body && order == o
    {
      rest, order := body, o;
    }

    method Uint() returns (v: U32)
      modifies this`rest
      ensures (v, rest) == TakeWord(old(rest), order)
      ensures old(|rest|) % 4 == 0 ==> |rest| % 4 == 0
    {
      if |rest| < 4 {
        rest := [];
        return 0;
      }
      v := Get32(rest, order);
      rest := rest[4..];
    }

    method String() returns (s: Bytes)
      requires |rest| % 4 == 0
      modifies this`rest
      ensures (s, rest) == TakeStr(old(rest), order)
      ensures |rest| % 4 == 0
    {
      var n := Uint();
      if n == 0 || n > |rest| {
        rest := [];
        return "";
      }
      RoundUpBelow(n, |rest|);
      s := rest[..n - 1];
      rest := rest[RoundUp4(n)..];
    }
  }

  /** Without the check that sizes are whole words the slice could go past the end. */
  lemma OddBodyOverruns(o: Order)
    ensures var rest := TakeWord(Put32(1, o) + ['\0'], o);
      rest.0 <= |rest.1| && RoundUp4(rest.0) > |rest.1|
  {
    GetPut32(1, o, ['\0']);
  }

  function Take(kinds: seq<Kind>, b: Bytes, o: Order): (r: (seq<Arg>, Bytes))
    requires |b| % 4 == 0
    decreases |kinds|
  {
    if kinds == [] then ([], b)
    else if kinds[0].WordKind? then
      var (n, rest) := TakeWord(b, o);
      WordsAdd(|b|, 4);
      var (args, last) := Take(kinds[1..], rest, o);
      ([Word(n)] + args, last)
    else
      var (s, rest) := TakeStr(b, o);
      var (args, last) := Take(kinds[1..], rest, o);
      ([Str(s)] + args, last)
  }

  function KindOf(a: Arg): Kind {
    if a.Word? then WordKind else StrKind
  }

  function KindsOf(args: seq<Arg>): seq<Kind> {
    seq(|args|, i requires 0 <= i < |args| => KindOf(args[i]))
  }

  lemma EncodedStr(s: Bytes, tail: Bytes, o: Order)
    requires |s| + 1 < 0x1_0000_0000
    ensures EncodeArg(Str(s), o) + tail == Put32(|s| + 1, o) + (Padded(s + ['\0']) + tail)
  {
    hide Put32, Padded;
    assert (|s| + 1) % 0x1_0000_0000 == |s| + 1;
  }

  lemma TakeEncodedStr(b: Bytes, s: Bytes, tail: Bytes, o: Order)
    requires |tail| % 4 == 0 && |s| + 1 < 0x1_0000_0000
    requires b == EncodeArg(Str(s), o) + tail && |b| % 4 == 0
    ensures TakeStr(b, o) == (s, tail)
  {
    var p := Padded(s + ['\0']);
    var n := |s| + 1;
    var rest := p + tail;
    assert |p| == RoundUp4(n);
    hide Put32, Get32, Padded, Padding, RoundUp4, EncodeArg;
    EncodedStr(s, tail, o);
    GetPut32(n, o, rest);
    WordsAdd(|p|, |tail|);
    RoundUpBelow(n, |rest|);
    assert TakeWord(b, o) == (n, rest);
    assert rest[..n - 1] == s by {
      assert p[..n] == s + ['\0'];
      assert rest[..n - 1] == p[..n][..n - 1];
    }
    assert rest[|p|..] == tail;
  }

  /** Its length with the NUL, its bytes, the NUL, and zeros up to whole words. */
  lemma StringLayout(s: Bytes, o: Order)
    requires |s| + 1 < 0x1_0000_0000
    ensures var b := EncodeArg(Str(s), o);
      && |b| == 4 + (|s| + 4) / 4 * 4 && Get32(b, o) == |s| + 1 && b[4..4 + |s|] == s && forall k :: 4 + |s| <= k < |b| ==> b[k] == '\0'
  {
    var b := EncodeArg(Str(s), o);
    var p := Padded(s + ['\0']);
    assert |p| == RoundUp4(|s| + 1) && p == s + ['\0'] + Zeros(|p| - |s| - 1);
    hide Put32, Get32, Padded, Padding, RoundUp4, EncodeArg;
    EncodedStr(s, [], o);
    GetPut32(|s| + 1, o, p);
    assert b + [] == b && p + [] == p;
  }

  lemma TakeEncodedWord(n: U32, tail: Bytes, o: Order)
    ensures TakeWord(EncodeArg(Word(n), o) + tail, o) == (n, tail)
  {
    GetPut32(n, o, tail);
  }

  lemma {:induction false} EncodeArgsCons(args: seq<Arg>, o: Order)
    requires args != []
    ensures EncodeArgs(args, o) == EncodeArg(args[0], o) + EncodeArgs(args[1..], o)
    decreases |args|
  {
    hide EncodeArg;
    if |args| == 1 {
      assert args[..0] == [] && args[1..] == [];
      assert EncodeArgs([], o) == [];
    } else {
      hide EncodeArgs;
      var n := |args| - 1;
      EncodeArgsCons(args[..n], o);
      assert args[..n][1..] == args[1..][..n - 1] && args[..n][0] == args[0] && args[..n + 1] == args && args[1..][..n] == args[1..];
      EncodeArgsSnoc(args, n, o);
      EncodeArgsSnoc(args[1..], n - 1, o);
    }
  }

  /** Any argument list decodes to itself, leaving what follows it. */
  lemma {:induction false} ArgsRoundTrip(args: seq<Arg>, tail: Bytes, o: Order)
    requires |tail| % 4 == 0 && forall i :: 0 <= i < |args| ==> args[i].Str? ==> |args[i].s| + 1 < 0x1_0000_0000
    ensures (|EncodeArgs(args, o)| + |tail|) % 4 == 0
    ensures Take(KindsOf(args), EncodeArgs(args, o) + tail, o) == (args, tail)
    decreases |args|
  {
    hide EncodeArg, TakeWord, TakeStr, EncodeArgs;
    WordsAdd(|EncodeArgs(args, o)|, |tail|);
    if args == [] {
      NoArgs(o);
      assert EncodeArgs(args, o) + tail == tail;
    } else {
      ArgsRoundTrip(args[1..], tail, o);
      var more := EncodeArgs(args[1..], o) + tail;
      EncodeArgsCons(args, o);
      assert EncodeArgs(args, o) + tail == EncodeArg(args[0], o) + more;
      if args[0].Word? {
        TakeEncodedWord(args[0].n, more, o);
      } else {
        TakeEncodedStr(EncodeArgs(args, o) + tail, args[0].s, more, o);
      }
      assert KindsOf(args)[1..] == KindsOf(args[1..]);
      assert [args[0]] + args[1..] == args;
    }
  }

  lemma NoArgs(o: Order)
    ensures EncodeArgs([], o) == []
  {
  }
}
