/** The X11 core protocol, little-endian: the requests this client sends, and the packets it reads. */
module X11Wire {
  import opened Wrappers
  import opened Bytes

  const CREATE_WINDOW := 1
  const CHANGE_PROPERTY := 18
  const INTERN_ATOM := 16
  const SET_SELECTION_OWNER := 22
  const GET_SELECTION_OWNER := 23
  const SEND_EVENT := 25

  const X_ERROR := 0
  const X_REPLY := 1
  const PROPERTY_NOTIFY := 28
  const SELECTION_CLEAR := 29
  const SELECTION_REQUEST := 30
  const SELECTION_NOTIFY := 31
  const GENERIC_EVENT := 35

  const ATOM_ATOM: U32 := 4
  const ATOM_STRING: U32 := 31
  const ATOM_WM_NAME: U32 := 39

  type U8 = n: int | 0 <= n < 256

  function Byte1(n: U8): (b: Bytes)
    ensures |b| == 1
  {
    [n as char]
  }

  function P32(n: U32): (b: Bytes)
    ensures |b| == 4
  {
    Put32(n, Little)
  }

  /** The 32-bit word at an offset. */
  function At32(b: Bytes, i: nat): U32
    requires i + 4 <= |b|
  {
    Get32(b[i..], Little)
  }

  /** A request: its length field counts 4-byte words in 16 bits. */
  function Request(op: U8, data: U8, body: Bytes): (b: Bytes)
    ensures |b| == 4 + |Padded(body)|
  {
    Byte1(op) + Byte1(data) + Put16((4 + |Padded(body)|) / 4 % 0x1_0000) + Padded(body)
  }

  /** How many items of its format the data has. */
  function Count(format: U8, data: Bytes): U32
    requires format == 8 || format == 32
  {
    |data| / (format / 8) % 0x1_0000_0000
  }

  function PropertyBody(window: U32, property: U32, typ: U32, format: U8, data: Bytes): (b: Bytes)
    requires format == 8 || format == 32
    ensures |b| == 20 + |data|
  {
    P32(window) + (P32(property) + (P32(typ) + ((Byte1(format) + Zeros(3)) + (P32(Count(format, data)) + data))))
  }

  function ChangeProperty(mode: U8, window: U32, property: U32, typ: U32, format: U8, data: Bytes): Bytes
    requires format == 8 || format == 32
  {
    Request(CHANGE_PROPERTY, mode, PropertyBody(window, property, typ, format, data))
  }

  function SetOwner(owner: U32, selection: U32, time: U32): Bytes {
    Request(SET_SELECTION_OWNER, 0, P32(owner) + (P32(selection) + P32(time)))
  }

  /** What a client asks for in a SelectionRequest. */
  datatype Ask = Ask(time: U32, requestor: U32, selection: U32, target: U32, property: U32)

  function NotifyBody(a: Ask, property: U32): (b: Bytes)
    ensures |b| == 40
  {
    P32(a.requestor) + (P32(0) + ((Byte1(SELECTION_NOTIFY) + Zeros(3)) + NotifyTail(a, property)))
  }

  function NotifyTail(a: Ask, property: U32): (b: Bytes)
    ensures |b| == 28
  {
    P32(a.time) + (P32(a.requestor) + (P32(a.selection) + (P32(a.target) + (P32(property) + Zeros(8)))))
  }

  /** SendEvent of a SelectionNotify. */
  function Notify(a: Ask, property: U32): Bytes {
    Request(SEND_EVENT, 0, NotifyBody(a, property))
  }

  // ---------------------------------------------------------------- where the server finds the fields

  /** The opcode and the data byte come first, and the body is found from offset 4 on. */
  lemma RequestFields(op: U8, data: U8, body: Bytes)
    ensures var b := Request(op, data, body);
      && Code(b) == op && b[1] as int == data && |b| >= 4 + |body| && b[4..4 + |body|] == body
      && (forall i :: 0 <= i && i + 4 <= |body| ==> At32(b, 4 + i) == At32(body, i))
  {
    var b := Request(op, data, body);
    assert b[4..] == Padded(body);
    assert b[4..4 + |body|] == Padded(body)[..|body|] == body;
    forall i | 0 <= i && i + 4 <= |body|
      ensures At32(b, 4 + i) == At32(body, i)
    {
      SameWord(b[4 + i..], body[i..]);
    }
  }

  lemma SameWord(a: Bytes, b: Bytes)
    requires |a| >= 4 && |b| >= 4 && forall i :: 0 <= i < 4 ==> a[i] == b[i]
    ensures Get32(a, Little) == Get32(b, Little)
  {
  }

  /** A word at the front, and what follows it. */
  lemma WordThen(b: Bytes, i: nat, n: U32, rest: Bytes)
    requires i <= |b| && b[i..] == P32(n) + rest
    ensures |b| == i + 4 + |rest| && At32(b, i) == n && b[i + 4..] == rest
  {
    GetPut32(n, Little, rest);
    hide Put32, Get32;
    Skip(b, i, P32(n), rest);
  }

  lemma BytesAssoc(a: Bytes, b: Bytes, c: Bytes)
    ensures (a + b) + c == a + (b + c)
  {
  }

  lemma PropertyNested(window: U32, property: U32, typ: U32, format: U8, data: Bytes, z: Bytes)
    requires format == 8 || format == 32
    ensures PropertyBody(window, property, typ, format, data) + z ==
      P32(window) + (P32(property) + (P32(typ) + ((Byte1(format) + Zeros(3)) + (P32(Count(format, data)) + (data + z)))))
  {
    var t4 := P32(Count(format, data)) + data;
    var t3 := (Byte1(format) + Zeros(3)) + t4;
    var t2 := P32(typ) + t3;
    var t1 := P32(property) + t2;
    hide P32, Count;
    BytesAssoc(P32(window), t1, z);
    BytesAssoc(P32(property), t2, z);
    BytesAssoc(P32(typ), t3, z);
    BytesAssoc(Byte1(format) + Zeros(3), t4, z);
    BytesAssoc(P32(Count(format, data)), data, z);
  }

  lemma RequestBody(op: U8, data: U8, body: Bytes)
    ensures var b := Request(op, data, body);
      Code(b) == op && b[1] as int == data && b[4..] == body + Zeros(Padding(|body|))
  {
    var b := Request(op, data, body);
    assert b[4..] == Padded(body);
  }

  /** A ChangeProperty has the mode in its data byte, the window at 4, the property at 8, its type at
      12, the format at 16, the number of items at 20 and the data from 24 on. */
  lemma ChangePropertyFields(mode: U8, window: U32, property: U32, typ: U32, format: U8, data: Bytes)
    requires format == 8 || format == 32
    ensures var b := ChangeProperty(mode, window, property, typ, format, data);
      && |b| >= 24 + |data| && Code(b) == 18 && b[1] as int == mode
      && At32(b, 4) == window && At32(b, 8) == property && At32(b, 12) == typ && b[16] as int == format
      && At32(b, 20) == (if format == 8 then |data| else |data| / 4) % 0x1_0000_0000 && b[24..24 + |data|] == data
  {
    var b := ChangeProperty(mode, window, property, typ, format, data);
    var body := PropertyBody(window, property, typ, format, data);
    var z := Zeros(Padding(|body|));
    RequestBody(CHANGE_PROPERTY, mode, body);
    PropertyNested(window, property, typ, format, data, z);
    CountMeans(format, data);
    hide P32, PropertyBody, ChangeProperty, Padding, Count, At32;
    AddressFields(b, window, property, typ, (Byte1(format) + Zeros(3)) + (P32(Count(format, data)) + (data + z)));
    DataFields(b, format, Count(format, data), data, z);
  }

  lemma CountMeans(format: U8, data: Bytes)
    requires format == 8 || format == 32
    ensures Count(format, data) == (if format == 8 then |data| else |data| / 4) % 0x1_0000_0000
  {
  }

  lemma AddressFields(b: Bytes, window: U32, property: U32, typ: U32, rest: Bytes)
    requires |b| >= 4 && b[4..] == P32(window) + (P32(property) + (P32(typ) + rest))
    ensures |b| == 16 + |rest| && At32(b, 4) == window && At32(b, 8) == property && At32(b, 12) == typ && b[16..] == rest
  {
    hide P32, At32;
    WordThen(b, 4, window, P32(property) + (P32(typ) + rest));
    WordThen(b, 8, property, P32(typ) + rest);
    WordThen(b, 12, typ, rest);
  }

  lemma DataFields(b: Bytes, format: U8, count: U32, data: Bytes, z: Bytes)
    requires |b| >= 16 && b[16..] == (Byte1(format) + Zeros(3)) + (P32(count) + (data + z))
    ensures |b| >= 24 + |data| && b[16] as int == format && At32(b, 20) == count && b[24..24 + |data|] == data
  {
    var head := Byte1(format) + Zeros(3);
    assert head[0] as int == format;
    hide P32, At32, Byte1;
    Skip(b, 16, head, P32(count) + (data + z));
    WordThen(b, 20, count, data + z);
    assert b[24..24 + |data|] == b[24..][..|data|] == data;
  }

  /** A SetSelectionOwner has the owner at 4, the selection at 8 and the time at 12. */
  lemma SetOwnerFields(owner: U32, selection: U32, time: U32)
    ensures var b := SetOwner(owner, selection, time);
      |b| == 16 && Code(b) == 22 && At32(b, 4) == owner && At32(b, 8) == selection && At32(b, 12) == time
  {
    var body := P32(owner) + (P32(selection) + P32(time));
    RequestFields(SET_SELECTION_OWNER, 0, body);
    assert |Padded(body)| == 12;
    assert body[0..] == body && P32(time) + [] == P32(time);
    hide Put32, Request, Padded;
    WordThen(body, 0, owner, P32(selection) + P32(time));
    WordThen(body, 4, selection, P32(time));
    WordThen(body, 8, time, []);
    hide At32;
    var b := SetOwner(owner, selection, time);
    assert At32(b, 4 + 0) == At32(body, 0) && At32(b, 4 + 4) == At32(body, 4) && At32(b, 4 + 8) == At32(body, 8);
  }

  // ---------------------------------------------------------------- sizes

  /** Exactly the values that pass the check of `serveX11` fit one ChangeProperty request. */
  lemma ValueFits(value: Bytes, words: U16, window: U32, property: U32, typ: U32)
    ensures var maxReq := 4 * words;
      |value| <= maxReq - 24 <==> |ChangeProperty(0, window, property, typ, 8, value)| <= maxReq
  {
    assert |PropertyBody(window, property, typ, 8, value)| == 20 + |value|;
    hide PropertyBody, Put16;
    PaddingAdd(20, |value|);
    if words >= 6 {
      RoundUpBelow(|value|, 4 * words - 24);
    }
  }

  /** A request no larger than the server's limit has its true length in the length field. */
  lemma LengthField(op: U8, data: U8, body: Bytes, words: U16)
    requires |Request(op, data, body)| <= 4 * words
    ensures 4 * Get16(Request(op, data, body)[2..]) == |Request(op, data, body)|
  {
    var p := Padded(body);
    WordsAdd(4, |p|);
    var n := (4 + |p|) / 4;
    assert n <= words && n % 0x1_0000 == n;
    var b := Request(op, data, body);
    assert b[2..] == Put16(n) + p;
    GetPut16(n, p);
  }

  // ---------------------------------------------------------------- connection setup

  function HelloStart(nameLength: nat, dataLength: nat): (b: Bytes)
    ensures |b| == 12
  {
    "l\0" + (Put16(11) + (Put16(0) + (Put16(nameLength % 0x1_0000) + (Put16(dataLength % 0x1_0000) + Zeros(2)))))
  }

  /** What the client opens with: byte order, version 11.0, and the authorization it has. */
  function Hello(authName: Bytes, authData: Bytes): Bytes {
    Padded(Padded(HelloStart(|authName|, |authData|) + authName) + authData)
  }

  lemma Within(b: Bytes, p: Bytes, i: nat, n: nat)
    requires p <= b && i + n <= |p|
    ensures b[i..i + n] == p[i..i + n]
  {
  }

  lemma PaddedTwice(head: Bytes, name: Bytes, data: Bytes)
    ensures var n := Padded(head + name); var b := Padded(n + data);
      && |b| >= |n| + |data| && head <= b && b[|head|..|head| + |name|] == name && b[|n|..|n| + |data|] == data
  {
    var n := Padded(head + name);
    var b := Padded(n + data);
    assert head + name <= n && n + data <= b;
    hide Padded;
    assert n <= b && head <= n;
    Within(b, n + data, |n|, |data|);
    assert (n + data)[|n|..|n| + |data|] == data;
    Within(b, n, |head|, |name|);
    Within(n, head + name, |head|, |name|);
    assert (head + name)[|head|..|head| + |name|] == name;
  }

  /** Byte order, version 11.0, the lengths of the authorization's name and data, and both, padded. */
  lemma HelloFields(authName: Bytes, authData: Bytes)
    requires |authName| < 0x1_0000 && |authData| < 0x1_0000
    ensures var b := Hello(authName, authData); var at := 12 + RoundUp4(|authName|);
      && |b| >= at + |authData| && b[0] == 'l' && Get16(b[2..]) == 11 && Get16(b[4..]) == 0
      && Get16(b[6..]) == |authName| && Get16(b[8..]) == |authData|
      && b[12..12 + |authName|] == authName && b[at..at + |authData|] == authData
  {
    var head := HelloStart(|authName|, |authData|);
    HeadFields(|authName|, |authData|);
    PaddedTwice(head, authName, authData);
    PaddingAdd(12, |authName|);
    assert |Padded(head + authName)| == 12 + RoundUp4(|authName|);
    hide HelloStart, Padded, Get16;
    SameHead(Hello(authName, authData), head);
  }

  lemma SameHead(b: Bytes, head: Bytes)
    requires |head| == 12 && head <= b
    ensures b[0] == head[0] && Get16(b[2..]) == Get16(head[2..]) && Get16(b[4..]) == Get16(head[4..])
    ensures Get16(b[6..]) == Get16(head[6..]) && Get16(b[8..]) == Get16(head[8..])
  {
    SameHalf(b[2..], head[2..]);
    SameHalf(b[4..], head[4..]);
    SameHalf(b[6..], head[6..]);
    SameHalf(b[8..], head[8..]);
  }

  lemma SameHalf(a: Bytes, b: Bytes)
    requires |a| >= 2 && |b| >= 2 && a[0] == b[0] && a[1] == b[1]
    ensures Get16(a) == Get16(b)
  {
  }

  lemma HalfThen(b: Bytes, i: nat, n: U16, rest: Bytes)
    requires i <= |b| && b[i..] == Put16(n) + rest
    ensures |b| == i + 2 + |rest| && Get16(b[i..]) == n && b[i + 2..] == rest
  {
    GetPut16(n, rest);
    hide Put16, Get16;
    Skip(b, i, Put16(n), rest);
  }

  lemma HeadHalves(b: Bytes, nameLength: U16, dataLength: U16)
    requires |b| == 12
    requires b[2..] == Put16(11) + (Put16(0) + (Put16(nameLength) + (Put16(dataLength) + Zeros(2))))
    ensures Get16(b[2..]) == 11 && Get16(b[4..]) == 0 && Get16(b[6..]) == nameLength && Get16(b[8..]) == dataLength
  {
    hide Put16, Get16;
    HalfThen(b, 2, 11, Put16(0) + (Put16(nameLength) + (Put16(dataLength) + Zeros(2))));
    HalfThen(b, 4, 0, Put16(nameLength) + (Put16(dataLength) + Zeros(2)));
    HalfThen(b, 6, nameLength, Put16(dataLength) + Zeros(2));
    HalfThen(b, 8, dataLength, Zeros(2));
  }

  lemma HeadFields(nameLength: U16, dataLength: U16)
    ensures var head := HelloStart(nameLength, dataLength);
      && head[0] == 'l' && Get16(head[2..]) == 11 && Get16(head[4..]) == 0 && Get16(head[6..]) == nameLength
      && Get16(head[8..]) == dataLength
  {
    hide Put16, Get16;
    var head := HelloStart(nameLength, dataLength);
    assert head[0] == 'l';
    assert head[2..] == Put16(11) + (Put16(0) + (Put16(nameLength) + (Put16(dataLength) + Zeros(2))));
    hide HelloStart;
    HeadHalves(head, nameLength, dataLength);
  }

  datatype Screen = Screen(root: U32, window: U32, maxReq: nat)

  function OrOne(n: U32): U32 {
    if n % 2 == 0 then n + 1 else n
  }

  /** The first screen, the first free window id, and the largest request in bytes. */
  function ParseSetup(body: Bytes): Option<Screen> {
    if |body| < 32 then None
    else
      var screen := 32 + RoundUp4(Get16(body[16..])) + 8 * body[21] as int;
      if body[20] == '\0' || |body| < screen + 4 then None
      else Some(Screen(At32(body, screen), OrOne(At32(body, 4)), 4 * Get16(body[18..])))
  }

  /** The server's answer, laid out as section 8 of the X Window System Protocol has it: a 32-byte
      head, the padded vendor name, 8 bytes a pixmap format, and the screens. */
  datatype SetupBlock = SetupBlock(release: Bytes, idBase: U32, maskMotion: Bytes, vendor: Bytes, words: U16,
                                   screens: Byte, formatCount: Byte, rest: Bytes, formats: Bytes, root: U32, more: Bytes)

  predicate WellFormed(b: SetupBlock) {
    && |b.release| == 4 && |b.maskMotion| == 8 && |b.vendor| < 0x1_0000 && |b.rest| == 10
    && b.screens != '\0' && |b.formats| == 8 * b.formatCount as int
  }

  /** From the pixel formats on. */
  function PrintScreens(b: SetupBlock): Bytes {
    b.formats + (P32(b.root) + b.more)
  }

  /** From the two limits on. */
  function PrintLimits(b: SetupBlock): Bytes
    requires WellFormed(b)
  {
    Put16(|b.vendor|) + (Put16(b.words) + ([b.screens, b.formatCount] + (b.rest + (Padded(b.vendor) + PrintScreens(b)))))
  }

  function PrintSetup(b: SetupBlock): Bytes
    requires WellFormed(b)
  {
    b.release + (P32(b.idBase) + (b.maskMotion + PrintLimits(b)))
  }

  lemma Skip(p: Bytes, i: nat, a: Bytes, b: Bytes)
    requires i <= |p| && p[i..] == a + b
    ensures |p| == i + |a| + |b| && p[i + |a|..] == b
    ensures forall k :: 0 <= k < |a| ==> p[i + k] == a[k]
  {
    assert p[i + |a|..] == p[i..][|a|..];
    forall k | 0 <= k < |a| ensures p[i + k] == a[k] {
      assert p[i + k] == p[i..][k];
    }
  }

  lemma SetupLimits(b: SetupBlock, p: Bytes)
    requires WellFormed(b) && |p| >= 16 && p[16..] == PrintLimits(b)
    ensures |p| >= 32 && Get16(p[16..]) == |b.vendor| && Get16(p[18..]) == b.words
    ensures p[20] == b.screens && p[21] == b.formatCount
    ensures p[32..] == Padded(b.vendor) + PrintScreens(b)
  {
    var s := Padded(b.vendor) + PrintScreens(b);
    var r := b.rest + s;
    var q := [b.screens, b.formatCount] + r;
    hide PrintScreens, Padded;
    GetPut16(|b.vendor|, Put16(b.words) + q);
    GetPut16(b.words, q);
    hide Put16, Get16;
    Skip(p, 16, Put16(|b.vendor|), Put16(b.words) + q);
    Skip(p, 18, Put16(b.words), q);
    Skip(p, 20, [b.screens, b.formatCount], r);
    Skip(p, 22, b.rest, s);
  }

  /** The offsets are right: the fields are found whatever the vendor and formats are, and the window
      is the odd one of the first two ids. */
  lemma SetupRoundTrip(b: SetupBlock)
    requires WellFormed(b)
    ensures var window := if b.idBase % 2 == 1 then b.idBase else b.idBase + 1;
      ParseSetup(PrintSetup(b)) == Some(Screen(b.root, window, 4 * b.words))
  {
    hide ParseSetup, PrintSetup, WellFormed;
    SetupParsed(b);
  }

  lemma SetupParsed(b: SetupBlock)
    requires WellFormed(b)
    ensures ParseSetup(PrintSetup(b)) == Some(Screen(b.root, OrOne(b.idBase), 4 * b.words))
  {
    hide OrOne;
    var p := PrintSetup(b);
    hide Put16, Put32, Get16, Get32, PrintLimits, PrintScreens, Padded;
    assert p[0..] == p;
    Skip(p, 0, b.release, P32(b.idBase) + (b.maskMotion + PrintLimits(b)));
    GetPut32(b.idBase, Little, b.maskMotion + PrintLimits(b));
    Skip(p, 4, P32(b.idBase), b.maskMotion + PrintLimits(b));
    Skip(p, 8, b.maskMotion, PrintLimits(b));
    SetupLimits(b, p);
    Skip(p, 32, Padded(b.vendor), PrintScreens(b));
    var at := 32 + |Padded(b.vendor)|;
    SetupScreen(b, p, at);
  }

  lemma SetupScreen(b: SetupBlock, p: Bytes, at: nat)
    requires WellFormed(b) && at <= |p| && p[at..] == PrintScreens(b)
    ensures |p| >= at + |b.formats| + 4 && At32(p, at + |b.formats|) == b.root
  {
    hide Put32, Get32;
    Skip(p, at, b.formats, P32(b.root) + b.more);
    GetPut32(b.root, Little, b.more);
  }

  // ---------------------------------------------------------------- packets

  /** `packet`: 32 bytes, and for replies and generic events as many words more as they say. */
  function TakePacket(inbox: Bytes): (r: Option<(Bytes, Bytes)>)
    ensures r.Some? ==> |r.value.0| >= 32 && r.value.0 + r.value.1 == inbox
  {
    if |inbox| < 32 then None
    else
      var n := PacketSize(inbox);
      if |inbox| < n then None else Some((inbox[..n], inbox[n..]))
  }

  /** How many bytes a packet has, from its first eight. */
  function PacketSize(p: Bytes): (n: nat)
    requires |p| >= 8
  {
    32 + if Code(p) == X_REPLY || Code(p) % 128 == GENERIC_EVENT then 4 * At32(p, 4) else 0
  }

  /** Packets come off the stream whole, one by one: 32 bytes, and as many words more as a reply (kind
      1) or a generic event (kind 35, sent or not) says at offset 4. */
  lemma PacketFramed(p: Bytes, rest: Bytes)
    requires |p| >= 32 && |p| == 32 + if Code(p) == 1 || Code(p) == 35 || Code(p) == 163 then 4 * At32(p, 4) else 0
    ensures TakePacket(p + rest) == Some((p, rest))
  {
    assert (p + rest)[..|p|] == p && (p + rest)[|p|..] == rest;
  }

  function Code(p: Bytes): U8
    requires |p| > 0
  {
    p[0] as int
  }

  /** Neither a reply nor an error. */
  predicate IsEvent(p: Bytes) {
    |p| >= 32 && Code(p) != X_REPLY && Code(p) != X_ERROR
  }

  function EventsOf(ps: seq<Bytes>): seq<Bytes> {
    if ps == [] then []
    else EventsOf(ps[..|ps| - 1]) + if IsEvent(ps[|ps| - 1]) then [ps[|ps| - 1]] else []
  }

  lemma EventsSnoc(ps: seq<Bytes>, p: Bytes)
    ensures EventsOf(ps + [p]) == EventsOf(ps) + if IsEvent(p) then [p] else []
  {
    assert (ps + [p])[..|ps|] == ps;
  }

  function AskOf(p: Bytes): Ask
    requires |p| >= 32
  {
    var property := At32(p, 24);
    Ask(At32(p, 4), At32(p, 12), At32(p, 16), At32(p, 20), if property == 0 then At32(p, 20) else property)
  }

  /** A SelectionRequest as the server lays it out. */
  function PrintAsk(sequence: U16, owner: U32, a: Ask): (p: Bytes)
    ensures |p| == 32
  {
    Byte1(SELECTION_REQUEST) + (Byte1(0) + (Put16(sequence) + (P32(a.time) + (P32(owner) + AskTail(a)))))
  }

  function AskTail(a: Ask): (b: Bytes)
    ensures |b| == 20
  {
    P32(a.requestor) + (P32(a.selection) + (P32(a.target) + (P32(a.property) + Zeros(4))))
  }

  /** Every field is read from its place; a property of None stands for the target. */
  lemma AskRoundTrip(sequence: U16, owner: U32, a: Ask)
    ensures var p := PrintAsk(sequence, owner, a);
      |p| == 32 && IsEvent(p) && AskOf(p) == if a.property == 0 then a.(property := a.target) else a
  {
    var p := PrintAsk(sequence, owner, a);
    var tail := AskTail(a);
    var t := P32(a.time) + (P32(owner) + tail);
    hide Put32, Get32, Put16, AskTail;
    GetPut32(a.time, Little, P32(owner) + tail);
    assert p[0..] == p;
    Skip(p, 0, Byte1(SELECTION_REQUEST), Byte1(0) + (Put16(sequence) + t));
    Skip(p, 1, Byte1(0), Put16(sequence) + t);
    Skip(p, 2, Put16(sequence), t);
    Skip(p, 4, P32(a.time), P32(owner) + tail);
    Skip(p, 8, P32(owner), tail);
    AskTailFields(a, p);
  }

  lemma AskTailFields(a: Ask, p: Bytes)
    requires |p| == 32 && p[12..] == AskTail(a)
    ensures At32(p, 12) == a.requestor && At32(p, 16) == a.selection && At32(p, 20) == a.target && At32(p, 24) == a.property
  {
    var t1 := P32(a.property) + Zeros(4);
    var t2 := P32(a.target) + t1;
    var t3 := P32(a.selection) + t2;
    hide Put32, Get32;
    GetPut32(a.requestor, Little, t3);
    GetPut32(a.selection, Little, t2);
    GetPut32(a.target, Little, t1);
    GetPut32(a.property, Little, Zeros(4));
    Skip(p, 12, P32(a.requestor), t3);
    Skip(p, 16, P32(a.selection), t2);
    Skip(p, 20, P32(a.target), t1);
  }

  /** A SelectionClear as the server lays it out. */
  function PrintClear(sequence: U16, time: U32, owner: U32, selection: U32): (p: Bytes)
    ensures |p| == 32
  {
    Byte1(SELECTION_CLEAR) + (Byte1(0) + (Put16(sequence) + (P32(time) + (P32(owner) + (P32(selection) + Zeros(16))))))
  }

  lemma ClearFields(sequence: U16, time: U32, owner: U32, selection: U32)
    ensures var p := PrintClear(sequence, time, owner, selection); IsEvent(p) && Code(p) == 29 && At32(p, 12) == selection
  {
    var p := PrintClear(sequence, time, owner, selection);
    var t := P32(time) + (P32(owner) + (P32(selection) + Zeros(16)));
    assert p[0..] == p;
    hide Put32, Put16;
    Skip(p, 0, Byte1(SELECTION_CLEAR), Byte1(0) + (Put16(sequence) + t));
    Skip(p, 1, Byte1(0), Put16(sequence) + t);
    Skip(p, 2, Put16(sequence), t);
    WordThen(p, 4, time, P32(owner) + (P32(selection) + Zeros(16)));
    WordThen(p, 8, owner, P32(selection) + Zeros(16));
    WordThen(p, 12, selection, Zeros(16));
  }

  /** A notification is 44 bytes: the 32-byte event sits at 12 and its property at 32. */
  lemma NotifyFields(a: Ask, property: U32)
    ensures var b := Notify(a, property);
      |b| == 44 && At32(b, 4) == a.requestor && Code(b[12..]) == SELECTION_NOTIFY && At32(b, 16) == a.time
      && At32(b, 24) == a.selection && At32(b, 28) == a.target && At32(b, 32) == property
      && At32(b, 8) == 0 && At32(b, 20) == a.requestor
  {
    var b := Notify(a, property);
    var tail := NotifyTail(a, property);
    var head := Byte1(SELECTION_NOTIFY) + Zeros(3);
    var t := P32(0) + (head + tail);
    assert Padded(NotifyBody(a, property)) == NotifyBody(a, property);
    assert b[4..] == P32(a.requestor) + t;
    hide Put32, Get32, Notify, NotifyTail, NotifyBody;
    GetPut32(a.requestor, Little, t);
    GetPut32(0, Little, head + tail);
    Skip(b, 4, P32(a.requestor), t);
    Skip(b, 8, P32(0), head + tail);
    Skip(b, 12, head, tail);
    TailFields(a, property, b);
  }

  lemma TailFields(a: Ask, property: U32, b: Bytes)
    requires |b| == 44 && b[16..] == NotifyTail(a, property)
    ensures At32(b, 16) == a.time && At32(b, 20) == a.requestor && At32(b, 24) == a.selection && At32(b, 28) == a.target && At32(b, 32) == property
  {
    var t1 := P32(property) + Zeros(8);
    var t2 := P32(a.target) + t1;
    var t3 := P32(a.selection) + t2;
    hide Put32, Get32;
    GetPut32(a.time, Little, P32(a.requestor) + t3);
    GetPut32(a.requestor, Little, t3);
    GetPut32(a.selection, Little, t2);
    GetPut32(a.target, Little, t1);
    GetPut32(property, Little, Zeros(8));
    Skip(b, 16, P32(a.time), P32(a.requestor) + t3);
    Skip(b, 20, P32(a.requestor), t3);
    Skip(b, 24, P32(a.selection), t2);
    Skip(b, 28, P32(a.target), t1);
  }
}
