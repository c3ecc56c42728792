/** The Xauthority file: records of a family and four counted fields, and the search for a cookie. */
module Xauth {
  import opened Wrappers
  import opened Bytes

  const FAMILY_LOCAL := 256
  const FAMILY_WILD := 65535
  const MAGIC: Bytes := "MIT-MAGIC-COOKIE-1"

  datatype Record = Record(family: U16, address: Bytes, number: Bytes, name: Bytes, data: Bytes)

  /** A 16-bit number, most significant byte first. */
  function Be16(n: U16): (b: Bytes)
    ensures |b| == 2
  {
    [(n / 256) as char, (n % 256) as char]
  }

  lemma FieldBytes(f: Bytes)
    requires |f| < 0x1_0000
    ensures var b := PrintField(f); 0x100 * b[0] as int + b[1] as int == |f| && b[2..] == f
  {
  }

  function At16(b: Bytes): U16
    requires |b| >= 2
  {
    256 * b[0] as int + b[1] as int
  }

  function PrintField(f: Bytes): Bytes
    requires |f| < 0x1_0000
  {
    Be16(|f|) + f
  }

  predicate Fits(r: Record) {
    |r.address| < 0x1_0000 && |r.number| < 0x1_0000 && |r.name| < 0x1_0000 && |r.data| < 0x1_0000
  }

  function PrintRecord(r: Record): Bytes
    requires Fits(r)
  {
    Be16(r.family) + (PrintField(r.address) + (PrintField(r.number) + (PrintField(r.name) + PrintField(r.data))))
  }

  function Print(rs: seq<Record>): Bytes
    requires forall r :: r in rs ==> Fits(r)
  {
    if rs == [] then [] else PrintRecord(rs[0]) + Print(rs[1..])
  }

  function TakeField(b: Bytes): (r: Option<(Bytes, Bytes)>)
    ensures r.Some? ==> |r.value.1| + 2 <= |b|
  {
    if |b| < 2 then None
    else
      var n := At16(b);
      if |b| < 2 + n then None else Some((b[2..2 + n], b[2 + n..]))
  }

  /** The first record, if it is whole. */
  function TakeRecord(b: Bytes): (r: Option<(Record, Bytes)>)
    requires |b| >= 2
    ensures r.Some? ==> |r.value.1| < |b|
  {
    var f1 := TakeField(b[2..]);
    if f1.None? then None
    else
      var f2 := TakeField(f1.value.1);
      if f2.None? then None
      else
        var f3 := TakeField(f2.value.1);
        if f3.None? then None
        else
          var f4 := TakeField(f3.value.1);
          if f4.None? then None
          else Some((Record(At16(b), f1.value.0, f2.value.0, f3.value.0, f4.value.0), f4.value.1))
  }

  lemma FieldRoundTrip(f: Bytes, rest: Bytes)
    requires |f| < 0x1_0000
    ensures TakeField(PrintField(f) + rest) == Some((f, rest))
  {
    var b := PrintField(f) + rest;
    assert b[0] as int == |f| / 256 && b[1] as int == |f| % 256;
    assert b[2..2 + |f|] == f && b[2 + |f|..] == rest;
  }

  lemma RecordRoundTrip(r: Record, rest: Bytes)
    requires Fits(r)
    ensures |PrintRecord(r) + rest| >= 2 && TakeRecord(PrintRecord(r) + rest) == Some((r, rest))
  {
    var a, u, n, d := PrintField(r.address), PrintField(r.number), PrintField(r.name), PrintField(r.data);
    var b := PrintRecord(r) + rest;
    Regroup(Be16(r.family), a, u, n, d, rest);
    hide PrintRecord, PrintField, TakeField;
    Family(r.family, b, a + (u + (n + (d + rest))));
    FieldRoundTrip(r.address, u + (n + (d + rest)));
    FieldRoundTrip(r.number, n + (d + rest));
    FieldRoundTrip(r.name, d + rest);
    FieldRoundTrip(r.data, rest);
  }

  lemma Regroup(f: Bytes, a: Bytes, u: Bytes, n: Bytes, d: Bytes, rest: Bytes)
    ensures (f + (a + (u + (n + d)))) + rest == f + (a + (u + (n + (d + rest))))
  {
  }

  lemma Family(n: U16, b: Bytes, rest: Bytes)
    requires b == Be16(n) + rest
    ensures At16(b) == n && b[2..] == rest
  {
  }

  /** A cookie for this host and display: wildcards match anything. */
  predicate Matches(r: Record, host: Bytes, display: Bytes) {
    && (r.family == FAMILY_WILD || (r.family == FAMILY_LOCAL && r.address == host))
    && (r.number == [] || r.number == display)
    && r.name == MAGIC
  }

  /** The first match among records, and none when there is none. */
  function FirstMatch(rs: seq<Record>, host: Bytes, display: Bytes): (r: Option<Bytes>)
    ensures r.None? <==> forall i :: 0 <= i < |rs| ==> !Matches(rs[i], host, display)
    ensures r.Some? ==> exists i | 0 <= i < |rs| ::
      Matches(rs[i], host, display) && rs[i].data == r.value && forall j :: 0 <= j < i ==> !Matches(rs[j], host, display)
  {
    if rs == [] then None
    else if Matches(rs[0], host, display) then Some(rs[0].data)
    else
      var r := FirstMatch(rs[1..], host, display);
      assert forall i :: 0 < i < |rs| ==> rs[i] == rs[1..][i - 1];
      assert forall i :: 0 <= i < |rs| - 1 ==> rs[1..][i] == rs[i + 1];
      r
  }

  /** What a file holds: its records up to the first torn one. */
  function ParseRecords(b: Bytes): seq<Record>
    decreases |b|
  {
    if |b| < 2 then []
    else
      var r := TakeRecord(b);
      if r.None? then [] else [r.value.0] + ParseRecords(r.value.1)
  }

  /** Whatever records are printed are read back, even when the file ends in a torn record. */
  lemma NextRecord(b: Bytes, r: Record, rest: Bytes)
    requires |b| >= 2 && TakeRecord(b) == Some((r, rest))
    ensures ParseRecords(b) == [r] + ParseRecords(rest)
  {
    hide TakeRecord;
  }

  lemma {:induction false} RecordsRoundTrip(rs: seq<Record>, torn: Bytes)
    requires forall r :: r in rs ==> Fits(r)
    requires |torn| >= 2 ==> TakeRecord(torn).None?
    ensures ParseRecords(Print(rs) + torn) == rs
  {
    if rs == [] {
      assert Print(rs) + torn == torn && ParseRecords(torn) == [];
    } else {
      var rest := Print(rs[1..]) + torn;
      assert Print(rs) == PrintRecord(rs[0]) + Print(rs[1..]);
      hide PrintRecord, TakeRecord, Print, ParseRecords, Fits;
      Assoc(PrintRecord(rs[0]), Print(rs[1..]), torn);
      RecordRoundTrip(rs[0], rest);
      NextRecord(PrintRecord(rs[0]) + rest, rs[0], rest);
      RecordsRoundTrip(rs[1..], torn);
      assert rs == [rs[0]] + rs[1..];
    }
  }

  lemma Assoc(a: Bytes, b: Bytes, c: Bytes)
    ensures a + b + c == a + (b + c)
  {
  }

  /** The file and what is left of it as fields are taken off. */
  class Reader {
    var b: Bytes

    constructor (b: Bytes)
      ensures this.b == b
    {
      this.b := b;
    }

    method Field() returns (f: Option<Bytes>)
      modifies this
      ensures match TakeField(old(b))
        case None => f == None && b == old(b)
        case Some((v, rest)) => f == Some(v) && b == rest
    {
      if |b| < 2 { return None; }
      var n: nat := At16(b);
      if |b| < 2 + n { return None; }
      f := Some(b[2..2 + n]);
      b := b[2 + n..];
    }

    /** Takes a family and four fields, going on even when one is missing. */
    method Next() returns (r: Option<Record>)
      requires |b| >= 2
      modifies this
      ensures match TakeRecord(old(b))
        case None => r == None
        case Some((v, rest)) => r == Some(v) && b == rest
    {
      hide TakeField;
      var family := At16(b);
      b := b[2..];
      var address := Field();
      var number := Field();
      var name := Field();
      var data := Field();
      if address.None? || number.None? || name.None? || data.None? { return None; }
      return Some(Record(family, address.value, number.value, name.value, data.value));
    }
  }

  /** A magic cookie for any host, or for this one on a local connection, and for any display or this. */
  ghost predicate Admits(r: Record, host: Bytes, display: Bytes) {
    r.name == "MIT-MAGIC-COOKIE-1" && (r.family == 65535 || r.family == 256) && (r.family == 256 ==> r.address == host)
    && (r.number != [] ==> r.number == display)
  }

  /** The cookie is that of the first record that admits the client; without one there is none. */
  ghost predicate Finds(rs: seq<Record>, host: Bytes, display: Bytes, cookie: Option<Bytes>) {
    if cookie.None? then forall i :: 0 <= i < |rs| ==> !Admits(rs[i], host, display)
    else exists i | 0 <= i < |rs| ::
      Admits(rs[i], host, display) && rs[i].data == cookie.value && forall j :: 0 <= j < i ==> !Admits(rs[j], host, display)
  }

  lemma FirstFinds(rs: seq<Record>, host: Bytes, display: Bytes)
    ensures Finds(rs, host, display, FirstMatch(rs, host, display))
  {
    assert forall r :: Admits(r, host, display) <==> Matches(r, host, display);
    hide Matches, Admits;
  }

  /** `xauthCookie`: the data of the first record that matches; a torn record ends the search. */
  method XauthCookie(file: Bytes, host: Bytes, display: Bytes) returns (cookie: Option<Bytes>)
    ensures cookie == FirstMatch(ParseRecords(file), host, display) && Finds(ParseRecords(file), host, display, cookie)
  {
    FirstFinds(ParseRecords(file), host, display);
    hide TakeRecord, Matches, Finds;
    var reader := new Reader(file);
    while |reader.b| >= 2
      invariant FirstMatch(ParseRecords(reader.b), host, display) == FirstMatch(ParseRecords(file), host, display)
      decreases |reader.b|
    {
      ghost var before := reader.b;
      var r := reader.Next();
      if r.None? { return None; }
      Ahead(before, r.value, reader.b, host, display);
      if Matches(r.value, host, display) { return Some(r.value.data); }
    }
    return None;
  }

  lemma Ahead(b: Bytes, r: Record, rest: Bytes, host: Bytes, display: Bytes)
    requires |b| >= 2 && TakeRecord(b) == Some((r, rest))
    ensures FirstMatch(ParseRecords(b), host, display) ==
      if Matches(r, host, display) then Some(r.data) else FirstMatch(ParseRecords(rest), host, display)
  {
  }
}
