/** NUL-delimited `KEY=value` records: `parseNullRecords`, its printer, and `emitNUL`. */
module NullRecords {
  import opened Wrappers
  import opened Format
  import opened Text
  import opened Entries

  datatype Kind = EmptyRecord | NotRecord | BadKey | Duplicate(prev: nat)

  datatype RecordError = RecordError(record: nat, kind: Kind)

  /** `strings.TrimSuffix` with one NUL. */
  function TrimNUL(s: string): string {
    if s != "" && s[|s| - 1] == NUL then s[..|s| - 1] else s
  }

  /** Record number n, after the entries already read. */
  function Extend(entries: seq<Entry>, rec: string, n: nat): Result<seq<Entry>, RecordError> {
    if rec == "" then Err(RecordError(n, EmptyRecord))
    else
      var eq := IndexOf(rec, '=');
      if eq == |rec| then Err(RecordError(n, NotRecord))
      else if CheckKey(rec[..eq]).Some? then Err(RecordError(n, BadKey))
      else if HasKey(entries, rec[..eq]) then Err(RecordError(n, Duplicate(EntryOf(entries, rec[..eq]).loc.n)))
      else Ok(entries + [Entry(rec[..eq], rec[eq + 1..], Record(n))])
  }

  function ParseRecords(recs: seq<string>): Result<seq<Entry>, RecordError> {
    if recs == [] then Ok([])
    else match ParseRecords(recs[..|recs| - 1])
      case Err(e) => Err(e)
      case Ok(entries) => Extend(entries, recs[|recs| - 1], |recs|)
  }

  function Parse(data: string): Result<seq<Entry>, RecordError> {
    if data == "" then Ok([]) else ParseRecords(Split(TrimNUL(data), NUL))
  }

  lemma ParseSnoc(done: seq<string>, rec: string, n: nat)
    requires ParseRecords(done).Ok? && n == |done| + 1
    ensures ParseRecords(done + [rec]) == Extend(ParseRecords(done).value, rec, n)
  {
    var recs := done + [rec];
    assert recs[..|recs| - 1] == done && recs[|recs| - 1] == rec && |recs| == n;
  }

  lemma {:induction false} ErrorsStick(recs: seq<string>, k: nat)
    requires k <= |recs| && ParseRecords(recs[..k]).Err?
    ensures ParseRecords(recs) == ParseRecords(recs[..k])
    decreases |recs|
  {
    if k < |recs| {
      assert recs[..|recs| - 1][..k] == recs[..k];
      ErrorsStick(recs[..|recs| - 1], k);
    } else {
      assert recs[..k] == recs;
    }
  }

  /** The entries so far and the map of the records that assigned them. */
  ghost predicate Seen(entries: seq<Entry>, seen: map<string, nat>) {
    && (forall k :: k in seen <==> HasKey(entries, k))
    && (forall k :: k in seen ==> EntryOf(entries, k).loc == Record(seen[k]))
  }

  lemma NothingSeen()
    ensures Seen([], map[])
  {
  }

  lemma SeenSnoc(entries: seq<Entry>, seen: map<string, nat>, key: string, value: string, n: nat)
    requires Seen(entries, seen)
    ensures Seen(entries + [Entry(key, value, Record(n))], seen[key := n])
  {
    HasKeySnoc(entries, Entry(key, value, Record(n)));
  }

  lemma SeenAt(entries: seq<Entry>, seen: map<string, nat>, key: string)
    requires Seen(entries, seen)
    ensures key in seen <==> HasKey(entries, key)
    ensures key in seen ==> EntryOf(entries, key).loc.n == seen[key]
  {
  }

  method ParseNullRecords(data: string) returns (r: Result<seq<Entry>, RecordError>)
    ensures r == Parse(data)
  {
    if data == "" {
      return Ok([]);
    }
    assert ParseRecords([]) == Ok([]);
    hide ParseRecords, Split, TrimNUL, ValidKey, IndexOf, EntryOf, HasKey, Seen;
    var recs := Split(TrimNUL(data), NUL);
    var entries: seq<Entry> := [];
    var seen: map<string, nat> := map[];
    NothingSeen();
    assert recs[..0] == [];
    for i := 0 to |recs|
      invariant ParseRecords(recs[..i]) == Ok(entries) && Seen(entries, seen)
    {
      var rec, n := recs[i], i + 1;
      ParseSnoc(recs[..i], rec, n);
      assert recs[..i] + [rec] == recs[..n];
      if ParseRecords(recs[..n]).Err? { ErrorsStick(recs, n); }
      if rec == "" {
        return Err(RecordError(n, EmptyRecord));
      }
      var eq := IndexOf(rec, '=');
      if eq == |rec| {
        return Err(RecordError(n, NotRecord));
      }
      var key, value := rec[..eq], rec[eq + 1..];
      if CheckKey(key).Some? {
        return Err(RecordError(n, BadKey));
      }
      SeenAt(entries, seen, key);
      if key in seen {
        return Err(RecordError(n, Duplicate(seen[key])));
      }
      SeenSnoc(entries, seen, key, value, n);
      seen := seen[key := n];
      entries := entries + [Entry(key, value, Record(n))];
    }
    assert recs[..|recs|] == recs;
    return Ok(entries);
  }

  // ---------------------------------------------------------------- parser and printer

  function PrintRecord(e: Entry): string {
    e.key + "=" + e.value
  }

  function PrintRecords(entries: seq<Entry>): seq<string> {
    seq(|entries|, i requires 0 <= i < |entries| => PrintRecord(entries[i]))
  }

  function Print(entries: seq<Entry>): string
    requires |entries| > 0
  {
    Join(PrintRecords(entries), NUL)
  }

  predicate Numbered(entries: seq<Entry>) {
    forall i :: 0 <= i < |entries| ==> entries[i].loc == Record(i + 1)
  }

  predicate Printable(entries: seq<Entry>) {
    Distinct(entries) && ValidKeys(entries) && Numbered(entries)
    && forall i :: 0 <= i < |entries| ==> NUL !in entries[i].value
  }

  lemma ExtendPrinted(before: seq<Entry>, e: Entry, n: nat)
    requires ValidKey(e.key) && !HasKey(before, e.key) && e.loc == Record(n)
    ensures Extend(before, PrintRecord(e), n) == Ok(before + [e])
  {
    var rec := PrintRecord(e);
    assert '=' !in e.key by {
      assert forall i :: 0 <= i < |e.key| ==> KeyChar(e.key[i]);
    }
    assert rec == e.key + ['='] + e.value;
    IndexOfConcat(e.key, '=', e.value);
    assert rec[..|e.key|] == e.key && rec[|e.key| + 1..] == e.value;
  }

  lemma LastIsNew(entries: seq<Entry>)
    requires Distinct(entries) && ValidKeys(entries) && Numbered(entries) && entries != []
    ensures var n := |entries| - 1; var before, e := entries[..n], entries[n];
      && Distinct(before) && ValidKeys(before) && Numbered(before)
      && ValidKey(e.key) && !HasKey(before, e.key) && e.loc == Record(n + 1) && entries == before + [e]
  {
    hide ValidKey;
  }

  lemma {:induction false} ParsePrinted(entries: seq<Entry>)
    requires Distinct(entries) && ValidKeys(entries) && Numbered(entries)
    ensures ParseRecords(PrintRecords(entries)) == Ok(entries)
    decreases |entries|
  {
    if entries != [] {
      var n := |entries| - 1;
      var before, e := entries[..n], entries[n];
      hide Extend, ParseRecords, PrintRecord, ValidKey, HasKey;
      LastIsNew(entries);
      hide Distinct, ValidKeys, Numbered;
      ParsePrinted(before);
      ExtendPrinted(before, e, n + 1);
      ParseSnoc(PrintRecords(before), PrintRecord(e), n + 1);
      assert PrintRecords(entries) == PrintRecords(before) + [PrintRecord(e)];
    }
  }

  /** Printing a list and parsing it back, with or without a final NUL, gives the same list. */
  lemma NullRoundTrip(entries: seq<Entry>)
    requires |entries| > 0 && Printable(entries)
    ensures Parse(Print(entries)) == Ok(entries) && Parse(Print(entries) + [NUL]) == Ok(entries)
  {
    var recs := PrintRecords(entries);
    forall i | 0 <= i < |recs|
      ensures NUL !in recs[i] && recs[i] != ""
    {
      assert forall j :: 0 <= j < |entries[i].key| ==> KeyChar(entries[i].key[j]);
    }
    JoinEnd(recs, NUL);
    SplitJoin(recs, NUL);
    ParsePrinted(entries);
    assert (Print(entries) + [NUL])[..|Print(entries)|] == Print(entries);
  }

  lemma ExtendAccepted(before: seq<Entry>, rec: string, n: nat)
    requires Extend(before, rec, n).Ok? && NUL !in rec && Printable(before) && n == |before| + 1
    ensures var all := Extend(before, rec, n).value;
      |all| == n && all[..n - 1] == before && PrintRecord(all[n - 1]) == rec && Printable(all)
  {
    var eq := IndexOf(rec, '=');
    assert rec == rec[..eq] + "=" + rec[eq + 1..];
    assert forall i :: 0 <= i < |before| ==> before[i].key != rec[..eq];
  }

  lemma {:induction false} AcceptedPrints(recs: seq<string>)
    requires ParseRecords(recs).Ok? && forall i :: 0 <= i < |recs| ==> NUL !in recs[i]
    ensures Printable(ParseRecords(recs).value) && PrintRecords(ParseRecords(recs).value) == recs
    decreases |recs|
  {
    if recs != [] {
      var n := |recs| - 1;
      AcceptedPrints(recs[..n]);
      assert recs == recs[..n] + [recs[n]];
      ParseSnoc(recs[..n], recs[n], n + 1);
      hide Extend, Printable, PrintRecord;
      var before, all := ParseRecords(recs[..n]).value, ParseRecords(recs).value;
      assert |before| == |PrintRecords(before)| == n;
      ExtendAccepted(before, recs[n], n + 1);
      assert PrintRecords(all)[..n] == PrintRecords(before);
    }
  }

  /** Conversely, an accepted input is the print of what was read, up to one final NUL. */
  lemma NullAccepted(data: string)
    requires data != "" && Parse(data).Ok?
    ensures var entries := Parse(data).value;
      |entries| > 0 && Printable(entries) && (data == Print(entries) || data == Print(entries) + [NUL])
  {
    var body := TrimNUL(data);
    AcceptedPrints(Split(body, NUL));
    JoinSplit(body, NUL);
    if body != data {
      assert data == body + [NUL];
    }
  }

  // ---------------------------------------------------------------- the machine-readable output

  function Emitted(values: seq<string>): string {
    if values == [] then "" else Emitted(values[..|values| - 1]) + values[|values| - 1] + [NUL]
  }

  method EmitNUL(values: seq<string>) returns (out: string)
    ensures out == Emitted(values)
  {
    out := "";
    for i := 0 to |values|
      invariant out == Emitted(values[..i])
    {
      assert values[..i + 1][..i] == values[..i];
      out := out + values[i];
      out := out + [NUL];
    }
    assert values[..|values|] == values;
  }

  lemma {:induction false} EmittedJoin(values: seq<string>)
    requires values != []
    ensures Emitted(values) == Join(values, NUL) + [NUL]
    decreases |values|
  {
    var n := |values| - 1;
    if n == 0 {
      assert Emitted(values[..0]) == "";
    } else {
      EmittedJoin(values[..n]);
      JoinSnoc(values[..n], values[n]);
      assert values == values[..n] + [values[n]];
    }
  }

  lemma {:induction false} JoinSnoc(parts: seq<string>, last: string)
    requires parts != []
    ensures Join(parts + [last], NUL) == Join(parts, NUL) + [NUL] + last
    decreases |parts|
  {
    if |parts| == 1 {
      assert (parts + [last])[1..] == [last];
    } else {
      JoinSnoc(parts[1..], last);
      assert (parts + [last])[1..] == parts[1..] + [last];
    }
  }

  /** Splitting the output on NUL gives the requested values in order, byte for byte. */
  lemma EmittedSplits(values: seq<string>)
    requires values != [] && forall i :: 0 <= i < |values| ==> NUL !in values[i]
    ensures Split(TrimNUL(Emitted(values)), NUL) == values
  {
    EmittedJoin(values);
    SplitJoin(values, NUL);
    var j := Join(values, NUL);
    assert (j + [NUL])[..|j|] == j;
  }
}
