/** `import`: parse, check every value, then merge into the vault under one of three policies. */
module Import {
  import opened Wrappers
  import opened VaultData
  import opened Format
  import opened Entries
  import Dotenv
  import DotenvGrammar
  import NullRecords

  datatype Policy = Refuse | Overwrite | SkipExisting

  datatype ImportError =
    | ExclusiveFlags
    | BadDotenv(line: Dotenv.ParseError)
    | BadRecords(record: NullRecords.RecordError)
    | NoAssignments
    | BadValue(loc: Loc, key: string, why: FormatError)
    | Collisions(keys: seq<string>)
    | SetFailed(loc: Loc, key: string, why: FormatError)

  type Clock = nat -> Time

  /** The entries as secrets, entry i stamped clock(i); of equal keys the last wins. */
  function Stored(entries: seq<Entry>, clock: Clock): Secrets {
    if entries == [] then map[]
    else
      var n := |entries| - 1;
      Stored(entries[..n], clock)[entries[n].key := Secret(entries[n].value, clock(n))]
  }

  /** The same, but of equal keys the first wins. */
  function FirstStored(entries: seq<Entry>, clock: Clock): Secrets {
    if entries == [] then map[]
    else
      var n := |entries| - 1;
      var before := FirstStored(entries[..n], clock);
      if entries[n].key in before then before else before[entries[n].key := Secret(entries[n].value, clock(n))]
  }

  /** What each policy makes of the old secrets: new over old, or old over new. */
  function Merged(old_: Secrets, entries: seq<Entry>, clock: Clock, policy: Policy): Secrets {
    if policy == SkipExisting then Stored(entries, clock) + old_ else old_ + Stored(entries, clock)
  }

  /** The keys already present, in input order. */
  function Colliding(entries: seq<Entry>, m: Secrets): (keys: seq<string>)
    ensures forall k :: k in keys <==> k in m && HasKey(entries, k)
  {
    if entries == [] then []
    else
      var n := |entries| - 1;
      var before := Colliding(entries[..n], m);
      assert entries == entries[..n] + [entries[n]];
      HasKeySnoc(entries[..n], entries[n]);
      if entries[n].key in m then before + [entries[n].key] else before
  }

  predicate Settable(e: Entry) {
    ValidKey(e.key) && ValidValue(e.value)
  }

  lemma {:induction false} StoredKeys(entries: seq<Entry>, clock: Clock)
    ensures forall k :: k in Stored(entries, clock) <==> HasKey(entries, k)
    ensures forall k :: k in FirstStored(entries, clock) <==> HasKey(entries, k)
  {
    if entries != [] {
      var n := |entries| - 1;
      StoredKeys(entries[..n], clock);
      assert entries == entries[..n] + [entries[n]];
      HasKeySnoc(entries[..n], entries[n]);
    }
  }

  /** The skip policy re-tests presence after earlier entries were stored, so it keeps the first of
      equal keys; with the distinct keys both parsers guarantee that is the same merge. */
  lemma {:induction false} FirstIsLast(entries: seq<Entry>, clock: Clock)
    requires Distinct(entries)
    ensures FirstStored(entries, clock) == Stored(entries, clock)
  {
    if entries != [] {
      var n := |entries| - 1;
      FirstIsLast(entries[..n], clock);
      StoredKeys(entries[..n], clock);
    }
  }

  lemma DuplicatesDiffer(clock: Clock)
    ensures var entries := [Entry("A", "1", Line(1)), Entry("A", "2", Line(2))];
      "A" in FirstStored(entries, clock) && "A" in Stored(entries, clock)
      && FirstStored(entries, clock)["A"].value == "1" && Stored(entries, clock)["A"].value == "2"
  {
    var entries := [Entry("A", "1", Line(1)), Entry("A", "2", Line(2))];
    assert entries[..1] == [entries[0]] && entries[..1][..0] == [];
  }

  lemma NotSettable(e: Entry)
    requires !(ValidKey(e.key) && ValidValue(e.value))
    ensures !Settable(e)
  {
  }

  method FindColliding(v: Vault, entries: seq<Entry>) returns (colliding: seq<string>)
    ensures colliding == Colliding(entries, v.secrets)
  {
    colliding := [];
    for i := 0 to |entries|
      invariant colliding == Colliding(entries[..i], v.secrets)
    {
      assert entries[..i + 1][..i] == entries[..i];
      if v.Get(entries[i].key).Some? {
        colliding := colliding + [entries[i].key];
      }
    }
    assert entries[..|entries|] == entries;
  }

  /** One pass of the storing loop, as each policy sees it. */
  lemma StoreStep(entries: seq<Entry>, i: nat, clock: Clock)
    requires i < |entries|
    ensures Stored(entries[..i + 1], clock) == Stored(entries[..i], clock)[entries[i].key := Secret(entries[i].value, clock(i))]
    ensures FirstStored(entries[..i + 1], clock) ==
      if entries[i].key in FirstStored(entries[..i], clock) then FirstStored(entries[..i], clock)
      else FirstStored(entries[..i], clock)[entries[i].key := Secret(entries[i].value, clock(i))]
  {
    assert entries[..i + 1][..i] == entries[..i];
  }

  lemma UnionPut(a: Secrets, b: Secrets, k: string, secret: Secret)
    ensures (a + b)[k := secret] == a + b[k := secret]
    ensures k !in a + b ==> (a + b)[k := secret] == a[k := secret] + b
    ensures k in b ==> a[k := secret] + b == a + b
  {
  }

  lemma NoneStored(clock: Clock)
    ensures Stored([], clock) == map[] && FirstStored([], clock) == map[]
  {
  }

  /** The closure `import` passes to Update. */
  method MergeInto(v: Vault, entries: seq<Entry>, policy: Policy, clock: Clock) returns (err: Option<ImportError>)
    modifies v`secrets
    ensures err.Some? && err.value.Collisions? <==> policy == Refuse && Colliding(entries, old(v.secrets)) != []
    ensures err.Some? && err.value.Collisions? ==>
      v.secrets == old(v.secrets) && err.value.keys == Colliding(entries, old(v.secrets))
    ensures err.Some? && !err.value.Collisions? ==> exists i :: 0 <= i < |entries| && !Settable(entries[i])
    ensures err.None? && policy != SkipExisting ==> v.secrets == old(v.secrets) + Stored(entries, clock)
    ensures err.None? && policy == SkipExisting ==> v.secrets == FirstStored(entries, clock) + old(v.secrets)
    ensures old(Sound(v.secrets)) ==> Sound(v.secrets)
  {
    var colliding := FindColliding(v, entries);
    hide Colliding, FirstStored, Stored, Settable;
    if colliding != [] && policy == Refuse {
      return Some(Collisions(colliding));
    }
    ghost var start := v.secrets;
    NoneStored(clock);
    assert entries[..0] == [];
    for i := 0 to |entries|
      invariant policy != SkipExisting ==> v.secrets == start + Stored(entries[..i], clock)
      invariant policy == SkipExisting ==> v.secrets == FirstStored(entries[..i], clock) + start
      invariant Sound(start) ==> Sound(v.secrets)
    {
      StoreStep(entries, i, clock);
      var e := entries[i];
      UnionPut(start, Stored(entries[..i], clock), e.key, Secret(e.value, clock(i)));
      UnionPut(FirstStored(entries[..i], clock), start, e.key, Secret(e.value, clock(i)));
      if v.Get(e.key).Some? && policy == SkipExisting {
        continue;
      }
      var bad := v.Set(e.key, e.value, clock(i));
      if bad.Some? {
        NotSettable(entries[i]);
        return Some(SetFailed(e.loc, e.key, bad.value));
      }
    }
    assert entries[..|entries|] == entries;
    return None;
  }

  // ---------------------------------------------------------------- the whole command

  function ParseInput(text: string, null_: bool): Result<seq<Entry>, ImportError> {
    if null_ then
      match NullRecords.Parse(text)
      case Ok(entries) => Ok(entries)
      case Err(e) => Err(BadRecords(e))
    else
      match Dotenv.Parse(Dotenv.Lines(text))
      case Ok(entries) => Ok(entries)
      case Err(e) => Err(BadDotenv(e))
  }

  /** Both grammars give valid and distinct keys, which the merge relies on. */
  lemma ParsedKeys(text: string, null_: bool)
    requires ParseInput(text, null_).Ok?
    ensures Distinct(ParseInput(text, null_).value) && ValidKeys(ParseInput(text, null_).value)
  {
    if !null_ {
      DotenvGrammar.DotenvKeys(text);
    } else if text != "" {
      NullRecords.NullAccepted(text);
    }
  }

  predicate AllValues(entries: seq<Entry>) {
    forall i :: 0 <= i < |entries| ==> ValidValue(entries[i].value)
  }

  ghost predicate FirstUnfit(entries: seq<Entry>, i: int) {
    0 <= i < |entries| && !ValidValue(entries[i].value) && forall j :: 0 <= j < i ==> ValidValue(entries[j].value)
  }

  function Refused(e: Entry): ImportError
    requires !ValidValue(e.value)
  {
    BadValue(e.loc, e.key, if e.value == "" then EmptyValue else HasNUL)
  }

  /** The error is about the first value that cannot be stored. */
  ghost predicate RefusesFirst(entries: seq<Entry>, err: ImportError) {
    exists i :: FirstUnfit(entries, i) && err == Refused(entries[i])
  }

  /** Every entry is in the vault as it was read, stamped with its time. */
  ghost predicate AllStored(entries: seq<Entry>, clock: Clock, m: Secrets) {
    forall i :: 0 <= i < |entries| ==> entries[i].key in m && m[entries[i].key] == Secret(entries[i].value, clock(i))
  }

  /** Every entry whose key was not there before is. */
  ghost predicate NewStored(old_: Secrets, entries: seq<Entry>, clock: Clock, m: Secrets) {
    forall i :: 0 <= i < |entries| && entries[i].key !in old_ ==>
      entries[i].key in m && m[entries[i].key] == Secret(entries[i].value, clock(i))
  }

  /** What the flags promise of the vault: with `skip` what was there stays and only new keys are
      stored, else every entry is; other keys stay as they were and none is added. */
  ghost predicate Imports(old_: Secrets, entries: seq<Entry>, clock: Clock, overwrite: bool, skip: bool, m: Secrets) {
    && (if skip then (forall k :: k in old_ ==> k in m && m[k] == old_[k]) && NewStored(old_, entries, clock, m)
        else AllStored(entries, clock, m))
    && (!overwrite && !skip ==> forall i :: 0 <= i < |entries| ==> entries[i].key !in old_)
    && (forall k :: k in m <==> k in old_ || HasKey(entries, k))
    && (forall k :: k in old_ && !HasKey(entries, k) ==> m[k] == old_[k])
  }

  lemma {:induction false} StoredValues(entries: seq<Entry>, clock: Clock)
    requires Distinct(entries)
    ensures AllStored(entries, clock, Stored(entries, clock))
  {
    if entries != [] {
      var n := |entries| - 1;
      StoredValues(entries[..n], clock);
      forall i | 0 <= i < |entries|
        ensures entries[i].key in Stored(entries, clock) && Stored(entries, clock)[entries[i].key] == Secret(entries[i].value, clock(i))
      {
        if i < n { assert entries[..n][i] == entries[i]; }
      }
    }
  }

  lemma KeysOfEntries(entries: seq<Entry>)
    ensures forall i :: 0 <= i < |entries| ==> HasKey(entries, entries[i].key)
  {
    forall i | 0 <= i < |entries|
      ensures HasKey(entries, entries[i].key)
    {
    }
  }

  lemma NewOverOld(old_: Secrets, entries: seq<Entry>, clock: Clock, overwrite: bool, stored: Secrets)
    requires AllStored(entries, clock, stored) && forall k :: k in stored <==> HasKey(entries, k)
    requires !overwrite ==> forall i :: 0 <= i < |entries| ==> entries[i].key !in old_
    ensures Imports(old_, entries, clock, overwrite, false, old_ + stored)
  {
    hide HasKey;
  }

  lemma OldOverNew(old_: Secrets, entries: seq<Entry>, clock: Clock, stored: Secrets)
    requires AllStored(entries, clock, stored) && forall k :: k in stored <==> HasKey(entries, k)
    ensures Imports(old_, entries, clock, false, true, stored + old_)
  {
    hide HasKey;
  }

  lemma NoCollisions(entries: seq<Entry>, m: Secrets)
    ensures Colliding(entries, m) == [] <==> forall i :: 0 <= i < |entries| ==> entries[i].key !in m
  {
    KeysOfEntries(entries);
    hide HasKey;
    var keys := Colliding(entries, m);
    if keys == [] {
      forall i | 0 <= i < |entries|
        ensures entries[i].key !in m
      {
        assert entries[i].key !in keys;
      }
    } else {
      assert keys[0] in keys;
      var e := EntryFor(entries, keys[0]);
    }
  }

  lemma EntryFor(entries: seq<Entry>, key: string) returns (i: nat)
    requires HasKey(entries, key)
    ensures i < |entries| && entries[i].key == key
  {
    var k :| 0 <= k < |entries| && entries[k].key == key;
    i := k;
  }

  lemma MergedImports(old_: Secrets, entries: seq<Entry>, clock: Clock, overwrite: bool, skip: bool)
    requires Distinct(entries) && !(overwrite && skip) && (overwrite || skip || Colliding(entries, old_) == [])
    ensures Imports(old_, entries, clock, overwrite, skip,
      Merged(old_, entries, clock, if skip then SkipExisting else if overwrite then Overwrite else Refuse))
  {
    StoredKeys(entries, clock);
    StoredValues(entries, clock);
    NoCollisions(entries, old_);
    hide Stored, Distinct, Imports, AllStored, HasKey, Colliding;
    if skip {
      OldOverNew(old_, entries, clock, Stored(entries, clock));
    } else {
      NewOverOld(old_, entries, clock, overwrite, Stored(entries, clock));
    }
  }

  /** Either the vault becomes exactly the merge of its secrets with the whole input, or it stays
      as it was; `Set` itself never refuses. */
  method Import(v: Vault, text: string, null_: bool, overwrite: bool, skip: bool, clock: Clock)
    returns (err: Option<ImportError>)
    modifies v`secrets
    ensures err.None? <==>
      && !(overwrite && skip) && ParseInput(text, null_).Ok? && ParseInput(text, null_).value != []
      && AllValues(ParseInput(text, null_).value)
      && (overwrite || skip || Colliding(ParseInput(text, null_).value, old(v.secrets)) == [])
    ensures err.None? ==> v.secrets == Merged(old(v.secrets), ParseInput(text, null_).value, clock,
      if skip then SkipExisting else if overwrite then Overwrite else Refuse)
    ensures err.None? ==> Imports(old(v.secrets), ParseInput(text, null_).value, clock, overwrite, skip, v.secrets)
    ensures err.Some? ==> v.secrets == old(v.secrets) && !err.value.SetFailed?
    ensures err == Some(ExclusiveFlags) <==> overwrite && skip
    ensures !(overwrite && skip) && ParseInput(text, null_).Err? ==> err == Some(ParseInput(text, null_).error)
    ensures err.Some? && err.value.BadValue? ==> ParseInput(text, null_).Ok? && RefusesFirst(ParseInput(text, null_).value, err.value)
    ensures err.Some? && err.value.Collisions? ==>
      ParseInput(text, null_).Ok? && err.value.keys == Colliding(ParseInput(text, null_).value, v.secrets)
    ensures old(Sound(v.secrets)) ==> Sound(v.secrets)
  {
    if overwrite && skip {
      return Some(ExclusiveFlags);
    }
    var entries;
    if null_ {
      var r := NullRecords.ParseNullRecords(text);
      if r.Err? { return Some(BadRecords(r.error)); }
      entries := r.value;
    } else {
      var r := Dotenv.ParseDotenv(text);
      if r.Err? { return Some(BadDotenv(r.error)); }
      entries := r.value;
    }
    if entries == [] {
      return Some(NoAssignments);
    }
    for i := 0 to |entries|
      invariant forall j :: 0 <= j < i ==> ValidValue(entries[j].value)
    {
      var why := CheckValue(entries[i].value);
      if why.Some? {
        assert FirstUnfit(entries, i);
        return Some(BadValue(entries[i].loc, entries[i].key, why.value));
      }
    }
    ghost var start := v.secrets;
    ParsedKeys(text, null_);
    assert forall i :: 0 <= i < |entries| ==> Settable(entries[i]);
    err := MergeInto(v, entries, if skip then SkipExisting else if overwrite then Overwrite else Refuse, clock);
    FirstIsLast(entries, clock);
    if err.None? {
      MergedImports(start, entries, clock, overwrite, skip);
    }
  }
}
