/** `run`: the key lists, the all-or-nothing lookup, and the environment of the child. */
module ChildEnv {
  import opened Wrappers
  import opened VaultData
  import opened Format
  import opened Text

  // ---------------------------------------------------------------- key lists

  datatype RunError =
    | NothingNamed | EmptyKey | BadKey(key: string) | InBoth(keys: seq<string>) | Missing(keys: seq<string>)
    | Unusable(keys: seq<string>, why: FormatError)

  /** The keys a flag names. */
  function KeysOf(csv: string): seq<string> {
    if csv == "" then [] else Split(csv, ',')
  }

  predicate AllKeys(keys: seq<string>) {
    forall i :: 0 <= i < |keys| ==> ValidKey(keys[i])
  }

  method KeyList(csv: string) returns (r: Result<seq<string>, RunError>)
    ensures r.Ok? <==> AllKeys(KeysOf(csv))
    ensures r.Ok? ==> r.value == KeysOf(csv)
    ensures r.Err? ==> exists i :: FirstInvalid(KeysOf(csv), i) && r.error == KeyError(KeysOf(csv)[i])
  {
    if csv == "" {
      return Ok([]);
    }
    var keys := Split(csv, ',');
    for i := 0 to |keys|
      invariant forall j :: 0 <= j < i ==> ValidKey(keys[j])
    {
      if keys[i] == "" {
        assert !ValidKey(KeysOf(csv)[i]);
        assert FirstInvalid(KeysOf(csv), i);
        return Err(EmptyKey);
      }
      if CheckKey(keys[i]).Some? {
        assert FirstInvalid(KeysOf(csv), i);
        return Err(BadKey(keys[i]));
      }
    }
    return Ok(keys);
  }

  ghost predicate FirstInvalid(keys: seq<string>, i: int) {
    0 <= i < |keys| && !ValidKey(keys[i]) && forall j :: 0 <= j < i ==> ValidKey(keys[j])
  }

  function KeyError(k: string): RunError {
    if k == "" then EmptyKey else BadKey(k)
  }

  /** A list of valid names survives being written with commas and split again. */
  lemma KeyListRoundTrip(keys: seq<string>)
    requires keys != [] && forall i :: 0 <= i < |keys| ==> ValidKey(keys[i])
    ensures Split(Join(keys, ','), ',') == keys && KeysOf(Join(keys, ',')) == keys && KeysOf("") == []
  {
    forall i | 0 <= i < |keys|
      ensures ',' !in keys[i]
    {
      assert forall j :: 0 <= j < |keys[i]| ==> KeyChar(keys[i][j]);
    }
    SplitJoin(keys, ',');
    assert ValidKey(keys[|keys| - 1]);
    JoinEnd(keys, ',');
  }

  /** The elements of keys that satisfy membership in s, in order. */
  function Those(keys: seq<string>, s: set<string>): (r: seq<string>)
    ensures forall k :: k in r <==> k in keys && k in s
  {
    if keys == [] then []
    else
      var n := |keys| - 1;
      if keys[n] in s then Those(keys[..n], s) + [keys[n]] else Those(keys[..n], s)
  }

  lemma NoneOf(s: set<string>)
    ensures Those([], s) == []
  {
  }

  lemma ThoseSnoc(keys: seq<string>, i: nat, s: set<string>)
    requires i < |keys|
    ensures Those(keys[..i + 1], s) == if keys[i] in s then Those(keys[..i], s) + [keys[i]] else Those(keys[..i], s)
  {
    assert keys[..i + 1][..i] == keys[..i];
  }

  /** A key must not be both required and optional; every such key is named. */
  method NamedInBoth(required: seq<string>, optional: seq<string>) returns (both: seq<string>)
    ensures both == Those(optional, set k | k in required)
  {
    var named: set<string> := {};
    for i := 0 to |required|
      invariant named == set k | k in required[..i]
    {
      named := named + {required[i]};
    }
    assert required[..|required|] == required;
    both := [];
    for i := 0 to |optional|
      invariant both == Those(optional[..i], named)
    {
      ThoseSnoc(optional, i, named);
      if optional[i] in named {
        both := both + [optional[i]];
      }
    }
    assert optional[..|optional|] == optional;
  }

  predicate Paired(keys: seq<string>, secrets: seq<Secret>, m: Secrets) {
    |secrets| == |keys| && forall i :: 0 <= i < |keys| ==> keys[i] in m && secrets[i] == m[keys[i]]
  }

  lemma PairedSnoc(keys: seq<string>, secrets: seq<Secret>, m: Secrets, k: string)
    requires Paired(keys, secrets, m) && k in m
    ensures Paired(keys + [k], secrets + [m[k]], m)
  {
  }

  /** Every required key, then the optional keys that are present, with their secrets. */
  method LookupSome(v: Vault, required: seq<string>, optional: seq<string>)
    returns (r: Result<(seq<string>, seq<Secret>), RunError>)
    ensures r.Err? <==> Without(required, v.secrets) != []
    ensures r.Err? ==> r.error == Missing(Without(required, v.secrets))
    ensures r.Ok? ==> r.value.0 == required + Those(optional, v.secrets.Keys)
    ensures r.Ok? ==> Paired(r.value.0, r.value.1, v.secrets)
  {
    assert Paired([], [], v.secrets);
    hide Paired, Those;
    var missing := v.Missing(required);
    if |missing| > 0 {
      assert missing[0] in missing;
      return Err(Missing(missing));
    }
    assert forall k :: k in required && k !in v.secrets ==> k in missing;
    hide Without;
    var keys: seq<string>, secrets: seq<Secret> := [], [];
    for i := 0 to |required|
      invariant keys == required[..i] && Paired(keys, secrets, v.secrets)
    {
      assert required[i] in required;
      PairedSnoc(keys, secrets, v.secrets, required[i]);
      assert required[..i + 1] == required[..i] + [required[i]];
      keys, secrets := keys + [required[i]], secrets + [v.secrets[required[i]]];
    }
    assert keys == required;
    for i := 0 to |optional|
      invariant keys == required + Those(optional[..i], v.secrets.Keys) && Paired(keys, secrets, v.secrets)
    {
      ThoseSnoc(optional, i, v.secrets.Keys);
      if v.Get(optional[i]).Some? {
        PairedSnoc(keys, secrets, v.secrets, optional[i]);
        keys, secrets := keys + [optional[i]], secrets + [v.secrets[optional[i]]];
      }
    }
    assert optional[..|optional|] == optional;
    return Ok((keys, secrets));
  }

  // ---------------------------------------------------------------- the environment

  /** The name of an environment entry; an entry without one is left alone. */
  function NameOf(kv: string): Option<string> {
    var eq := IndexOf(kv, '=');
    if 0 < eq < |kv| then Some(kv[..eq]) else None
  }

  ghost predicate Names(env: seq<string>, i: int, name: string) {
    0 <= i < |env| && NameOf(env[i]) == Some(name)
  }

  ghost predicate IsLast(env: seq<string>, i: int, name: string) {
    Names(env, i, name) && forall j :: i < j < |env| ==> !Names(env, j, name)
  }

  function EntryFor(k: string, m: Secrets): string
    requires k in m
  {
    k + "=" + m[k].value
  }

  /** Entry i of the result: replaced if it is the last of a resolved name. */
  ghost function Replaced(env: seq<string>, i: nat, keys: seq<string>, m: Secrets): string
    requires i < |env| && forall k :: k in keys ==> k in m
  {
    match NameOf(env[i])
    case Some(name) => if name in keys && IsLast(env, i, name) then EntryFor(name, m) else env[i]
    case None => env[i]
  }

  ghost predicate Inherited(env: seq<string>, name: string) {
    exists i :: Names(env, i, name)
  }

  /** The entries added at the end. */
  ghost function Added(env: seq<string>, keys: seq<string>, m: Secrets): seq<string>
    requires forall k :: k in keys ==> k in m
  {
    if keys == [] then []
    else
      var k := keys[|keys| - 1];
      Added(env, keys[..|keys| - 1], m) + if Inherited(env, k) then [] else [EntryFor(k, m)]
  }

  ghost function Overlay(env: seq<string>, keys: seq<string>, m: Secrets): seq<string>
    requires forall k :: k in keys ==> k in m
  {
    seq(|env|, i requires 0 <= i < |env| => Replaced(env, i, keys, m)) + Added(env, keys, m)
  }

  predicate Usable(keys: seq<string>, m: Secrets)
  {
    forall k :: k in keys ==> k in m && ValidValue(m[k].value)
  }

  method IndexNames(env: seq<string>) returns (at: map<string, nat>)
    ensures forall name :: name in at <==> Inherited(env, name)
    ensures forall name :: name in at ==> IsLast(env, at[name], name)
  {
    at := map[];
    for i := 0 to |env|
      invariant forall name :: name in at ==> at[name] < i && Names(env, at[name], name)
      invariant forall name, j :: j < i && Names(env, j, name) ==> name in at && j <= at[name]
    {
      var name := NameOf(env[i]);
      if name.Some? {
        assert Names(env, i, name.value);
        at := at[name.value := i];
      }
    }
  }

  /** The keys whose values cannot be put into an environment. */
  function Unfit(m: Secrets): set<string> {
    set k | k in m && !ValidValue(m[k].value)
  }

  /** What refuses the whole environment: every offending key in order, and the first one's reason. */
  function Refusal(keys: seq<string>, m: Secrets): (r: Option<RunError>)
    ensures r.None? <==> forall k :: k in keys && k in m ==> ValidValue(m[k].value)
  {
    var bad := Those(keys, Unfit(m));
    if bad == [] then
      assert forall k :: k in keys && k in Unfit(m) ==> k in bad;
      None
    else
      assert bad[0] in bad;
      Some(Unusable(bad, CheckValue(m[bad[0]].value).value))
  }

  method Offending(keys: seq<string>, secrets: seq<Secret>, ghost m: Secrets) returns (r: Option<RunError>)
    requires Paired(keys, secrets, m)
    ensures r == Refusal(keys, m)
  {
    hide CheckValue, Those;
    var bad: seq<string>, reason: Option<FormatError> := [], None;
    assert keys[..0] == [];
    NoneOf(Unfit(m));
    for i := 0 to |keys|
      invariant bad == Those(keys[..i], Unfit(m))
      invariant bad == [] ==> reason == None
      invariant bad != [] ==> bad[0] in m && reason.Some? && reason == CheckValue(m[bad[0]].value)
    {
      ThoseSnoc(keys, i, Unfit(m));
      var err := CheckValue(secrets[i].value);
      if err.Some? {
        if reason.None? {
          reason := err;
        }
        bad := bad + [keys[i]];
      }
    }
    assert keys[..|keys|] == keys;
    return if reason.None? then None else Some(Unusable(bad, reason.value));
  }

  lemma OverlaySnoc(env: seq<string>, keys: seq<string>, k: string, m: Secrets, at: map<string, nat>)
    requires forall x :: x in keys ==> x in m
    requires k in m
    requires forall name :: name in at <==> Inherited(env, name)
    requires forall name :: name in at ==> IsLast(env, at[name], name)
    ensures k in at ==> at[k] < |Overlay(env, keys, m)|
    ensures k in at ==> Overlay(env, keys + [k], m) == Overlay(env, keys, m)[at[k] := EntryFor(k, m)]
    ensures k !in at ==> Overlay(env, keys + [k], m) == Overlay(env, keys, m) + [EntryFor(k, m)]
  {
    assert (keys + [k])[..|keys|] == keys;
    var before, after := Overlay(env, keys, m), Overlay(env, keys + [k], m);
    forall i | 0 <= i < |env|
      ensures after[i] == if k in at && at[k] == i then EntryFor(k, m) else before[i]
    {
      assert Replaced(env, i, keys + [k], m) == if k in at && at[k] == i then EntryFor(k, m) else Replaced(env, i, keys, m) by {
        if NameOf(env[i]) == Some(k) { assert Names(env, i, k); }
      }
    }
  }

  /** The inherited environment with the resolved secrets laid over it. */
  method ChildEnv(inherited: seq<string>, keys: seq<string>, secrets: seq<Secret>, ghost m: Secrets)
    returns (r: Result<seq<string>, RunError>)
    requires Paired(keys, secrets, m)
    ensures r.Ok? <==> Usable(keys, m)
    ensures r.Ok? ==> r.value == Overlay(inherited, keys, m)
    ensures r.Err? ==> Some(r.error) == Refusal(keys, m)
  {
    var env := inherited;
    var at := IndexNames(inherited);
    var refusal := Offending(keys, secrets, m);
    if refusal.Some? {
      return Err(refusal.value);
    }
    assert env == Overlay(inherited, [], m);
    for i := 0 to |keys|
      invariant env == Overlay(inherited, keys[..i], m)
    {
      OverlaySnoc(inherited, keys[..i], keys[i], m, at);
      assert keys[..i] + [keys[i]] == keys[..i + 1];
      var entry := keys[i] + "=" + secrets[i].value;
      if keys[i] in at {
        env := env[at[keys[i]] := entry];
      } else {
        env := env + [entry];
      }
    }
    assert keys[..|keys|] == keys;
    return Ok(env);
  }

  /** `run` up to the exec: everything is resolved before anything is started. */
  method Run(v: Vault, inherited: seq<string>, only: string, optional: string) returns (r: Result<seq<string>, RunError>)
    ensures r.Ok? <==>
      && (only != "" || optional != "") && AllKeys(KeysOf(only)) && AllKeys(KeysOf(optional))
      && Those(KeysOf(optional), set k | k in KeysOf(only)) == [] && Without(KeysOf(only), v.secrets) == []
      && Usable(KeysOf(only) + Those(KeysOf(optional), v.secrets.Keys), v.secrets)
    ensures r.Ok? ==> r.value == Overlay(inherited, KeysOf(only) + Those(KeysOf(optional), v.secrets.Keys), v.secrets)
    ensures Sound(v.secrets) ==> !(r.Err? && r.error.Unusable?)
  {
    if only == "" && optional == "" {
      return Err(NothingNamed);
    }
    var required := KeyList(only);
    if required.Err? { return Err(required.error); }
    var opt := KeyList(optional);
    if opt.Err? { return Err(opt.error); }
    var both := NamedInBoth(required.value, opt.value);
    if both != [] {
      return Err(InBoth(both));
    }
    var found := LookupSome(v, required.value, opt.value);
    if found.Err? { return Err(found.error); }
    r := ChildEnv(inherited, found.value.0, found.value.1, v.secrets);
  }

  // ---------------------------------------------------------------- what the child sees

  /** Looking a name up from the front, as most libraries do. */
  function First(env: seq<string>, name: string): Option<string> {
    if env == [] then None
    else if NameOf(env[0]) == Some(name) then Some(env[0][|name| + 1..])
    else First(env[1..], name)
  }

  /** Looking it up from the back. */
  function Last(env: seq<string>, name: string): Option<string> {
    if env == [] then None
    else if NameOf(env[|env| - 1]) == Some(name) then Some(env[|env| - 1][|name| + 1..])
    else Last(env[..|env| - 1], name)
  }

  ghost predicate DistinctNames(env: seq<string>) {
    forall i, j, name :: Names(env, i, name) && Names(env, j, name) ==> i == j
  }

  lemma {:induction false} FirstReads(env: seq<string>, name: string, v: string)
    requires forall i :: Names(env, i, name) ==> env[i] == name + "=" + v
    ensures First(env, name) == if Inherited(env, name) then Some(v) else None
    decreases |env|
  {
    if env != [] {
      if NameOf(env[0]) == Some(name) {
        assert Names(env, 0, name);
        assert (name + "=" + v)[|name| + 1..] == v;
      } else {
        forall i | Names(env[1..], i, name)
          ensures env[1..][i] == name + "=" + v
        {
          assert Names(env, i + 1, name);
        }
        FirstReads(env[1..], name, v);
        if Inherited(env[1..], name) {
          var i :| Names(env[1..], i, name);
          assert Names(env, i + 1, name);
        }
        if Inherited(env, name) {
          var i :| Names(env, i, name);
          assert Names(env[1..], i - 1, name);
        }
      }
    }
  }

  lemma {:induction false} LastReads(env: seq<string>, name: string, v: string)
    requires forall i :: Names(env, i, name) ==> env[i] == name + "=" + v
    ensures Last(env, name) == if Inherited(env, name) then Some(v) else None
    decreases |env|
  {
    if env != [] {
      var n := |env| - 1;
      if NameOf(env[n]) == Some(name) {
        assert Names(env, n, name);
        assert (name + "=" + v)[|name| + 1..] == v;
      } else {
        forall i | Names(env[..n], i, name)
          ensures env[..n][i] == name + "=" + v
        {
          assert Names(env, i, name);
        }
        LastReads(env[..n], name, v);
        if Inherited(env[..n], name) {
          var i :| Names(env[..n], i, name);
          assert Names(env, i, name);
        }
        if Inherited(env, name) {
          var i :| Names(env, i, name);
          assert Names(env[..n], i, name);
        }
      }
    }
  }

  lemma EntryNames(k: string, m: Secrets)
    requires k in m && ValidKey(k)
    ensures NameOf(EntryFor(k, m)) == Some(k)
  {
    assert '=' !in k by {
      assert forall i :: 0 <= i < |k| ==> KeyChar(k[i]);
    }
    assert EntryFor(k, m) == k + ['='] + m[k].value;
    IndexOfConcat(k, '=', m[k].value);
    assert EntryFor(k, m)[..|k|] == k;
  }

  predicate Resolved(keys: seq<string>, m: Secrets) {
    forall k :: k in keys ==> k in m && ValidKey(k)
  }

  /** Inherited entries keep their positions and names. */
  lemma OverlayPositions(env: seq<string>, keys: seq<string>, m: Secrets, i: nat)
    requires Resolved(keys, m) && i < |env|
    ensures i < |Overlay(env, keys, m)| && NameOf(Overlay(env, keys, m)[i]) == NameOf(env[i])
    ensures (NameOf(env[i]).None? || NameOf(env[i]).value !in keys) ==> Overlay(env, keys, m)[i] == env[i]
  {
    if NameOf(env[i]).Some? && NameOf(env[i]).value in keys {
      EntryNames(NameOf(env[i]).value, m);
    }
  }

  ghost predicate IsAdded(env: seq<string>, keys: seq<string>, m: Secrets, entry: string)
    requires Resolved(keys, m)
  {
    exists k :: k in keys && !Inherited(env, k) && entry == EntryFor(k, m)
  }

  lemma {:induction false} AddedEntries(env: seq<string>, keys: seq<string>, m: Secrets)
    requires Resolved(keys, m)
    ensures forall i :: 0 <= i < |Added(env, keys, m)| ==> IsAdded(env, keys, m, Added(env, keys, m)[i])
    ensures forall k :: k in keys && !Inherited(env, k) ==> EntryFor(k, m) in Added(env, keys, m)
  {
    if keys != [] {
      var init, k := keys[..|keys| - 1], keys[|keys| - 1];
      AddedEntries(env, init, m);
      assert keys == init + [k];
      forall i | 0 <= i < |Added(env, keys, m)|
        ensures IsAdded(env, keys, m, Added(env, keys, m)[i])
      {
        if i < |Added(env, init, m)| {
          assert IsAdded(env, init, m, Added(env, init, m)[i]);
        } else {
          assert k in keys;
        }
      }
    }
  }

  lemma OverlayHas(env: seq<string>, keys: seq<string>, m: Secrets, name: string)
    requires Resolved(keys, m)
    ensures Inherited(Overlay(env, keys, m), name) <== name in keys || Inherited(env, name)
  {
    if Inherited(env, name) {
      var i :| Names(env, i, name);
      OverlayPositions(env, keys, m, i);
      assert Names(Overlay(env, keys, m), i, name);
    } else if name in keys {
      AddedEntries(env, keys, m);
      EntryNames(name, m);
      var i :| 0 <= i < |Added(env, keys, m)| && Added(env, keys, m)[i] == EntryFor(name, m);
      assert Names(Overlay(env, keys, m), |env| + i, name);
    }
  }

  predicate NoRepeats(keys: seq<string>) {
    forall i, j :: 0 <= i < j < |keys| ==> keys[i] != keys[j]
  }

  lemma {:induction false} AddedDistinct(env: seq<string>, keys: seq<string>, m: Secrets)
    requires Resolved(keys, m) && NoRepeats(keys)
    ensures DistinctNames(Added(env, keys, m))
  {
    if keys != [] {
      var init, k := keys[..|keys| - 1], keys[|keys| - 1];
      var before, after := Added(env, init, m), Added(env, keys, m);
      AddedDistinct(env, init, m);
      AddedEntries(env, init, m);
      EntryNames(k, m);
      forall i, name | Names(after, i, name) && i < |before|
        ensures Names(before, i, name) && name != k
      {
        assert IsAdded(env, init, m, before[i]);
        var x :| x in init && !Inherited(env, x) && before[i] == EntryFor(x, m);
        EntryNames(x, m);
      }
    }
  }

  /** Distinct inherited names and distinct keys give an environment in which every name, so every
      requested key, occurs once. */
  lemma OverlayDistinct(env: seq<string>, keys: seq<string>, m: Secrets)
    requires Resolved(keys, m) && NoRepeats(keys) && DistinctNames(env)
    ensures DistinctNames(Overlay(env, keys, m))
  {
    var o := Overlay(env, keys, m);
    AddedDistinct(env, keys, m);
    AddedEntries(env, keys, m);
    forall i, name | Names(o, i, name)
      ensures i < |env| ==> Names(env, i, name)
      ensures i >= |env| ==> Names(Added(env, keys, m), i - |env|, name) && !Inherited(env, name)
    {
      if i < |env| {
        OverlayPositions(env, keys, m, i);
      } else {
        assert IsAdded(env, keys, m, Added(env, keys, m)[i - |env|]);
        var x :| x in keys && !Inherited(env, x) && o[i] == EntryFor(x, m);
        EntryNames(x, m);
      }
    }
  }

  lemma {:induction false} FirstIs(env: seq<string>, i: nat, name: string)
    requires Names(env, i, name) && forall j :: 0 <= j < i ==> !Names(env, j, name)
    ensures First(env, name) == Some(env[i][|name| + 1..])
    decreases i
  {
    if i > 0 {
      assert !Names(env, 0, name);
      forall j | 0 <= j < i - 1
        ensures !Names(env[1..], j, name)
      {
        assert !Names(env, j + 1, name);
      }
      FirstIs(env[1..], i - 1, name);
    }
  }

  lemma {:induction false} LastIs(env: seq<string>, i: nat, name: string)
    requires IsLast(env, i, name)
    ensures Last(env, name) == Some(env[i][|name| + 1..])
    decreases |env|
  {
    var n := |env| - 1;
    if i < n {
      assert !Names(env, n, name);
      forall j | i < j < n
        ensures !Names(env[..n], j, name)
      {
        assert !Names(env, j, name);
      }
      LastIs(env[..n], i, name);
    }
  }

  lemma {:induction false} FirstIndex(env: seq<string>, name: string) returns (i: nat)
    requires Inherited(env, name)
    ensures Names(env, i, name) && forall j :: 0 <= j < i ==> !Names(env, j, name)
    decreases |env|
  {
    var k :| Names(env, k, name);
    if NameOf(env[0]) == Some(name) {
      i := 0;
    } else {
      assert Names(env[1..], k - 1, name);
      i := FirstIndex(env[1..], name);
      i := i + 1;
      forall j | 0 <= j < i
        ensures !Names(env, j, name)
      {
        if j > 0 { assert !Names(env[1..], j - 1, name); }
      }
    }
  }

  lemma {:induction false} LastIndex(env: seq<string>, name: string) returns (i: nat)
    requires Inherited(env, name)
    ensures IsLast(env, i, name)
    decreases |env|
  {
    var k :| Names(env, k, name);
    var n := |env| - 1;
    if NameOf(env[n]) == Some(name) {
      i := n;
    } else {
      assert Names(env[..n], k, name);
      i := LastIndex(env[..n], name);
      forall j | i < j < |env|
        ensures !Names(env, j, name)
      {
        if j < n { assert !Names(env[..n], j, name); }
      }
    }
  }

  /** An inherited name is not added again, and its entries stay where they were. */
  lemma SamePlaces(env: seq<string>, keys: seq<string>, m: Secrets, name: string, i: int)
    requires Resolved(keys, m) && Inherited(env, name)
    ensures Names(Overlay(env, keys, m), i, name) <==> Names(env, i, name)
  {
    var o := Overlay(env, keys, m);
    if 0 <= i < |env| {
      OverlayPositions(env, keys, m, i);
    } else if |env| <= i < |o| {
      AddedEntries(env, keys, m);
      assert IsAdded(env, keys, m, Added(env, keys, m)[i - |env|]);
      var x :| x in keys && !Inherited(env, x) && o[i] == EntryFor(x, m);
      EntryNames(x, m);
    }
  }

  ghost predicate Once(env: seq<string>, name: string) {
    forall i, j :: Names(env, i, name) && Names(env, j, name) ==> i == j
  }

  /** Whatever was inherited, a lookup from the back finds the vault value; one from the front does
      exactly when the name was inherited at most once, or its first entry already had that value. */
  lemma ResolvedLookup(env: seq<string>, keys: seq<string>, m: Secrets, name: string)
    requires Resolved(keys, m) && name in keys
    ensures Last(Overlay(env, keys, m), name) == Some(m[name].value)
    ensures First(Overlay(env, keys, m), name) == Some(m[name].value) <==>
      Once(env, name) || First(env, name) == Some(m[name].value)
  {
    var o := Overlay(env, keys, m);
    if Inherited(env, name) {
      InheritedLookup(env, keys, m, name);
    } else {
      OverlayHas(env, keys, m, name);
      forall i | Names(o, i, name)
        ensures o[i] == EntryFor(name, m)
      {
        AddedOnly(env, keys, m, name, i);
      }
      FirstReads(o, name, m[name].value);
      LastReads(o, name, m[name].value);
    }
  }

  lemma AddedOnly(env: seq<string>, keys: seq<string>, m: Secrets, name: string, i: int)
    requires Resolved(keys, m) && name in keys && !Inherited(env, name) && Names(Overlay(env, keys, m), i, name)
    ensures Overlay(env, keys, m)[i] == EntryFor(name, m)
  {
    if i < |env| {
      OverlayPositions(env, keys, m, i);
      assert Names(env, i, name);
    } else {
      AddedEntries(env, keys, m);
      assert IsAdded(env, keys, m, Added(env, keys, m)[i - |env|]);
      var x :| x in keys && !Inherited(env, x) && Overlay(env, keys, m)[i] == EntryFor(x, m);
      EntryNames(x, m);
    }
  }

  lemma ValueOfEntry(k: string, m: Secrets)
    requires k in m
    ensures EntryFor(k, m)[|k| + 1..] == m[k].value
  {
  }

  lemma InheritedLookup(env: seq<string>, keys: seq<string>, m: Secrets, name: string)
    requires Resolved(keys, m) && name in keys && Inherited(env, name)
    ensures Last(Overlay(env, keys, m), name) == Some(m[name].value)
    ensures First(Overlay(env, keys, m), name) == Some(m[name].value) <==>
      Once(env, name) || First(env, name) == Some(m[name].value)
  {
    var o := Overlay(env, keys, m);
    var f := FirstIndex(env, name);
    var l := LastIndex(env, name);
    forall i
      ensures Names(o, i, name) <==> Names(env, i, name)
    {
      SamePlaces(env, keys, m, name, i);
    }
    ValueOfEntry(name, m);
    assert o[l] == EntryFor(name, m);
    FirstIs(env, f, name);
    FirstIs(o, f, name);
    LastIs(o, l, name);
    if f != l {
      assert !IsLast(env, f, name) && o[f] == env[f];
      assert !Once(env, name);
    } else {
      assert Once(env, name) by {
        forall i, j | Names(env, i, name) && Names(env, j, name)
          ensures i == j
        {
          assert f <= i <= l && f <= j <= l;
        }
      }
    }
  }

  /** A name that was not asked for reads as it did before. */
  lemma OtherLookup(env: seq<string>, keys: seq<string>, m: Secrets, name: string)
    requires Resolved(keys, m) && name !in keys
    ensures First(Overlay(env, keys, m), name) == First(env, name)
    ensures Last(Overlay(env, keys, m), name) == Last(env, name)
  {
    var o := Overlay(env, keys, m);
    if Inherited(env, name) {
      var f := FirstIndex(env, name);
      var l := LastIndex(env, name);
      forall i
        ensures Names(o, i, name) <==> Names(env, i, name)
      {
        SamePlaces(env, keys, m, name, i);
      }
      FirstIs(env, f, name);
      FirstIs(o, f, name);
      LastIs(env, l, name);
      LastIs(o, l, name);
    } else {
      forall i
        ensures !Names(o, i, name)
      {
        if Names(o, i, name) && i >= |env| {
          AddedEntries(env, keys, m);
          assert IsAdded(env, keys, m, Added(env, keys, m)[i - |env|]);
          var x :| x in keys && !Inherited(env, x) && o[i] == EntryFor(x, m);
          EntryNames(x, m);
        } else if Names(o, i, name) {
          OverlayPositions(env, keys, m, i);
          assert Names(env, i, name);
        }
      }
      FirstReads(o, name, "");
      LastReads(o, name, "");
      FirstReads(env, name, "");
      LastReads(env, name, "");
    }
  }

  /** So with distinct inherited names both lookups agree on every name: the vault value of every
      resolved key, and for any other name exactly what was inherited. */
  lemma OverlayLookup(env: seq<string>, keys: seq<string>, m: Secrets, name: string)
    requires Resolved(keys, m) && DistinctNames(env)
    ensures var v := if name in keys then Some(m[name].value) else First(env, name);
      First(Overlay(env, keys, m), name) == v && Last(Overlay(env, keys, m), name) == v
  {
    if name in keys {
      ResolvedLookup(env, keys, m, name);
    } else {
      OtherLookup(env, keys, m, name);
      if Inherited(env, name) {
        var f := FirstIndex(env, name);
        var l := LastIndex(env, name);
        FirstIs(env, f, name);
        LastIs(env, l, name);
      } else {
        FirstReads(env, name, "");
        LastReads(env, name, "");
      }
    }
  }
}
