/** The vault in memory: key and value rules, and the operations on the secrets map. */
module Format {
  import opened Wrappers
  import opened VaultData

  const NUL: char := '\0'

  predicate KeyStart(c: char) {
    'A' <= c <= 'Z' || c == '_'
  }

  predicate KeyChar(c: char) {
    KeyStart(c) || '0' <= c <= '9'
  }

  predicate ValidKey(k: string) {
    |k| > 0 && KeyStart(k[0]) && forall i :: 0 <= i < |k| ==> KeyChar(k[i])
  }

  datatype FormatError = InvalidKey | EmptyValue | HasNUL | KeyNotFound

  function CheckKey(k: string): Option<FormatError> {
    if ValidKey(k) then None else Some(InvalidKey)
  }

  function CheckValue(v: string): (r: Option<FormatError>)
    ensures r == Some(EmptyValue) <==> v == ""
    ensures r == Some(HasNUL) <==> v != "" && NUL in v
    ensures r.None? <==> v != "" && NUL !in v
  {
    if v == "" then Some(EmptyValue)
    else if NUL in v then Some(HasNUL)
    else None
  }

  predicate ValidValue(v: string) {
    v != "" && NUL !in v
  }

  /** What every consumer of a vault relies on. */
  predicate Sound(m: Secrets) {
    forall k :: k in m ==> ValidKey(k) && ValidValue(m[k].value)
  }

  // ---------------------------------------------------------------- order of names

  /** Byte-wise order, as `sort.Strings` uses it. */
  predicate LessEq(a: string, b: string) {
    a == "" || (b != "" && (a[0] < b[0] || (a[0] == b[0] && LessEq(a[1..], b[1..]))))
  }

  lemma {:induction false} LessEqTotal(a: string, b: string)
    ensures LessEq(a, b) || LessEq(b, a)
    ensures LessEq(a, b) && LessEq(b, a) ==> a == b
  {
    if a != "" && b != "" {
      LessEqTotal(a[1..], b[1..]);
      assert a == [a[0]] + a[1..] && b == [b[0]] + b[1..];
    }
  }

  lemma {:induction false} LessEqTransitive(a: string, b: string, c: string)
    requires LessEq(a, b) && LessEq(b, c)
    ensures LessEq(a, c)
  {
    if a != "" && a[0] == b[0] && b[0] == c[0] {
      LessEqTransitive(a[1..], b[1..], c[1..]);
    }
  }

  predicate Sorted(names: seq<string>) {
    forall i, j :: 0 <= i < j < |names| ==> LessEq(names[i], names[j]) && names[i] != names[j]
  }

  /** Puts a new name at its place in a sorted list. */
  method Insert(names: seq<string>, k: string) returns (r: seq<string>)
    requires Sorted(names) && k !in names
    ensures Sorted(r) && forall x :: x in r <==> x == k || x in names
  {
    var i := 0;
    while i < |names| && LessEq(names[i], k)
      invariant 0 <= i <= |names|
      invariant forall j :: 0 <= j < i ==> LessEq(names[j], k)
    {
      i := i + 1;
    }
    r := names[..i] + [k] + names[i..];
    InsertedAt(names, k, i);
  }

  /** Everything from i on is above k, because the name at i is. */
  lemma AboveFrom(names: seq<string>, k: string, i: nat)
    requires Sorted(names) && i < |names| && !LessEq(names[i], k)
    ensures forall j :: i <= j < |names| ==> LessEq(k, names[j])
  {
    LessEqTotal(names[i], k);
    forall j | i < j < |names|
      ensures LessEq(k, names[j])
    {
      LessEqTransitive(k, names[i], names[j]);
    }
  }

  lemma InsertedAt(names: seq<string>, k: string, i: nat)
    requires Sorted(names) && k !in names && i <= |names| && (i < |names| ==> !LessEq(names[i], k))
    requires forall j :: 0 <= j < i ==> LessEq(names[j], k)
    ensures var r := names[..i] + [k] + names[i..]; Sorted(r) && forall x :: x in r <==> x == k || x in names
  {
    if i < |names| {
      AboveFrom(names, k, i);
    }
    hide LessEq;
    var r := names[..i] + [k] + names[i..];
    assert forall j :: 0 <= j < |r| ==> r[j] == if j < i then names[j] else if j == i then k else names[j - 1];
    assert names == names[..i] + names[i..];
  }

  // ---------------------------------------------------------------- the vault object

  function Renamed(m: Secrets, old_: string, name: string): Secrets
    requires old_ in m
  {
    m[name := m[old_]] - {old_}
  }

  class Vault {
    var fpkey: string
    var secrets: Secrets

    constructor (c: Contents)
      ensures fpkey == c.fpkey && secrets == c.secrets
    {
      fpkey, secrets := c.fpkey, c.secrets;
    }

    method Set(key: string, value: string, now: Time) returns (err: Option<FormatError>)
      modifies this`secrets
      ensures err.None? <==> ValidKey(key) && ValidValue(value)
      ensures err == if ValidKey(key) then CheckValue(value) else Some(InvalidKey)
      ensures err.None? ==> secrets == old(secrets)[key := Secret(value, now)]
      ensures err.Some? ==> secrets == old(secrets)
      ensures old(Sound(secrets)) ==> Sound(secrets)
    {
      err := CheckKey(key);
      if err.Some? { return; }
      err := CheckValue(value);
      if err.Some? { return; }
      secrets := secrets[key := Secret(value, now)];
    }

    function Get(key: string): Option<Secret>
      reads this
    {
      if key in secrets then Some(secrets[key]) else None
    }

    method Delete(key: string) returns (present: bool)
      modifies this`secrets
      ensures present == (key in old(secrets))
      ensures secrets == old(secrets) - {key}
      ensures old(Sound(secrets)) ==> Sound(secrets)
    {
      if key !in secrets {
        assert secrets == secrets - {key};
        return false;
      }
      secrets := secrets - {key};
      return true;
    }

    /** The caller decides about collisions, and must not rename a key to itself. */
    method Rename(old_: string, name: string) returns (err: Option<FormatError>)
      modifies this`secrets
      ensures err == if old_ !in old(secrets) then Some(KeyNotFound) else CheckKey(name)
      ensures secrets == if err.None? then Renamed(old(secrets), old_, name) else old(secrets)
      ensures old(Sound(secrets)) ==> Sound(secrets)
    {
      if old_ !in secrets {
        return Some(KeyNotFound);
      }
      err := CheckKey(name);
      if err.Some? { return; }
      secrets := secrets[name := secrets[old_]];
      secrets := secrets - {old_};
    }

    /** Every key exactly once, in order; the map yields them in any order. */
    method Names() returns (names: seq<string>)
      ensures Sorted(names) && forall k :: k in names <==> k in secrets
    {
      names := [];
      var rest := secrets.Keys;
      while rest != {}
        invariant rest <= secrets.Keys && Sorted(names)
        invariant forall k :: k in names <==> k in secrets && k !in rest
        decreases rest
      {
        var k :| k in rest;
        names := Insert(names, k);
        rest := rest - {k};
      }
    }

    /** The absent ones among keys, in the order given. */
    method Missing(keys: seq<string>) returns (missing: seq<string>)
      ensures missing == Without(keys, secrets)
    {
      missing := [];
      for i := 0 to |keys|
        invariant missing == Without(keys[..i], secrets)
      {
        assert keys[..i + 1][..i] == keys[..i];
        if keys[i] !in secrets {
          missing := missing + [keys[i]];
        }
      }
      assert keys[..|keys|] == keys;
    }
  }

  function Without(keys: seq<string>, m: Secrets): (r: seq<string>)
    ensures forall k :: k in r <==> k in keys && k !in m
  {
    if keys == [] then []
    else
      var rest := Without(keys[..|keys| - 1], m);
      if keys[|keys| - 1] in m then rest else rest + [keys[|keys| - 1]]
  }

  /** Rename carries value and update time over exactly when the two names differ; given one
      name twice it would delete the secret. */
  lemma RenameMoves(m: Secrets, old_: string, name: string)
    requires old_ in m
    ensures (name in Renamed(m, old_, name) && Renamed(m, old_, name)[name] == m[old_]) <==> old_ != name
    ensures old_ !in Renamed(m, old_, name)
    ensures forall k :: k in m && k != old_ && k != name ==>
      k in Renamed(m, old_, name) && Renamed(m, old_, name)[k] == m[k]
    ensures Renamed(m, old_, name).Keys == m.Keys + {name} - {old_}
  {
  }
}
