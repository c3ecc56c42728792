/** The commands that change the vault, as mutations, and what holds of every version that any
    run of them commits. */
module WholeRun {
  import opened Wrappers
  import opened VaultData
  import opened Format
  import Entries
  import Import
  import Export
  import ChildEnv
  import NullRecords
  import Text
  import opened WritePath
  import opened WritePathSafety

  datatype Op =
    | Set(key: string, value: string, now: Time)
    | Delete(key: string)
    | Rename(old_: string, name: string, force: bool)
    | ImportText(text: string, null_: bool, overwrite: bool, skip: bool, clock: Import.Clock)

  function Imported(m: Secrets, op: Op): Option<Secrets>
    requires op.ImportText?
  {
    var parsed := Import.ParseInput(op.text, op.null_);
    if (op.overwrite && op.skip) || parsed.Err? || parsed.value == [] || !Import.AllValues(parsed.value) then None
    else if !op.overwrite && !op.skip && Import.Colliding(parsed.value, m) != [] then None
    else Some(Import.Merged(m, parsed.value, op.clock,
      if op.skip then Import.SkipExisting else if op.overwrite then Import.Overwrite else Import.Refuse))
  }

  /** The secrets a command stores, or None if it stores nothing. */
  function Result(m: Secrets, op: Op): Option<Secrets> {
    match op
    case Set(key, value, now) =>
      if ValidKey(key) && ValidValue(value) then Some(m[key := Secret(value, now)]) else None
    case Delete(key) => if key in m then Some(m - {key}) else None
    case Rename(old_, name, force) =>
      if old_ == name || !ValidKey(name) || old_ !in m || (name in m && !force) then None
      else Some(Renamed(m, old_, name))
    case ImportText(_, _, _, _, _) => Imported(m, op)
  }

  function Apply(op: Op): Mutation {
    (c: Contents) => match Result(c.secrets, op)
      case Some(m) => Some(c.(secrets := m))
      case None => None
  }

  /** When a command goes through. */
  ghost predicate Accepts(m: Secrets, op: Op) {
    match op
    case Set(key, value, _) => ValidKey(key) && value != "" && NUL !in value
    case Delete(key) => key in m
    case Rename(old_, name, force) => old_ in m && old_ != name && ValidKey(name) && (name !in m || force)
    case ImportText(text, null_, overwrite, skip, _) =>
      var parsed := Import.ParseInput(text, null_);
      && !(overwrite && skip) && parsed.Ok? && parsed.value != []
      && (forall i :: 0 <= i < |parsed.value| ==> parsed.value[i].value != "" && NUL !in parsed.value[i].value)
      && (overwrite || skip || forall i :: 0 <= i < |parsed.value| ==> parsed.value[i].key !in m)
  }

  /** What it does then. */
  ghost predicate Does(m: Secrets, op: Op, m': Secrets) {
    match op
    case Set(key, value, now) => key in m' && m'[key] == Secret(value, now) && m' - {key} == m - {key}
    case Delete(key) => key !in m' && m' == m - {key}
    case Rename(old_, name, _) =>
      && old_ in m && old_ !in m' && name in m' && m'[name] == m[old_]
      && forall k :: k != old_ && k != name ==> (k in m <==> k in m') && (k in m ==> m'[k] == m[k])
    case ImportText(text, null_, overwrite, skip, clock) =>
      Import.ParseInput(text, null_).Ok? && Import.Imports(m, Import.ParseInput(text, null_).value, clock, overwrite, skip, m')
  }

  /** The mutations are what the commands promise, stated without them. */
  lemma ResultDoes(m: Secrets, op: Op)
    ensures Result(m, op).Some? <==> Accepts(m, op)
    ensures Result(m, op).Some? ==> Does(m, op, Result(m, op).value)
  {
    match op
    case Rename(old_, name, _) => if old_ in m { RenameMoves(m, old_, name); }
    case ImportText(text, null_, overwrite, skip, clock) => ImportDoes(m, op);
    case _ =>
  }

  lemma ImportAccepts(m: Secrets, op: Op)
    requires op.ImportText?
    ensures Result(m, op).Some? <==> Accepts(m, op)
  {
    hide Import.Merged, Import.Colliding, Import.ParseInput;
    var parsed := Import.ParseInput(op.text, op.null_);
    if parsed.Ok? {
      Import.NoCollisions(parsed.value, m);
    }
  }

  lemma ImportDoes(m: Secrets, op: Op)
    requires op.ImportText?
    ensures Result(m, op).Some? <==> Accepts(m, op)
    ensures Result(m, op).Some? ==> Does(m, op, Result(m, op).value)
  {
    hide Import.Merged, Import.Imports, Import.Colliding, Import.ParseInput;
    ImportAccepts(m, op);
    if Result(m, op).Some? {
      var entries := Import.ParseInput(op.text, op.null_).value;
      Import.NoCollisions(entries, m);
      Import.ParsedKeys(op.text, op.null_);
      Import.MergedImports(m, entries, op.clock, op.overwrite, op.skip);
    }
  }

  /** The command on the vault object: it does what its mutation says. */
  method RunOp(v: Vault, op: Op) returns (ok: bool)
    modifies v`secrets
    ensures ok <==> Result(old(v.secrets), op).Some?
    ensures ok ==> v.secrets == Result(old(v.secrets), op).value
    ensures ok <==> Accepts(old(v.secrets), op)
    ensures if ok then Does(old(v.secrets), op, v.secrets) else v.secrets == old(v.secrets)
    ensures old(Sound(v.secrets)) ==> Sound(v.secrets)
  {
    ResultDoes(v.secrets, op);
    hide Import.Imports;
    match op {
      case Set(key, value, now) =>
        var err := v.Set(key, value, now);
        ok := err.None?;
      case Delete(key) =>
        ok := v.Delete(key);
      case Rename(old_, name, force) =>
        if old_ == name || CheckKey(name).Some? || v.Get(old_).None? || (v.Get(name).Some? && !force) {
          return false;
        }
        var err := v.Rename(old_, name);
        ok := err.None?;
      case ImportText(text, null_, overwrite, skip, clock) =>
        var err := Import.Import(v, text, null_, overwrite, skip, clock);
        ok := err.None?;
    }
  }

  lemma {:induction false} StoredSound(entries: seq<Entries.Entry>, clock: Import.Clock)
    requires forall i :: 0 <= i < |entries| ==> ValidKey(entries[i].key) && ValidValue(entries[i].value)
    ensures Sound(Import.Stored(entries, clock))
  {
    if entries != [] {
      StoredSound(entries[..|entries| - 1], clock);
    }
  }

  /** Every command keeps every key valid and every value usable. */
  lemma ResultSound(m: Secrets, op: Op)
    requires Sound(m) && Result(m, op).Some?
    ensures Sound(Result(m, op).value)
  {
    if op.ImportText? {
      Import.ParsedKeys(op.text, op.null_);
      StoredSound(Import.ParseInput(op.text, op.null_).value, op.clock);
    }
  }

  /** A successful rename moves the secret, value and update time, to a name it did not have. */
  lemma RenameKeepsSecret(m: Secrets, old_: string, name: string, force: bool)
    requires Result(m, Op.Rename(old_, name, force)).Some?
    ensures var m' := Result(m, Op.Rename(old_, name, force)).value;
      old_ in m && old_ !in m' && name in m' && m'[name] == m[old_]
      && forall k :: k != old_ && k != name ==> (k in m <==> k in m') && (k in m ==> m'[k] == m[k])
  {
    RenameMoves(m, old_, name);
  }

  ghost predicate OnlyCommands(s: State) {
    forall t :: t in s.writers ==> exists op :: s.writers[t].fn == Apply(op)
  }

  lemma CommandsKeep(s: State, p: Contents -> bool)
    requires OnlyCommands(s)
    requires forall c, op :: p(c) && Apply(op)(c).Some? ==> p(Apply(op)(c).value)
    ensures forall t :: t in s.writers ==> KeepsProperty(s.writers[t].fn, p)
  {
    forall t | t in s.writers
      ensures KeepsProperty(s.writers[t].fn, p)
    {
      var op :| s.writers[t].fn == Apply(op);
    }
  }

  /** In any run of any number of concurrent commands, with kills and power losses, every version
      ever committed is sound. */
  lemma EveryVersionSound(s: State, k: nat)
    requires Reachable(s) && OnlyCommands(s) && k < |s.log.hist|
    ensures Sound(s.log.hist[k].vault.secrets)
  {
    var p := (c: Contents) => Sound(c.secrets);
    forall c, op | p(c) && Apply(op)(c).Some?
      ensures p(Apply(op)(c).value)
    {
      ResultSound(c.secrets, op);
    }
    CommandsKeep(s, p);
    VersionsKeep(s, p, k);
  }

  /** The fingerprint key is chosen once: equal fingerprints keep meaning equal values. */
  lemma {:induction false} FingerprintKeyFixed(s: State, k: nat)
    requires Reachable(s) && OnlyCommands(s) && k < |s.log.hist|
    ensures s.log.hist[k].vault.fpkey == s.log.hist[0].base.fpkey
  {
    AlwaysInv(s);
    var c := s.log.hist[k];
    if k > 0 {
      FingerprintKeyFixed(s, k - 1);
    }
    var op :| s.writers[c.author].fn == Apply(op);
    assert c.fn == Apply(op) && c.fn(c.base) == Some(c.vault);
  }

  /** So the refusals left in the consumers never fire on a vault these commands wrote: export
      prints every secret, the child environment takes every key, and NUL-delimited output
      splits back into the values. */
  lemma SoundConsumers(m: Secrets, names: seq<string>)
    requires Sound(m) && forall i :: 0 <= i < |names| ==> names[i] in m
    ensures Export.Exportable(names, m)
    ensures ChildEnv.Usable(names, m) && ChildEnv.Resolved(names, m)
    ensures var values := seq(|names|, i requires 0 <= i < |names| => m[names[i]].value);
      names != [] ==> Text.Split(NullRecords.TrimNUL(NullRecords.Emitted(values)), NUL) == values
  {
    var values := seq(|names|, i requires 0 <= i < |names| => m[names[i]].value);
    if names != [] {
      NullRecords.EmittedSplits(values);
    }
  }
}
