/** What the invariant gives for every run of the shared vault directory. */
module WritePathSafety {
  import opened Wrappers
  import opened VaultData
  import opened WritePath
  import opened WritePathInvariant

  predicate Runs(s: State, steps: seq<Step>, broken: bool)
    decreases |steps|
  {
    steps == [] || (Enabled(s, steps[0], broken) && Runs(Do(s, steps[0]), steps[1..], broken))
  }

  function Exec(s: State, steps: seq<Step>): State
    requires Runs(s, steps, true)
    decreases |steps|
  {
    if steps == [] then s else Exec(Do(s, steps[0]), steps[1..])
  }

  lemma {:induction false} RunsBroken(s: State, steps: seq<Step>)
    requires Runs(s, steps, false)
    ensures Runs(s, steps, true)
    decreases |steps|
  {
    if steps != [] {
      RunsBroken(Do(s, steps[0]), steps[1..]);
    }
  }

  /** The states the shipped code can reach. */
  ghost predicate Reachable(s: State) {
    exists steps :: Runs(INIT, steps, false) && Runs(INIT, steps, true) && Exec(INIT, steps) == s
  }

  lemma {:induction false} ReachableInv(s0: State, steps: seq<Step>)
    requires Inv(s0) && Runs(s0, steps, false)
    ensures Runs(s0, steps, true) && Inv(Exec(s0, steps))
    decreases |steps|
  {
    RunsBroken(s0, steps);
    if steps != [] {
      InvHolds(s0, steps[0]);
      ReachableInv(Do(s0, steps[0]), steps[1..]);
    }
  }

  lemma AlwaysInv(s: State)
    requires Reachable(s)
    ensures Inv(s)
  {
    var steps :| Runs(INIT, steps, false) && Runs(INIT, steps, true) && Exec(INIT, steps) == s;
    ReachableInv(INIT, steps);
  }

  // ---------------------------------------------------------------- what every run guarantees

  /** All open lock descriptors are of one inode, and at most one call is between flock and unlock. */
  lemma LockSound(s: State, t: Tid, u: Tid)
    requires Reachable(s) && t in s.writers && u in s.writers
    ensures LockOpen(s.writers[t].at) && LockOpen(s.writers[u].at) ==> s.writers[t].lf == s.writers[u].lf
    ensures Critical(s.writers[t].at) && Critical(s.writers[u].at) ==> t == u
  {
    AlwaysInv(s);
  }

  /** The mutations applied one after the other; None once one of them refuses. */
  function Replay(base: Contents, fns: seq<Mutation>): Option<Contents> {
    if fns == [] then Some(base)
    else match Replay(base, fns[..|fns| - 1])
      case Some(v) => fns[|fns| - 1](v)
      case None => None
  }

  function Mutations(hist: seq<Commit>): (fns: seq<Mutation>)
    ensures |fns| == |hist|
    ensures forall j :: 0 <= j < |hist| ==> fns[j] == hist[j].fn
  {
    seq(|hist|, j requires 0 <= j < |hist| => hist[j].fn)
  }

  lemma {:induction false} ReplayChain(hist: seq<Commit>)
    requires Chained(hist) && hist != []
    ensures Replay(hist[0].base, Mutations(hist)) == Some(hist[|hist| - 1].vault)
  {
    var n := |hist| - 1;
    var fns := Mutations(hist);
    assert fns[..n] == Mutations(hist[..n]);
    if n > 0 {
      ReplayChain(hist[..n]);
    } else {
      assert Replay(hist[0].base, fns[..0]) == Some(hist[0].base);
    }
  }

  /** The history holds exactly one commit of this call, made with its mutation. */
  ghost predicate CommittedOnce(hist: seq<Commit>, t: Tid, fn: Mutation) {
    exists i :: 0 <= i < |hist| && CommitAt(hist, i, t) && hist[i].fn == fn && (forall j :: CommitAt(hist, j, t) ==> j == i)
  }

  predicate CommitAt(hist: seq<Commit>, i: int, t: Tid) {
    0 <= i < |hist| && hist[i].author == t
  }

  /** No lost updates: secrets.age is the fold of the renamed mutations, in rename order, over a
      new vault; a call that returned nil is in that fold exactly once, with its own mutation. */
  lemma Linearizable(s: State)
    requires Reachable(s)
    ensures s.log.hist == [] <==> Vault !in s.fs.dir
    ensures s.log.hist != [] ==>
      && s.fs.dir[Vault] in s.fs.files && s.fs.files[s.fs.dir[Vault]].data.Whole?
      && IsNew(s.log.hist[0].base)
      && Replay(s.log.hist[0].base, Mutations(s.log.hist)) == Some(s.fs.files[s.fs.dir[Vault]].data.vault)
    ensures forall t :: t in s.writers && s.writers[t].ok ==> CommittedOnce(s.log.hist, t, s.writers[t].fn)
  {
    AlwaysInv(s);
    if s.log.hist != [] {
      ReplayChain(s.log.hist);
    }
    forall t | t in s.writers && s.writers[t].ok
      ensures CommittedOnce(s.log.hist, t, s.writers[t].fn)
    {
      assert AccountOK(t, s.writers[t], s.log);
      assert CommitAt(s.log.hist, s.writers[t].pos, t);
    }
  }

  predicate HoldsVersion(file: File, hist: seq<Commit>, k: int) {
    0 <= k < |hist| && file.data == Whole(hist[k].vault)
  }

  /** Every call that returned nil was committed at or before version k. */
  predicate IncludesAllOk(s: State, k: int) {
    forall t :: t in s.writers && s.writers[t].ok ==> s.writers[t].pos <= k && CommitAt(s.log.hist, s.writers[t].pos, t)
  }

  lemma SurvivingVersion(fs: FileSystem, log: Ledger, d: map<Name, Ino>, f: map<Ino, File>)
    requires StorageInv(fs, log) && DirMaySurvive(fs, d) && FilesMaySurvive(fs, f)
    ensures Vault !in d ==> log.durable == 0
    ensures Vault in d ==> d[Vault] in f && HoldsVersion(f[d[Vault]], log.hist, VersionOf(log.hist, d[Vault]) - 1)
    ensures Vault in d ==> VersionOf(log.hist, d[Vault]) >= log.durable
    ensures Bak in d ==> d[Bak] in f && f[d[Bak]].data.Whole?
  {
    PowerLossStorage(fs, log, d, f);
  }

  lemma OkIsDurable(s: State, t: Tid)
    requires AccountInv(s.writers, s.log) && s.log.durable <= |s.log.hist| && t in s.writers && s.writers[t].ok
    ensures s.writers[t].pos < s.log.durable && CommitAt(s.log.hist, s.writers[t].pos, t)
  {
    assert AccountOK(t, s.writers[t], s.log);
  }

  /** A power loss at any moment leaves secrets.age absent only if no call ever returned nil;
      otherwise it is the complete ciphertext of a committed version that includes every such call. */
  lemma PowerLossSafe(s: State, d: map<Name, Ino>, f: map<Ino, File>)
    requires Reachable(s) && DirMaySurvive(s.fs, d) && FilesMaySurvive(s.fs, f)
    ensures Vault !in d ==> forall t :: t in s.writers ==> !s.writers[t].ok
    ensures Vault in d ==> d[Vault] in f && exists k :: HoldsVersion(f[d[Vault]], s.log.hist, k) && IncludesAllOk(s, k)
    ensures Bak in d ==> d[Bak] in f && f[d[Bak]].data.Whole?
  {
    AlwaysInv(s);
    SurvivingVersion(s.fs, s.log, d, f);
    forall t | t in s.writers && s.writers[t].ok
      ensures s.writers[t].pos < s.log.durable && CommitAt(s.log.hist, s.writers[t].pos, t)
    {
      OkIsDurable(s, t);
    }
    if Vault in d {
      assert IncludesAllOk(s, VersionOf(s.log.hist, d[Vault]) - 1);
    }
  }

  /** Loads take no lock, yet each returns the version that was current when it opened the file,
      never a torn one; one reader's loads never go back, and none misses the vault after the
      first rename. */
  lemma SnapshotReads(s: State, r: Tid)
    requires Reachable(s) && r in s.readers
    ensures var log := s.readers[r].log;
      && (forall j :: 0 <= j < |log| ==>
            match log[j]
            case Found(at, v) => 1 <= at <= |s.log.hist| && v == s.log.hist[at - 1].vault
            case Absent(at) => at == 0
            case Corrupt(_) => false)
      && (forall j, k :: 0 <= j < k < |log| ==> log[j].at <= log[k].at)
  {
    AlwaysInv(s);
    assert ReaderOK(s.log.hist, s.readers[r]);
    forall j | 0 <= j < |s.readers[r].log|
      ensures LoadOK(s.log.hist, s.readers[r].log[j])
    {
    }
  }

  lemma TempNotNamed(fs: FileSystem, log: Ledger, t: Tid, w: Writer)
    requires HolderOK(fs, log, t, w) && (w.at == Writing || w.at == Syncing)
    ensures w.ino !in log.named
  {
  }

  /** No step, not even a power loss, changes a file that secrets.age or .bak ever named. */
  lemma NamedNeverWritten(s: State, step: Step)
    requires Reachable(s) && Enabled(s, step, false)
    ensures s.log.named <= Do(s, step).log.named
    ensures forall i :: i in s.log.named ==>
      i in s.fs.files && i in Do(s, step).fs.files && Do(s, step).fs.files[i] == s.fs.files[i]
  {
    hide LockInv, AuthorsInv, AccountInv, TempInv, BakInv, ReadersInv, Chained, DiskInv, VersionsInv, Reachable, HolderOK;
    AlwaysInv(s);
    if step.WriteChunk? || step.CloseWriter? || step.SyncTemp? {
      TempNotNamed(s.fs, s.log, step.t, s.writers[step.t]);
    }
  }

  predicate SameName(dir: map<Name, Ino>, dir': map<Name, Ino>, n: Name) {
    (n in dir <==> n in dir') && (n in dir ==> dir[n] == dir'[n])
  }

  lemma HistoryGrows(s: State, step: Step)
    requires Enabled(s, step, false) && !step.PowerLoss?
    ensures Do(s, step).log.lost == s.log.lost && s.log.hist <= Do(s, step).log.hist
    ensures |Do(s, step).log.hist| == |s.log.hist| + if step.Rename? then 1 else 0
  {
    hide Possible, At, SetName, RemoveName, SetFile, Release, OnError;
  }

  lemma VaultStays(s: State, step: Step)
    requires Enabled(s, step, false) && !step.PowerLoss?
    ensures if step.Rename? then Vault in Do(s, step).fs.dir else SameName(Do(s, step).fs.dir, s.fs.dir, Vault)
  {
    hide Release, OnError;
  }

  /** The rename is the commit point: no other step of a call changes what secrets.age names. */
  lemma OnlyRenameCommits(s: State, step: Step)
    requires Reachable(s) && Enabled(s, step, false) && !step.PowerLoss?
    ensures !step.Rename? ==> Do(s, step).log.hist == s.log.hist && SameName(Do(s, step).fs.dir, s.fs.dir, Vault)
    ensures step.Rename? ==> s.log.hist < Do(s, step).log.hist && |Do(s, step).log.hist| == |s.log.hist| + 1
    ensures step.Rename? ==> Vault in Do(s, step).fs.dir
  {
    hide Reachable, Possible, Do, SameName;
    HistoryGrows(s, step);
    VaultStays(s, step);
  }

  /** While the machine stays up, versions only accumulate, and secrets.age is never missing
      again once it is there. */
  lemma {:induction false} NeverMissing(s: State, steps: seq<Step>)
    requires Reachable(s) && Runs(s, steps, false) && Runs(s, steps, true)
    requires forall i :: 0 <= i < |steps| ==> !steps[i].PowerLoss?
    ensures s.log.hist <= Exec(s, steps).log.hist
    ensures Vault in s.fs.dir ==> Vault in Exec(s, steps).fs.dir
    decreases |steps|
  {
    if steps != [] {
      OnlyRenameCommits(s, steps[0]);
      ReachableNext(s, steps[0]);
      NeverMissing(Do(s, steps[0]), steps[1..]);
    }
  }

  lemma {:induction false} ExecOneMore(s: State, steps: seq<Step>, step: Step)
    requires Runs(s, steps, false) && Runs(s, steps, true) && Enabled(Exec(s, steps), step, false)
    ensures Runs(s, steps + [step], false) && Runs(s, steps + [step], true)
    ensures Exec(s, steps + [step]) == Do(Exec(s, steps), step)
    decreases |steps|
  {
    if steps == [] {
      assert steps + [step] == [step];
      assert [step][1..] == [];
    } else {
      ExecOneMore(Do(s, steps[0]), steps[1..], step);
      assert (steps + [step])[1..] == steps[1..] + [step];
    }
  }

  lemma ReachableNext(s: State, step: Step)
    requires Reachable(s) && Enabled(s, step, false)
    ensures Reachable(Do(s, step))
  {
    var steps :| Runs(INIT, steps, false) && Runs(INIT, steps, true) && Exec(INIT, steps) == s;
    ExecOneMore(INIT, steps, step);
  }

  /** Until a power loss, .bak is absent, the current version or the one before it, and a temp
      file belongs to a call still at work, a killed one, or one whose removal failed. */
  lemma BakAndTemps(s: State)
    requires Reachable(s) && !s.log.crashed
    ensures BakInv(s.fs.dir, s.log.hist)
    ensures TempInv(s.fs.dir, s.log.owner, s.writers)
  {
    AlwaysInv(s);
  }

  lemma HolderLanded(fs: FileSystem, log: Ledger, t: Tid, w: Writer)
    requires HolderOK(fs, log, t, w) && w.committed && Critical(w.at)
    ensures Landed(fs, log, t, w) && (HasTemp(w.at) ==> Temp(w.tmp) !in fs.dir)
  {
  }

  /** When a call that renamed is about to unlock, secrets.age is its version and .bak is the
      preceding one, also after power losses; its deferred removal finds nothing to remove. */
  lemma BakIsPrevious(s: State, t: Tid)
    requires Reachable(s) && t in s.writers && s.writers[t].committed && Critical(s.writers[t].at)
    ensures var n := |s.log.hist|;
      && n > 0 && s.log.hist[n - 1].author == t && Vault in s.fs.dir && s.fs.dir[Vault] == s.log.hist[n - 1].ino
      && (n > 1 ==> Bak in s.fs.dir && s.fs.dir[Bak] == s.log.hist[n - 2].ino)
    ensures HasTemp(s.writers[t].at) ==> Temp(s.writers[t].tmp) !in s.fs.dir
  {
    AlwaysInv(s);
    HolderLanded(s.fs, s.log, t, s.writers[t]);
  }

  /** A call that ended before its rename is nowhere in the history; one that ended after it is
      there whatever it reported, unless a power loss undid it, and then it had not returned nil. */
  lemma ExitAccount(s: State, t: Tid)
    requires Reachable(s) && t in s.writers
    ensures !s.writers[t].committed ==> !s.writers[t].ok && forall i :: !CommitAt(s.log.hist, i, t)
    ensures s.writers[t].committed && t !in s.log.lost ==> CommittedOnce(s.log.hist, t, s.writers[t].fn)
    ensures t in s.log.lost ==> !s.writers[t].ok && s.log.crashed
  {
    AlwaysInv(s);
    assert AccountOK(t, s.writers[t], s.log);
    if s.writers[t].committed && t !in s.log.lost {
      assert CommitAt(s.log.hist, s.writers[t].pos, t);
    }
  }

  /** A property of new vaults that every mutation in the run keeps holds of every version. */
  lemma {:induction false} VersionsKeep(s: State, p: Contents -> bool, k: nat)
    requires Reachable(s) && k < |s.log.hist|
    requires forall c :: IsNew(c) ==> p(c)
    requires forall t :: t in s.writers ==> KeepsProperty(s.writers[t].fn, p)
    ensures p(s.log.hist[k].vault)
  {
    AlwaysInv(s);
    var c := s.log.hist[k];
    if k > 0 {
      VersionsKeep(s, p, k - 1);
    }
    assert KeepsProperty(c.fn, p) && c.fn(c.base) == Some(c.vault);
  }

  ghost predicate KeepsProperty(fn: Mutation, p: Contents -> bool) {
    forall c :: p(c) && fn(c).Some? ==> p(fn(c).value)
  }
}
