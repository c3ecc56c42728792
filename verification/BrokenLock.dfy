/** Why the lock file is never unlinked: with the stress test's `brokenUpdate`, which removes it
    after unlocking, two calls hold a lock at once and a write that was reported saved is lost. */
module BrokenLock {
  import opened Wrappers
  import opened VaultData
  import opened WritePath
  import opened WritePathSafety

  ghost predicate ReachableBroken(s: State) {
    exists steps :: Runs(INIT, steps, true) && Exec(INIT, steps) == s
  }

  lemma {:induction false} ExecBroken(s: State, steps: seq<Step>, step: Step)
    requires Runs(s, steps, true) && Enabled(Exec(s, steps), step, true)
    ensures Runs(s, steps + [step], true) && Exec(s, steps + [step]) == Do(Exec(s, steps), step)
    decreases |steps|
  {
    if steps == [] {
      assert steps + [step] == [step];
      assert [step][1..] == [];
    } else {
      ExecBroken(Do(s, steps[0]), steps[1..], step);
      assert (steps + [step])[1..] == steps[1..] + [step];
    }
  }

  lemma Take(s: State, step: Step) returns (s': State)
    requires ReachableBroken(s) && Enabled(s, step, true)
    ensures s' == Do(s, step) && ReachableBroken(s')
  {
    var steps :| Runs(INIT, steps, true) && Exec(INIT, steps) == s;
    ExecBroken(INIT, steps, step);
    s' := Do(s, step);
  }

  function Put(key: string): Mutation {
    (c: Contents) => Some(c.(secrets := c.secrets[key := Secret("v", 0)]))
  }

  /** Call t has the lock file open as inode lf and has saved nothing yet. */
  ghost predicate Holding(s: State, t: Tid, fn: Mutation, at: Stage, lf: Ino) {
    t in s.writers && s.writers[t].fn == fn && s.writers[t].at == at && s.writers[t].lf == lf && !s.writers[t].committed
  }

  lemma Begun() returns (s: State)
    ensures ReachableBroken(s)
    ensures Holding(s, 1, Put("X"), OpeningLock, 0) && Holding(s, 2, Put("A"), OpeningLock, 0) && 3 !in s.writers
    ensures s.held == map[] && s.fs == INIT.fs && s.log == INIT.log
  {
    s := INIT;
    assert Runs(INIT, [], true) && Exec(INIT, []) == s;
    hide Runs, Exec, ReachableBroken;
    s := Start(s, 1, Put("X"));
    s := Start(s, 2, Put("A"));
  }

  lemma Start(s0: State, t: Tid, fn: Mutation) returns (s: State)
    requires ReachableBroken(s0) && t !in s0.writers
    ensures ReachableBroken(s) && s == s0.(writers := s.writers) && Holding(s, t, fn, OpeningLock, 0)
    ensures s.writers.Keys == s0.writers.Keys + {t} && forall u :: u in s0.writers ==> s.writers[u] == s0.writers[u]
  {
    hide Runs, Exec, ReachableBroken;
    s := Take(s0, Begin(t, fn));
  }

  lemma BothOpened() returns (s: State)
    ensures ReachableBroken(s)
    ensures Holding(s, 1, Put("X"), Locking, 0) && Holding(s, 2, Put("A"), Locking, 0) && 3 !in s.writers
    ensures s.held == map[] && s.fs.dir == map[Lock := 0] && s.fs.files.Keys == {0} && s.log == INIT.log
  {
    hide Runs, Exec, ReachableBroken;
    s := Begun();
    s := Take(s, OpenLock(1, 0));
    s := Take(s, OpenLock(2, 1));
  }

  /** Call 1 locks inode 0 while call 2 already has it open. */
  lemma Waiting() returns (s: State)
    ensures ReachableBroken(s)
    ensures Holding(s, 1, Put("X"), OpeningVault, 0) && Holding(s, 2, Put("A"), Locking, 0) && 3 !in s.writers
    ensures s.held == map[0 := 1] && s.fs.dir == map[Lock := 0] && s.fs.files.Keys == {0} && s.log == INIT.log
  {
    hide Runs, Exec, ReachableBroken;
    s := BothOpened();
    s := Take(s, Flock(1));
  }

  lemma Failed() returns (s: State)
    ensures ReachableBroken(s)
    ensures Holding(s, 1, Put("X"), Unlocking, 0) && Holding(s, 2, Put("A"), Locking, 0) && 3 !in s.writers
    ensures s.held == map[0 := 1] && s.fs.dir == map[Lock := 0] && s.fs.files.Keys == {0} && s.log == INIT.log
  {
    hide Runs, Exec, ReachableBroken;
    s := Waiting();
    s := Take(s, Fail(1));
  }

  lemma GaveUp() returns (s: State)
    ensures ReachableBroken(s)
    ensures Holding(s, 1, Put("X"), ClosingLock, 0) && Holding(s, 2, Put("A"), Locking, 0) && 3 !in s.writers
    ensures s.held == map[] && s.fs.dir == map[Lock := 0] && s.fs.files.Keys == {0} && s.log == INIT.log
  {
    hide Runs, Exec, ReachableBroken;
    s := Failed();
    s := Take(s, Unlock(1));
    assert s.held == map[];
  }
  /** Call 1 gives up, unlocks and unlinks the lock that call 2 has open. */
  lemma Orphaned() returns (s: State)
    ensures ReachableBroken(s)
    ensures Holding(s, 2, Put("A"), Locking, 0) && 3 !in s.writers
    ensures s.held == map[] && s.fs.dir == map[] && s.fs.files.Keys == {0} && s.log == INIT.log
  {
    hide Runs, Exec, ReachableBroken;
    s := GaveUp();
    s := Take(s, CloseLock(1));
    s := Take(s, UnlinkLock(1));
  }

  lemma OrphanLocked() returns (s: State)
    ensures ReachableBroken(s)
    ensures Holding(s, 2, Put("A"), OpeningVault, 0) && Holding(s, 3, Put("B"), OpeningLock, 0)
    ensures s.held == map[0 := 2] && s.fs.dir == map[] && s.fs.files.Keys == {0} && s.log == INIT.log
  {
    hide Runs, Exec, ReachableBroken;
    s := Orphaned();
    s := Take(s, Flock(2));
    s := Take(s, Begin(3, Put("B")));
  }

  /** Call 2 locks the orphan, call 3 a new lock file: both are in their critical sections. */
  lemma TwoHolders() returns (s: State)
    ensures ReachableBroken(s)
    ensures Holding(s, 2, Put("A"), OpeningVault, 0) && Holding(s, 3, Put("B"), OpeningVault, 1)
    ensures s.held == map[0 := 2, 1 := 3]
    ensures s.fs.dir == map[Lock := 1] && s.fs.files.Keys == {0, 1} && s.log == INIT.log
  {
    hide Runs, Exec, ReachableBroken;
    s := OrphanLocked();
    s := Take(s, OpenLock(3, 1));
    s := Take(s, Flock(3));
  }

  const EMPTY := Contents("", map[])
  const WITH_A := Contents("", map["A" := Secret("v", 0)])
  const WITH_B := Contents("", map["B" := Secret("v", 0)])

  /** Call t has its whole temp file on disk under inode i. */
  ghost predicate Ready(s: State, t: Tid, i: Ino, n: nat, fn: Mutation, next: Contents) {
    && t in s.writers && s.writers[t].at == ClosingTemp && s.writers[t].tmp == n && s.writers[t].ino == i
    && s.writers[t].fn == fn && s.writers[t].next == next && s.writers[t].base == EMPTY && !s.writers[t].committed
    && i in s.fs.files && s.fs.files[i].data == Whole(next)
  }

  lemma StartTemp(s0: State, t: Tid, i: Ino, n: nat, fn: Mutation) returns (s: State)
    requires ReachableBroken(s0) && At(s0, t, OpeningVault) && s0.writers[t].fn == fn && !s0.writers[t].committed
    requires Vault !in s0.fs.dir && Temp(n) !in s0.fs.dir && i !in s0.fs.files && fn(EMPTY).Some?
    ensures ReachableBroken(s)
    ensures s.fs.dir == s0.fs.dir[Temp(n) := i] && s.fs.files == s0.fs.files[i := File(Partial, false)]
    ensures s.log.hist == s0.log.hist && s.log.crashed == s0.log.crashed
    ensures s.writers == s0.writers[t :=
      s0.writers[t].(at := Writing, base := EMPTY, next := fn(EMPTY).value, tmp := n, ino := i)]
  {
    hide Runs, Exec, ReachableBroken;
    s := Take(s0, OpenVault(t, ""));
    s := Take(s, Mutate(t));
    s := Take(s, CreateTemp(t, n, i));
  }

  /** From the open of an absent vault to the synced temp file. */
  lemma Prepare(s0: State, t: Tid, i: Ino, n: nat, fn: Mutation) returns (s: State)
    requires ReachableBroken(s0) && At(s0, t, OpeningVault) && s0.writers[t].fn == fn && !s0.writers[t].committed
    requires Vault !in s0.fs.dir && Temp(n) !in s0.fs.dir && i !in s0.fs.files && fn(EMPTY).Some?
    ensures ReachableBroken(s) && Ready(s, t, i, n, fn, fn(EMPTY).value)
    ensures s.fs.dir == s0.fs.dir[Temp(n) := i] && s.fs.files == s0.fs.files[i := File(Whole(fn(EMPTY).value), true)]
    ensures s.log.hist == s0.log.hist && s.log.crashed == s0.log.crashed
    ensures s.writers == s0.writers[t := s.writers[t]]
  {
    hide Runs, Exec, ReachableBroken;
    s := StartTemp(s0, t, i, n, fn);
    s := Fill(s, t, i, fn(EMPTY).value);
  }

  lemma Fill(s0: State, t: Tid, i: Ino, next: Contents) returns (s: State)
    requires ReachableBroken(s0) && At(s0, t, Writing) && s0.writers[t].ino == i && s0.writers[t].next == next
    ensures ReachableBroken(s)
    ensures s == s0.(fs := SetFile(s0.fs, i, File(Whole(next), true)), writers := s0.writers[t := s0.writers[t].(at := ClosingTemp)])
  {
    hide Runs, Exec, ReachableBroken;
    s := Take(s0, CloseWriter(t));
    s := Take(s, SyncTemp(t));
  }

  lemma BothPrepared() returns (s: State)
    ensures ReachableBroken(s) && !s.log.crashed
    ensures Ready(s, 2, 2, 0, Put("A"), WITH_A) && Ready(s, 3, 3, 1, Put("B"), WITH_B)
    ensures s.fs.dir == map[Lock := 1, Temp(0) := 2, Temp(1) := 3] && s.log.hist == []
  {
    hide Runs, Exec, ReachableBroken;
    s := TwoHolders();
    s := Prepare(s, 2, 2, 0, Put("A"));
    s := Prepare(s, 3, 3, 1, Put("B"));
  }

  lemma ReadyToRename(s0: State, t: Tid, i: Ino, n: nat, fn: Mutation, next: Contents) returns (s: State)
    requires ReachableBroken(s0) && Ready(s0, t, i, n, fn, next) && Vault !in s0.fs.dir
    ensures ReachableBroken(s) && s == SetWriter(s0, t, s0.writers[t].(at := Renaming))
  {
    hide Runs, Exec, ReachableBroken;
    s := Take(s0, CloseTemp(t));
    s := Take(s, StatVault(t));
  }

  /** A rename with its stat before it, when there is no vault yet. */
  lemma FirstRename(s0: State, t: Tid, i: Ino, n: nat, fn: Mutation, next: Contents) returns (s: State)
    requires ReachableBroken(s0) && Ready(s0, t, i, n, fn, next) && Vault !in s0.fs.dir
    requires Temp(n) in s0.fs.dir && s0.fs.dir[Temp(n)] == i
    ensures ReachableBroken(s) && At(s, t, SyncingDir) && s.writers[t].fn == fn && s.writers[t].tmp == n
    ensures s.fs.dir == (s0.fs.dir - {Temp(n)})[Vault := i] && s.fs.files == s0.fs.files
    ensures s.log.crashed == s0.log.crashed
    ensures s.writers == s0.writers[t := s.writers[t]]
  {
    hide Runs, Exec, ReachableBroken;
    s := ReadyToRename(s0, t, i, n, fn, next);
    s := Take(s, Rename(t));
  }

  /** Call 3 has its temp file ready beside a vault that call 2 renamed. */
  ghost predicate Beside(s: State, at: Stage, ok: bool) {
    && ReachableBroken(s) && !s.log.crashed && At(s, 2, at) && (ok ==> s.writers[2].ok)
    && s.writers[2].fn == Put("A") && s.writers[2].tmp == 0
    && Ready(s, 3, 3, 1, Put("B"), WITH_B)
    && s.fs.dir == map[Lock := 1, Vault := 2, Temp(1) := 3]
  }

  lemma StepOf2(s0: State, step: Step, at: Stage, next: Stage, ok: bool, saved: bool) returns (s: State)
    requires Beside(s0, at, ok) && Enabled(s0, step, true)
    requires Do(s0, step).fs.dir == s0.fs.dir && Do(s0, step).fs.files == s0.fs.files && !Do(s0, step).log.crashed
    requires var w := s0.writers[2].(at := next, ok := s0.writers[2].ok || saved); Do(s0, step).writers == s0.writers[2 := w]
    requires saved ==> ok || step.CloseDir?
    ensures s == Do(s0, step) && Beside(s, next, saved)
  {
    hide Runs, Exec, ReachableBroken, Do, Possible;
    s := Take(s0, step);
  }

  lemma FirstRenamed() returns (s: State)
    ensures Beside(s, SyncingDir, false)
  {
    hide Runs, Exec, ReachableBroken, Do, Possible;
    s := BothPrepared();
    s := FirstRename(s, 2, 2, 0, Put("A"), WITH_A);
  }

  lemma FirstSaved() returns (s: State)
    ensures Beside(s, RemovingTemp, true)
  {
    hide Runs, Exec, ReachableBroken;
    s := FirstRenamed();
    s := StepOf2(s, SyncDir(2), SyncingDir, ClosingDir, false, false);
    s := StepOf2(s, CloseDir(2), ClosingDir, RemovingTemp, false, true);
  }

  /** Call 2 has returned nil, with its write in the vault. */
  lemma FirstReturned() returns (s: State)
    ensures Beside(s, Returned, true)
  {
    hide Runs, Exec, ReachableBroken;
    s := FirstSaved();
    s := StepOf2(s, RemoveTemp(2), RemovingTemp, Unlocking, true, true);
    s := StepOf2(s, Unlock(2), Unlocking, ClosingLock, true, true);
    s := StepOf2(s, CloseLock(2), ClosingLock, Returned, true, true);
  }

  lemma SecondReady() returns (s: State)
    ensures ReachableBroken(s) && !s.log.crashed
    ensures At(s, 2, Returned) && s.writers[2].ok && s.writers[2].fn == Put("A")
    ensures At(s, 3, LinkingBak) && s.writers[3].tmp == 1
    ensures s.fs.dir == map[Lock := 1, Vault := 2, Temp(1) := 3] && 3 in s.fs.files && s.fs.files[3].data == Whole(WITH_B)
  {
    hide Runs, Exec, ReachableBroken;
    s := FirstReturned();
    s := Take(s, CloseTemp(3));
    s := Take(s, StatVault(3));
    s := Take(s, UnlinkBak(3));
  }

  /** Call 2 has returned nil, no power was lost, and the vault does not hold its write. */
  lemma WriteLost() returns (s: State)
    ensures ReachableBroken(s) && !s.log.crashed
    ensures At(s, 2, Returned) && s.writers[2].ok && s.writers[2].fn == Put("A")
    ensures Vault in s.fs.dir && s.fs.dir[Vault] in s.fs.files && s.fs.files[s.fs.dir[Vault]].data == Whole(WITH_B)
    ensures "A" !in WITH_B.secrets
  {
    hide Runs, Exec, ReachableBroken;
    s := SecondReady();
    s := Take(s, LinkBak(3));
    s := Take(s, Rename(3));
  }
}
