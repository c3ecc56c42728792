/** The write path as the program text runs it: one `Update` or `Load` in sequential code, with
    every other process free to take any steps between two of its system calls. */
module Store {
  import opened Wrappers
  import opened VaultData
  import opened WritePath
  import opened WritePathInvariant
  import opened WritePathSafety

  // ---------------------------------------------------------------- the other processes

  /** A step of a process other than `me`; the machine stays up during the call. */
  predicate IsOther(step: Step, me: Tid) {
    match step
    case PowerLoss(_, _) => false
    case ReaderStart(r) => r != me
    case ReaderOpen(r) => r != me
    case ReaderChunk(r) => r != me
    case ReaderFinish(r) => r != me
    case ReaderFail(r) => r != me
    case _ => step.t != me
  }

  /** A run of the other processes. */
  predicate OthersRun(s: State, steps: seq<Step>, me: Tid) {
    Runs(s, steps, false) && Runs(s, steps, true) && forall i :: 0 <= i < |steps| ==> IsOther(steps[i], me)
  }

  /** Versions were only added, and none was undone. */
  ghost predicate Grown(a: Ledger, b: Ledger) {
    a.hist <= b.hist && b.lost == a.lost
  }

  lemma GrownAll()
    ensures forall a, b, c :: Grown(a, b) && Grown(b, c) ==> Grown(a, c)
    ensures forall a :: Grown(a, a)
  {
  }

  ghost predicate Kept(s: State, s': State, me: Tid) {
    && Grown(s.log, s'.log)
    && (me in s.writers <==> me in s'.writers) && (me in s.writers ==> s'.writers[me] == s.writers[me])
    && (me in s.readers <==> me in s'.readers) && (me in s.readers ==> s'.readers[me] == s.readers[me])
  }

  lemma ReaderStepKeeps(s: State, step: Step, me: Tid)
    requires Enabled(s, step, false) && IsOther(step, me) && IsReader(step)
    ensures Kept(s, Do(s, step), me)
  {
  }

  lemma OtherWriters(s: State, step: Step, me: Tid)
    requires Enabled(s, step, false) && IsOther(step, me) && !IsReader(step)
    ensures me in s.writers <==> me in Do(s, step).writers
    ensures me in s.writers ==> Do(s, step).writers[me] == s.writers[me]
  {
    hide Possible, At, DoReader, Release, SetFile, SetName, RemoveName, OnError;
  }

  lemma SameReaders(s: State, step: Step, me: Tid)
    requires Enabled(s, step, false) && IsOther(step, me) && !IsReader(step)
    ensures Do(s, step).readers == s.readers
  {
    hide Possible, At, DoReader, Release, SetFile, SetName, RemoveName, OnError;
  }

  lemma WriterStepKeeps(s: State, step: Step, me: Tid)
    requires Enabled(s, step, false) && IsOther(step, me) && !IsReader(step) && Grown(s.log, Do(s, step).log)
    ensures Kept(s, Do(s, step), me)
  {
    hide Do, Possible, IsOther, Grown;
    OtherWriters(s, step, me);
    SameReaders(s, step, me);
  }

  lemma StepGrows(s: State, step: Step)
    requires Enabled(s, step, false) && !step.PowerLoss?
    ensures Grown(s.log, Do(s, step).log)
  {
    hide Possible, Do;
    HistoryGrows(s, step);
  }

  lemma OtherKeeps(s: State, step: Step, me: Tid)
    requires Reachable(s) && Enabled(s, step, false) && IsOther(step, me)
    ensures Kept(s, Do(s, step), me)
  {
    hide Reachable, Kept, Enabled, Do, Grown;
    StepGrows(s, step);
    if IsReader(step) {
      ReaderStepKeeps(s, step, me);
    } else {
      WriterStepKeeps(s, step, me);
    }
  }

  lemma {:induction false} OthersKeep(s: State, steps: seq<Step>, me: Tid)
    requires Reachable(s) && OthersRun(s, steps, me)
    ensures Reachable(Exec(s, steps)) && Kept(s, Exec(s, steps), me)
    decreases |steps|
  {
    if steps != [] {
      OtherKeeps(s, steps[0], me);
      ReachableNext(s, steps[0]);
      GrownAll();
      hide Reachable, Do, Grown, Possible;
      OthersKeep(Do(s, steps[0]), steps[1..], me);
    }
  }

  lemma OneStep(s: State, step: Step, me: Tid)
    requires Enabled(s, step, false) && IsOther(step, me)
    ensures OthersRun(s, [step], me) && Exec(s, [step]) == Do(s, step)
  {
    assert [step][1..] == [];
  }

  /** A holder that is killed lets go of the lock, so waiting for it can end. */
  lemma LockMayFree(s: State, me: Tid)
    requires Reachable(s) && At(s, me, Locking)
    ensures exists steps :: OthersRun(s, steps, me) && s.writers[me].lf !in Exec(s, steps).held
  {
    var lf := s.writers[me].lf;
    if lf in s.held {
      AlwaysInv(s);
      OneStep(s, Kill(s.held[lf]), me);
      assert lf !in Release(s.held, s.held[lf]);
      assert lf !in Exec(s, [Kill(s.held[lf])]).held;
    } else {
      assert OthersRun(s, [], me) && Exec(s, []) == s;
    }
  }

  // ---------------------------------------------------------------- the kernel

  /** The call has moved on to stage `at`; nothing else the caller relies on has changed. */
  ghost predicate Now(s: State, s': State, me: Tid, at: Stage) {
    && me in s.writers && me in s'.writers && s'.writers[me].at == at
    && s'.writers[me].fn == s.writers[me].fn && s'.writers[me].ok == s.writers[me].ok
    && s'.writers[me].committed == s.writers[me].committed
    && Grown(s.log, s'.log)
  }

  /** A step of call `me` that neither starts nor kills it, and that nothing but its stage records. */
  predicate IsOwn(step: Step, me: Tid) {
    match step
    case PowerLoss(_, _) => false
    case Begin(_, _) => false
    case Rename(_) => false
    case CloseDir(_) => false
    case Kill(_) => false
    case UnlinkLock(_) => false
    case ReaderStart(_) => false
    case ReaderOpen(_) => false
    case ReaderChunk(_) => false
    case ReaderFinish(_) => false
    case ReaderFail(_) => false
    case _ => step.t == me
  }

  /** Where the call is after such a step. */
  function StageAfter(s: State, step: Step, me: Tid): Stage
    requires IsOwn(step, me) && me in s.writers
  {
    match step
    case OpenLock(_, _) => Locking
    case Flock(_) => OpeningVault
    case OpenVault(_, _) => if Vault in s.fs.dir then Reading else Mutating
    case ReadChunk(_) => Reading
    case FinishRead(_) => if s.writers[me].seen == Some(Partial) then Unlocking else Mutating
    case Mutate(_) => if s.writers[me].fn(s.writers[me].base).Some? then CreatingTemp else Unlocking
    case CreateTemp(_, _, _) => Writing
    case WriteChunk(_) => Writing
    case CloseWriter(_) => Syncing
    case SyncTemp(_) => ClosingTemp
    case CloseTemp(_) => Statting
    case StatVault(_) => if Vault in s.fs.dir then UnlinkingBak else Renaming
    case UnlinkBak(_) => LinkingBak
    case LinkBak(_) => Renaming
    case SyncDir(_) => ClosingDir
    case RemoveTemp(_) => Unlocking
    case Unlock(_) => ClosingLock
    case CloseLock(_) => Returned
    case Fail(_) => OnError(s.writers[me]).at
    case _ => Killed
  }

  lemma OwnCall(s: State, step: Step, me: Tid)
    requires Enabled(s, step, false) && IsOwn(step, me)
    ensures me in s.writers
  {
    hide IsReader;
  }

  /** Such a step moves the call on and leaves the rest of its record alone. */
  ghost predicate MovesOn(s: State, step: Step, me: Tid)
    requires Possible(s, step) && IsOwn(step, me) && me in s.writers
  {
    var s' := Do(s, step);
    && me in s'.writers && s'.writers[me].at == StageAfter(s, step, me) && s'.writers[me].fn == s.writers[me].fn
    && s'.writers[me].ok == s.writers[me].ok && s'.writers[me].committed == s.writers[me].committed
  }

  /** Up to the mutation. */
  predicate Looks(step: Step) {
    step.OpenLock? || step.Flock? || step.OpenVault? || step.ReadChunk? || step.FinishRead? || step.Mutate?
  }

  /** From the temp file to the stat of the vault. */
  predicate Fills(step: Step) {
    step.CreateTemp? || step.WriteChunk? || step.CloseWriter? || step.SyncTemp? || step.CloseTemp? || step.StatVault?
  }

  lemma OwnLooks(s: State, step: Step, me: Tid)
    requires Possible(s, step) && IsOwn(step, me) && me in s.writers && Looks(step)
    ensures MovesOn(s, step, me)
  {
    hide SetName, RemoveName, SetFile, Release, OnError, DoReader;
  }

  lemma OwnFills(s: State, step: Step, me: Tid)
    requires Possible(s, step) && IsOwn(step, me) && me in s.writers && Fills(step)
    ensures MovesOn(s, step, me)
  {
    hide SetName, RemoveName, SetFile, Release, OnError, DoReader;
  }

  lemma OwnRest(s: State, step: Step, me: Tid)
    requires Possible(s, step) && IsOwn(step, me) && me in s.writers && !Looks(step) && !Fills(step)
    ensures MovesOn(s, step, me)
  {
    hide SetName, RemoveName, SetFile, Release, DoReader;
  }

  lemma OwnStep(s: State, step: Step, me: Tid)
    requires Enabled(s, step, false) && IsOwn(step, me) && Grown(s.log, Do(s, step).log)
    ensures me in s.writers && Now(s, Do(s, step), me, StageAfter(s, step, me))
  {
    hide Grown, Possible, Do, StageAfter, IsOwn, Looks, Fills;
    OwnCall(s, step, me);
    if Looks(step) {
      OwnLooks(s, step, me);
    } else if Fills(step) {
      OwnFills(s, step, me);
    } else {
      OwnRest(s, step, me);
    }
  }

  /** The stage after a system call whose outcome the caller learns only as success. */
  function Then(step: Step): Stage {
    match step
    case SyncTemp(_) => ClosingTemp
    case CloseTemp(_) => Statting
    case UnlinkBak(_) => LinkingBak
    case LinkBak(_) => Renaming
    case SyncDir(_) => ClosingDir
    case _ => Killed
  }

  lemma FreshIno(s: set<Ino>)
    ensures exists i: Ino :: i !in s
  {
    var top := 0;
    var rest := s;
    while rest != {}
      invariant rest <= s && forall i :: i in s && i !in rest ==> i < top
      decreases rest
    {
      var i :| i in rest;
      top := if i < top then top else i + 1;
      rest := rest - {i};
    }
    assert top !in s;
  }

  lemma FreshTemp(dir: map<Name, Ino>)
    ensures exists n: nat :: Temp(n) !in dir
  {
    FreshIno(set n | n in dir.Keys && n.Temp? :: n.suffix);
    var n: nat :| n !in (set n | n in dir.Keys && n.Temp? :: n.suffix);
    assert Temp(n) !in dir;
  }

  lemma CallStage(s: State, me: Tid, step: Step)
    requires step == SyncTemp(me) || step == CloseTemp(me) || step == UnlinkBak(me) || step == LinkBak(me)
          || step == SyncDir(me)
    requires me in s.writers && StageOf(step) == s.writers[me].at
    ensures IsOwn(step, me) && StageAfter(s, step, me) == Then(step)
    ensures IsOwn(Fail(me), me) && Enabled(s, Fail(me), false) && StageAfter(s, Fail(me), me) == RemovingTemp
  {
  }

  /** What all processes share.  Each method is one system call of call `me`: others move first,
      then it either fails or has its effect. */
  class Machine {
    var state: State
    /** The calls one of whose system calls failed. */
    ghost var hurt: set<Tid>

    ghost predicate Valid()
      reads this
    {
      Reachable(state)
    }

    method Interfere(me: Tid)
      requires Valid()
      modifies this
      ensures Valid() && Kept(old(state), state, me)
      ensures hurt == old(hurt)
    {
      assert OthersRun(state, [], me);
      var steps :| OthersRun(state, steps, me);
      OthersKeep(state, steps, me);
      state := Exec(state, steps);
    }

    method Perform(step: Step)
      requires Valid() && Enabled(state, step, false)
      modifies this
      ensures Enabled(old(state), step, true) && state == Do(old(state), step) && Valid()
      ensures hurt == old(hurt)
    {
      ReachableNext(state, step);
      state := Do(state, step);
    }

    /** One step of call `me`. */
    method Take(me: Tid, step: Step)
      requires Valid() && Enabled(state, step, false) && IsOwn(step, me)
      modifies this
      ensures Valid() && me in old(state.writers) && Now(old(state), state, me, StageAfter(old(state), step, me))
      ensures hurt == old(hurt)
    {
      hide Reachable, Do, Possible, StageAfter, Now;
      StepGrows(state, step);
      OwnStep(state, step, me);
      Perform(step);
    }

    /** A system call of `me` fails. */
    method Break(me: Tid)
      requires Valid() && Enabled(state, Fail(me), false)
      modifies this
      ensures Valid() && me in old(state.writers) && Now(old(state), state, me, StageAfter(old(state), Fail(me), me))
      ensures hurt == old(hurt) + {me}
    {
      hide Reachable, Do, Possible, StageAfter, Now;
      Take(me, Fail(me));
      hurt := hurt + {me};
    }

    method Start(me: Tid, fn: Mutation)
      requires Valid() && me !in state.writers
      modifies this
      ensures Valid() && At(state, me, OpeningLock) && me !in state.log.lost && old(state.log.hist) <= state.log.hist
      ensures state.writers[me].fn == fn && !state.writers[me].ok && !state.writers[me].committed
      ensures hurt == old(hurt) - {me}
    {
      AlwaysInv(state);
      Perform(Begin(me, fn));
      hurt := hurt - {me};
    }

    method OpenLock(me: Tid) returns (err: bool)
      requires Valid() && At(state, me, OpeningLock)
      modifies this
      ensures Valid() && Now(old(state), state, me, if err then Returned else Locking)
      ensures hurt == old(hurt) + if err then {me} else {}
    {
      hide Reachable, Runs, Exec, Do, Grown;
      GrownAll();
      Interfere(me);
      err := *;
      if err {
        Break(me);
      } else {
        FreshIno(state.fs.files.Keys);
        var node: Ino :| node !in state.fs.files;
        Take(me, WritePath.OpenLock(me, node));
      }
    }

    /** Blocks until no one else holds the lock. */
    method Flock(me: Tid) returns (err: bool)
      requires Valid() && At(state, me, Locking)
      modifies this
      ensures Valid() && Now(old(state), state, me, if err then ClosingLock else OpeningVault)
      ensures hurt == old(hurt) + if err then {me} else {}
    {
      hide Reachable, Runs, Exec, Do, Grown;
      GrownAll();
      Interfere(me);
      err := *;
      if err {
        Break(me);
      } else {
        LockMayFree(state, me);
        var steps :| OthersRun(state, steps, me) && state.writers[me].lf !in Exec(state, steps).held;
        OthersKeep(state, steps, me);
        state := Exec(state, steps);
        Take(me, WritePath.Flock(me));
      }
    }

    method OpenVault(me: Tid, fpkey: string) returns (err: bool, present: bool)
      requires Valid() && At(state, me, OpeningVault)
      modifies this
      ensures Valid()
      ensures Now(old(state), state, me, if err then Unlocking else if present then Reading else Mutating)
      ensures hurt == old(hurt) + if err then {me} else {}
    {
      hide Reachable, Runs, Exec, Do, Grown;
      GrownAll();
      Interfere(me);
      err, present := *, Vault in state.fs.dir;
      if err { Break(me); } else { Take(me, WritePath.OpenVault(me, fpkey)); }
    }

    /** Reads the open vault in some number of pieces and decrypts it. */
    method ReadVault(me: Tid, pieces: nat) returns (err: bool)
      requires Valid() && At(state, me, Reading)
      modifies this
      ensures Valid() && Now(old(state), state, me, if err then Unlocking else Mutating)
      ensures hurt == old(hurt) + if err then {me} else {}
    {
      hide Reachable, Runs, Exec, Do, Grown;
      GrownAll();
      for i := 0 to pieces
        invariant Valid() && Now(old(state), state, me, Reading) && hurt == old(hurt)
      {
        Interfere(me);
        ReadPiece(me);
      }
      Interfere(me);
      err := *;
      if err {
        Break(me);
      } else {
        ReadPiece(me);
        NotTorn(state, me);
        Take(me, FinishRead(me));
      }
    }

    method ReadPiece(me: Tid)
      requires Valid() && At(state, me, Reading)
      modifies this
      ensures Valid() && Now(old(state), state, me, Reading) && state.writers[me].seen.Some?
      ensures hurt == old(hurt)
    {
      hide Reachable, Runs, Exec, Grown;
      NotTorn(state, me);
      StepGrows(state, ReadChunk(me));
      OwnStep(state, ReadChunk(me), me);
      Perform(ReadChunk(me));
    }

    method Mutate(me: Tid) returns (err: bool)
      requires Valid() && At(state, me, Mutating)
      modifies this
      ensures Valid() && Now(old(state), state, me, if err then Unlocking else CreatingTemp)
      ensures err ==> Declined(old(state.writers[me].fn), |old(state.log.hist)|, state.log.hist)
      ensures hurt == old(hurt)
    {
      hide Reachable, Runs, Exec, Do, Grown, Declines, Declined;
      GrownAll();
      Interfere(me);
      ghost var w, log := state.writers[me], state.log;
      MutatesCurrent(state, me);
      Take(me, WritePath.Mutate(me));
      err := state.writers[me].at == Unlocking;
      GrownMeans(old(state.log), log);
      GrownMeans(log, state.log);
      if err {
        DeclinedNow(w.fn, |old(state.log.hist)|, log.hist, state.log.hist);
      }
    }

    /** The recipients file cannot be used: the call ends before it creates anything. */
    method GiveUp(me: Tid)
      requires Valid() && At(state, me, CreatingTemp)
      modifies this
      ensures Valid() && Now(old(state), state, me, Unlocking)
      ensures hurt == old(hurt)
    {
      hide Reachable, Runs, Exec, Do, Grown;
      GrownAll();
      Interfere(me);
      Take(me, Fail(me));
    }

    method CreateTemp(me: Tid) returns (err: bool)
      requires Valid() && At(state, me, CreatingTemp)
      modifies this
      ensures Valid() && Now(old(state), state, me, if err then Unlocking else Writing)
      ensures hurt == old(hurt) + if err then {me} else {}
    {
      hide Reachable, Runs, Exec, Do, Grown;
      GrownAll();
      Interfere(me);
      err := *;
      if err {
        Break(me);
      } else {
        FreshIno(state.fs.files.Keys);
        FreshTemp(state.fs.dir);
        var node: Ino :| node !in state.fs.files;
        var n: nat :| Temp(n) !in state.fs.dir;
        Take(me, WritePath.CreateTemp(me, n, node));
      }
    }

    /** Writes the ciphertext in some number of pieces, then closes the age writer. */
    method WriteTemp(me: Tid, pieces: nat) returns (err: bool)
      requires Valid() && At(state, me, Writing)
      modifies this
      ensures Valid() && Now(old(state), state, me, if err then RemovingTemp else Syncing)
      ensures hurt == old(hurt) + if err then {me} else {}
    {
      hide Reachable, Runs, Exec, Do, Grown;
      GrownAll();
      for i := 0 to pieces
        invariant Valid() && Now(old(state), state, me, Writing) && hurt == old(hurt)
      {
        Interfere(me);
        err := *;
        if err {
          Break(me);
          return;
        }
        Take(me, WriteChunk(me));
      }
      Interfere(me);
      err := *;
      if err { Break(me); } else { Take(me, CloseWriter(me)); }
    }

    method Stat(me: Tid) returns (err: bool, present: bool)
      requires Valid() && At(state, me, Statting)
      modifies this
      ensures Valid()
      ensures Now(old(state), state, me, if err then RemovingTemp else if present then UnlinkingBak else Renaming)
      ensures hurt == old(hurt) + if err then {me} else {}
    {
      hide Reachable, Runs, Exec, Do, Grown;
      GrownAll();
      Interfere(me);
      err, present := *, Vault in state.fs.dir;
      if err { Break(me); } else { Take(me, StatVault(me)); }
    }

    /** The system calls of `save` that tell the caller only whether they worked. */
    method Call(me: Tid, step: Step) returns (err: bool)
      requires step == SyncTemp(me) || step == CloseTemp(me) || step == UnlinkBak(me) || step == LinkBak(me)
            || step == SyncDir(me)
      requires Valid() && me in state.writers && StageOf(step) == state.writers[me].at
      modifies this
      ensures Valid() && Now(old(state), state, me, if err then RemovingTemp else Then(step))
      ensures hurt == old(hurt) + if err then {me} else {}
    {
      hide Reachable, Runs, Exec, Do, Grown, Possible, StageAfter, StageOf, Then, IsOwn, OnError;
      GrownAll();
      Interfere(me);
      CallStage(state, me, step);
      err := *;
      if err {
        Break(me);
      } else {
        CallWorks(state, me, step);
        Take(me, step);
      }
    }

    method Rename(me: Tid) returns (err: bool)
      requires Valid() && At(state, me, Renaming)
      modifies this
      ensures Valid() && me in state.writers && state.writers[me].fn == old(state.writers[me].fn)
      ensures state.writers[me].at == (if err then RemovingTemp else SyncingDir)
      ensures state.writers[me].committed == (old(state.writers[me].committed) || !err)
      ensures state.writers[me].ok == old(state.writers[me].ok)
      ensures Grown(old(state.log), state.log)
      ensures hurt == old(hurt) + if err then {me} else {}
    {
      hide Reachable, Runs, Exec, Grown;
      GrownAll();
      Interfere(me);
      err := *;
      if err {
        Break(me);
      } else {
        RenameWorks(state, me);
        StepGrows(state, WritePath.Rename(me));
        Perform(WritePath.Rename(me));
      }
    }

    method CloseDir(me: Tid) returns (err: bool)
      requires Valid() && At(state, me, ClosingDir)
      modifies this
      ensures Valid() && me in state.writers && state.writers[me].fn == old(state.writers[me].fn)
      ensures state.writers[me].at == RemovingTemp && state.writers[me].committed == old(state.writers[me].committed)
      ensures state.writers[me].ok == (old(state.writers[me].ok) || !err)
      ensures Grown(old(state.log), state.log)
      ensures hurt == old(hurt) + if err then {me} else {}
    {
      hide Reachable, Runs, Exec, Grown;
      GrownAll();
      Interfere(me);
      err := *;
      if err {
        Break(me);
      } else {
        StepGrows(state, WritePath.CloseDir(me));
        Perform(WritePath.CloseDir(me));
      }
    }

    /** The deferred removal; its error is ignored. */
    method RemoveTemp(me: Tid)
      requires Valid() && At(state, me, RemovingTemp)
      modifies this
      ensures Valid() && Now(old(state), state, me, Unlocking)
      ensures hurt == old(hurt)
    {
      hide Reachable, Runs, Exec, Do, Grown;
      GrownAll();
      Interfere(me);
      var err := *;
      if err { Take(me, Fail(me)); } else { Take(me, WritePath.RemoveTemp(me)); }
    }

    method Unlock(me: Tid)
      requires Valid() && At(state, me, Unlocking)
      modifies this
      ensures Valid() && Now(old(state), state, me, ClosingLock)
      ensures hurt == old(hurt)
    {
      hide Reachable, Runs, Exec, Do, Grown;
      GrownAll();
      Interfere(me);
      Take(me, WritePath.Unlock(me));
    }

    method CloseLock(me: Tid)
      requires Valid() && At(state, me, ClosingLock)
      modifies this
      ensures Valid() && Now(old(state), state, me, Returned)
      ensures hurt == old(hurt)
    {
      hide Reachable, Runs, Exec, Do, Grown;
      GrownAll();
      Interfere(me);
      Take(me, WritePath.CloseLock(me));
    }

    method OpenToRead(me: Tid) returns (err: bool, present: bool)
      requires Valid() && me in state.readers && state.readers[me].open.None?
      modifies this
      ensures Valid() && me in state.readers && old(state.log.hist) <= state.log.hist
      ensures if err || !present then state.readers[me].open.None? else Reads(state, me, state.readers[me].at)
      ensures !err && present ==> |old(state.log.hist)| <= state.readers[me].at
      ensures !err && !present ==> old(state.log.hist) == []
      ensures hurt == old(hurt) + if err then {me} else {}
    {
      hide Reachable, Runs, Exec, LockInv, AuthorsInv, AccountInv, TempInv, BakInv, HolderInv, NamesInv, Chained, DiskInv;
      Interfere(me);
      err, present := *, Vault in state.fs.dir;
      if err {
        hurt := hurt + {me};
      } else {
        AlwaysInv(state);
        Perform(ReaderOpen(me));
      }
    }

    method ReadSome(me: Tid, ghost at: nat)
      requires Valid() && Reads(state, me, at)
      modifies this
      ensures Valid() && Reads(state, me, at) && state.readers[me].seen.Some?
      ensures old(state.log.hist) <= state.log.hist && hurt == old(hurt)
    {
      hide Reachable, Runs, Exec, Inv;
      Interfere(me);
      ReaderSees(state, me);
      Perform(ReaderChunk(me));
    }

    /** The last piece; then the reading and decrypting has failed, or this is the vault. */
    method ReadRest(me: Tid, ghost at: nat) returns (err: bool, v: Contents)
      requires Valid() && Reads(state, me, at)
      modifies this
      ensures Valid() && me in state.readers && state.readers[me].open.None? && old(state.log.hist) <= state.log.hist
      ensures !err ==> VersionIs(state.log.hist, at, v)
      ensures hurt == old(hurt) + if err then {me} else {}
    {
      hide Reachable, Runs, Exec, Inv;
      ReadSome(me, at);
      err, v := *, Contents([], map[]);
      if err {
        Perform(ReaderFail(me));
        hurt := hurt + {me};
      } else {
        ReaderSees(state, me);
        v := state.readers[me].seen.value.vault;
        Perform(ReaderFinish(me));
      }
    }
  }

  lemma GrownMeans(a: Ledger, b: Ledger)
    ensures Grown(a, b) ==> a.hist <= b.hist
  {
  }

  /** The mutation refuses the vault of that moment: the last version, or a new vault before the first. */
  ghost predicate Declines(fn: Mutation, hist: seq<Commit>) {
    exists v :: (if hist == [] then IsNew(v) else v == hist[|hist| - 1].vault) && fn(v).None?
  }

  /** It refuses the vault of some moment since the first `from` renames. */
  ghost predicate Declined(fn: Mutation, from: nat, hist: seq<Commit>) {
    exists k :: from <= k <= |hist| && Declines(fn, hist[..k])
  }

  lemma DeclinedNow(fn: Mutation, from: nat, hist: seq<Commit>, later: seq<Commit>)
    requires Declines(fn, hist) && from <= |hist| && hist <= later
    ensures Declined(fn, from, later)
  {
    assert later[..|hist|] == hist;
  }

  lemma DeclinedWider(fn: Mutation, since: nat, hist: seq<Commit>, from: nat, later: seq<Commit>)
    requires Declined(fn, since, hist) && from <= since && hist <= later
    ensures Declined(fn, from, later)
  {
    hide Declines;
    var k :| since <= k <= |hist| && Declines(fn, hist[..k]);
    assert later[..k] == hist[..k];
  }

  lemma MutatesCurrent(s: State, me: Tid)
    requires Reachable(s) && At(s, me, Mutating)
    ensures s.writers[me].fn(s.writers[me].base).None? ==> Declines(s.writers[me].fn, s.log.hist)
  {
    hide LockInv, AuthorsInv, AccountInv, TempInv, BakInv, ReadersInv, NamesInv, Chained, DiskInv, Reachable;
    AlwaysInv(s);
    assert HolderOK(s.fs, s.log, me, s.writers[me]);
  }

  function StageOf(step: Step): Stage {
    match step
    case SyncTemp(_) => Syncing
    case CloseTemp(_) => ClosingTemp
    case UnlinkBak(_) => UnlinkingBak
    case LinkBak(_) => LinkingBak
    case SyncDir(_) => SyncingDir
    case _ => Killed
  }

  /** Under the lock a read sees one version: decryption does not fail for a torn file. */
  lemma NotTorn(s: State, me: Tid)
    requires Reachable(s) && At(s, me, Reading)
    ensures s.writers[me].ino in s.fs.files && s.writers[me].seen != Some(Partial)
  {
    AlwaysInv(s);
    assert HolderOK(s.fs, s.log, me, s.writers[me]);
  }

  lemma HolderCalls(fs: FileSystem, log: Ledger, me: Tid, w: Writer)
    requires HolderOK(fs, log, me, w) && VersionsInv(fs.dir, fs.files, log.named, log.hist)
    ensures w.at == Syncing ==> w.ino in fs.files
    ensures w.at == LinkingBak ==> Vault in fs.dir && Bak !in fs.dir
    ensures w.at == Renaming ==> Temp(w.tmp) in fs.dir
  {
  }

  /** Link cannot meet a leftover .bak or a missing vault: no one else moves them. */
  lemma CallWorks(s: State, me: Tid, step: Step)
    requires Reachable(s) && me in s.writers && StageOf(step) == s.writers[me].at
    requires step == SyncTemp(me) || step == CloseTemp(me) || step == UnlinkBak(me) || step == LinkBak(me)
          || step == SyncDir(me)
    ensures Enabled(s, step, false)
  {
    hide Reachable, NamesInv, Chained, DiskInv, AuthorsInv, AccountInv, TempInv, BakInv, ReadersInv, HolderOK;
    AlwaysInv(s);
    HolderCalls(s.fs, s.log, me, s.writers[me]);
  }

  lemma RenameWorks(s: State, me: Tid)
    requires Reachable(s) && At(s, me, Renaming)
    ensures Enabled(s, WritePath.Rename(me), false)
  {
    AlwaysInv(s);
    HolderCalls(s.fs, s.log, me, s.writers[me]);
  }

  // ---------------------------------------------------------------- the store

  datatype LoadError = VaultNotFound | ReadFailed

  /** Those already loaded, or else those of the file, if it can be read. */
  function Recipients(loaded: seq<string>, file: Option<seq<string>>): seq<string> {
    if loaded != [] || file.None? then loaded else file.value
  }

  /** A call that returns nil had no system call fail, and recipients; one that does not had a system
      call fail, its function refuse a vault that was current after the first `from` renames, or no
      recipients. */
  ghost predicate Excused(ok: bool, failed: bool, fn: Mutation, from: nat, hist: seq<Commit>, recipients: bool) {
    if ok then !failed && recipients else failed || Declined(fn, from, hist) || !recipients
  }

  lemma ExcusedWider(ok: bool, failed: bool, fn: Mutation, since: nat, hist: seq<Commit>, recipients: bool, from: nat, later: seq<Commit>)
    requires Excused(ok, failed, fn, since, hist, recipients) && from <= since && hist <= later
    ensures Excused(ok, failed, fn, from, later, recipients)
  {
    hide Declined;
    if Declined(fn, since, hist) {
      DeclinedWider(fn, since, hist, from, later);
    }
  }

  lemma Broken(fn: Mutation, from: nat, hist: seq<Commit>, recipients: bool)
    ensures Excused(false, true, fn, from, hist, recipients)
  {
  }

  lemma Refused(failed: bool, fn: Mutation, since: nat, hist: seq<Commit>, recipients: bool, from: nat)
    requires Declined(fn, since, hist) && from <= since
    ensures Excused(false, failed, fn, from, hist, recipients)
  {
    DeclinedWider(fn, since, hist, from, hist);
  }

  lemma NoRecipients(failed: bool, fn: Mutation, from: nat, hist: seq<Commit>)
    ensures Excused(false, failed, fn, from, hist, false)
  {
  }

  lemma Saved(ok: bool, failed: bool, fn: Mutation, from: nat, hist: seq<Commit>)
    requires ok <==> !failed
    ensures Excused(ok, failed, fn, from, hist, true)
  {
  }

  class Store {
    const kernel: Machine
    var recips: seq<string>      // empty until a write needs them

    constructor (kernel: Machine)
      ensures this.kernel == kernel && recips == []
    {
      this.kernel := kernel;
      recips := [];
    }

    /** Loads the recipients once; a failed load is not remembered. */
    method LoadRecipients(file: Option<seq<string>>) returns (err: bool)
      modifies this`recips
      ensures err <==> old(recips) == [] && (file.None? || file.value == [])
      ensures recips == if old(recips) == [] && !err then file.value else old(recips)
      ensures recips == Recipients(old(recips), file) && (err <==> recips == [])
    {
      if recips != [] {
        return false;
      }
      if file.None? || file.value == [] {
        return true;
      }
      recips := file.value;
      return false;
    }

    /** A read-modify-write under the exclusive lock.  It commits only for some recipients, and it does
        not succeed only if a system call failed, the mutation refused the vault, or there were none. */
    method Update(me: Tid, fn: Mutation, fpkey: string, file: Option<seq<string>>, pieces: nat) returns (ok: bool)
      requires kernel.Valid() && me !in kernel.state.writers
      modifies this`recips, kernel
      ensures kernel.Valid() && At(kernel.state, me, Returned) && kernel.state.writers[me].ok == ok
      ensures old(kernel.state.log.hist) <= kernel.state.log.hist
      ensures ok ==> CommittedOnce(kernel.state.log.hist, me, fn)
      ensures kernel.state.writers[me].committed <==> CommittedOnce(kernel.state.log.hist, me, fn)
      ensures !kernel.state.writers[me].committed ==> !ok && forall i :: !CommitAt(kernel.state.log.hist, i, me)
      ensures kernel.state.writers[me].committed ==> recips != [] && recips == Recipients(old(recips), file)
      ensures var there := Recipients(old(recips), file) != [];
        Excused(ok, me in kernel.hurt, fn, |old(kernel.state.log.hist)|, kernel.state.log.hist, there)
    {
      hide Excused, Declined;
      kernel.Start(me, fn);
      ghost var log := kernel.state.log;
      ok := WithLock(me, fpkey, file, pieces);
      ExitAccount(kernel.state, me);
      AlwaysInv(kernel.state);
      GrownMeans(log, kernel.state.log);
      ExcusedWider(ok, me in kernel.hurt, fn, |log.hist|, kernel.state.log.hist, Recipients(old(recips), file) != [],
                   |old(kernel.state.log.hist)|, kernel.state.log.hist);
      if kernel.state.writers[me].committed {
        assert AccountOK(me, kernel.state.writers[me], kernel.state.log);
      }
    }

    method WithLock(me: Tid, fpkey: string, file: Option<seq<string>>, pieces: nat) returns (ok: bool)
      requires kernel.Valid() && At(kernel.state, me, OpeningLock) && me !in kernel.hurt
      requires !kernel.state.writers[me].ok && !kernel.state.writers[me].committed
      modifies this`recips, kernel
      ensures kernel.Valid() && Ended(old(kernel.state), kernel.state, me, Returned, ok)
      ensures kernel.state.writers[me].committed ==> recips != [] && recips == Recipients(old(recips), file)
      ensures var there := Recipients(old(recips), file) != [];
        Excused(ok, me in kernel.hurt, old(kernel.state.writers[me].fn), |old(kernel.state.log.hist)|, kernel.state.log.hist, there)
    {
      hide Machine.Valid, Reachable, Do, Enabled, Inv, Grown, Declined, Excused;
      GrownAll();
      ghost var fn, log, there := kernel.state.writers[me].fn, kernel.state.log, Recipients(recips, file) != [];
      var err := kernel.OpenLock(me);
      if err {
        Broken(fn, |log.hist|, kernel.state.log.hist, there);
        return false;
      }
      err := kernel.Flock(me);
      if err {
        kernel.CloseLock(me);
        Broken(fn, |log.hist|, kernel.state.log.hist, there);
        return false;
      }
      ghost var start := kernel.state.log;
      GrownMeans(log, start);
      ok := LoadMutateSave(me, fpkey, file, pieces);
      ghost var end := kernel.state.log;
      kernel.Unlock(me);
      kernel.CloseLock(me);
      GrownMeans(end, kernel.state.log);
      ExcusedWider(ok, me in kernel.hurt, fn, |start.hist|, end.hist, there, |log.hist|, kernel.state.log.hist);
    }

    method LoadMutateSave(me: Tid, fpkey: string, file: Option<seq<string>>, pieces: nat) returns (ok: bool)
      requires kernel.Valid() && At(kernel.state, me, OpeningVault) && me !in kernel.hurt
      requires !kernel.state.writers[me].ok && !kernel.state.writers[me].committed
      modifies this`recips, kernel
      ensures kernel.Valid() && Ended(old(kernel.state), kernel.state, me, Unlocking, ok)
      ensures kernel.state.writers[me].committed ==> recips != [] && recips == Recipients(old(recips), file)
      ensures var there := Recipients(old(recips), file) != [];
        Excused(ok, me in kernel.hurt, old(kernel.state.writers[me].fn), |old(kernel.state.log.hist)|, kernel.state.log.hist, there)
    {
      hide Machine.Valid, Reachable, Do, Enabled, Inv, Grown, Declined, Excused;
      GrownAll();
      ghost var fn, log, there := kernel.state.writers[me].fn, kernel.state.log, Recipients(recips, file) != [];
      var err, present := kernel.OpenVault(me, fpkey);
      if err {
        Broken(fn, |log.hist|, kernel.state.log.hist, there);
        return false;
      }
      if present {
        err := kernel.ReadVault(me, pieces);
        if err {
          Broken(fn, |log.hist|, kernel.state.log.hist, there);
          return false;
        }
      }
      ghost var loaded := kernel.state.log;
      GrownMeans(log, loaded);
      err := kernel.Mutate(me);
      if err {
        Refused(me in kernel.hurt, fn, |loaded.hist|, kernel.state.log.hist, there, |log.hist|);
        return false;
      }
      err := LoadRecipients(file);
      if err {
        kernel.GiveUp(me);
        NoRecipients(me in kernel.hurt, fn, |log.hist|, kernel.state.log.hist);
        return false;
      }
      err := kernel.CreateTemp(me);
      if err {
        Broken(fn, |log.hist|, kernel.state.log.hist, there);
        return false;
      }
      ok := FillAndSwap(me, pieces);
      kernel.RemoveTemp(me);
      Saved(ok, me in kernel.hurt, fn, |log.hist|, kernel.state.log.hist);
    }

    /** The part of `save` between creating the temp file and its deferred removal. */
    method FillAndSwap(me: Tid, pieces: nat) returns (ok: bool)
      requires kernel.Valid() && At(kernel.state, me, Writing)
      requires !kernel.state.writers[me].ok && !kernel.state.writers[me].committed
      modifies kernel
      ensures kernel.Valid() && Ended(old(kernel.state), kernel.state, me, RemovingTemp, ok)
      ensures kernel.hurt == old(kernel.hurt) + if ok then {} else {me}
    {
      hide Machine.Valid, Reachable, Do, Enabled, Inv, Grown;
      GrownAll();
      var err := kernel.WriteTemp(me, pieces);
      if err { return false; }
      err := kernel.Call(me, SyncTemp(me));
      if err { return false; }
      err := kernel.Call(me, CloseTemp(me));
      if err { return false; }
      err := KeepBackup(me);
      if err { return false; }
      ok := Swap(me);
    }

    method KeepBackup(me: Tid) returns (err: bool)
      requires kernel.Valid() && At(kernel.state, me, Statting)
      modifies kernel
      ensures kernel.Valid() && Now(old(kernel.state), kernel.state, me, if err then RemovingTemp else Renaming)
      ensures kernel.hurt == old(kernel.hurt) + if err then {me} else {}
    {
      hide Machine.Valid, Reachable, Do, Enabled, Inv, Grown;
      GrownAll();
      var present;
      err, present := kernel.Stat(me);
      if err || !present { return; }
      err := kernel.Call(me, UnlinkBak(me));
      if err { return; }
      err := kernel.Call(me, LinkBak(me));
    }

    method Swap(me: Tid) returns (ok: bool)
      requires kernel.Valid() && At(kernel.state, me, Renaming) && !kernel.state.writers[me].ok
      modifies kernel
      ensures kernel.Valid() && Ended(old(kernel.state), kernel.state, me, RemovingTemp, ok)
      ensures kernel.hurt == old(kernel.hurt) + if ok then {} else {me}
    {
      hide Machine.Valid, Reachable, Do, Enabled, Inv, Grown;
      GrownAll();
      var err := kernel.Rename(me);
      if err { return false; }
      err := kernel.Call(me, SyncDir(me));
      if err { return false; }
      err := kernel.CloseDir(me);
      return !err;
    }

    /** Reads the vault with no lock, while writers go on. */
    method Load(me: Tid, pieces: nat) returns (r: Result<Contents, LoadError>)
      requires kernel.Valid() && me in kernel.state.readers && kernel.state.readers[me].open.None?
      modifies kernel
      ensures kernel.Valid() && old(kernel.state.log.hist) <= kernel.state.log.hist
      ensures me in kernel.state.readers && kernel.state.readers[me].open.None?
      ensures r.Ok? ==> Current(r.value, |old(kernel.state.log.hist)|, kernel.state.log.hist)
      ensures r == Err(VaultNotFound) ==> old(kernel.state.log.hist) == []
      ensures kernel.hurt == old(kernel.hurt) + if r == Err(ReadFailed) then {me} else {}
    {
      hide Reachable, Runs, Exec, Inv;
      var err, present := kernel.OpenToRead(me);
      if err {
        return Err(ReadFailed);
      }
      if !present {
        return Err(VaultNotFound);
      }
      ghost var at := kernel.state.readers[me].at;
      for i := 0 to pieces
        invariant kernel.Valid() && Reads(kernel.state, me, at) && kernel.hurt == old(kernel.hurt)
        invariant old(kernel.state.log.hist) <= kernel.state.log.hist
      {
        kernel.ReadSome(me, at);
      }
      var v;
      err, v := kernel.ReadRest(me, at);
      r := if err then Err(ReadFailed) else Ok(v);
    }
  }

  /** v was the current version at some moment after the first `from` renames. */
  ghost predicate Current(v: Contents, from: nat, hist: seq<Commit>) {
    exists k :: from <= k <= |hist| && 0 < k && VersionIs(hist, k, v)
  }

  predicate VersionIs(hist: seq<Commit>, k: int, v: Contents) {
    0 < k <= |hist| && hist[k - 1].vault == v
  }

  ghost predicate Reads(s: State, me: Tid, at: nat) {
    me in s.readers && s.readers[me].open.Some? && s.readers[me].at == at
  }

  lemma ReaderSees(s: State, me: Tid)
    requires Reachable(s) && me in s.readers && s.readers[me].open.Some?
    ensures s.readers[me].open.value in s.fs.files && 0 < s.readers[me].at <= |s.log.hist|
    ensures s.readers[me].seen.Some? ==>
      s.readers[me].seen.value.Whole? && VersionIs(s.log.hist, s.readers[me].at, s.readers[me].seen.value.vault)
  {
    hide LockInv, AuthorsInv, AccountInv, TempInv, BakInv, HolderInv, NamesInv, Chained, DiskInv, Reachable;
    AlwaysInv(s);
    assert ReaderOK(s.log.hist, s.readers[me]);
  }

  /** The call has come to stage `at` and will report `ok`. */
  ghost predicate Ended(s: State, s': State, me: Tid, at: Stage, ok: bool) {
    && me in s.writers && me in s'.writers && s'.writers[me].at == at
    && s'.writers[me].fn == s.writers[me].fn && s'.writers[me].ok == ok
    && Grown(s.log, s'.log)
  }
}
