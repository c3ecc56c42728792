/** The vault directory shared by any number of writers and readers, one system call at a
    time.  Every interleaving of the steps below is a run; `Kill` ends one call anywhere and
    `PowerLoss` stops the machine, keeping any subset of the directory updates that were not
    yet forced to disk and any loss of file data that was not. */
module WritePath {
  import opened Wrappers
  import opened VaultData

  type Ino = nat
  type Tid = nat
  type Mutation = Contents -> Option<Contents>

  // ---------------------------------------------------------------- files and names

  /** A ciphertext is readable only when the age writer's last chunk is in it. */
  datatype Data = Partial | Whole(vault: Contents)

  /** `synced` says that the data would survive a power loss. */
  datatype File = File(data: Data, synced: bool)

  datatype Name = Lock | Vault | Bak | Temp(suffix: nat)

  /** A directory update that no directory sync has covered yet. */
  datatype Entry = Entry(name: Name, to: Option<Ino>)

  // ---------------------------------------------------------------- the calls in flight

  /** The system call an `Update` is about to make. */
  datatype Stage =
    | OpeningLock | Locking
    | OpeningVault | Reading | Mutating | CreatingTemp | Writing | Syncing | ClosingTemp
    | Statting | UnlinkingBak | LinkingBak | Renaming | SyncingDir | ClosingDir
    | RemovingTemp | Unlocking
    | ClosingLock | Returned | Killed

  /** One `Update` call.  `committed` and `pos` record its rename, `ok` that it returns nil. */
  datatype Writer = Writer(
    fn: Mutation, at: Stage, lf: Ino, ino: Ino, seen: Option<Data>,
    base: Contents, next: Contents, tmp: nat,
    committed: bool, pos: nat, ok: bool, leaked: bool)

  /** What one `Load` reported, with the number of renames before its open step. */
  datatype Load = Found(at: nat, vault: Contents) | Absent(at: nat) | Corrupt(at: nat)

  /** A reader makes one `Load` after another, without any lock. */
  datatype Reader = Reader(open: Option<Ino>, at: nat, seen: Option<Data>, log: seq<Load>)

  /** One rename over secrets.age. */
  datatype Commit = Commit(author: Tid, fn: Mutation, ino: Ino, base: Contents, vault: Contents)

  /** The directory and its files; a power loss keeps `stable`, any part of `pending`, and
      the data of the files that are synced. */
  datatype FileSystem = FileSystem(
    dir: map<Name, Ino>,
    files: map<Ino, File>,
    stable: map<Name, Ino>,      // the directory as last forced to disk
    pending: set<Entry>)         // updates since then

  /** What has happened, for the statements only: no step depends on it. */
  datatype Ledger = Ledger(
    hist: seq<Commit>,           // renames, oldest first
    durable: nat,                // how many of them a directory sync has covered
    lost: set<Tid>,              // writers whose rename a power loss undid
    named: set<Ino>,             // inodes that secrets.age or .bak ever named
    owner: map<nat, Tid>,        // who created each temp name last
    crashed: bool)               // a power loss has happened

  datatype State = State(
    fs: FileSystem,
    held: map<Ino, Tid>,         // flock: lock inode to its holder
    writers: map<Tid, Writer>,
    readers: map<Tid, Reader>,
    log: Ledger)

  const INIT := State(FileSystem(map[], map[], map[], {}), map[], map[], map[],
                      Ledger([], 0, {}, {}, map[], false))

  // ---------------------------------------------------------------- steps

  datatype Step =
    | Begin(t: Tid, fn: Mutation)
    | OpenLock(t: Tid, node: Ino)
    | Flock(t: Tid)
    | OpenVault(t: Tid, fpkey: string)
    | ReadChunk(t: Tid)
    | FinishRead(t: Tid)
    | Mutate(t: Tid)
    | CreateTemp(t: Tid, suffix: nat, node: Ino)
    | WriteChunk(t: Tid)
    | CloseWriter(t: Tid)
    | SyncTemp(t: Tid)
    | CloseTemp(t: Tid)
    | StatVault(t: Tid)
    | UnlinkBak(t: Tid)
    | LinkBak(t: Tid)
    | Rename(t: Tid)
    | SyncDir(t: Tid)
    | CloseDir(t: Tid)
    | RemoveTemp(t: Tid)
    | Unlock(t: Tid)
    | CloseLock(t: Tid)
    | Fail(t: Tid)
    | Kill(t: Tid)
    | ReaderStart(r: Tid)
    | ReaderOpen(r: Tid)
    | ReaderChunk(r: Tid)
    | ReaderFinish(r: Tid)
    | ReaderFail(r: Tid)
    | PowerLoss(dirAfter: map<Name, Ino>, filesAfter: map<Ino, File>)
    | UnlinkLock(t: Tid)

  /** Between flock and unlock. */
  predicate Critical(at: Stage) {
    at != OpeningLock && at != Locking && at != ClosingLock && at != Returned && at != Killed
  }

  /** The call has its descriptor of the lock file open. */
  predicate LockOpen(at: Stage) {
    at != OpeningLock && at != Returned && at != Killed
  }

  /** A temp file has been created and its deferred removal has not run. */
  predicate HasTemp(at: Stage) {
    match at
    case Writing | Syncing | ClosingTemp | Statting | UnlinkingBak | LinkingBak | Renaming => true
    case SyncingDir | ClosingDir | RemovingTemp => true
    case _ => false
  }

  predicate At(s: State, t: Tid, at: Stage) {
    t in s.writers && s.writers[t].at == at
  }

  /** Each un-synced directory update may or may not have reached the disk. */
  predicate DirMaySurvive(fs: FileSystem, d: map<Name, Ino>) {
    && (forall n :: n in d ==> (n in fs.stable && fs.stable[n] == d[n]) || Entry(n, Some(d[n])) in fs.pending)
    && (forall n :: n in fs.stable && n !in d ==> Entry(n, None) in fs.pending)
  }

  predicate FilesMaySurvive(fs: FileSystem, f: map<Ino, File>) {
    && f.Keys == fs.files.Keys
    && forall i :: i in f ==> f[i] == fs.files[i] || (!fs.files[i].synced && f[i].data.Partial?)
  }

  /** The system call can be made now, and the kernel can do it. */
  predicate Possible(s: State, step: Step) {
    match step
    case Begin(t, _) => t !in s.writers
    case OpenLock(t, node) => At(s, t, OpeningLock) && node !in s.fs.files
    case Flock(t) => At(s, t, Locking) && s.writers[t].lf !in s.held
    case OpenVault(t, _) => At(s, t, OpeningVault)
    case ReadChunk(t) => At(s, t, Reading) && s.writers[t].ino in s.fs.files
    case FinishRead(t) => At(s, t, Reading) && s.writers[t].seen.Some?
    case Mutate(t) => At(s, t, Mutating)
    case CreateTemp(t, suffix, node) =>
      At(s, t, CreatingTemp) && Temp(suffix) !in s.fs.dir && node !in s.fs.files
    case WriteChunk(t) => At(s, t, Writing)
    case CloseWriter(t) => At(s, t, Writing)
    case SyncTemp(t) => At(s, t, Syncing) && s.writers[t].ino in s.fs.files
    case CloseTemp(t) => At(s, t, ClosingTemp)
    case StatVault(t) => At(s, t, Statting)
    case UnlinkBak(t) => At(s, t, UnlinkingBak)
    case LinkBak(t) => At(s, t, LinkingBak) && Vault in s.fs.dir && Bak !in s.fs.dir
    case Rename(t) => At(s, t, Renaming) && Temp(s.writers[t].tmp) in s.fs.dir
    case SyncDir(t) => At(s, t, SyncingDir)
    case CloseDir(t) => At(s, t, ClosingDir)
    case RemoveTemp(t) => At(s, t, RemovingTemp)
    case Unlock(t) => At(s, t, Unlocking)
    case CloseLock(t) => At(s, t, ClosingLock)
    case Fail(t) =>
      t in s.writers && (Critical(s.writers[t].at) || s.writers[t].at in {OpeningLock, Locking}) &&
      s.writers[t].at != Unlocking
    case Kill(t) => t in s.writers && s.writers[t].at !in {Returned, Killed}
    case ReaderStart(r) => r !in s.readers
    case ReaderOpen(r) => r in s.readers && s.readers[r].open.None?
    case ReaderChunk(r) => r in s.readers && s.readers[r].open.Some? && s.readers[r].open.value in s.fs.files
    case ReaderFinish(r) => r in s.readers && s.readers[r].open.Some? && s.readers[r].seen.Some?
    case ReaderFail(r) => r in s.readers && s.readers[r].open.Some?
    case PowerLoss(d, f) => DirMaySurvive(s.fs, d) && FilesMaySurvive(s.fs, f)
    case UnlinkLock(t) => At(s, t, Returned)
  }

  /** `broken` adds the step of the stress test's `brokenUpdate`; the real code has none. */
  predicate Enabled(s: State, step: Step, broken: bool) {
    Possible(s, step) && (step.UnlinkLock? ==> broken)
  }

  function SetWriter(s: State, t: Tid, w: Writer): State {
    s.(writers := s.writers[t := w])
  }

  function Goto(s: State, t: Tid, at: Stage): State
    requires t in s.writers
  {
    SetWriter(s, t, s.writers[t].(at := at))
  }

  function SetName(fs: FileSystem, n: Name, i: Ino): FileSystem {
    fs.(dir := fs.dir[n := i], pending := fs.pending + {Entry(n, Some(i))})
  }

  function RemoveName(fs: FileSystem, n: Name): FileSystem {
    if n in fs.dir then fs.(dir := fs.dir - {n}, pending := fs.pending + {Entry(n, None)}) else fs
  }

  function SetFile(fs: FileSystem, i: Ino, f: File): FileSystem {
    fs.(files := fs.files[i := f])
  }

  function Release(held: map<Ino, Tid>, t: Tid): map<Ino, Tid> {
    map i | i in held && held[i] != t :: held[i]
  }

  /** One more piece of the file is read; pieces of different contents make it torn. */
  function SeeMore(seen: Option<Data>, data: Data): Option<Data> {
    if seen.None? || seen == Some(data) then Some(data) else Some(Partial)
  }

  /** Where the error return of each system call leads: deferred calls still run. */
  function OnError(w: Writer): Writer {
    match w.at
    case OpeningLock => w.(at := Returned)
    case Locking => w.(at := ClosingLock)
    case RemovingTemp => w.(at := Unlocking, leaked := true)
    case _ => if HasTemp(w.at) then w.(at := RemovingTemp) else w.(at := Unlocking)
  }

  /** How many commits a given inode of secrets.age stands for; 0 if none. */
  function VersionOf(hist: seq<Commit>, ino: Ino): (k: nat)
    ensures k <= |hist|
    ensures k > 0 ==> hist[k - 1].ino == ino
    ensures k == 0 ==> forall i :: 0 <= i < |hist| ==> hist[i].ino != ino
  {
    if hist == [] then 0
    else if hist[|hist| - 1].ino == ino then |hist|
    else VersionOf(hist[..|hist| - 1], ino)
  }

  /** Every process is gone; what is on disk becomes the file system. */
  function AfterPowerLoss(s: State, d: map<Name, Ino>, f: map<Ino, File>): State {
    var k := if Vault in d then VersionOf(s.log.hist, d[Vault]) else 0;
    State(FileSystem(d, f, d, {}), map[],
          map t | t in s.writers ::
            (if s.writers[t].at == Returned then s.writers[t] else s.writers[t].(at := Killed)),
          map[],
          s.log.(hist := s.log.hist[..k], durable := k, crashed := true,
                 lost := s.log.lost +
                         (set t | t in s.writers && s.writers[t].committed && s.writers[t].pos >= k)))
  }

  function DoRename(s: State, t: Tid): State
    requires t in s.writers && Temp(s.writers[t].tmp) in s.fs.dir
  {
    var w := s.writers[t];
    var i := s.fs.dir[Temp(w.tmp)];
    SetWriter(s.(fs := SetName(RemoveName(s.fs, Temp(w.tmp)), Vault, i),
                 log := s.log.(hist := s.log.hist + [Commit(t, w.fn, i, w.base, w.next)],
                               named := s.log.named + {i})),
              t, w.(at := SyncingDir, committed := true, pos := |s.log.hist|))
  }

  predicate IsReader(step: Step) {
    step.ReaderStart? || step.ReaderOpen? || step.ReaderChunk? || step.ReaderFinish? || step.ReaderFail?
  }

  function DoReader(s: State, step: Step): State
    requires Possible(s, step)
    requires IsReader(step)
  {
    s.(readers := s.readers[step.r :=
      match step
      case ReaderStart(r) => Reader(None, 0, None, [])
      case ReaderOpen(r) =>
        var rd := s.readers[r];
        if Vault in s.fs.dir then rd.(open := Some(s.fs.dir[Vault]), at := |s.log.hist|, seen := None)
        else rd.(log := rd.log + [Absent(|s.log.hist|)])
      case ReaderChunk(r) =>
        var rd := s.readers[r];
        rd.(seen := SeeMore(rd.seen, s.fs.files[rd.open.value].data))
      case ReaderFinish(r) =>
        var rd := s.readers[r];
        rd.(open := None, log := rd.log +
          [match rd.seen.value case Whole(v) => Found(rd.at, v) case Partial => Corrupt(rd.at)])
      case ReaderFail(r) => s.readers[r].(open := None)])
  }

  function Do(s: State, step: Step): State
    requires Possible(s, step)
  {
    match step
    case Begin(t, fn) =>
      SetWriter(s, t, Writer(fn, OpeningLock, 0, 0, None, Contents([], map[]), Contents([], map[]),
                             0, false, 0, false, false))
    case OpenLock(t, node) =>
      var fs := if Lock in s.fs.dir then s.fs else SetName(SetFile(s.fs, node, File(Partial, false)), Lock, node);
      SetWriter(s.(fs := fs), t, s.writers[t].(at := Locking, lf := fs.dir[Lock]))
    case Flock(t) =>
      Goto(s.(held := s.held[s.writers[t].lf := t]), t, OpeningVault)
    case OpenVault(t, fpkey) =>
      SetWriter(s, t,
        if Vault in s.fs.dir then s.writers[t].(at := Reading, ino := s.fs.dir[Vault], seen := None)
        else s.writers[t].(at := Mutating, base := Contents(fpkey, map[])))
    case ReadChunk(t) =>
      SetWriter(s, t, s.writers[t].(seen := SeeMore(s.writers[t].seen, s.fs.files[s.writers[t].ino].data)))
    case FinishRead(t) =>
      SetWriter(s, t,
        match s.writers[t].seen.value
        case Whole(v) => s.writers[t].(at := Mutating, base := v)
        case Partial => s.writers[t].(at := Unlocking))
    case Mutate(t) =>
      SetWriter(s, t,
        match s.writers[t].fn(s.writers[t].base)
        case Some(v) => s.writers[t].(at := CreatingTemp, next := v)
        case None => s.writers[t].(at := Unlocking))
    case CreateTemp(t, suffix, node) =>
      SetWriter(s.(fs := SetName(SetFile(s.fs, node, File(Partial, false)), Temp(suffix), node),
                   log := s.log.(owner := s.log.owner[suffix := t])),
                t, s.writers[t].(at := Writing, tmp := suffix, ino := node))
    case WriteChunk(t) =>
      s.(fs := SetFile(s.fs, s.writers[t].ino, File(Partial, false)))
    case CloseWriter(t) =>
      Goto(s.(fs := SetFile(s.fs, s.writers[t].ino, File(Whole(s.writers[t].next), false))), t, Syncing)
    case SyncTemp(t) =>
      var i := s.writers[t].ino;
      Goto(s.(fs := SetFile(s.fs, i, s.fs.files[i].(synced := true))), t, ClosingTemp)
    case CloseTemp(t) => Goto(s, t, Statting)
    case StatVault(t) => Goto(s, t, if Vault in s.fs.dir then UnlinkingBak else Renaming)
    case UnlinkBak(t) => Goto(s.(fs := RemoveName(s.fs, Bak)), t, LinkingBak)
    case LinkBak(t) =>
      Goto(s.(fs := SetName(s.fs, Bak, s.fs.dir[Vault]),
              log := s.log.(named := s.log.named + {s.fs.dir[Vault]})), t, Renaming)
    case Rename(t) => DoRename(s, t)
    case SyncDir(t) =>
      Goto(s.(fs := s.fs.(stable := s.fs.dir, pending := {}),
              log := s.log.(durable := |s.log.hist|)), t, ClosingDir)
    case CloseDir(t) => SetWriter(s, t, s.writers[t].(at := RemovingTemp, ok := true))
    case RemoveTemp(t) => Goto(s.(fs := RemoveName(s.fs, Temp(s.writers[t].tmp))), t, Unlocking)
    case Unlock(t) => Goto(s.(held := Release(s.held, t)), t, ClosingLock)
    case CloseLock(t) => Goto(s, t, Returned)
    case Fail(t) => SetWriter(s, t, OnError(s.writers[t]))
    case Kill(t) => Goto(s.(held := Release(s.held, t)), t, Killed)
    case PowerLoss(d, f) => AfterPowerLoss(s, d, f)
    case UnlinkLock(t) => s.(fs := RemoveName(s.fs, Lock))
    case _ => DoReader(s, step)
  }
}
