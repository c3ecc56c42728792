/** The invariant of the write path, and that every step keeps it. */
module WritePathInvariant {
  import opened Wrappers
  import opened VaultData
  import opened WritePath

  // ---------------------------------------------------------------- the invariant

  /** One lock inode; the holder of its flock is the one call in its critical section. */
  ghost predicate LockInv(dir: map<Name, Ino>, held: map<Ino, Tid>, writers: map<Tid, Writer>) {
    && (forall t :: t in writers && LockOpen(writers[t].at) ==> Lock in dir && writers[t].lf == dir[Lock])
    && (forall i :: i in held ==>
          Lock in dir && i == dir[Lock] && held[i] in writers && Critical(writers[held[i]].at))
    && (forall t :: t in writers && Critical(writers[t].at) ==>
          Lock in dir && dir[Lock] in held && held[dir[Lock]] == t)
  }

  ghost predicate RefersWell(files: map<Ino, File>, named: set<Ino>, n: Name, i: Ino) {
    i in files && (n == Vault || n == Bak ==> i in named)
  }

  /** Whatever a name may refer to, now or after a power loss, exists; what secrets.age and
      .bak may refer to is a complete ciphertext on disk. */
  ghost predicate NamesInv(fs: FileSystem, named: set<Ino>) {
    && (forall n :: n in fs.dir ==> RefersWell(fs.files, named, n, fs.dir[n]))
    && (forall n :: n in fs.stable ==> RefersWell(fs.files, named, n, fs.stable[n]))
    && (forall n, i :: Entry(n, Some(i)) in fs.pending ==> RefersWell(fs.files, named, n, i))
    && (forall i :: i in named ==> i in fs.files && fs.files[i].data.Whole? && fs.files[i].synced)
  }

  /** Commit j applied its function to the result of commit j - 1. */
  ghost predicate Chained(hist: seq<Commit>) {
    forall j :: 0 <= j < |hist| ==>
      && hist[j].fn(hist[j].base) == Some(hist[j].vault)
      && (j == 0 ==> IsNew(hist[j].base))
      && (j > 0 ==> hist[j].base == hist[j - 1].vault)
  }

  /** secrets.age is the latest version, and each version still has its own inode. */
  ghost predicate VersionsInv(dir: map<Name, Ino>, files: map<Ino, File>, named: set<Ino>, hist: seq<Commit>) {
    && (Vault in dir <==> hist != [])
    && (hist != [] ==> dir[Vault] == hist[|hist| - 1].ino)
    && (forall j :: 0 <= j < |hist| ==>
          hist[j].ino in named && hist[j].ino in files && files[hist[j].ino].data == Whole(hist[j].vault))
    && (forall j, k :: 0 <= j < k < |hist| ==> hist[j].ino != hist[k].ino)
  }

  /** Each commit is the one rename of the call it names. */
  ghost predicate AuthorsInv(writers: map<Tid, Writer>, hist: seq<Commit>, lost: set<Tid>) {
    forall j :: 0 <= j < |hist| ==>
      && hist[j].author in writers && hist[j].author !in lost
      && writers[hist[j].author].committed && writers[hist[j].author].pos == j
      && writers[hist[j].author].fn == hist[j].fn
  }

  /** A rename is in the history at its position or was undone by a power loss, and a call
      that returns nil is in the part a directory sync covered. */
  ghost predicate AccountOK(t: Tid, w: Writer, log: Ledger) {
    && (w.committed ==> t in log.lost || (w.pos < |log.hist| && log.hist[w.pos].author == t))
    && (w.ok ==> w.committed && t !in log.lost && w.pos < log.durable)
    && (t in log.lost ==> w.committed && log.crashed)
    && (w.at == OpeningLock || w.at == Locking ==> !w.committed)
    && (w.leaked ==> w.at == Unlocking || w.at == ClosingLock || w.at == Returned || w.at == Killed)
  }

  ghost predicate AccountInv(writers: map<Tid, Writer>, log: Ledger) {
    && log.lost <= writers.Keys
    && forall t :: t in writers ==> AccountOK(t, writers[t], log)
  }

  /** What the disk may show for secrets.age after a power loss. */
  ghost predicate DiskInv(stable: map<Name, Ino>, pending: set<Entry>, hist: seq<Commit>, durable: nat) {
    && durable <= |hist|
    && (Vault in stable <==> durable > 0)
    && (durable > 0 ==> stable[Vault] == hist[durable - 1].ino)
    && Entry(Vault, None) !in pending
    && (forall i :: Entry(Vault, Some(i)) in pending ==> exists j :: durable <= j < |hist| && hist[j].ino == i)
  }

  ghost predicate StorageInv(fs: FileSystem, log: Ledger) {
    && NamesInv(fs, log.named)
    && Chained(log.hist)
    && VersionsInv(fs.dir, fs.files, log.named, log.hist)
    && DiskInv(fs.stable, fs.pending, log.hist, log.durable)
  }

  ghost predicate BakInv(dir: map<Name, Ino>, hist: seq<Commit>) {
    Bak in dir ==>
      || (|hist| >= 1 && dir[Bak] == hist[|hist| - 1].ino)
      || (|hist| >= 2 && dir[Bak] == hist[|hist| - 2].ino)
  }

  /** The call that made a temp file is still on its way to remove it, or could not. */
  ghost predicate Keeps(w: Writer, n: nat) {
    w.tmp == n && ((HasTemp(w.at) && !w.committed) || w.at == Killed || w.leaked)
  }

  ghost predicate TempInv(dir: map<Name, Ino>, owner: map<nat, Tid>, writers: map<Tid, Writer>) {
    forall n :: Temp(n) in dir ==> n in owner && owner[n] in writers && Keeps(writers[owner[n]], n)
  }

  ghost predicate SeenOnly(seen: Option<Data>, v: Contents) {
    seen.None? || seen == Some(Whole(v))
  }

  ghost predicate IsBase(hist: seq<Commit>, base: Contents) {
    if hist == [] then IsNew(base) else base == hist[|hist| - 1].vault
  }

  /** The new vault is the mutation of the current one, and nothing is renamed yet. */
  ghost predicate Planned(hist: seq<Commit>, w: Writer) {
    !w.committed && IsBase(hist, w.base) && w.fn(w.base) == Some(w.next)
  }

  /** The temp file is there, under its own name only. */
  ghost predicate TempMade(fs: FileSystem, named: set<Ino>, w: Writer) {
    !w.committed && Temp(w.tmp) in fs.dir && fs.dir[Temp(w.tmp)] == w.ino && w.ino in fs.files && w.ino !in named
  }

  /** The temp file is the whole new vault, forced to disk. */
  ghost predicate Prepared(fs: FileSystem, log: Ledger, w: Writer) {
    Planned(log.hist, w) && TempMade(fs, log.named, w) && fs.files[w.ino] == File(Whole(w.next), true)
  }

  /** This call's rename is the latest, and .bak is the version before it. */
  ghost predicate Landed(fs: FileSystem, log: Ledger, t: Tid, w: Writer) {
    && w.committed && t !in log.lost
    && |log.hist| > 0 && w.pos == |log.hist| - 1 && log.hist[w.pos].author == t
    && (|log.hist| >= 2 ==> Bak in fs.dir && fs.dir[Bak] == log.hist[|log.hist| - 2].ino)
  }

  /** What the lock holder may rely on at each stage. */
  ghost predicate HolderOK(fs: FileSystem, log: Ledger, t: Tid, w: Writer) {
    match w.at
    case OpeningVault => !w.committed
    case Reading =>
      && !w.committed && log.hist != []
      && w.ino == log.hist[|log.hist| - 1].ino && SeenOnly(w.seen, log.hist[|log.hist| - 1].vault)
    case Mutating => !w.committed && IsBase(log.hist, w.base)
    case CreatingTemp => Planned(log.hist, w)
    case Writing => Planned(log.hist, w) && TempMade(fs, log.named, w)
    case Syncing => Planned(log.hist, w) && TempMade(fs, log.named, w) && fs.files[w.ino].data == Whole(w.next)
    case ClosingTemp => Prepared(fs, log, w)
    case Statting => Prepared(fs, log, w)
    case UnlinkingBak => Prepared(fs, log, w) && log.hist != []
    case LinkingBak => Prepared(fs, log, w) && log.hist != [] && Bak !in fs.dir
    case Renaming =>
      && Prepared(fs, log, w)
      && (log.hist != [] ==> Bak in fs.dir && fs.dir[Bak] == log.hist[|log.hist| - 1].ino)
    case SyncingDir => Landed(fs, log, t, w) && Temp(w.tmp) !in fs.dir
    case ClosingDir => Landed(fs, log, t, w) && Temp(w.tmp) !in fs.dir && log.durable == |log.hist|
    case RemovingTemp =>
      if w.committed then Landed(fs, log, t, w) && Temp(w.tmp) !in fs.dir else TempMade(fs, log.named, w)
    case Unlocking => w.committed ==> Landed(fs, log, t, w)
    case _ => true
  }

  ghost predicate HolderInv(fs: FileSystem, log: Ledger, writers: map<Tid, Writer>) {
    forall t :: t in writers && Critical(writers[t].at) ==> HolderOK(fs, log, t, writers[t])
  }

  ghost predicate LoadOK(hist: seq<Commit>, l: Load) {
    match l
    case Found(at, v) => 1 <= at <= |hist| && v == hist[at - 1].vault
    case Absent(at) => at == 0
    case Corrupt(_) => false
  }

  ghost predicate ReaderOK(hist: seq<Commit>, rd: Reader) {
    && (rd.open.Some? ==>
          1 <= rd.at <= |hist| && rd.open.value == hist[rd.at - 1].ino && SeenOnly(rd.seen, hist[rd.at - 1].vault))
    && (forall j :: 0 <= j < |rd.log| ==>
          LoadOK(hist, rd.log[j]) && rd.log[j].at <= (if rd.open.Some? then rd.at else |hist|))
    && (forall j, k :: 0 <= j < k < |rd.log| ==> rd.log[j].at <= rd.log[k].at)
  }

  ghost predicate ReadersInv(readers: map<Tid, Reader>, hist: seq<Commit>) {
    forall r :: r in readers ==> ReaderOK(hist, readers[r])
  }

  ghost predicate Inv(s: State) {
    && LockInv(s.fs.dir, s.held, s.writers)
    && StorageInv(s.fs, s.log)
    && AuthorsInv(s.writers, s.log.hist, s.log.lost)
    && AccountInv(s.writers, s.log)
    && (!s.log.crashed ==> BakInv(s.fs.dir, s.log.hist))
    && (!s.log.crashed ==> TempInv(s.fs.dir, s.log.owner, s.writers))
    && HolderInv(s.fs, s.log, s.writers)
    && ReadersInv(s.readers, s.log.hist)
  }

  // ---------------------------------------------------------------- what each kind of change keeps

  lemma NameSet(fs: FileSystem, log: Ledger, n: Name, i: Ino)
    requires StorageInv(fs, log) && n != Vault && RefersWell(fs.files, log.named, n, i)
    ensures StorageInv(SetName(fs, n, i), log)
  {
  }

  lemma NameRemoved(fs: FileSystem, log: Ledger, n: Name)
    requires StorageInv(fs, log) && n != Vault
    ensures StorageInv(RemoveName(fs, n), log)
  {
  }

  lemma FileSet(fs: FileSystem, log: Ledger, i: Ino, f: File)
    requires StorageInv(fs, log) && i !in log.named
    ensures StorageInv(SetFile(fs, i, f), log)
  {
  }

  lemma DirSynced(fs: FileSystem, log: Ledger)
    requires StorageInv(fs, log)
    ensures StorageInv(fs.(stable := fs.dir, pending := {}), log.(durable := |log.hist|))
  {
  }

  lemma OneHolder(dir: map<Name, Ino>, held: map<Ino, Tid>, writers: map<Tid, Writer>,
                  fs: FileSystem, log: Ledger, t: Tid)
    requires LockInv(dir, held, writers)
    requires t in writers && Critical(writers[t].at) && HolderOK(fs, log, t, writers[t])
    ensures HolderInv(fs, log, writers)
  {
  }

  /** What a call carries through a step that is not its rename. */
  ghost predicate SameCall(w: Writer, w': Writer) {
    w'.fn == w.fn && w'.committed == w.committed && w'.pos == w.pos
  }

  ghost predicate SameLock(w: Writer, w': Writer) {
    LockOpen(w'.at) ==> LockOpen(w.at) && w'.lf == w.lf
  }

  ghost predicate KeepsTemp(w: Writer, w': Writer) {
    Keeps(w, w.tmp) ==> Keeps(w', w.tmp)
  }

  lemma LockKept(dir: map<Name, Ino>, dir': map<Name, Ino>, held: map<Ino, Tid>, writers: map<Tid, Writer>,
                 t: Tid, w: Writer)
    requires LockInv(dir, held, writers) && t in writers
    requires SameLock(writers[t], w) && (Critical(w.at) <==> Critical(writers[t].at))
    requires Lock in dir ==> Lock in dir' && dir'[Lock] == dir[Lock]
    ensures LockInv(dir', held, writers[t := w])
  {
  }

  lemma AccountKept(writers: map<Tid, Writer>, log: Ledger, log': Ledger, t: Tid, w: Writer)
    requires AuthorsInv(writers, log.hist, log.lost) && AccountInv(writers, log)
    requires t in writers && SameCall(writers[t], w) && AccountOK(t, w, log')
    requires log'.hist == log.hist && log'.lost == log.lost && log'.durable >= log.durable
    requires log'.crashed == log.crashed
    ensures AuthorsInv(writers[t := w], log'.hist, log'.lost) && AccountInv(writers[t := w], log')
  {
  }

  lemma TempKept(dir: map<Name, Ino>, dir': map<Name, Ino>, owner: map<nat, Tid>, writers: map<Tid, Writer>,
                 t: Tid, w: Writer)
    requires TempInv(dir, owner, writers) && t in writers && KeepsTemp(writers[t], w)
    requires forall n :: Temp(n) in dir' ==> Temp(n) in dir
    ensures TempInv(dir', owner, writers[t := w])
  {
    forall n | Temp(n) in dir'
      ensures n in owner && owner[n] in writers && Keeps(writers[t := w][owner[n]], n)
    {
      assert Keeps(writers[owner[n]], n);
    }
  }

  /** A step of one call that leaves the lock file and the history alone. */
  lemma Moves(s: State, fs: FileSystem, log: Ledger, t: Tid, w: Writer)
    requires Inv(s) && t in s.writers
    requires SameCall(s.writers[t], w) && SameLock(s.writers[t], w)
    requires Critical(w.at) <==> Critical(s.writers[t].at)
    requires fs == s.fs || Critical(w.at)
    requires Lock in s.fs.dir ==> Lock in fs.dir && fs.dir[Lock] == s.fs.dir[Lock]
    requires log.hist == s.log.hist && log.lost == s.log.lost && log.durable >= s.log.durable
    requires log.crashed == s.log.crashed
    requires log == s.log || Critical(w.at)
    requires StorageInv(fs, log)
    requires !log.crashed ==> BakInv(fs.dir, log.hist) && TempInv(fs.dir, log.owner, s.writers[t := w])
    requires AccountOK(t, w, log)
    requires Critical(w.at) ==> HolderOK(fs, log, t, w)
    ensures Inv(s.(fs := fs, log := log, writers := s.writers[t := w]))
  {
    hide StorageInv, BakInv, TempInv, HolderOK;
    LockKept(s.fs.dir, fs.dir, s.held, s.writers, t, w);
    AccountKept(s.writers, s.log, log, t, w);
    if Critical(w.at) {
      OneHolder(fs.dir, s.held, s.writers[t := w], fs, log, t);
    }
  }

  /** A step of the lock holder on the files alone, making no new temp name. */
  lemma MovesFiles(s: State, fs: FileSystem, t: Tid, w: Writer)
    requires Inv(s) && t in s.writers
    requires SameCall(s.writers[t], w) && SameLock(s.writers[t], w)
    requires Critical(w.at) && Critical(s.writers[t].at)
    requires Lock in s.fs.dir ==> Lock in fs.dir && fs.dir[Lock] == s.fs.dir[Lock]
    requires StorageInv(fs, s.log)
    requires BakInv(s.fs.dir, s.log.hist) ==> BakInv(fs.dir, s.log.hist)
    requires forall n :: Temp(n) in fs.dir ==> Temp(n) in s.fs.dir
    requires KeepsTemp(s.writers[t], w)
    requires AccountOK(t, w, s.log)
    requires HolderOK(fs, s.log, t, w)
    ensures Inv(s.(fs := fs, writers := s.writers[t := w]))
  {
    hide StorageInv, BakInv, LockInv, AuthorsInv, ReadersInv, HolderOK;
    if !s.log.crashed { TempKept(s.fs.dir, fs.dir, s.log.owner, s.writers, t, w); }
    Moves(s, fs, s.log, t, w);
  }

  lemma MovesOnly(s: State, t: Tid, w: Writer)
    requires Inv(s) && t in s.writers
    requires SameCall(s.writers[t], w) && SameLock(s.writers[t], w)
    requires Critical(w.at) <==> Critical(s.writers[t].at)
    requires KeepsTemp(s.writers[t], w)
    requires AccountOK(t, w, s.log)
    requires Critical(w.at) ==> HolderOK(s.fs, s.log, t, w)
    ensures Inv(SetWriter(s, t, w))
  {
    hide StorageInv, BakInv, LockInv, AuthorsInv, ReadersInv, HolderOK;
    if !s.log.crashed { TempKept(s.fs.dir, s.fs.dir, s.log.owner, s.writers, t, w); }
    Moves(s, s.fs, s.log, t, w);
  }

  // ---------------------------------------------------------------- the lock holder's progress

  lemma HolderCreatesTemp(fs: FileSystem, log: Ledger, t: Tid, w: Writer, suffix: nat, node: Ino)
    requires HolderOK(fs, log, t, w) && w.at == CreatingTemp && NamesInv(fs, log.named) && node !in fs.files
    ensures HolderOK(SetName(SetFile(fs, node, File(Partial, false)), Temp(suffix), node), log, t,
                     w.(at := Writing, tmp := suffix, ino := node)) && !w.committed
  {
  }

  lemma HolderSyncsTemp(fs: FileSystem, log: Ledger, t: Tid, w: Writer)
    requires HolderOK(fs, log, t, w) && w.at == Syncing
    ensures HolderOK(SetFile(fs, w.ino, fs.files[w.ino].(synced := true)), log, t, w.(at := ClosingTemp))
    ensures w.ino !in log.named && !w.committed
  {
  }

  lemma HolderUnlinksBak(fs: FileSystem, log: Ledger, t: Tid, w: Writer)
    requires HolderOK(fs, log, t, w) && w.at == UnlinkingBak
    ensures HolderOK(RemoveName(fs, Bak), log, t, w.(at := LinkingBak)) && !w.committed
    ensures BakInv(RemoveName(fs, Bak).dir, log.hist)
  {
  }

  lemma HolderLinksBak(fs: FileSystem, log: Ledger, t: Tid, w: Writer)
    requires HolderOK(fs, log, t, w) && w.at == LinkingBak
    requires VersionsInv(fs.dir, fs.files, log.named, log.hist)
    ensures HolderOK(SetName(fs, Bak, fs.dir[Vault]), log, t, w.(at := Renaming)) && !w.committed
    ensures RefersWell(fs.files, log.named, Bak, fs.dir[Vault])
    ensures BakInv(SetName(fs, Bak, fs.dir[Vault]).dir, log.hist)
    ensures log.(named := log.named + {fs.dir[Vault]}) == log
  {
    assert log.named + {fs.dir[Vault]} == log.named;
  }

  lemma FailKeeps(w: Writer)
    requires Critical(w.at) && w.at != Unlocking
    ensures Critical(OnError(w).at) && SameCall(w, OnError(w)) && SameLock(w, OnError(w)) && KeepsTemp(w, OnError(w))
    ensures OnError(w) == w.(at := RemovingTemp) || OnError(w) == w.(at := Unlocking) || OnError(w) == w.(at := Unlocking, leaked := true)
    ensures OnError(w).at == RemovingTemp <==> HasTemp(w.at) && w.at != RemovingTemp
  {
  }

  lemma HolderUnlocks(fs: FileSystem, log: Ledger, t: Tid, w: Writer, w': Writer)
    requires HolderOK(fs, log, t, w) && Critical(w.at) && (w' == w.(at := Unlocking) || w' == w.(at := Unlocking, leaked := true))
    ensures HolderOK(fs, log, t, w')
  {
  }

  lemma HolderTidies(fs: FileSystem, log: Ledger, t: Tid, w: Writer)
    requires HolderOK(fs, log, t, w) && HasTemp(w.at)
    ensures HolderOK(fs, log, t, w.(at := RemovingTemp))
  {
  }

  lemma HolderFails(fs: FileSystem, log: Ledger, t: Tid, w: Writer)
    requires HolderOK(fs, log, t, w) && Critical(w.at) && w.at != Unlocking
    ensures Critical(OnError(w).at) && HolderOK(fs, log, t, OnError(w))
    ensures SameCall(w, OnError(w)) && SameLock(w, OnError(w)) && KeepsTemp(w, OnError(w))
  {
    hide HolderOK, OnError, Critical, SameCall, SameLock, KeepsTemp, HasTemp;
    FailKeeps(w);
    if OnError(w).at == RemovingTemp {
      HolderTidies(fs, log, t, w);
    } else {
      HolderUnlocks(fs, log, t, w, OnError(w));
    }
  }
  lemma HolderFinishesRead(fs: FileSystem, log: Ledger, t: Tid, w: Writer)
    requires HolderOK(fs, log, t, w) && w.at == Reading && w.seen.Some?
    ensures w.seen.value.Whole? && HolderOK(fs, log, t, w.(at := Mutating, base := w.seen.value.vault))
    ensures !w.committed
  {
  }

  lemma HolderClosesWriter(fs: FileSystem, log: Ledger, t: Tid, w: Writer)
    requires HolderOK(fs, log, t, w) && w.at == Writing
    ensures HolderOK(SetFile(fs, w.ino, File(Whole(w.next), false)), log, t, w.(at := Syncing))
    ensures w.ino !in log.named && !w.committed
  {
  }

  lemma HolderClosesDir(fs: FileSystem, log: Ledger, t: Tid, w: Writer)
    requires HolderOK(fs, log, t, w) && w.at == ClosingDir && AccountOK(t, w, log)
    ensures HolderOK(fs, log, t, w.(at := RemovingTemp, ok := true))
    ensures AccountOK(t, w.(at := RemovingTemp, ok := true), log) && w.committed
  {
  }

  lemma HolderRenames(s: State, t: Tid)
    requires Enabled(s, Rename(t), false) && HolderOK(s.fs, s.log, t, s.writers[t])
    requires AccountOK(t, s.writers[t], s.log)
    ensures HolderOK(DoRename(s, t).fs, DoRename(s, t).log, t, DoRename(s, t).writers[t])
  {
  }

  lemma HolderClosesTemp(fs: FileSystem, log: Ledger, t: Tid, w: Writer)
    requires HolderOK(fs, log, t, w) && w.at == ClosingTemp
    ensures HolderOK(fs, log, t, w.(at := Statting))
  {
  }

  lemma HolderStats(fs: FileSystem, log: Ledger, t: Tid, w: Writer)
    requires HolderOK(fs, log, t, w) && w.at == Statting && VersionsInv(fs.dir, fs.files, log.named, log.hist)
    ensures HolderOK(fs, log, t, w.(at := if Vault in fs.dir then UnlinkingBak else Renaming))
  {
  }

  lemma HolderSyncsDir(fs: FileSystem, log: Ledger, t: Tid, w: Writer)
    requires HolderOK(fs, log, t, w) && w.at == SyncingDir
    ensures HolderOK(fs.(stable := fs.dir, pending := {}), log.(durable := |log.hist|), t, w.(at := ClosingDir))
  {
  }

  lemma HolderRemovesTemp(fs: FileSystem, log: Ledger, t: Tid, w: Writer)
    requires HolderOK(fs, log, t, w) && w.at == RemovingTemp
    ensures HolderOK(RemoveName(fs, Temp(w.tmp)), log, t, w.(at := Unlocking))
  {
  }

  /** Its temp name is gone, so nothing is left for this call to keep. */
  lemma TempRenamed(dir: map<Name, Ino>, dir': map<Name, Ino>, owner: map<nat, Tid>, writers: map<Tid, Writer>,
                    t: Tid, w: Writer)
    requires TempInv(dir, owner, writers) && t in writers
    requires forall n :: Temp(n) in dir' ==> Temp(n) in dir && n != writers[t].tmp
    ensures TempInv(dir', owner, writers[t := w])
  {
    forall n | Temp(n) in dir'
      ensures n in owner && owner[n] in writers && Keeps(writers[t := w][owner[n]], n)
    {
      assert Keeps(writers[owner[n]], n);
    }
  }

  lemma BakSame(dir: map<Name, Ino>, dir': map<Name, Ino>, hist: seq<Commit>)
    requires BakInv(dir, hist) && (Bak in dir' ==> Bak in dir && dir'[Bak] == dir[Bak])
    ensures BakInv(dir', hist)
  {
  }

  lemma TempCreated(dir: map<Name, Ino>, owner: map<nat, Tid>, writers: map<Tid, Writer>,
                    t: Tid, suffix: nat, node: Ino, w: Writer)
    requires TempInv(dir, owner, writers) && t in writers && Temp(suffix) !in dir
    requires Keeps(w, suffix) && writers[t].at == CreatingTemp && !writers[t].leaked
    ensures TempInv(dir[Temp(suffix) := node], owner[suffix := t], writers[t := w])
  {
  }

  /** What the invariant says of one call. */
  lemma InvAt(s: State, t: Tid)
    requires Inv(s) && t in s.writers
    ensures AccountOK(t, s.writers[t], s.log) && StorageInv(s.fs, s.log)
    ensures Critical(s.writers[t].at) ==> HolderOK(s.fs, s.log, t, s.writers[t])
    ensures !s.log.crashed ==> BakInv(s.fs.dir, s.log.hist) && TempInv(s.fs.dir, s.log.owner, s.writers)
  {
    hide LockInv, StorageInv, AuthorsInv, BakInv, TempInv, ReadersInv, AccountOK, HolderOK;
  }

  lemma LockBegun(dir: map<Name, Ino>, held: map<Ino, Tid>, writers: map<Tid, Writer>, t: Tid, w: Writer)
    requires LockInv(dir, held, writers) && t !in writers && w.at == OpeningLock
    ensures LockInv(dir, held, writers[t := w])
  {
  }

  lemma AccountBegun(writers: map<Tid, Writer>, log: Ledger, t: Tid, w: Writer)
    requires AuthorsInv(writers, log.hist, log.lost) && AccountInv(writers, log) && t !in writers
    requires w.at == OpeningLock && !w.committed && !w.ok && !w.leaked
    ensures AuthorsInv(writers[t := w], log.hist, log.lost) && AccountInv(writers[t := w], log)
  {
    assert AccountOK(t, w, log);
    hide AccountOK;
  }

  lemma TempBegun(dir: map<Name, Ino>, owner: map<nat, Tid>, writers: map<Tid, Writer>, t: Tid, w: Writer)
    requires TempInv(dir, owner, writers) && t !in writers
    ensures TempInv(dir, owner, writers[t := w])
  {
    hide Keeps;
  }

  lemma HolderBegun(fs: FileSystem, log: Ledger, writers: map<Tid, Writer>, t: Tid, w: Writer)
    requires HolderInv(fs, log, writers) && t !in writers && !Critical(w.at)
    ensures HolderInv(fs, log, writers[t := w])
  {
    hide HolderOK;
  }

  lemma StepBegin(s: State, t: Tid, fn: Mutation)
    requires Inv(s) && Enabled(s, Begin(t, fn), false)
    ensures Inv(Do(s, Begin(t, fn)))
  {
    hide LockInv, StorageInv, AuthorsInv, AccountInv, BakInv, TempInv, HolderInv, ReadersInv;
    var w := Do(s, Begin(t, fn)).writers[t];
    LockBegun(s.fs.dir, s.held, s.writers, t, w);
    AccountBegun(s.writers, s.log, t, w);
    if !s.log.crashed { TempBegun(s.fs.dir, s.log.owner, s.writers, t, w); }
    HolderBegun(s.fs, s.log, s.writers, t, w);
  }
  lemma LockCreated(s: State, node: Ino)
    requires Inv(s) && Lock !in s.fs.dir && node !in s.fs.files
    ensures Inv(s.(fs := SetName(SetFile(s.fs, node, File(Partial, false)), Lock, node)))
  {
    FileSet(s.fs, s.log, node, File(Partial, false));
    NameSet(SetFile(s.fs, node, File(Partial, false)), s.log, Lock, node);
  }

  /** Opening the lock file shares it; nobody is in the critical section for it. */
  lemma LockShared(dir: map<Name, Ino>, held: map<Ino, Tid>, writers: map<Tid, Writer>, t: Tid, w: Writer)
    requires LockInv(dir, held, writers) && t in writers && writers[t].at == OpeningLock && Lock in dir
    requires w.at == Locking && w.lf == dir[Lock]
    ensures LockInv(dir, held, writers[t := w])
  {
  }

  lemma HolderOthers(fs: FileSystem, log: Ledger, writers: map<Tid, Writer>, t: Tid, w: Writer)
    requires HolderInv(fs, log, writers) && !Critical(w.at)
    ensures HolderInv(fs, log, writers[t := w])
  {
    hide HolderOK;
  }

  lemma AccountWaits(t: Tid, w: Writer, w': Writer, log: Ledger)
    requires AccountOK(t, w, log) && SameCall(w, w') && w'.ok == w.ok && w'.leaked == w.leaked
    requires w.at == OpeningLock || w.at == Locking
    ensures !w.committed && !w.leaked && AccountOK(t, w', log)
  {
  }

  lemma LockOpened(s: State, t: Tid)
    requires Inv(s) && At(s, t, OpeningLock) && Lock in s.fs.dir
    ensures Inv(SetWriter(s, t, s.writers[t].(at := Locking, lf := s.fs.dir[Lock])))
  {
    hide LockInv, StorageInv, AuthorsInv, AccountInv, AccountOK, BakInv, TempInv, HolderInv, HolderOK, ReadersInv;
    var w := s.writers[t].(at := Locking, lf := s.fs.dir[Lock]);
    InvAt(s, t);
    AccountWaits(t, s.writers[t], w, s.log);
    AccountKept(s.writers, s.log, s.log, t, w);
    LockShared(s.fs.dir, s.held, s.writers, t, w);
    HolderOthers(s.fs, s.log, s.writers, t, w);
    if !s.log.crashed { TempKept(s.fs.dir, s.fs.dir, s.log.owner, s.writers, t, w); }
  }
  lemma StepOpenLock(s: State, t: Tid, node: Ino)
    requires Inv(s) && Enabled(s, OpenLock(t, node), false)
    ensures Inv(Do(s, OpenLock(t, node)))
  {
    hide Inv;
    var s' := Do(s, OpenLock(t, node));
    if Lock !in s.fs.dir { LockCreated(s, node); }
    LockOpened(s.(fs := s'.fs), t);
  }

  lemma LockTaken(dir: map<Name, Ino>, held: map<Ino, Tid>, writers: map<Tid, Writer>, t: Tid, w: Writer)
    requires LockInv(dir, held, writers) && t in writers && writers[t].at == Locking && writers[t].lf !in held
    requires w.at == OpeningVault && w.lf == writers[t].lf
    ensures LockInv(dir, held[w.lf := t], writers[t := w])
  {
  }

  lemma HolderStarts(fs: FileSystem, log: Ledger, t: Tid, w: Writer)
    requires w.at == OpeningVault && !w.committed
    ensures HolderOK(fs, log, t, w)
  {
  }

  lemma StepFlock(s: State, t: Tid)
    requires Inv(s) && Enabled(s, Flock(t), false)
    ensures Inv(Do(s, Flock(t)))
  {
    hide LockInv, StorageInv, AuthorsInv, AccountInv, AccountOK, BakInv, TempInv, HolderInv, HolderOK, ReadersInv;
    var s' := Do(s, Flock(t));
    var w := s'.writers[t];
    InvAt(s, t);
    AccountWaits(t, s.writers[t], w, s.log);
    AccountKept(s.writers, s.log, s.log, t, w);
    LockTaken(s.fs.dir, s.held, s.writers, t, w);
    HolderStarts(s.fs, s.log, t, w);
    OneHolder(s'.fs.dir, s'.held, s'.writers, s.fs, s.log, t);
    if !s.log.crashed { TempKept(s.fs.dir, s.fs.dir, s.log.owner, s.writers, t, w); }
  }
  lemma StepOpenVault(s: State, t: Tid, fpkey: string)
    requires Inv(s) && Enabled(s, OpenVault(t, fpkey), false)
    ensures Inv(Do(s, OpenVault(t, fpkey)))
  {
    hide LockInv, AuthorsInv, ReadersInv, TempInv, BakInv;
    MovesOnly(s, t, Do(s, OpenVault(t, fpkey)).writers[t]);
  }

  lemma StepReadChunk(s: State, t: Tid)
    requires Inv(s) && Enabled(s, ReadChunk(t), false)
    ensures Inv(Do(s, ReadChunk(t)))
  {
    hide LockInv, AuthorsInv, ReadersInv, TempInv, BakInv;
    MovesOnly(s, t, Do(s, ReadChunk(t)).writers[t]);
  }

  lemma StepFinishRead(s: State, t: Tid)
    requires Inv(s) && Enabled(s, FinishRead(t), false)
    ensures Inv(Do(s, FinishRead(t)))
  {
    hide LockInv, AuthorsInv, ReadersInv, TempInv, BakInv, StorageInv, HolderOK;
    HolderFinishesRead(s.fs, s.log, t, s.writers[t]);
    MovesOnly(s, t, Do(s, FinishRead(t)).writers[t]);
  }

  lemma HolderMutates(fs: FileSystem, log: Ledger, t: Tid, w: Writer, w': Writer)
    requires HolderOK(fs, log, t, w) && w.at == Mutating
    requires w' == match w.fn(w.base) case Some(v) => w.(at := CreatingTemp, next := v) case None => w.(at := Unlocking)
    ensures HolderOK(fs, log, t, w') && !w.committed
  {
  }

  lemma StepMutate(s: State, t: Tid)
    requires Inv(s) && Enabled(s, Mutate(t), false)
    ensures Inv(Do(s, Mutate(t)))
  {
    hide Inv, LockInv, StorageInv, AuthorsInv, AccountInv, AccountOK, BakInv, TempInv, HolderInv, HolderOK, ReadersInv;
    var w, w' := s.writers[t], Do(s, Mutate(t)).writers[t];
    InvAt(s, t);
    HolderMutates(s.fs, s.log, t, w, w');
    AccountStays(t, w, w', s.log, s.log);
    MovesOnly(s, t, w');
  }
  lemma TempFileMade(fs: FileSystem, log: Ledger, suffix: nat, node: Ino, t: Tid)
    requires StorageInv(fs, log) && node !in fs.files
    ensures NamesInv(fs, log.named)
    ensures StorageInv(SetName(SetFile(fs, node, File(Partial, false)), Temp(suffix), node), log.(owner := log.owner[suffix := t]))
  {
    hide Chained, DiskInv, VersionsInv;
    assert node !in log.named;
    FileSet(fs, log, node, File(Partial, false));
    NameSet(SetFile(fs, node, File(Partial, false)), log, Temp(suffix), node);
  }

  /** What a step inside the critical section that is neither a rename nor a success keeps. */
  lemma AccountStays(t: Tid, w: Writer, w': Writer, log: Ledger, log': Ledger)
    requires AccountOK(t, w, log) && SameCall(w, w') && w'.ok == w.ok && w'.leaked == w.leaked
    requires log'.hist == log.hist && log'.lost == log.lost && log'.durable == log.durable && log'.crashed == log.crashed
    requires Critical(w.at) && Critical(w'.at) && (w'.at == Unlocking || w.at != Unlocking)
    ensures AccountOK(t, w', log') && (w.leaked ==> w.at == Unlocking)
  {
  }

  lemma StepCreateTemp(s: State, t: Tid, suffix: nat, node: Ino)
    requires Inv(s) && Enabled(s, CreateTemp(t, suffix, node), false)
    ensures Inv(Do(s, CreateTemp(t, suffix, node)))
  {
    hide LockInv, AuthorsInv, ReadersInv, TempInv, StorageInv, HolderOK, AccountOK;
    var s' := Do(s, CreateTemp(t, suffix, node));
    TempFileMade(s.fs, s.log, suffix, node, t);
    AccountStays(t, s.writers[t], s'.writers[t], s.log, s'.log);
    HolderCreatesTemp(s.fs, s.log, t, s.writers[t], suffix, node);
    if !s.log.crashed {
      TempCreated(s.fs.dir, s.log.owner, s.writers, t, suffix, node, s'.writers[t]);
      BakSame(s.fs.dir, s'.fs.dir, s.log.hist);
    }
    hide BakInv, TempInv;
    HolderLog(s'.fs, s.log, s'.log, t, s'.writers[t]);
    Moves(s, s'.fs, s'.log, t, s'.writers[t]);
  }

  lemma HolderLog(fs: FileSystem, log: Ledger, log': Ledger, t: Tid, w: Writer)
    requires HolderOK(fs, log, t, w) && log' == log.(owner := log'.owner)
    ensures HolderOK(fs, log', t, w)
  {
  }

  lemma HolderWrites(fs: FileSystem, log: Ledger, t: Tid, w: Writer)
    requires HolderOK(fs, log, t, w) && w.at == Writing
    ensures HolderOK(SetFile(fs, w.ino, File(Partial, false)), log, t, w) && w.ino !in log.named
  {
  }

  lemma StepWriteChunk(s: State, t: Tid)
    requires Inv(s) && Enabled(s, WriteChunk(t), false)
    ensures Inv(Do(s, WriteChunk(t)))
  {
    hide Inv, LockInv, StorageInv, AuthorsInv, AccountInv, AccountOK, BakInv, TempInv, HolderInv, HolderOK, ReadersInv;
    var s' := Do(s, WriteChunk(t));
    InvAt(s, t);
    HolderWrites(s.fs, s.log, t, s.writers[t]);
    FileSet(s.fs, s.log, s.writers[t].ino, File(Partial, false));
    assert s'.writers == s.writers[t := s.writers[t]];
    MovesFiles(s, s'.fs, t, s'.writers[t]);
  }
  lemma StepCloseWriter(s: State, t: Tid)
    requires Inv(s) && Enabled(s, CloseWriter(t), false)
    ensures Inv(Do(s, CloseWriter(t)))
  {
    hide LockInv, AuthorsInv, ReadersInv, TempInv, BakInv, StorageInv, HolderOK;
    var s' := Do(s, CloseWriter(t));
    HolderClosesWriter(s.fs, s.log, t, s.writers[t]);
    FileSet(s.fs, s.log, s.writers[t].ino, File(Whole(s.writers[t].next), false));
    MovesFiles(s, s'.fs, t, s'.writers[t]);
  }

  lemma StepSyncTemp(s: State, t: Tid)
    requires Inv(s) && Enabled(s, SyncTemp(t), false)
    ensures Inv(Do(s, SyncTemp(t)))
  {
    hide LockInv, AuthorsInv, ReadersInv, TempInv, BakInv, StorageInv, HolderOK;
    var s' := Do(s, SyncTemp(t));
    HolderSyncsTemp(s.fs, s.log, t, s.writers[t]);
    FileSet(s.fs, s.log, s.writers[t].ino, s.fs.files[s.writers[t].ino].(synced := true));
    MovesFiles(s, s'.fs, t, s'.writers[t]);
  }

  lemma StepCloseTemp(s: State, t: Tid)
    requires Inv(s) && Enabled(s, CloseTemp(t), false)
    ensures Inv(Do(s, CloseTemp(t)))
  {
    hide LockInv, AuthorsInv, ReadersInv, TempInv, BakInv, StorageInv, HolderOK;
    HolderClosesTemp(s.fs, s.log, t, s.writers[t]);
    MovesOnly(s, t, Do(s, CloseTemp(t)).writers[t]);
  }

  lemma StepStatVault(s: State, t: Tid)
    requires Inv(s) && Enabled(s, StatVault(t), false)
    ensures Inv(Do(s, StatVault(t)))
  {
    hide LockInv, AuthorsInv, ReadersInv, TempInv, BakInv, NamesInv, Chained, DiskInv, VersionsInv, HolderOK;
    HolderStats(s.fs, s.log, t, s.writers[t]);
    MovesOnly(s, t, Do(s, StatVault(t)).writers[t]);
  }

  lemma StepUnlinkBak(s: State, t: Tid)
    requires Inv(s) && Enabled(s, UnlinkBak(t), false)
    ensures Inv(Do(s, UnlinkBak(t)))
  {
    hide LockInv, AuthorsInv, ReadersInv, TempInv, BakInv, StorageInv, HolderOK;
    var s' := Do(s, UnlinkBak(t));
    NameRemoved(s.fs, s.log, Bak);
    HolderUnlinksBak(s.fs, s.log, t, s.writers[t]);
    MovesFiles(s, s'.fs, t, s'.writers[t]);
  }

  lemma StepLinkBak(s: State, t: Tid)
    requires Inv(s) && Enabled(s, LinkBak(t), false)
    ensures Inv(Do(s, LinkBak(t)))
  {
    hide LockInv, AuthorsInv, ReadersInv, TempInv, BakInv, NamesInv, VersionsInv, Chained, DiskInv, HolderOK, RefersWell;
    var s' := Do(s, LinkBak(t));
    HolderLinksBak(s.fs, s.log, t, s.writers[t]);
    NameSet(s.fs, s.log, Bak, s.fs.dir[Vault]);
    MovesFiles(s, s'.fs, t, s'.writers[t]);
  }

  lemma RenameVersions(fs: FileSystem, log: Ledger, c: Commit)
    requires NamesInv(fs, log.named) && VersionsInv(fs.dir, fs.files, log.named, log.hist)
    requires c.ino !in log.named && c.ino in fs.files && fs.files[c.ino] == File(Whole(c.vault), true)
    ensures NamesInv(SetName(fs, Vault, c.ino), log.named + {c.ino})
    ensures VersionsInv(fs.dir[Vault := c.ino], fs.files, log.named + {c.ino}, log.hist + [c])
  {
  }

  lemma RenameDisk(fs: FileSystem, log: Ledger, c: Commit)
    requires DiskInv(fs.stable, fs.pending, log.hist, log.durable)
    ensures DiskInv(fs.stable, SetName(fs, Vault, c.ino).pending, log.hist + [c], log.durable)
  {
    var hist := log.hist + [c];
    forall i | Entry(Vault, Some(i)) in fs.pending + {Entry(Vault, Some(c.ino))}
      ensures exists j :: log.durable <= j < |hist| && hist[j].ino == i
    {
      if i == c.ino {
        assert hist[|log.hist|].ino == i;
      } else {
        var j :| log.durable <= j < |log.hist| && log.hist[j].ino == i;
        assert hist[j].ino == i;
      }
    }
  }

  lemma VaultSet(fs: FileSystem, log: Ledger, c: Commit)
    requires StorageInv(fs, log) && c.ino !in log.named && c.ino in fs.files
    requires fs.files[c.ino] == File(Whole(c.vault), true)
    requires IsBase(log.hist, c.base) && c.fn(c.base) == Some(c.vault)
    ensures StorageInv(SetName(fs, Vault, c.ino), log.(hist := log.hist + [c], named := log.named + {c.ino}))
  {
    RenameVersions(fs, log, c);
    RenameDisk(fs, log, c);
  }

  lemma RenameStorage(s: State, t: Tid)
    requires StorageInv(s.fs, s.log) && Enabled(s, Rename(t), false)
    requires HolderOK(s.fs, s.log, t, s.writers[t])
    ensures StorageInv(DoRename(s, t).fs, DoRename(s, t).log)
  {
    var w := s.writers[t];
    NameRemoved(s.fs, s.log, Temp(w.tmp));
    VaultSet(RemoveName(s.fs, Temp(w.tmp)), s.log, Commit(t, w.fn, w.ino, w.base, w.next));
  }

  lemma RenameAccount(s: State, t: Tid)
    requires AuthorsInv(s.writers, s.log.hist, s.log.lost) && AccountInv(s.writers, s.log)
    requires Enabled(s, Rename(t), false) && !s.writers[t].committed && s.log.durable <= |s.log.hist|
    ensures AuthorsInv(DoRename(s, t).writers, DoRename(s, t).log.hist, DoRename(s, t).log.lost)
    ensures AccountInv(DoRename(s, t).writers, DoRename(s, t).log)
  {
  }

  lemma RenameAllowed(s: State, t: Tid)
    requires StorageInv(s.fs, s.log) && Enabled(s, Rename(t), false) && HolderOK(s.fs, s.log, t, s.writers[t])
    ensures !s.writers[t].committed && s.log.durable <= |s.log.hist|
    ensures VersionsInv(s.fs.dir, s.fs.files, s.log.named, s.log.hist)
  {
  }

  lemma RenameReaders(s: State, t: Tid)
    requires ReadersInv(s.readers, s.log.hist) && Enabled(s, Rename(t), false)
    ensures ReadersInv(DoRename(s, t).readers, DoRename(s, t).log.hist)
  {
    forall r | r in s.readers
      ensures ReaderOK(DoRename(s, t).log.hist, s.readers[r])
    {
      assert ReaderOK(s.log.hist, s.readers[r]);
    }
  }

  lemma RenameKeepsLock(s: State, t: Tid)
    requires LockInv(s.fs.dir, s.held, s.writers) && Enabled(s, Rename(t), false)
    ensures LockInv(DoRename(s, t).fs.dir, DoRename(s, t).held, DoRename(s, t).writers)
  {
    hide LockInv;
    var s' := DoRename(s, t);
    LockKept(s.fs.dir, s'.fs.dir, s.held, s.writers, t, s'.writers[t]);
  }

  lemma RenameLock(s: State, t: Tid)
    requires LockInv(s.fs.dir, s.held, s.writers) && Enabled(s, Rename(t), false)
    requires HolderOK(s.fs, s.log, t, s.writers[t]) && AccountOK(t, s.writers[t], s.log)
    ensures LockInv(DoRename(s, t).fs.dir, DoRename(s, t).held, DoRename(s, t).writers)
    ensures HolderInv(DoRename(s, t).fs, DoRename(s, t).log, DoRename(s, t).writers)
  {
    hide LockInv, HolderOK, HolderInv, AccountOK, SetName, RemoveName;
    var s' := DoRename(s, t);
    RenameKeepsLock(s, t);
    HolderRenames(s, t);
    OneHolder(s'.fs.dir, s'.held, s'.writers, s'.fs, s'.log, t);
  }
  lemma RenameNames(s: State, t: Tid)
    requires Enabled(s, Rename(t), false) && HolderOK(s.fs, s.log, t, s.writers[t])
    requires VersionsInv(s.fs.dir, s.fs.files, s.log.named, s.log.hist)
    requires !s.log.crashed ==> BakInv(s.fs.dir, s.log.hist) && TempInv(s.fs.dir, s.log.owner, s.writers)
    ensures !DoRename(s, t).log.crashed ==> BakInv(DoRename(s, t).fs.dir, DoRename(s, t).log.hist)
    ensures !DoRename(s, t).log.crashed ==> TempInv(DoRename(s, t).fs.dir, DoRename(s, t).log.owner, DoRename(s, t).writers)
  {
    if !s.log.crashed {
      TempRenamed(s.fs.dir, DoRename(s, t).fs.dir, s.log.owner, s.writers, t, DoRename(s, t).writers[t]);
    }
  }

  lemma StepRename(s: State, t: Tid)
    requires Inv(s) && Enabled(s, Rename(t), false)
    ensures Inv(Do(s, Rename(t)))
  {
    hide StorageInv, VersionsInv, LockInv, AuthorsInv, ReadersInv, TempInv, BakInv, HolderOK, AccountOK, DoRename;
    assert HolderOK(s.fs, s.log, t, s.writers[t]) && AccountOK(t, s.writers[t], s.log);
    RenameAllowed(s, t);
    RenameStorage(s, t);
    RenameAccount(s, t);
    RenameReaders(s, t);
    RenameLock(s, t);
    RenameNames(s, t);
  }

  lemma AccountSynced(t: Tid, w: Writer, w': Writer, log: Ledger)
    requires AccountOK(t, w, log) && log.durable <= |log.hist| && w.at == SyncingDir && w' == w.(at := ClosingDir)
    ensures AccountOK(t, w', log.(durable := |log.hist|))
  {
  }

  lemma DurableBound(fs: FileSystem, log: Ledger)
    requires StorageInv(fs, log)
    ensures log.durable <= |log.hist|
  {
    hide NamesInv, Chained, VersionsInv;
  }

  lemma StepSyncDir(s: State, t: Tid)
    requires Inv(s) && Enabled(s, SyncDir(t), false)
    ensures Inv(Do(s, SyncDir(t)))
  {
    hide Inv, LockInv, StorageInv, AuthorsInv, AccountInv, AccountOK, BakInv, TempInv, HolderInv, HolderOK, ReadersInv;
    var s' := Do(s, SyncDir(t));
    InvAt(s, t);
    DirSynced(s.fs, s.log);
    DurableBound(s.fs, s.log);
    if !s.log.crashed { TempKept(s.fs.dir, s'.fs.dir, s.log.owner, s.writers, t, s'.writers[t]); }
    HolderSyncsDir(s.fs, s.log, t, s.writers[t]);
    AccountSynced(t, s.writers[t], s'.writers[t], s.log);
    Moves(s, s'.fs, s'.log, t, s'.writers[t]);
  }
  lemma AccountSucceeds(fs: FileSystem, t: Tid, w: Writer, w': Writer, log: Ledger)
    requires AccountOK(t, w, log) && HolderOK(fs, log, t, w) && w.at == ClosingDir && w' == w.(at := RemovingTemp, ok := true)
    ensures AccountOK(t, w', log)
  {
  }

  lemma StepCloseDir(s: State, t: Tid)
    requires Inv(s) && Enabled(s, CloseDir(t), false)
    ensures Inv(Do(s, CloseDir(t)))
  {
    hide Inv, LockInv, StorageInv, AuthorsInv, AccountInv, AccountOK, BakInv, TempInv, HolderInv, HolderOK, ReadersInv;
    var w' := Do(s, CloseDir(t)).writers[t];
    InvAt(s, t);
    HolderClosesDir(s.fs, s.log, t, s.writers[t]);
    AccountSucceeds(s.fs, t, s.writers[t], w', s.log);
    MovesOnly(s, t, w');
  }
  lemma StepRemoveTemp(s: State, t: Tid)
    requires Inv(s) && Enabled(s, RemoveTemp(t), false)
    ensures Inv(Do(s, RemoveTemp(t)))
  {
    hide Inv, LockInv, StorageInv, AuthorsInv, AccountInv, AccountOK, BakInv, TempInv, HolderInv, HolderOK, ReadersInv;
    var s' := Do(s, RemoveTemp(t));
    InvAt(s, t);
    NameRemoved(s.fs, s.log, Temp(s.writers[t].tmp));
    if !s.log.crashed {
      TempRenamed(s.fs.dir, s'.fs.dir, s.log.owner, s.writers, t, s'.writers[t]);
      BakSame(s.fs.dir, s'.fs.dir, s.log.hist);
    }
    AccountStays(t, s.writers[t], s'.writers[t], s.log, s'.log);
    HolderRemovesTemp(s.fs, s.log, t, s.writers[t]);
    Moves(s, s'.fs, s'.log, t, s'.writers[t]);
  }
  lemma LockReleased(s: State, t: Tid, at: Stage)
    requires LockInv(s.fs.dir, s.held, s.writers) && HolderInv(s.fs, s.log, s.writers)
    requires t in s.writers && !Critical(at) && (LockOpen(at) ==> LockOpen(s.writers[t].at))
    ensures LockInv(s.fs.dir, Release(s.held, t), s.writers[t := s.writers[t].(at := at)])
    ensures HolderInv(s.fs, s.log, s.writers[t := s.writers[t].(at := at)])
  {
  }

  lemma StepUnlock(s: State, t: Tid)
    requires Inv(s) && Enabled(s, Unlock(t), false)
    ensures Inv(Do(s, Unlock(t)))
  {
    hide StorageInv, LockInv, HolderInv, AuthorsInv, TempInv, BakInv, ReadersInv;
    LockReleased(s, t, ClosingLock);
    AccountKept(s.writers, s.log, s.log, t, s.writers[t].(at := ClosingLock));
    if !s.log.crashed { TempKept(s.fs.dir, s.fs.dir, s.log.owner, s.writers, t, s.writers[t].(at := ClosingLock)); }
  }

  lemma StepCloseLock(s: State, t: Tid)
    requires Inv(s) && Enabled(s, CloseLock(t), false)
    ensures Inv(Do(s, CloseLock(t)))
  {
    hide LockInv, AuthorsInv, ReadersInv, TempInv, BakInv, StorageInv, HolderOK;
    MovesOnly(s, t, Do(s, CloseLock(t)).writers[t]);
  }

  lemma StepFail(s: State, t: Tid)
    requires Inv(s) && Enabled(s, Fail(t), false)
    ensures Inv(Do(s, Fail(t)))
  {
    hide LockInv, AuthorsInv, ReadersInv, TempInv, BakInv, StorageInv, HolderOK;
    if Critical(s.writers[t].at) { HolderFails(s.fs, s.log, t, s.writers[t]); }
    MovesOnly(s, t, OnError(s.writers[t]));
  }

  lemma StepKill(s: State, t: Tid)
    requires Inv(s) && Enabled(s, Kill(t), false)
    ensures Inv(Do(s, Kill(t)))
  {
    hide StorageInv, LockInv, HolderInv, AuthorsInv, TempInv, BakInv, ReadersInv;
    LockReleased(s, t, Killed);
    AccountKept(s.writers, s.log, s.log, t, s.writers[t].(at := Killed));
    if !s.log.crashed { TempKept(s.fs.dir, s.fs.dir, s.log.owner, s.writers, t, s.writers[t].(at := Killed)); }
  }


  lemma ReaderPut(s: State, r: Tid, rd: Reader)
    requires Inv(s) && ReaderOK(s.log.hist, rd)
    ensures Inv(s.(readers := s.readers[r := rd]))
  {
    hide StorageInv, LockInv, AuthorsInv, AccountInv, TempInv, BakInv, HolderInv, ReaderOK;
  }

  lemma StepReader(s: State, step: Step)
    requires Inv(s) && Enabled(s, step, false)
    requires IsReader(step)
    ensures Inv(Do(s, step))
  {
    hide StorageInv, LockInv, AuthorsInv, AccountInv, TempInv, BakInv, HolderInv, ReaderOK;
    ReaderMoves(s, step);
    ReaderPut(s, step.r, DoReader(s, step).readers[step.r]);
  }

  lemma ReaderMoves(s: State, step: Step)
    requires StorageInv(s.fs, s.log) && Enabled(s, step, false)
    requires IsReader(step)
    requires step.r in s.readers ==> ReaderOK(s.log.hist, s.readers[step.r])
    ensures ReaderOK(s.log.hist, DoReader(s, step).readers[step.r])
  {
    hide NamesInv, Chained, DiskInv;
  }

  lemma PowerLossVersion(fs: FileSystem, log: Ledger, d: map<Name, Ino>)
    requires DiskInv(fs.stable, fs.pending, log.hist, log.durable) && DirMaySurvive(fs, d)
    requires forall j, k :: 0 <= j < k < |log.hist| ==> log.hist[j].ino != log.hist[k].ino
    ensures var k := if Vault in d then VersionOf(log.hist, d[Vault]) else 0;
      log.durable <= k && (Vault in d <==> k > 0)
  {
    if Vault in d {
      assert exists j :: log.durable - 1 <= j < |log.hist| && 0 <= j && log.hist[j].ino == d[Vault];
    }
  }

  lemma PowerLossNames(fs: FileSystem, log: Ledger, d: map<Name, Ino>, f: map<Ino, File>)
    requires NamesInv(fs, log.named) && DirMaySurvive(fs, d) && FilesMaySurvive(fs, f)
    ensures NamesInv(FileSystem(d, f, d, {}), log.named)
    ensures forall i :: i in log.named ==> i in f && i in fs.files && f[i] == fs.files[i]
  {
  }

  lemma PowerLossChain(log: Ledger, k: nat)
    requires Chained(log.hist) && k <= |log.hist|
    ensures Chained(log.hist[..k])
  {
  }

  lemma PowerLossVersions(fs: FileSystem, log: Ledger, d: map<Name, Ino>, f: map<Ino, File>, k: nat)
    requires VersionsInv(fs.dir, fs.files, log.named, log.hist) && k <= |log.hist| && (Vault in d <==> k > 0)
    requires k > 0 ==> d[Vault] == log.hist[k - 1].ino
    requires forall i :: i in log.named ==> i in f && i in fs.files && f[i] == fs.files[i]
    ensures VersionsInv(d, f, log.named, log.hist[..k]) && DiskInv(d, {}, log.hist[..k], k)
  {
  }

  /** The surviving secrets.age is a version no older than the last synced one. */
  lemma PowerLossStorage(fs: FileSystem, log: Ledger, d: map<Name, Ino>, f: map<Ino, File>)
    requires StorageInv(fs, log) && DirMaySurvive(fs, d) && FilesMaySurvive(fs, f)
    ensures var k := if Vault in d then VersionOf(log.hist, d[Vault]) else 0;
      && log.durable <= k && (Vault in d <==> k > 0)
      && StorageInv(FileSystem(d, f, d, {}), log.(hist := log.hist[..k], durable := k))
  {
    DistinctVersions(fs, log);
    hide NamesInv, DirMaySurvive, FilesMaySurvive, VersionsInv, DiskInv, Chained;
    PowerLossVersion(fs, log, d);
    PowerLossNames(fs, log, d, f);
    var k := if Vault in d then VersionOf(log.hist, d[Vault]) else 0;
    PowerLossChain(log, k);
    PowerLossVersions(fs, log, d, f, k);
    hide VersionOf;
  }

  lemma DistinctVersions(fs: FileSystem, log: Ledger)
    requires StorageInv(fs, log)
    ensures forall j, k :: 0 <= j < k < |log.hist| ==> log.hist[j].ino != log.hist[k].ino
  {
    hide NamesInv, DiskInv, Chained;
  }
  lemma PowerLossAccount(s: State, d: map<Name, Ino>, f: map<Ino, File>)
    requires AuthorsInv(s.writers, s.log.hist, s.log.lost) && AccountInv(s.writers, s.log)
    requires AfterPowerLoss(s, d, f).log.durable >= s.log.durable
    ensures var s' := AfterPowerLoss(s, d, f);
      AuthorsInv(s'.writers, s'.log.hist, s'.log.lost) && AccountInv(s'.writers, s'.log)
  {
    var s' := AfterPowerLoss(s, d, f);
    forall t | t in s'.writers
      ensures AccountOK(t, s'.writers[t], s'.log)
    {
      assert AccountOK(t, s.writers[t], s.log);
    }
  }

  /** No process is left to hold the lock or to read. */
  lemma PowerLossIdle(s: State, d: map<Name, Ino>, f: map<Ino, File>)
    ensures var s' := AfterPowerLoss(s, d, f);
      && LockInv(s'.fs.dir, s'.held, s'.writers) && HolderInv(s'.fs, s'.log, s'.writers)
      && ReadersInv(s'.readers, s'.log.hist) && s'.log.crashed
  {
  }

  lemma StepPowerLoss(s: State, d: map<Name, Ino>, f: map<Ino, File>)
    requires Inv(s) && DirMaySurvive(s.fs, d) && FilesMaySurvive(s.fs, f)
    ensures Inv(AfterPowerLoss(s, d, f))
  {
    hide StorageInv, LockInv, AuthorsInv, AccountInv, ReadersInv, TempInv, BakInv, HolderInv, DirMaySurvive, FilesMaySurvive;
    PowerLossStorage(s.fs, s.log, d, f);
    StorageAfterPowerLoss(s, d, f);
    PowerLossAccount(s, d, f);
    PowerLossIdle(s, d, f);
  }

  lemma StorageAfterPowerLoss(s: State, d: map<Name, Ino>, f: map<Ino, File>)
    requires var k := if Vault in d then VersionOf(s.log.hist, d[Vault]) else 0;
      && s.log.durable <= k
      && StorageInv(FileSystem(d, f, d, {}), s.log.(hist := s.log.hist[..k], durable := k))
    ensures StorageInv(AfterPowerLoss(s, d, f).fs, AfterPowerLoss(s, d, f).log)
    ensures AfterPowerLoss(s, d, f).log.durable >= s.log.durable
  {
    hide NamesInv, Chained, VersionsInv, DiskInv;
  }

  lemma EarlyStep(s: State, step: Step)
    requires Inv(s) && Enabled(s, step, false)
    requires step.Begin? || step.OpenLock? || step.Flock? || step.OpenVault? || step.ReadChunk? || step.FinishRead?
      || step.Mutate? || step.CreateTemp? || step.WriteChunk? || step.CloseWriter? || step.SyncTemp?
    ensures Inv(Do(s, step))
  {
    hide Inv;
    match step
    case Begin(t, fn) => StepBegin(s, t, fn);
    case OpenLock(t, node) => StepOpenLock(s, t, node);
    case Flock(t) => StepFlock(s, t);
    case OpenVault(t, fpkey) => StepOpenVault(s, t, fpkey);
    case ReadChunk(t) => StepReadChunk(s, t);
    case FinishRead(t) => StepFinishRead(s, t);
    case Mutate(t) => StepMutate(s, t);
    case CreateTemp(t, suffix, node) => StepCreateTemp(s, t, suffix, node);
    case WriteChunk(t) => StepWriteChunk(s, t);
    case CloseWriter(t) => StepCloseWriter(s, t);
    case SyncTemp(t) => StepSyncTemp(s, t);
  }

  lemma LateStep(s: State, step: Step)
    requires Inv(s) && Enabled(s, step, false)
    requires step.CloseTemp? || step.StatVault? || step.UnlinkBak? || step.LinkBak? || step.Rename? || step.SyncDir?
      || step.CloseDir? || step.RemoveTemp? || step.Unlock? || step.CloseLock? || step.Fail? || step.Kill?
    ensures Inv(Do(s, step))
  {
    hide Inv;
    match step
    case CloseTemp(t) => StepCloseTemp(s, t);
    case StatVault(t) => StepStatVault(s, t);
    case UnlinkBak(t) => StepUnlinkBak(s, t);
    case LinkBak(t) => StepLinkBak(s, t);
    case Rename(t) => StepRename(s, t);
    case SyncDir(t) => StepSyncDir(s, t);
    case CloseDir(t) => StepCloseDir(s, t);
    case RemoveTemp(t) => StepRemoveTemp(s, t);
    case Unlock(t) => StepUnlock(s, t);
    case CloseLock(t) => StepCloseLock(s, t);
    case Fail(t) => StepFail(s, t);
    case Kill(t) => StepKill(s, t);
  }

  lemma InvHolds(s: State, step: Step)
    requires Inv(s) && Enabled(s, step, false)
    ensures Inv(Do(s, step))
  {
    hide Inv;
    if step.PowerLoss? {
      StepPowerLoss(s, step.dirAfter, step.filesAfter);
    } else if IsReader(step) {
      StepReader(s, step);
    } else if step.Begin? || step.OpenLock? || step.Flock? || step.OpenVault? || step.ReadChunk? || step.FinishRead?
      || step.Mutate? || step.CreateTemp? || step.WriteChunk? || step.CloseWriter? || step.SyncTemp? {
      EarlyStep(s, step);
    } else {
      LateStep(s, step);
    }
  }
}
