/** Replacing the cached binary, and recovering after the process died anywhere inside that.

    Finished file operations persist in order. Every operation meets a fate of its own: it works,
    fails, works and still reports a failure, or the process is killed just before it. */
module Install {
  import opened Options

  /** `owned` says that the path checks accept the file; it moves with the file. */
  datatype File = File(bytes: string, owned: bool)

  datatype Name =
    | Binary | Manifest | BackupBinary | BackupManifest | Transaction
    | Attestation | CandidateBinary | CandidateManifest

  datatype Record = Record(version: string, sha256: string)

  /** The digest, the manifest parser, the version a binary reports, and the wrapper's own version. */
  datatype Host = Host(
    hash: string -> string, parse: string -> Option<Record>, reports: string -> string, version: string)

  type Files = map<Name, File>

  type Pair = (File, File)

  const MANIFEST_MAX: nat := 4096

  // ----- what recovery preserves -----

  predicate Matches(host: Host, binary: File, manifest: File) {
    && binary.owned && manifest.owned && |manifest.bytes| <= MANIFEST_MAX
    && host.parse(manifest.bytes).Some?
    && host.hash(binary.bytes) == host.parse(manifest.bytes).value.sha256
  }

  /** The manifest is well formed and its checksum is the binary's. */
  predicate Verified(host: Host, files: Files, binary: Name, manifest: Name) {
    binary in files && manifest in files && Matches(host, files[binary], files[manifest])
  }

  predicate VerifiedHere(host: Host, files: Files, binary: Name, manifest: Name) {
    Verified(host, files, binary, manifest)
    && host.parse(files[manifest].bytes).value.version == host.version
  }

  /** A binary whose manifest has been moved to the backup name: the first step of a replacement. */
  predicate Orphan(host: Host, files: Files) {
    Manifest !in files && Verified(host, files, Binary, BackupManifest)
  }

  /** The pair an interrupted installation settles on. */
  function Settle(host: Host, files: Files): Option<Pair> {
    if Verified(host, files, Binary, Manifest) then Some((files[Binary], files[Manifest]))
    else if Verified(host, files, BackupBinary, BackupManifest) then Some((files[BackupBinary], files[BackupManifest]))
    else if Orphan(host, files) then Some((files[Binary], files[BackupManifest]))
    else None
  }

  const CLEANED := [Binary, Manifest, BackupBinary, BackupManifest, Transaction]

  /** The pair is in place, with nothing of a transaction left but perhaps a backup binary. */
  predicate InPlace(host: Host, files: Files) {
    Verified(host, files, Binary, Manifest) && BackupManifest !in files && Transaction !in files
  }

  predicate Empty(files: Files) {
    forall n | n in CLEANED :: n !in files
  }

  /** What a completed recovery leaves. */
  predicate Recovered(host: Host, files: Files) {
    InPlace(host, files) || Empty(files)
  }

  /** The current and the backup binary are not two contents with one digest. */
  predicate CollisionFree(host: Host, files: Files) {
    Binary in files && BackupBinary in files && host.hash(files[Binary].bytes) == host.hash(files[BackupBinary].bytes)
    ==> files[Binary].bytes == files[BackupBinary].bytes
  }

  function Moved(files: Files, from: Name, to: Name): Files
    requires from in files
  {
    files[to := files[from]] - {from}
  }

  // ----- what the checks accept -----

  lemma VerifiedWhen(host: Host, files: Files, binary: Name, manifest: Name)
    ensures Verified(host, files, binary, manifest) <==>
      && binary in files && files[binary].owned && manifest in files && files[manifest].owned
      && |files[manifest].bytes| <= 4096 && host.parse(files[manifest].bytes) != None
      && host.parse(files[manifest].bytes).value.sha256 == host.hash(files[binary].bytes)
  {
  }

  /** Why a candidate is refused. */
  predicate Unacceptable(host: Host, files: Files, binary: Name, manifest: Name) {
    || binary !in files || manifest !in files || !files[binary].owned || !files[manifest].owned
    || |files[manifest].bytes| > 4096
    || match host.parse(files[manifest].bytes)
       case None => true
       case Some(record) => record.version != host.version || record.sha256 != host.hash(files[binary].bytes)
  }

  /** Which pair recovery keeps: the current one, else the backup, else a binary whose manifest was
      set aside; each only while its own checksum holds. */
  lemma SettleWhen(host: Host, files: Files, pair: Pair)
    ensures Settle(host, files) == Some(pair) <==>
      var current := Verified(host, files, Binary, Manifest);
      var backup := Verified(host, files, BackupBinary, BackupManifest);
      || (current && pair.0 == files[Binary] && pair.1 == files[Manifest])
      || (!current && backup && pair.0 == files[BackupBinary] && pair.1 == files[BackupManifest])
      || (!current && !backup && Verified(host, files, Binary, BackupManifest) && Manifest !in files
          && pair.0 == files[Binary] && pair.1 == files[BackupManifest])
  {
  }

  // ----- single steps -----

  /** Once the pair is in place, removing what a transaction leaves changes nothing. */
  lemma RemoveLeftovers(host: Host, files: Files, n: Name)
    requires Verified(host, files, Binary, Manifest) && n != Binary && n != Manifest
    ensures Verified(host, files - {n}, Binary, Manifest) && Settle(host, files - {n}) == Settle(host, files)
  {
  }

  /** Nothing settled stays so however much is removed. */
  lemma RemoveUnsettled(host: Host, files: Files, n: Name)
    requires Settle(host, files).None? && (n == Binary || Binary !in files)
    ensures Settle(host, files - {n}).None? && Binary !in files - {n}
  {
  }

  /** While the backup pair is verified, the unverified current files can go. */
  lemma RemoveUnverified(host: Host, files: Files, n: Name)
    requires !Verified(host, files, Binary, Manifest) && Verified(host, files, BackupBinary, BackupManifest)
    requires n == Binary || n == Manifest
    ensures !Verified(host, files - {n}, Binary, Manifest) && Verified(host, files - {n}, BackupBinary, BackupManifest)
    ensures Settle(host, files - {n}) == Settle(host, files)
  {
  }

  lemma RestoreBackup(host: Host, files: Files)
    requires Binary !in files && Manifest !in files && Verified(host, files, BackupBinary, BackupManifest)
    ensures var half := Moved(files, BackupBinary, Binary);
      && Settle(host, half) == Settle(host, files) && Orphan(host, half) && BackupBinary !in half
      && var whole := Moved(half, BackupManifest, Manifest);
         Settle(host, whole) == Settle(host, files) && Verified(host, whole, Binary, Manifest)
  {
  }

  lemma RestoreManifest(host: Host, files: Files)
    requires !Verified(host, files, BackupBinary, BackupManifest)
    requires Binary in files && Manifest !in files && BackupManifest in files
    ensures Settle(host, Moved(files, BackupManifest, Manifest)) == Settle(host, files)
    ensures BackupManifest !in Moved(files, BackupManifest, Manifest)
  {
  }

  /** Setting the current pair aside keeps it settled after either rename. */
  lemma SetAside(host: Host, files: Files)
    requires Verified(host, files, Binary, Manifest) && CollisionFree(host, files)
    ensures var half := Moved(files, Manifest, BackupManifest);
      && Settle(host, half) == Settle(host, files) && Binary in half && Manifest !in half
      && var whole := Moved(half, Binary, BackupBinary);
         && Settle(host, whole) == Settle(host, files) && Binary !in whole && Manifest !in whole
         && Verified(host, whole, BackupBinary, BackupManifest)
  {
    var half := Moved(files, Manifest, BackupManifest);
    if Verified(host, half, BackupBinary, BackupManifest) {
      assert host.hash(files[BackupBinary].bytes) == host.hash(files[Binary].bytes);
      assert half[BackupBinary] == files[BackupBinary] == files[Binary];
    }
  }

  /** Bringing the candidate in: the old pair stays settled until the candidate's manifest arrives. */
  lemma BringIn(host: Host, files: Files)
    requires Binary !in files && Manifest !in files && Verified(host, files, CandidateBinary, CandidateManifest)
    requires Verified(host, files, BackupBinary, BackupManifest) || BackupManifest !in files
    ensures var half := Moved(files, CandidateBinary, Binary);
      && Settle(host, half) == Settle(host, files)
      && var whole := Moved(half, CandidateManifest, Manifest);
         && Verified(host, whole, Binary, Manifest)
         && Settle(host, whole) == Some((files[CandidateBinary], files[CandidateManifest]))
  {
  }

  /** Starting a replacement by removing the unverified current files is safe exactly when the
      current binary is not an orphan that recovery would have given its manifest back. */
  lemma RemovingCurrentIsSafe(host: Host, files: Files)
    requires !Verified(host, files, Binary, Manifest)
    ensures Settle(host, files - {Binary}) == Settle(host, files) <==>
            !Orphan(host, files) || Verified(host, files, BackupBinary, BackupManifest)
  {
  }

  /** In a recovered directory the settled pair is the one in place, and there is none otherwise. */
  lemma RecoveredIsSettled(host: Host, files: Files)
    requires Recovered(host, files)
    ensures match Settle(host, files)
            case None => Empty(files)
            case Some(pair) => Binary in files && Manifest in files && pair == (files[Binary], files[Manifest])
  {
    if !InPlace(host, files) {
      assert Binary !in files && BackupBinary !in files by { assert Binary in CLEANED && BackupBinary in CLEANED; }
    }
  }

  // ----- the file system -----

  datatype Fate = Go | Fails | Slips | Kill

  class FileSystem {
    var files: Files
    var fates: seq<Fate>
    var alive: bool

    constructor (files: Files, fates: seq<Fate>)
      ensures this.files == files && this.fates == fates && alive
    {
      this.files := files;
      this.fates := fates;
      alive := true;
    }

    /** A new process on the same files. */
    method Relaunch(fates: seq<Fate>)
      modifies this
      ensures files == old(files) && alive && this.fates == fates
    {
      this.fates := fates;
      alive := true;
    }

    /** Alive, with no fault to come. */
    predicate Quiet()
      reads this
    {
      alive && fates == []
    }

    /** Draws the fate of the next operation: whether it happens and whether it reports success. */
    method Draw() returns (happens: bool, reports: bool)
      modifies this`fates, this`alive
      ensures !old(alive) ==> !happens && !alive
      ensures !alive ==> !happens
      ensures reports ==> happens
      ensures old(Quiet()) ==> Quiet() && reports
    {
      if !alive {
        return false, false;
      }
      if fates == [] {
        return true, true;
      }
      var fate := fates[0];
      fates := fates[1..];
      alive := fate != Kill;
      return fate == Go || fate == Slips, fate == Go;
    }

    /** unlink; a missing file is no error. */
    method RemoveFileIfExists(n: Name) returns (ok: bool)
      modifies this
      ensures files == old(files) || (old(alive) && files == old(files) - {n})
      ensures ok ==> old(alive) && alive && files == old(files) - {n}
      ensures !old(alive) ==> !alive
      ensures old(Quiet()) ==> Quiet() && ok
    {
      var happens, reports := Draw();
      if happens {
        files := files - {n};
      }
      ok := reports;
    }

    /** rename over any existing target; a missing source is an error. */
    method Rename(from: Name, to: Name) returns (ok: bool)
      modifies this
      ensures files == old(files) || (old(alive) && from in old(files) && files == Moved(old(files), from, to))
      ensures ok ==> old(alive) && alive && from in old(files) && files == Moved(old(files), from, to)
      ensures !old(alive) ==> !alive
      ensures old(Quiet()) && from in old(files) ==> Quiet() && ok
    {
      var happens, reports := Draw();
      if happens && from in files {
        files := Moved(files, from, to);
        ok := reports;
      } else {
        ok := false;
      }
    }

    method FsyncDirectory() returns (ok: bool)
      modifies this
      ensures files == old(files) && (ok ==> old(alive) && alive) && (!old(alive) ==> !alive)
      ensures old(Quiet()) ==> Quiet() && ok
    {
      var happens, reports := Draw();
      ok := reports;
    }

    method WriteTransaction(version: string) returns (ok: bool)
      modifies this
      ensures files == old(files) || (old(alive) && files == old(files)[Transaction := File(version, true)])
      ensures (ok ==> old(alive) && alive) && (!old(alive) ==> !alive && files == old(files))
      ensures old(Quiet()) ==> Quiet() && ok
    {
      var happens, reports := Draw();
      if happens {
        files := files[Transaction := File(version, true)];
      }
      ok := reports;
    }
  }

  // ----- recovery -----

  function Candidate(files: Files): Option<Pair> {
    if CandidateBinary in files && CandidateManifest in files
    then Some((files[CandidateBinary], files[CandidateManifest]))
    else None
  }

  /** The candidate is as it was, and there is no new attestation. */
  ghost predicate SameOthers(before: Files, after: Files) {
    Candidate(after) == Candidate(before) && (Attestation in after ==> Attestation in before)
  }

  datatype Recovery = Current | RestoredBackup | RestoredManifest | Cleaned | Interrupted

  /** Whatever interrupts it, recovery keeps the settled pair; completed, it has put exactly that
      pair in place or, when there was none, has left none of the five names. */
  method RecoverInterruptedInstall(host: Host, fs: FileSystem) returns (r: Recovery)
    modifies fs
    ensures Settle(host, fs.files) == old(Settle(host, fs.files))
    ensures !r.Interrupted? ==> Recovered(host, fs.files) && old(fs.alive) && fs.alive
    ensures r.Cleaned? <==> !r.Interrupted? && old(Settle(host, fs.files)).None?
    ensures !r.Interrupted? ==>
      var current := old(Verified(host, fs.files, Binary, Manifest));
      var backup := old(Verified(host, fs.files, BackupBinary, BackupManifest));
      && (r.Current? <==> current) && (r.RestoredBackup? <==> !current && backup)
      && (r.RestoredManifest? <==> !current && !backup && old(Orphan(host, fs.files)))
    ensures r.Current? ==> (fs.files[Binary], fs.files[Manifest]) == old((fs.files[Binary], fs.files[Manifest]))
    ensures r.RestoredBackup? ==>
      (fs.files[Binary], fs.files[Manifest]) == old((fs.files[BackupBinary], fs.files[BackupManifest]))
    ensures r.RestoredManifest? ==>
      (fs.files[Binary], fs.files[Manifest]) == old((fs.files[Binary], fs.files[BackupManifest]))
    ensures !old(fs.alive) ==> fs.files == old(fs.files) && r.Interrupted?
    ensures old(fs.Quiet()) ==> !r.Interrupted? && (r.Cleaned? ==> Attestation !in fs.files)
    ensures Candidate(fs.files) == old(Candidate(fs.files))
  {
    if Verified(host, fs.files, Binary, Manifest) {
      r := FinishCurrent(host, fs);
      return;
    }
    if Verified(host, fs.files, BackupBinary, BackupManifest) {
      r := RestoreFromBackup(host, fs);
      return;
    }
    if Binary in fs.files && Manifest !in fs.files && BackupManifest in fs.files {
      RestoreManifest(host, fs.files);
      var moved := fs.Rename(BackupManifest, Manifest);
      if !moved {
        return Interrupted;
      }
      if Verified(host, fs.files, Binary, Manifest) {
        RemoveLeftovers(host, fs.files, Transaction);
        var removed := fs.RemoveFileIfExists(Transaction);
        if !removed {
          return Interrupted;
        }
        var synced := fs.FsyncDirectory();
        return if synced then RestoredManifest else Interrupted;
      }
    }
    r := Clean(host, fs);
  }

  method FinishCurrent(host: Host, fs: FileSystem) returns (r: Recovery)
    requires Verified(host, fs.files, Binary, Manifest)
    modifies fs
    ensures Settle(host, fs.files) == old(Settle(host, fs.files)) && Verified(host, fs.files, Binary, Manifest)
    ensures r == Current || r == Interrupted
    ensures r.Current? ==> InPlace(host, fs.files) && BackupBinary !in fs.files && old(fs.alive) && fs.alive
    ensures !old(fs.alive) ==> fs.files == old(fs.files) && r.Interrupted?
    ensures old(fs.Quiet()) ==> !r.Interrupted?
    ensures SameOthers(old(fs.files), fs.files)
  {
    var leftovers := [BackupBinary, BackupManifest, Transaction];
    for i := 0 to |leftovers|
      invariant Settle(host, fs.files) == old(Settle(host, fs.files)) && Verified(host, fs.files, Binary, Manifest)
      invariant SameOthers(old(fs.files), fs.files)
      invariant forall j | 0 <= j < i :: leftovers[j] !in fs.files
      invariant i > 0 ==> old(fs.alive) && fs.alive
      invariant i == 0 ==> fs.files == old(fs.files) && fs.alive == old(fs.alive)
      invariant old(fs.Quiet()) ==> fs.Quiet()
    {
      RemoveLeftovers(host, fs.files, leftovers[i]);
      var removed := fs.RemoveFileIfExists(leftovers[i]);
      if !removed {
        return Interrupted;
      }
    }
    assert leftovers[0] !in fs.files && leftovers[1] !in fs.files && leftovers[2] !in fs.files;
    var synced := fs.FsyncDirectory();
    return if synced then Current else Interrupted;
  }

  method RestoreFromBackup(host: Host, fs: FileSystem) returns (r: Recovery)
    requires !Verified(host, fs.files, Binary, Manifest) && Verified(host, fs.files, BackupBinary, BackupManifest)
    modifies fs
    ensures Settle(host, fs.files) == old(Settle(host, fs.files))
    ensures r == RestoredBackup || r == Interrupted
    ensures r.RestoredBackup? ==> InPlace(host, fs.files) && BackupBinary !in fs.files && old(fs.alive) && fs.alive
    ensures !old(fs.alive) ==> fs.files == old(fs.files) && r.Interrupted?
    ensures old(fs.Quiet()) ==> !r.Interrupted?
    ensures SameOthers(old(fs.files), fs.files)
  {
    RemoveUnverified(host, fs.files, Binary);
    var ok := fs.RemoveFileIfExists(Binary);
    if !ok {
      return Interrupted;
    }
    RemoveUnverified(host, fs.files, Manifest);
    ok := fs.RemoveFileIfExists(Manifest);
    if !ok {
      return Interrupted;
    }
    RestoreBackup(host, fs.files);
    ok := fs.Rename(BackupBinary, Binary);
    if !ok {
      return Interrupted;
    }
    ok := fs.Rename(BackupManifest, Manifest);
    if !ok {
      return Interrupted;
    }
    RemoveLeftovers(host, fs.files, Transaction);
    ok := fs.RemoveFileIfExists(Transaction);
    if !ok {
      return Interrupted;
    }
    ok := fs.FsyncDirectory();
    return if ok then RestoredBackup else Interrupted;
  }

  method Clean(host: Host, fs: FileSystem) returns (r: Recovery)
    requires Settle(host, fs.files).None?
    modifies fs
    ensures Settle(host, fs.files).None?
    ensures r == Cleaned || r == Interrupted
    ensures r.Cleaned? ==> Empty(fs.files) && old(fs.alive) && fs.alive
    ensures !old(fs.alive) ==> fs.files == old(fs.files) && r.Interrupted?
    ensures old(fs.Quiet()) ==> !r.Interrupted? && Attestation !in fs.files
    ensures Candidate(fs.files) == old(Candidate(fs.files))
  {
    for i := 0 to |CLEANED|
      invariant Settle(host, fs.files).None?
      invariant Candidate(fs.files) == old(Candidate(fs.files))
      invariant forall j | 0 <= j < i :: CLEANED[j] !in fs.files
      invariant i > 0 ==> old(fs.alive) && fs.alive
      invariant i == 0 ==> fs.files == old(fs.files) && fs.alive == old(fs.alive)
      invariant old(fs.Quiet()) ==> fs.Quiet()
    {
      assert i > 0 ==> CLEANED[0] !in fs.files;
      RemoveUnsettled(host, fs.files, CLEANED[i]);
      var removed := fs.RemoveFileIfExists(CLEANED[i]);
      if !removed {
        return Interrupted;
      }
    }
    assert CLEANED[0] !in fs.files;
    RemoveUnsettled(host, fs.files, Attestation);
    var ignored := fs.RemoveFileIfExists(Attestation);
    var synced := fs.FsyncDirectory();
    return if synced then Cleaned else Interrupted;
  }

  // ----- replacement -----

  datatype Replacement = Installed | InvalidCandidate | Failed

  /** However the replacement ends, the directory settles on the old pair or on the candidate. */
  ghost predicate OldOrNew(host: Host, before: Files, after: Files) {
    Settle(host, after) == Settle(host, before) || (Settle(host, after).Some? && Settle(host, after) == Candidate(before))
  }

  /** The replacement has so far touched nothing but its own marker and the attestation. */
  predicate OnlyMarked(before: Files, files: Files) {
    files - {Attestation, Transaction} == before - {Attestation, Transaction}
  }

  lemma OnlyMarkedSettles(host: Host, before: Files, files: Files)
    requires OnlyMarked(before, files)
    ensures Settle(host, files) == Settle(host, before) && Candidate(files) == Candidate(before)
    ensures forall n: Name | n != Attestation && n != Transaction ::
              (n in files <==> n in before) && (n in files ==> files[n] == before[n])
  {
    forall n: Name | n != Attestation && n != Transaction
      ensures (n in files <==> n in before) && (n in files ==> files[n] == before[n])
    {
      assert n in files - {Attestation, Transaction} <==> n in files;
      assert n in before - {Attestation, Transaction} <==> n in before;
      assert n in files ==> (files - {Attestation, Transaction})[n] == files[n];
      assert n in before ==> (before - {Attestation, Transaction})[n] == before[n];
    }
  }

  /** Frees the current names: the old pair moves to the backup names, if there is one. */
  method MakeRoom(host: Host, fs: FileSystem, ghost before: Files) returns (ok: bool)
    requires Recovered(host, before) && CollisionFree(host, before) && OnlyMarked(before, fs.files)
    modifies fs
    ensures Settle(host, fs.files) == Settle(host, before) && Candidate(fs.files) == Candidate(before)
    ensures Attestation in fs.files ==> Attestation in old(fs.files)
    ensures ok ==> fs.alive && Binary !in fs.files && Manifest !in fs.files
                   && (Verified(host, fs.files, BackupBinary, BackupManifest) || BackupManifest !in fs.files)
    ensures !old(fs.alive) ==> !fs.alive && fs.files == old(fs.files)
    ensures old(fs.Quiet()) ==> fs.Quiet() && ok
  {
    OnlyMarkedSettles(host, before, fs.files);
    if Verified(host, fs.files, Binary, Manifest) {
      SetAside(host, fs.files);
      ok := fs.Rename(Manifest, BackupManifest);
      if !ok {
        return;
      }
      ok := fs.FsyncDirectory();
      if !ok {
        return;
      }
      ok := fs.Rename(Binary, BackupBinary);
      if !ok {
        return;
      }
      ok := fs.FsyncDirectory();
    } else {
      assert forall n | n in CLEANED && n != Transaction :: n !in fs.files;
      assert fs.files - {Binary} == fs.files && fs.files - {Manifest} == fs.files;
      ok := fs.RemoveFileIfExists(Binary);
      if !ok {
        return;
      }
      ok := fs.RemoveFileIfExists(Manifest);
    }
  }

  /** Moves the candidate into place and checks it there. */
  method Promote(host: Host, fs: FileSystem) returns (ok: bool)
    requires Binary !in fs.files && Manifest !in fs.files
    requires VerifiedHere(host, fs.files, CandidateBinary, CandidateManifest)
    requires Verified(host, fs.files, BackupBinary, BackupManifest) || BackupManifest !in fs.files
    modifies fs
    ensures OldOrNew(host, old(fs.files), fs.files)
    ensures Attestation in fs.files ==> Attestation in old(fs.files)
    ensures ok ==> fs.alive && Verified(host, fs.files, Binary, Manifest)
                   && Some((fs.files[Binary], fs.files[Manifest])) == Candidate(old(fs.files))
    ensures !old(fs.alive) ==> !fs.alive && fs.files == old(fs.files)
    ensures old(fs.Quiet()) ==> fs.Quiet() && ok
  {
    BringIn(host, fs.files);
    ok := fs.Rename(CandidateBinary, Binary);
    if !ok {
      return;
    }
    ok := fs.FsyncDirectory();
    if !ok {
      return;
    }
    ok := fs.Rename(CandidateManifest, Manifest);
    if !ok {
      return;
    }
    ok := fs.FsyncDirectory();
    if ok {
      ok := VerifiedHere(host, fs.files, Binary, Manifest);
    }
  }

  /** Runs on a recovered directory. It refuses exactly the unacceptable candidates; undisturbed, it
      installs every other one, which is then in place alone and without an older attestation; failed or
      killed after any step, the directory still settles on the old pair or on the candidate. */
  method ReplaceCachedBinary(host: Host, fs: FileSystem) returns (r: Replacement)
    requires Recovered(host, fs.files) && CollisionFree(host, fs.files)
    modifies fs
    ensures OldOrNew(host, old(fs.files), fs.files)
    ensures r.InvalidCandidate? <==> Unacceptable(host, old(fs.files), CandidateBinary, CandidateManifest)
    ensures r.InvalidCandidate? ==> fs.files == old(fs.files)
    ensures r.Installed? ==>
      && fs.alive && InPlace(host, fs.files) && BackupBinary !in fs.files
      && Some((fs.files[Binary], fs.files[Manifest])) == Candidate(old(fs.files))
      && host.parse(fs.files[Manifest].bytes).Some?
      && host.parse(fs.files[Manifest].bytes).value.version == host.version
      && host.parse(fs.files[Manifest].bytes).value.sha256 == host.hash(fs.files[Binary].bytes)
    ensures !old(fs.alive) ==> fs.files == old(fs.files)
    ensures old(fs.Quiet()) && !Unacceptable(host, old(fs.files), CandidateBinary, CandidateManifest) ==>
      r.Installed? && Attestation !in fs.files
  {
    if !VerifiedHere(host, fs.files, CandidateBinary, CandidateManifest) {
      return InvalidCandidate;
    }
    ghost var before := fs.files;
    var ignored := fs.RemoveFileIfExists(Attestation);
    assert OnlyMarked(before, fs.files);
    ghost var unmarked := fs.files;
    var ok := fs.WriteTransaction(host.version);
    assert fs.files - {Attestation, Transaction} == unmarked - {Attestation, Transaction};
    OnlyMarkedSettles(host, before, fs.files);
    if !ok {
      return Failed;
    }
    ok := MakeRoom(host, fs, before);
    if !ok {
      return Failed;
    }
    ok := Promote(host, fs);
    if !ok {
      var recovered := RecoverInterruptedInstall(host, fs);
      return Failed;
    }
    var finished := FinishCurrent(host, fs);
    r := if finished.Current? then Installed else Failed;
  }

  /** A replacement that may die anywhere, any number of launches whose recovery may die anywhere,
      and a last launch that runs undisturbed: exactly the old pair or exactly the candidate is then
      in place, or, when there was no old pair, possibly none of the five names. */
  method ReplaceThenRelaunch(host: Host, fs: FileSystem, launches: seq<seq<Fate>>) returns (r: Recovery)
    requires Recovered(host, fs.files) && CollisionFree(host, fs.files)
    modifies fs
    ensures !r.Interrupted? && Recovered(host, fs.files) && OldOrNew(host, old(fs.files), fs.files)
    ensures r.Cleaned? ==> Empty(fs.files) && old(Empty(fs.files))
    ensures !r.Cleaned? ==> InPlace(host, fs.files)
    ensures !r.Cleaned? ==>
      var pair := Some((fs.files[Binary], fs.files[Manifest]));
      pair == old(Settle(host, fs.files)) || pair == Candidate(old(fs.files))
  {
    ghost var before := fs.files;
    RecoveredIsSettled(host, before);
    var replaced := ReplaceCachedBinary(host, fs);
    for i := 0 to |launches|
      invariant OldOrNew(host, before, fs.files)
    {
      fs.Relaunch(launches[i]);
      r := RecoverInterruptedInstall(host, fs);
    }
    fs.Relaunch([]);
    r := RecoverInterruptedInstall(host, fs);
    RecoveredIsSettled(host, fs.files);
    assert !r.Cleaned? ==> Binary in fs.files && Binary in CLEANED;
  }
}
