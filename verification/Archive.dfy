/** Crash-safe compression of a quarantined database file: `compress_quarantine` of rally_storage.py. */
module Archive {
  import opened Basics
  import opened Disks

  // ---------------------------------------------------------------------------
  // The codec and the bytes at stake
  // ---------------------------------------------------------------------------

  /** gzip, gunzip and SHA-256.  Nothing says that gunzip undoes gzip: the protocol checks that itself. */
  datatype Codec = Codec(gzip: Bytes -> Bytes, gunzip: Bytes -> Option<Bytes>, digest: Bytes -> string)

  /** Equal digests mean equal bytes, and an empty stream holds no bytes. */
  ghost predicate Sound(c: Codec) {
    && (forall a, b :: c.digest(a) == c.digest(b) ==> a == b)
    && c.gunzip([]) == Some([])
  }

  /** The original bytes are on the volume, as the source or inside the archive. */
  ghost predicate Holds(c: Codec, d: Disk, source: Name, archive: Name, original: Bytes)
    requires Valid(d)
  {
    || (source in d.dir && At(d, source).data == original)
    || (archive in d.dir && c.gunzip(At(d, archive).data) == Some(original))
  }

  ghost predicate SourceSafe(d: Disk, source: Name, original: Bytes) {
    Anchored(d, source) && At(d, source).data == original
  }

  ghost predicate ArchiveSafe(c: Codec, d: Disk, archive: Name, original: Bytes) {
    Anchored(d, archive) && c.gunzip(At(d, archive).data) == Some(original)
  }

  ghost predicate Secure(c: Codec, d: Disk, source: Name, archive: Name, original: Bytes) {
    SourceSafe(d, source, original) || ArchiveSafe(c, d, archive, original)
  }

  /** Secure, and an archive that is already there has its bytes on the platter. */
  ghost predicate SafeStart(c: Codec, d: Disk, source: Name, archive: Name, original: Bytes) {
    && Secure(c, d, source, archive, original)
    && (archive in d.dir ==> At(d, archive).synced)
  }

  /** Every crash of a secure volume leaves one on which the run can safely start over. */
  lemma CrashIsSafeStart(c: Codec, d: Disk, t: Disk, source: Name, archive: Name, original: Bytes)
    requires Secure(c, d, source, archive, original) && CrashOutcome(d, t)
    ensures SafeStart(c, t, source, archive, original) && Holds(c, t, source, archive, original)
  {
    if SourceSafe(d, source, original) {
      AnchoredSurvives(d, t, source);
    } else {
      AnchoredSurvives(d, t, archive);
    }
  }

  // ---------------------------------------------------------------------------
  // Names and outcomes
  // ---------------------------------------------------------------------------

  const QUARANTINE_STEM := "facts.db.corrupt."
  const TEMP_STEM := ".quarantine-"

  predicate IsQuarantineName(name: Name) {
    && QUARANTINE_STEM <= name
    && exists j | |QUARANTINE_STEM| < j <= |name| ::
         && (forall k :: |QUARANTINE_STEM| <= k < j ==> IsDigit(name[k]))
         && name[j..] in {"", "-wal", "-shm", "-db-wal", "-db-shm"}
  }

  /** A stem, a number, and for side files one of four suffixes. */
  predicate IsNamed(name: Name, digits: string, suffix: string) {
    && AllDigits(digits) && suffix in {"", "-wal", "-shm", "-db-wal", "-db-shm"}
    && name == "facts.db.corrupt." + digits + suffix
  }

  lemma QuarantineNames(name: Name)
    ensures IsQuarantineName(name) <==> exists digits, suffix :: IsNamed(name, digits, suffix)
  {
    if IsQuarantineName(name) {
      var i := |QUARANTINE_STEM|;
      var j :|
        && i < j <= |name| && (forall k :: i <= k < j ==> IsDigit(name[k]))
        && name[j..] in {"", "-wal", "-shm", "-db-wal", "-db-shm"};
      assert name == QUARANTINE_STEM + name[i..j] + name[j..];
      assert IsNamed(name, name[i..j], name[j..]);
    }
    if digits, suffix :| IsNamed(name, digits, suffix) { NamedIsQuarantine(name, digits, suffix); }
  }

  lemma NamedIsQuarantine(name: Name, digits: string, suffix: string)
    requires IsNamed(name, digits, suffix)
    ensures IsQuarantineName(name)
  {
    var i, j := |QUARANTINE_STEM|, |QUARANTINE_STEM| + |digits|;
    assert name[j..] == suffix && name[..i] == QUARANTINE_STEM;
    assert forall k :: i <= k < j ==> name[k] == digits[k - i];
  }

  function ArchiveName(name: Name): Name {
    name + ".gz"
  }

  datatype Failure =
    BadName | NotFound | NotPlain | VerifyFailed | SourceChanged | ArchiveUnreadable | ArchiveDiffers | SourceReplaced

  datatype Outcome =
    | Compressed(sha: string, original: nat, saved: int)
    | RetainedNotSmaller(sha: string, original: nat)
    | Failed(why: Failure)

  // ---------------------------------------------------------------------------
  // The run
  // ---------------------------------------------------------------------------

  const BLOCK := 1024 * 1024

  class Volume {
    const codec: Codec
    var disk: Disk
    /** What other processes will still do to the source, a list of acts per opportunity. */
    var script: seq<seq<Act>>
    /** Every state of the volume so far: a crash may strike in any of them. */
    ghost var history: seq<Disk>
    /** How often other processes have acted, and how often a run has unlinked its source. */
    ghost var acts: nat
    ghost var unlinks: nat

    constructor (codec: Codec, disk: Disk, script: seq<seq<Act>>)
      ensures this.codec == codec && this.disk == disk && this.script == script && history == [disk]
    {
      this.codec, this.disk, this.script := codec, disk, script;
      history, acts, unlinks := [disk], 0, 0;
    }

    /** The last recorded state is the present one. */
    ghost predicate Current()
      reads this
    {
      history != [] && history[|history| - 1] == disk
    }

    /** The states of the run under way form a chain. */
    ghost predicate Chained(g: Guard)
      reads this
    {
      Current() && Chain(history, g)
    }

    /** One system call of a run that changes the volume and leaves the source alone. */
    method Commit(d: Disk, ghost g: Guard)
      requires Chained(g) && Keeps(disk, d, g.name, g.temp) && (g.name != g.temp ==> SameSource(disk, d, g.name))
      modifies `disk, `history
      ensures Chained(g) && disk == d && history == old(history) + [d]
    {
      ChainExtends(history, g, d);
      disk := d;
      history := history + [d];
    }

    /** An opportunity for the environment. */
    method Interfere(name: Name, ghost g: Guard)
      requires Chained(g) && g.name == name && Valid(disk) && (name in disk.dir ==> SingleLink(disk, name))
      modifies this
      ensures Chained(g) && old(history) <= history && Quietly(old(disk), disk, name)
      ensures old(acts) <= acts && unlinks == old(unlinks)
      ensures acts == old(acts) ==> disk == old(disk) && history == old(history)
      ensures if old(script) == [] then script == [] && acts == old(acts) else script == old(script)[1..]
    {
      if script != [] {
        var list := script[0];
        script := script[1..];
        IntrudeAll(name, list, g);
      }
    }

    method IntrudeAll(name: Name, list: seq<Act>, ghost g: Guard)
      requires Chained(g) && g.name == name && Valid(disk) && (name in disk.dir ==> SingleLink(disk, name))
      modifies `disk, `history, `acts
      ensures Chained(g) && old(history) <= history && Quietly(old(disk), disk, name) && old(acts) <= acts
      ensures acts == old(acts) ==> disk == old(disk) && history == old(history)
    {
      for i := 0 to |list|
        invariant Chained(g) && old(history) <= history && Quietly(old(disk), disk, name) && acts == old(acts) + i
        invariant i == 0 ==> disk == old(disk) && history == old(history)
      {
        var last := disk;
        Intrude(name, list[i], g);
        QuietlyTransitive(old(disk), last, disk, name);
      }
    }

    /** Another process acts. */
    method Intrude(name: Name, a: Act, ghost g: Guard)
      requires Chained(g) && g.name == name && Valid(disk) && (name in disk.dir ==> SingleLink(disk, name))
      modifies `disk, `history, `acts
      ensures Chained(g) && acts == old(acts) + 1 && disk == Acted(old(disk), name, a) &&
        history == old(history) + [disk]
      ensures Quietly(old(disk), disk, name)
    {
      ActedQuietly(disk, name, a);
      KeepsAct(disk, a, name, g.temp);
      ChainExtends(history, g, Acted(disk, name, a));
      disk := Acted(disk, name, a);
      history, acts := history + [disk], acts + 1;
    }

    /** The block loop: the open file is read to its end while the environment may still write to it. */
    method ReadSource(name: Name, ino: Ino, ghost g: Guard) returns (data: Bytes)
      requires Chained(g) && g.name == name && Valid(disk) && ino in disk.files &&
        (name in disk.dir ==> SingleLink(disk, name))
      modifies this
      ensures Chained(g) && old(history) <= history
      ensures Quietly(old(disk), disk, name)
      ensures old(acts) <= acts && unlinks == old(unlinks)
      ensures acts == old(acts) ==> disk == old(disk) && history == old(history)
      ensures disk.files[ino].version == old(disk).files[ino].version ==> data == old(disk).files[ino].data
    {
      data := [];
      var before := disk;
      var offset: nat := 0;
      var more := true;
      while more
        invariant Chained(g) && old(history) <= history && Quietly(before, disk, name)
        invariant old(acts) <= acts && unlinks == old(unlinks)
        invariant acts == old(acts) ==> disk == before && history == old(history)
        invariant disk.files[ino].version == before.files[ino].version ==>
                    data == before.files[ino].data[..Min(offset, |before.files[ino].data|)]
        invariant !more && disk.files[ino].version == before.files[ino].version ==> offset >= |before.files[ino].data|
        decreases more, |script|, |disk.files[ino].data| - offset
      {
        var last := disk;
        Interfere(name, g);
        QuietlyTransitive(before, last, disk, name);
        var file := disk.files[ino].data;
        if offset < |file| {
          data := data + file[offset..Min(offset + BLOCK, |file|)];
          NextBlock(file, offset);
          offset := Min(offset + BLOCK, |file|);
        } else {
          more := false;
        }
      }
    }

    /** Fills the temporary file and syncs it. */
    method WriteSynced(temp: Name, data: Bytes, ghost g: Guard)
      requires Chained(g) && g.temp == temp && Valid(disk) && temp in disk.dir && SingleLink(disk, temp)
      modifies `disk, `history
      ensures Chained(g) && disk == Fsync(Write(old(disk), old(disk).dir[temp], data), old(disk).dir[temp])
      ensures history == old(history) + [Write(old(disk), old(disk).dir[temp], data), disk]
    {
      var ino := disk.dir[temp];
      KeepsWrite(disk, data, temp, g.name, temp);
      Commit(Write(disk, ino, data), g);
      KeepsFsync(disk, ino, g.name, temp);
      Commit(Fsync(disk, ino), g);
    }

    /** Creates the temporary file and reads the source. */
    method Stage(name: Name, temp: Name, ghost g: Guard) returns (data: Bytes)
      requires Chained(g) && g.name == name && g.temp == temp && Valid(disk) && temp !in disk.dir && temp != name
      requires name in disk.dir && SingleLink(disk, name)
      modifies this
      ensures Chained(g) && old(history) <= history && Quietly(Create(old(disk), temp), disk, name)
      ensures var i := old(disk).dir[name];
        i in disk.files && (disk.files[i].version == old(disk).files[i].version ==> data == old(disk).files[i].data)
      ensures old(acts) <= acts && unlinks == old(unlinks)
      ensures acts == old(acts) ==>
        && data == At(old(disk), name).data
        && disk == Create(old(disk), temp) && history == old(history) + [Create(old(disk), temp)]
    {
      var ino := disk.dir[name];
      BesideCreated(disk, name, temp);
      KeepsCreate(disk, temp, name, temp);
      Commit(Create(disk, temp), g);
      data := ReadSource(name, ino, g);
    }

    /** The first half of the run: compress into `temp`, sync it, read it back.  `read` is what the block loop saw. */
    method Prepare(name: Name, temp: Name, ghost g: Guard) returns (recovered: Option<Bytes>, ghost read: Bytes)
      requires Chained(g) && g.name == name && g.temp == temp && Valid(disk) && temp !in disk.dir && temp != name
      requires name in disk.dir && SingleLink(disk, name)
      modifies this
      ensures Chained(g) && old(history) <= history && Recovered(codec, old(disk), disk, name, temp, read, recovered)
      ensures old(acts) <= acts && unlinks == old(unlinks)
      ensures acts == old(acts) ==>
        var gz := codec.gzip(At(old(disk), name).data);
        && read == At(old(disk), name).data
        && disk == Staged(old(disk), temp, gz) && history == old(history) + StagingStates(old(disk), temp, gz)
    {
      ghost var start := disk;
      var size := |At(disk, name).data|;
      var data := Stage(name, temp, g);
      read := data;
      if acts == old(acts) { StagingJoined(old(history), start, temp, codec.gzip(data)); }
      recovered := Fill(start, name, temp, data, size, g);
    }

    /** Compresses what was read into the staged file and reads that back. */
    method Fill(ghost start: Disk, name: Name, temp: Name, data: Bytes, size: nat, ghost g: Guard)
        returns (recovered: Option<Bytes>)
      requires Chained(g) && g.temp == temp && Valid(start) && temp !in start.dir && temp != name
      requires name in start.dir && SingleLink(start, name) && Quietly(Create(start, temp), disk, name)
      requires size == |At(start, name).data|
      requires disk.files[start.dir[name]].version == start.files[start.dir[name]].version ==>
        data == At(start, name).data
      modifies `disk, `history
      ensures Chained(g) && Recovered(codec, start, disk, name, temp, data, recovered)
      ensures disk == Fsync(Write(old(disk), start.next, codec.gzip(data)), start.next)
      ensures history == old(history) + [Write(old(disk), start.next, codec.gzip(data)), disk]
    {
      PreparedBy(start, disk, name, temp, codec.gzip(data));
      WriteSynced(temp, codec.gzip(data), g);
      recovered := Checked(codec, At(disk, temp).data, data, size);
    }

    /**
      No-clobber publication: link `temp` as `dest`, or verify the archive that is already there; then sync the
      directory.
      */
    method Publish(temp: Name, dest: Name, recovered: Bytes, ghost g: Guard) returns (refused: Option<Failure>)
      requires Chained(g) && dest != g.name && Valid(disk) && temp in disk.dir
      modifies `disk, `history
      ensures Chained(g) && Valid(disk)
      ensures refused == Refusal(codec, old(disk), dest, recovered)
      ensures refused.Some? ==> disk == old(disk) && history == old(history)
      ensures refused.None? ==> disk == Published(old(disk), temp, dest)
      ensures refused.None? ==> history == old(history) + PublishStates(old(disk), temp, dest)
    {
      refused := None;
      if dest !in disk.dir {
        KeepsChange(disk, Bind(dest, disk.dir[temp]), g.name, g.temp);
        Commit(Changed(disk, Bind(dest, disk.dir[temp])), g);
      } else {
        var existing := codec.gunzip(At(disk, dest).data);
        if !At(disk, dest).regular || existing.None? {
          return Some(ArchiveUnreadable);
        }
        if codec.digest(existing.value) != codec.digest(recovered) || |existing.value| != |recovered| {
          return Some(ArchiveDiffers);
        }
      }
      KeepsSyncDir(disk, g.name, g.temp);
      Commit(SyncDir(disk), g);
    }

    /**
      `compress_quarantine`.  `temp` is the unused name that mkstemp picks; `unlinked` is the volume right before
      the unlink.
      Whatever the environment does up to the last fingerprint check: every state keeps what the earlier ones had
      durable, an untouched source included; and if the source is unlinked, it was untouched, the archive
      holds exactly its bytes and is durable by then.  Undisturbed, the run is `QuietRun`, state by state.
      No other step of the run touches the source: it is unlinked once if the run compressed, and never otherwise.
      */
    method CompressQuarantine(name: Name, temp: Name) returns (r: Outcome, ghost unlinked: Disk)
      requires Current() && Valid(disk) && TEMP_STEM <= temp && temp !in disk.dir
      modifies this
      ensures Current() && Valid(disk) && old(history) <= history
      ensures Chain(history, Guard(|old(history)| - 1, name, temp))
      ensures Unfit(old(disk), name).Some? ==> history == old(history) && !r.Compressed?
      ensures r.Compressed? ==>
        && Removal(codec, unlinked, disk, name, temp, r)
        && Untouched(old(disk), unlinked, name) && At(unlinked, name) == At(old(disk), name)
        && Passed(history, |old(history)| - 1, unlinked)
        && (ArchiveSynced(old(disk), name) ==> Anchored(unlinked, ArchiveName(name)))
      ensures old(acts) <= acts && unlinks == old(unlinks) + if r.Compressed? then 1 else 0
      ensures acts == old(acts) ==>
        var run := QuietRun(codec, old(disk), name, temp);
        r == run.outcome && history == old(history) + run.states
    {
      unlinked := disk;
      ghost var g := Guard(|history| - 1, name, temp);
      var unfit := Unfit(disk, name);
      if unfit.Some? { return Failed(unfit.value), unlinked; }
      NamesDiffer(name, temp);
      r, unlinked := CompressFit(name, temp, g);
    }

    /** The run on a fit source. */
    method CompressFit(name: Name, temp: Name, ghost g: Guard) returns (r: Outcome, ghost unlinked: Disk)
      requires Chained(g) && g.name == name && g.temp == temp && Valid(disk) && Unfit(disk, name).None?
      requires temp !in disk.dir && temp != name && temp != ArchiveName(name) && ArchiveName(name) != name
      modifies this
      ensures Chained(g) && Valid(disk) && old(history) <= history
      ensures r.Compressed? ==>
        && Removal(codec, unlinked, disk, name, temp, r)
        && Untouched(old(disk), unlinked, name) && At(unlinked, name) == At(old(disk), name)
        && Passed(history, |old(history)| - 1, unlinked)
        && (ArchiveSynced(old(disk), name) ==> Anchored(unlinked, ArchiveName(name)))
      ensures old(acts) <= acts && unlinks == old(unlinks) + if r.Compressed? then 1 else 0
      ensures acts == old(acts) ==>
        var run := QuietRun(codec, old(disk), name, temp);
        r == run.outcome && history == old(history) + run.states
    {
      unlinked := disk;
      ghost var start := disk;
      var stamp := FingerprintOf(disk, disk.dir[name]);
      var recovered, read := Prepare(name, temp, g);
      ghost var middle := history;
      assert |old(history)| <= |middle|;
      if recovered.None? {
        Cleanup(temp, g);
        r := Failed(VerifyFailed);
        if acts == old(acts) { UnverifiedRun(codec, start, name, temp, old(history)); }
      } else {
        r, unlinked := ConcludeFit(start, name, temp, stamp, recovered.value, read, g);
        PrefixTransitive(old(history), middle, history);
        if acts == old(acts) { VerifiedRun(codec, start, name, temp, old(history), recovered.value); }
      }
    }

    /** The second half, told in terms of the state in which the run began. */
    method ConcludeFit(ghost start: Disk, name: Name, temp: Name, stamp: Fingerprint, recovered: Bytes,
        ghost read: Bytes, ghost g: Guard) returns (r: Outcome, ghost unlinked: Disk)
      requires Chained(g) && g.name == name && g.temp == temp
      requires temp != name && temp != ArchiveName(name) && ArchiveName(name) != name
      requires Recovered(codec, start, disk, name, temp, read, Some(recovered))
      requires stamp == FingerprintOf(start, start.dir[name])
      modifies this
      ensures Chained(g) && Valid(disk) && old(history) <= history
      ensures r.Compressed? ==>
        && Removal(codec, unlinked, disk, name, temp, r)
        && Untouched(start, unlinked, name) && At(unlinked, name) == At(start, name)
        && Passed(history, |old(history)| - 1, unlinked)
        && (ArchiveSynced(start, name) ==> Anchored(unlinked, ArchiveName(name)))
      ensures old(acts) <= acts && unlinks == old(unlinks) + if r.Compressed? then 1 else 0
      ensures acts == old(acts) && name in old(disk).dir && FingerprintOf(old(disk), old(disk).dir[name]) == stamp ==>
        var run := QuietTail(codec, old(disk), name, temp, stamp.size, recovered);
        r == run.outcome && history == old(history) + run.states
    {
      ghost var staged := disk;
      ReadyToConclude(codec, start, disk, name, temp, read, recovered);
      r, unlinked := Conclude(name, temp, stamp, recovered, g);
      if r.Compressed? { FitConcluded(codec, start, staged, unlinked, disk, name, temp, stamp, recovered, read, r); }
    }

    /** The second half of the run, from the check that the source is unchanged. */
    method Conclude(name: Name, temp: Name, stamp: Fingerprint, recovered: Bytes, ghost g: Guard)
        returns (r: Outcome, ghost unlinked: Disk)
      requires Chained(g) && g.name == name && g.temp == temp && Ready(codec, disk, name, temp, stamp, recovered)
      modifies this
      ensures Chained(g) && Valid(disk) && old(history) <= history
      ensures r.Compressed? ==>
        && Concluded(codec, old(disk), unlinked, disk, name, temp, stamp, recovered)
        && r.original == stamp.size && r.sha == codec.digest(recovered) && Passed(history, |old(history)| - 1, unlinked)
      ensures old(acts) <= acts && unlinks == old(unlinks) + if r.Compressed? then 1 else 0
      ensures acts == old(acts) && name in old(disk).dir && FingerprintOf(old(disk), old(disk).dir[name]) == stamp ==>
        var run := QuietTail(codec, old(disk), name, temp, stamp.size, recovered);
        r == run.outcome && history == old(history) + run.states
    {
      unlinked := disk;
      ghost var start := disk;
      var saved, stop := Settle(name, temp, stamp, recovered, g);
      TailPublished(codec, start, name, temp, stamp.size, recovered, old(history));
      if stop.Some? {
        r := stop.value;
      } else {
        r, unlinked := Complete(start, name, temp, stamp, recovered, saved, g);
      }
    }

    /** The source stands and its archive is published: unlink it, unless it was replaced meanwhile. */
    method Complete(ghost start: Disk, name: Name, temp: Name, stamp: Fingerprint, recovered: Bytes, saved: int,
        ghost g: Guard)
      returns (r: Outcome, ghost unlinked: Disk)
      requires Chained(g) && g.name == name && g.temp == temp &&
        Standing(codec, start, disk, name, temp, stamp, recovered)
      modifies this
      ensures Chained(g) && Valid(disk) && old(history) <= history
      ensures r.Compressed? ==>
        && Concluded(codec, start, unlinked, disk, name, temp, stamp, recovered)
        && r.original == stamp.size && r.sha == codec.digest(recovered) && Passed(history, |old(history)| - 1, unlinked)
      ensures old(acts) <= acts && unlinks == old(unlinks) + if r.Compressed? then 1 else 0
      ensures acts == old(acts) && FingerprintOf(old(disk), old(disk).dir[name]) == stamp ==>
        && r == Compressed(codec.digest(recovered), stamp.size, saved)
        && history == old(history) + RetireStates(old(disk), name, temp)
    {
      ghost var published := disk;
      var ok;
      ok, unlinked := Finish(name, temp, stamp, g);
      if ok { FinishedMatches(codec, start, published, unlinked, disk, name, temp, stamp, recovered); }
      r := if ok then Compressed(codec.digest(recovered), stamp.size, saved) else Failed(SourceReplaced);
    }

    /** Checks the source, weighs the saving and publishes; `stop` says why the run ends here instead. */
    method Settle(name: Name, temp: Name, stamp: Fingerprint, recovered: Bytes, ghost g: Guard)
        returns (saved: int, stop: Option<Outcome>)
      requires Chained(g) && g.name == name && g.temp == temp && Ready(codec, disk, name, temp, stamp, recovered)
      modifies this
      ensures Chained(g) && Valid(disk) && old(history) <= history && (stop.Some? ==> !stop.value.Compressed?)
      ensures stop.None? ==> Standing(codec, old(disk), disk, name, temp, stamp, recovered)
      ensures old(acts) <= acts && unlinks == old(unlinks)
      ensures acts == old(acts) && name in old(disk).dir && FingerprintOf(old(disk), old(disk).dir[name]) == stamp ==>
        var run := QuietTail(codec, old(disk), name, temp, stamp.size, recovered);
        && (stop.None? <==> run.outcome.Compressed?)
        && (stop.Some? ==> stop.value == run.outcome && history == old(history) + run.states)
        && (stop.None? ==> saved == run.outcome.saved && disk == Published(old(disk), temp, ArchiveName(name)))
        && (stop.None? ==> history == old(history) + PublishStates(old(disk), temp, ArchiveName(name)))
    {
      ghost var start := disk;
      Interfere(name, g);
      saved := stamp.size - |At(disk, temp).data|;
      if FingerprintOf(disk, stamp.ino) != stamp || name !in disk.dir || FingerprintOf(disk, disk.dir[name]) != stamp {
        Cleanup(temp, g);
        return saved, Some(Failed(SourceChanged));
      }
      if saved <= 0 {
        Cleanup(temp, g);
        return saved, Some(RetainedNotSmaller(codec.digest(recovered), stamp.size));
      }
      ghost var ready := disk;
      var refused := Publish(temp, ArchiveName(name), recovered, g);
      if refused.Some? {
        Cleanup(temp, g);
        return saved, Some(Failed(refused.value));
      }
      PublishedStands(codec, start, ready, name, temp, stamp, recovered);
      return saved, None;
    }

    /** The last check, the unlink and the clean-up.  Nothing else runs between that check and the unlink. */
    method Finish(name: Name, temp: Name, stamp: Fingerprint, ghost g: Guard) returns (ok: bool, ghost unlinked: Disk)
      requires Chained(g) && g.name == name && g.temp == temp
      requires Valid(disk) && stamp.ino in disk.files && temp in disk.dir && temp != name
      requires name in disk.dir && SingleLink(disk, name)
      modifies this
      ensures Chained(g) && Valid(disk) && old(history) <= history
      ensures ok ==> Retired(unlinked, disk, name, temp)
      ensures ok ==> Quietly(old(disk), unlinked, name) && Keeps(old(disk), unlinked, name, temp)
      ensures ok ==> FingerprintOf(unlinked, unlinked.dir[name]) == stamp
      ensures ok ==> Passed(history, |old(history)| - 1, unlinked)
      ensures old(acts) <= acts && unlinks == old(unlinks) + if ok then 1 else 0
      ensures acts == old(acts) && FingerprintOf(old(disk), old(disk).dir[name]) == stamp ==>
        && ok
        && history == old(history) + RetireStates(old(disk), name, temp)
    {
      ok := CheckAgain(name, stamp, g);
      unlinked := disk;
      if ok {
        ghost var middle := history;
        Unlink(name, temp, g);
        PrefixTransitive(old(history), middle, history);
        PassedLater(middle, history, |old(history)| - 1, |middle| - 1);
      } else {
        Cleanup(temp, g);
      }
    }

    /** The name still leads to a file with the first fingerprint. */
    method CheckAgain(name: Name, stamp: Fingerprint, ghost g: Guard) returns (same: bool)
      requires Chained(g) && g.name == name && Valid(disk) && (name in disk.dir ==> SingleLink(disk, name))
      modifies this
      ensures Chained(g) && old(history) <= history && Quietly(old(disk), disk, name) &&
        Keeps(old(disk), disk, name, g.temp)
      ensures same == (name in disk.dir && FingerprintOf(disk, disk.dir[name]) == stamp)
      ensures old(acts) <= acts && unlinks == old(unlinks)
      ensures acts == old(acts) ==> disk == old(disk) && history == old(history)
    {
      Interfere(name, g);
      ChainLinks(history, g, |old(history)| - 1, |history| - 1);
      same := name in disk.dir && FingerprintOf(disk, disk.dir[name]) == stamp;
    }

    /** Unlinks the source, makes that durable and cleans up; from the unlink on other processes may reuse the name. */
    method Unlink(name: Name, temp: Name, ghost g: Guard)
      requires Chained(g) && g.name == name && g.temp == temp && Valid(disk) && name in disk.dir && temp in disk.dir &&
        temp != name
      modifies this
      ensures unlinks == old(unlinks) + 1 && old(acts) <= acts
      ensures Chained(g) && old(history) <= history && Retired(old(disk), disk, name, temp)
      ensures acts == old(acts) ==> history == old(history) + RetireStates(old(disk), name, temp)
    {
      ghost var start := disk;
      Take(name, g);
      MakeDurable(start, name, temp, g);
      Cleanup(temp, g);
    }

    /** After the unlink: the directory sync, with other processes before and behind it. */
    method MakeDurable(ghost start: Disk, name: Name, temp: Name, ghost g: Guard)
      requires Chained(g) && g.name == name && g.temp == temp && Valid(start) && name in start.dir &&
        temp in start.dir && temp != name
      requires disk == Changed(start, Unbind(name)) && Valid(disk)
      modifies this
      ensures unlinks == old(unlinks) && old(acts) <= acts && Valid(disk)
      ensures Chained(g) && old(history) <= history && temp in disk.dir &&
        Retired(start, Changed(disk, Unbind(temp)), name, temp)
      ensures acts == old(acts) ==> disk == SyncDir(old(disk)) && history == old(history) + [disk]
    {
      Interfere(name, g);
      ghost var before, middle := disk, history;
      SyncAndWait(name, g);
      RetiredBy(start, before, disk, name, temp);
      PrefixTransitive(old(history), middle, history);
    }

    method SyncAndWait(name: Name, ghost g: Guard)
      requires Chained(g) && g.name == name && Valid(disk) && (name in disk.dir ==> SingleLink(disk, name))
      modifies this
      ensures Chained(g) && old(history) <= history && unlinks == old(unlinks) && old(acts) <= acts
      ensures Quietly(SyncDir(old(disk)), disk, name)
      ensures acts == old(acts) ==> disk == SyncDir(old(disk)) && history == old(history) + [disk]
    {
      KeepsSyncDir(disk, name, g.temp);
      Commit(SyncDir(disk), g);
      ghost var synced := history;
      Interfere(name, g);
      PrefixTransitive(old(history), synced, history);
    }

    /** The unlink itself: the one step of a run that touches its source. */
    method Take(name: Name, ghost g: Guard)
      requires Chained(g) && g.name == name && Valid(disk)
      modifies `disk, `history, `unlinks
      ensures Chained(g) && Valid(disk) && unlinks == old(unlinks) + 1
      ensures disk == Changed(old(disk), Unbind(name)) && history == old(history) + [disk]
    {
      KeepsChange(disk, Unbind(name), name, g.temp);
      ChainExtends(history, g, Changed(disk, Unbind(name)));
      disk := Changed(disk, Unbind(name));
      history, unlinks := history + [disk], unlinks + 1;
    }

    /** The `finally` clause. */
    method Cleanup(temp: Name, ghost g: Guard)
      requires Chained(g) && g.temp == temp && Valid(disk)
      modifies `disk, `history
      ensures Chained(g) && Valid(disk) && old(history) <= history
      ensures disk == if temp in old(disk).dir then Changed(old(disk), Unbind(temp)) else old(disk)
      ensures history == if temp in old(disk).dir then old(history) + [disk] else old(history)
    {
      if temp in disk.dir {
        KeepsChange(disk, Unbind(temp), g.name, temp);
        Commit(Changed(disk, Unbind(temp)), g);
      }
    }
  }

  lemma NextBlock(file: Bytes, offset: nat)
    requires offset < |file|
    ensures var end := Min(offset + BLOCK, |file|);
      offset < end <= |file| && file[..Min(offset, |file|)] + file[offset..end] == file[..end]
  {
  }

  /** The archive's content, if it has the digest of what was read and the size the source had. */
  function Checked(c: Codec, archive: Bytes, read: Bytes, size: nat): Option<Bytes> {
    match c.gunzip(archive)
    case None => None
    case Some(x) => if c.digest(x) == c.digest(read) && |x| == size then Some(x) else None
  }

  /** `temp` has a file of its own; everything but `name` is as before. */
  ghost predicate Beside(d: Disk, e: Disk, name: Name, temp: Name) {
    && Valid(d) && Valid(e) && d.files.Keys <= e.files.Keys
    && (forall i <- d.files :: d.files[i].version <= e.files[i].version)
    && (forall i <- d.files :: d.files[i].version == e.files[i].version ==> e.files[i] == d.files[i])
    && temp in e.dir && e.dir[temp] !in d.files && At(e, temp).regular
    && (forall n <- d.dir :: n != name ==> n in e.dir && e.dir[n] == d.dir[n] && At(e, n) == At(d, n))
    && (forall n <- e.dir :: n != name && n != temp ==> n in d.dir)
    && (name in e.dir ==> SingleLink(e, name))
  }

  ghost predicate Prepared(d: Disk, e: Disk, name: Name, temp: Name) {
    Beside(d, e, name, temp) && At(e, temp).synced
  }

  lemma BesideCreated(d: Disk, name: Name, temp: Name)
    requires Valid(d) && temp !in d.dir && temp != name && (name in d.dir ==> SingleLink(d, name))
    ensures Beside(d, Create(d, temp), name, temp) && Create(d, temp).dir[temp] == d.next
  {
    CreateKeeps(d, temp, name);
    var t, e := d.next, Create(d, temp);
    assert e.files == d.files[t := File([], false, true, 0)] && e.dir == d.dir[temp := t];
  }

  lemma BesideQuietly(d: Disk, created: Disk, read: Disk, name: Name, temp: Name)
    requires Beside(d, created, name, temp) && temp != name && Quietly(created, read, name)
    ensures Beside(d, read, name, temp) && read.dir[temp] == created.dir[temp]
  {
    forall i <- d.files
      ensures d.files[i].version <= read.files[i].version
      ensures d.files[i].version == read.files[i].version ==> read.files[i] == d.files[i]
    {
      assert i in created.files;
    }
    forall n <- d.dir | n != name ensures n in read.dir && read.dir[n] == d.dir[n] && At(read, n) == At(d, n) {
      assert n in created.dir;
    }
  }

  /**
    A staged archive was verified against `read`, which is the source's content if the source is still the same
    version.
    */
  ghost predicate Recovered(c: Codec, d: Disk, e: Disk, name: Name, temp: Name, read: Bytes, recovered: Option<Bytes>) {
    && Prepared(d, e, name, temp) && name in d.dir
    && (e.files[d.dir[name]].version == At(d, name).version ==> read == At(d, name).data)
    && recovered == Checked(c, At(e, temp).data, read, |At(d, name).data|)
  }

  lemma PreparedBy(d: Disk, read: Disk, name: Name, temp: Name, data: Bytes)
    requires Valid(d) && temp !in d.dir && temp != name && (name in d.dir ==> SingleLink(d, name))
    requires Quietly(Create(d, temp), read, name)
    ensures temp in read.dir && read.dir[temp] == d.next && d.next in read.files && SingleLink(read, temp)
    ensures Prepared(d, Fsync(Write(read, d.next, data), d.next), name, temp)
  {
    BesideCreated(d, name, temp);
    BesideQuietly(d, Create(d, temp), read, name, temp);
    BesideSingle(d, read, name, temp);
    WriteBeside(d, read, name, temp, data);
  }

  lemma BesideSingle(d: Disk, e: Disk, name: Name, temp: Name)
    requires Beside(d, e, name, temp) && temp != name
    ensures SingleLink(e, temp)
  {
    forall n <- e.dir ensures n != temp ==> e.dir[n] != e.dir[temp] {
      assert n != name && n != temp ==> n in d.dir && e.dir[n] == d.dir[n];
    }
  }

  /** What was staged leaves the archive's file alone. */
  lemma PreparedArchive(d: Disk, e: Disk, name: Name, temp: Name)
    requires Prepared(d, e, name, temp) && ArchiveName(name) != name && ArchiveName(name) != temp
    ensures ArchiveSynced(d, name) ==> ArchiveSynced(e, name)
  {
  }

  lemma WriteBeside(d: Disk, e: Disk, name: Name, temp: Name, data: Bytes)
    requires Beside(d, e, name, temp)
    ensures Prepared(d, Fsync(Write(e, e.dir[temp], data), e.dir[temp]), name, temp)
  {
  }

  /** Why an existing archive stands in the way. */
  function Refusal(c: Codec, d: Disk, dest: Name, recovered: Bytes): Option<Failure>
    requires Valid(d)
  {
    if dest !in d.dir then None
    else if !At(d, dest).regular || c.gunzip(At(d, dest).data).None? then Some(ArchiveUnreadable)
    else
      var x := c.gunzip(At(d, dest).data).value;
      if c.digest(x) != c.digest(recovered) || |x| != |recovered| then Some(ArchiveDiffers) else None
  }

  function RetireStates(d: Disk, name: Name, temp: Name): seq<Disk> {
    var q := Changed(d, Unbind(name));
    [q, SyncDir(q), Changed(SyncDir(q), Unbind(temp))]
  }

  /** From `unlinked` to `end` only the source's name and the temporary one changed, and the latter is gone. */
  ghost predicate Retired(unlinked: Disk, end: Disk, name: Name, temp: Name) {
    && Valid(unlinked) && Valid(end) && name in unlinked.dir && temp !in end.dir
    && (forall n <- unlinked.dir | n != name && n != temp :: n in end.dir && At(end, n) == At(unlinked, n))
  }

  lemma RetiredBy(unlinked: Disk, before: Disk, after: Disk, name: Name, temp: Name)
    requires Valid(unlinked) && name in unlinked.dir && temp != name
    requires Quietly(Changed(unlinked, Unbind(name)), before, name) && Quietly(SyncDir(before), after, name)
    ensures Retired(unlinked, Changed(after, Unbind(temp)), name, temp)
  {
    ChangedKeeps(after, Unbind(temp), name);
    forall n <- unlinked.dir | n != name && n != temp
      ensures n in after.dir && At(after, n) == At(unlinked, n)
    {
      assert n in before.dir && At(before, n) == At(unlinked, n);
    }
  }

  /** There is no archive yet, or its bytes are on the platter. */
  ghost predicate ArchiveSynced(d: Disk, name: Name) {
    Valid(d) && (ArchiveName(name) in d.dir ==> At(d, ArchiveName(name)).synced)
  }

  /** The history went through `d`, at `from` or later. */
  ghost predicate Passed(h: seq<Disk>, from: nat, d: Disk) {
    exists at | from <= at < |h| :: h[at] == d
  }

  lemma PassedLater(h: seq<Disk>, later: seq<Disk>, from: nat, at: nat)
    requires h <= later && from <= at < |h|
    ensures Passed(later, from, h[at])
  {
    assert later[at] == h[at];
  }

  lemma PrefixTransitive(a: seq<Disk>, b: seq<Disk>, c: seq<Disk>)
    requires a <= b <= c
    ensures a <= c
  {
  }

  /** The unlinked bytes are in the archive, and the result describes them. */
  ghost predicate Removal(c: Codec, unlinked: Disk, end: Disk, name: Name, temp: Name, r: Outcome)
    requires r.Compressed?
  {
    && Valid(end) && Retired(unlinked, end, name, temp) && ArchiveName(name) in end.dir &&
      At(end, ArchiveName(name)).regular
    && (Sound(c) ==>
          var bytes := At(unlinked, name).data;
          c.gunzip(At(end, ArchiveName(name)).data) == Some(bytes) && r.sha == c.digest(bytes) && r.original == |bytes|)
  }

  /** The file under `dest` decompresses to something with the digest of `bytes`. */
  ghost predicate Matches(c: Codec, d: Disk, dest: Name, bytes: Bytes) {
    && Valid(d) && dest in d.dir && At(d, dest).regular
    && c.gunzip(At(d, dest).data).Some? && c.digest(c.gunzip(At(d, dest).data).value) == c.digest(bytes)
  }

  lemma RemovalBy(c: Codec, unlinked: Disk, end: Disk, name: Name, temp: Name, r: Outcome, recovered: Bytes,
      read: Bytes)
    requires r.Compressed? && Valid(end) && Retired(unlinked, end, name, temp) &&
      Matches(c, end, ArchiveName(name), recovered)
    requires c.digest(recovered) == c.digest(read) && At(unlinked, name).data == read
    requires r.sha == c.digest(recovered) && r.original == |read|
    ensures Removal(c, unlinked, end, name, temp, r)
  {
  }

  /** The second half, begun at `d`, unlinked the source it was given, and the archive was published by then. */
  ghost predicate Concluded(c: Codec, d: Disk, unlinked: Disk, end: Disk, name: Name, temp: Name, stamp: Fingerprint,
      recovered: Bytes) {
    && Valid(end) && Retired(unlinked, end, name, temp)
    && stamp.ino in d.files && stamp.version == d.files[stamp.ino].version
    && At(unlinked, name) == d.files[stamp.ino] && FingerprintOf(unlinked, unlinked.dir[name]) == stamp
    && Matches(c, end, ArchiveName(name), recovered)
    && (ArchiveSynced(d, name) ==> Anchored(unlinked, ArchiveName(name)))
  }

  lemma ReadyToConclude(c: Codec, start: Disk, staged: Disk, name: Name, temp: Name, read: Bytes, recovered: Bytes)
    requires Recovered(c, start, staged, name, temp, read, Some(recovered))
    requires temp != name && temp != ArchiveName(name) && ArchiveName(name) != name
    ensures Ready(c, staged, name, temp, FingerprintOf(start, start.dir[name]), recovered)
  {
  }

  lemma FitConcluded(c: Codec, start: Disk, staged: Disk, unlinked: Disk, end: Disk, name: Name, temp: Name,
                     stamp: Fingerprint, recovered: Bytes, read: Bytes, r: Outcome)
    requires Recovered(c, start, staged, name, temp, read, Some(recovered)) &&
      stamp == FingerprintOf(start, start.dir[name])
    requires ArchiveName(name) != name && ArchiveName(name) != temp
    requires Concluded(c, staged, unlinked, end, name, temp, stamp, recovered)
    requires r.Compressed? && r.original == stamp.size && r.sha == c.digest(recovered)
    ensures Removal(c, unlinked, end, name, temp, r) && Untouched(start, unlinked, name) &&
      At(unlinked, name) == At(start, name)
    ensures ArchiveSynced(start, name) ==> Anchored(unlinked, ArchiveName(name))
  {
    RemovalBy(c, unlinked, end, name, temp, r, recovered, read);
    PreparedArchive(start, staged, name, temp);
  }

  lemma AssocStates(a: seq<Disk>, b: seq<Disk>, c: seq<Disk>)
    ensures a + b + c == a + (b + c)
  {
  }

  /** A verified archive is staged in `temp` and the source's fingerprint was `stamp` when it was opened. */
  ghost predicate Ready(c: Codec, d: Disk, name: Name, temp: Name, stamp: Fingerprint, recovered: Bytes) {
    && Valid(d) && stamp.ino in d.files && stamp.version <= d.files[stamp.ino].version
    && (name in d.dir ==> SingleLink(d, name))
    && temp in d.dir && temp != name && temp != ArchiveName(name) && ArchiveName(name) != name
    && At(d, temp).regular && At(d, temp).synced && c.gunzip(At(d, temp).data) == Some(recovered)
  }

  /** The archive is published and the source is still the file that was opened, unchanged since `start`. */
  ghost predicate Standing(c: Codec, start: Disk, d: Disk, name: Name, temp: Name, stamp: Fingerprint,
      recovered: Bytes) {
    && Valid(start) && Valid(d) && temp in d.dir && temp != name && ArchiveName(name) != name &&
      ArchiveName(name) != temp
    && stamp.ino in start.files && stamp.ino in d.files
    && start.files[stamp.ino].version == stamp.version && d.files[stamp.ino] == start.files[stamp.ino]
    && name in d.dir && SingleLink(d, name) && Matches(c, d, ArchiveName(name), recovered)
    && (ArchiveSynced(start, name) ==> Anchored(d, ArchiveName(name)))
  }

  lemma PublishedStands(c: Codec, start: Disk, ready: Disk, name: Name, temp: Name, stamp: Fingerprint,
      recovered: Bytes)
    requires Ready(c, start, name, temp, stamp, recovered) && Quietly(start, ready, name)
    requires FingerprintOf(ready, stamp.ino) == stamp && name in ready.dir
    requires Refusal(c, ready, ArchiveName(name), recovered).None?
    ensures temp in ready.dir &&
      Standing(c, start, Published(ready, temp, ArchiveName(name)), name, temp, stamp, recovered)
  {
    var dest := ArchiveName(name);
    assert ready.dir[temp] == start.dir[temp] && At(ready, temp) == At(start, temp);
    ChangedKeeps(ready, Bind(dest, ready.dir[temp]), dest);
    SyncDirKeeps(Linked(ready, temp, dest), dest);
  }

  lemma FinishedMatches(c: Codec, start: Disk, d: Disk, unlinked: Disk, end: Disk, name: Name, temp: Name,
                        stamp: Fingerprint, recovered: Bytes)
    requires Standing(c, start, d, name, temp, stamp, recovered) && Quietly(d, unlinked, name) &&
      Keeps(d, unlinked, name, temp)
    requires name in unlinked.dir && FingerprintOf(unlinked, unlinked.dir[name]) == stamp
    requires Valid(end) && Retired(unlinked, end, name, temp)
    ensures Concluded(c, start, unlinked, end, name, temp, stamp, recovered)
  {
    assert KeepsAnchor(d, unlinked, ArchiveName(name));
    var dest := ArchiveName(name);
    assert unlinked.dir[dest] == d.dir[dest] && At(unlinked, dest) == At(d, dest);
    assert dest in end.dir && At(end, dest) == At(unlinked, dest);
  }

  datatype Run = Run(outcome: Outcome, states: seq<Disk>)

  /** Why the source is not taken at all: a foreign name, no file, or not a plain file of one link. */
  function Unfit(d: Disk, name: Name): (r: Option<Failure>)
    requires Valid(d)
    ensures r.None? ==> QUARANTINE_STEM <= name && name in d.dir && SingleLink(d, name)
  {
    if !IsQuarantineName(name) then Some(BadName)
    else if name !in d.dir then Some(NotFound)
    else if !At(d, name).regular || !SingleLink(d, name) then Some(NotPlain)
    else None
  }

  /** An undisturbed run: its outcome and every state it passes through. */
  function QuietRun(c: Codec, d: Disk, name: Name, temp: Name): Run
    requires Valid(d)
  {
    if Unfit(d, name).Some? then Run(Failed(Unfit(d, name).value), [])
    else
      var bytes := At(d, name).data;
      var gz := c.gzip(bytes);
      var s := Staged(d, temp, gz);
      StagedIsValid(d, temp, gz);
      var staging := StagingStates(d, temp, gz);
      match Checked(c, gz, bytes, |bytes|)
      case None => Run(Failed(VerifyFailed), staging + [Changed(s, Unbind(temp))])
      case Some(x) =>
        var tail := QuietTail(c, s, name, temp, |bytes|, x);
        Run(tail.outcome, staging + tail.states)
  }

  lemma QuietRunFit(c: Codec, d: Disk, name: Name, temp: Name)
    requires Valid(d) && Unfit(d, name).None?
    ensures var bytes := At(d, name).data;
      var gz := c.gzip(bytes);
      var s, run, staging := Staged(d, temp, gz), QuietRun(c, d, name, temp), StagingStates(d, temp, gz);
      && Valid(s) && temp in s.dir
      && match Checked(c, gz, bytes, |bytes|)
         case None => run == Run(Failed(VerifyFailed), staging + [Changed(s, Unbind(temp))])
         case Some(x) =>
           var tail := QuietTail(c, s, name, temp, |bytes|, x);
           run.outcome == tail.outcome && run.states == staging + tail.states
  {
    StagedIsValid(d, temp, c.gzip(At(d, name).data));
  }

  lemma UnverifiedRun(c: Codec, d: Disk, name: Name, temp: Name, h: seq<Disk>)
    requires Valid(d) && Unfit(d, name).None?
    requires var bytes := At(d, name).data; Checked(c, c.gzip(bytes), bytes, |bytes|).None?
    ensures var run, gz := QuietRun(c, d, name, temp), c.gzip(At(d, name).data);
      && run.outcome == Failed(VerifyFailed)
      && h + run.states == h + StagingStates(d, temp, gz) + [Changed(Staged(d, temp, gz), Unbind(temp))]
  {
    var gz := c.gzip(At(d, name).data);
    AssocStates(h, StagingStates(d, temp, gz), [Changed(Staged(d, temp, gz), Unbind(temp))]);
  }

  lemma VerifiedRun(c: Codec, d: Disk, name: Name, temp: Name, h: seq<Disk>, x: Bytes)
    requires Valid(d) && Unfit(d, name).None?
    requires var bytes := At(d, name).data; Checked(c, c.gzip(bytes), bytes, |bytes|) == Some(x)
    ensures var run, gz := QuietRun(c, d, name, temp), c.gzip(At(d, name).data);
      var s := Staged(d, temp, gz);
      && Valid(s) && temp in s.dir
      && var tail := QuietTail(c, s, name, temp, |At(d, name).data|, x);
         run.outcome == tail.outcome && h + run.states == h + StagingStates(d, temp, gz) + tail.states
  {
    QuietRunFit(c, d, name, temp);
    var gz := c.gzip(At(d, name).data);
    AssocStates(h, StagingStates(d, temp, gz),
      QuietTail(c, Staged(d, temp, gz), name, temp, |At(d, name).data|, x).states);
  }

  /** The part of an undisturbed run after a verified archive is staged in `temp`. */
  function QuietTail(c: Codec, s: Disk, name: Name, temp: Name, size: nat, x: Bytes): Run
    requires Valid(s) && temp in s.dir
  {
    var saved := size - |At(s, temp).data|;
    var dropped := Changed(s, Unbind(temp));
    var dest := ArchiveName(name);
    if saved <= 0 then Run(RetainedNotSmaller(c.digest(x), size), [dropped])
    else match Refusal(c, s, dest, x)
      case Some(why) => Run(Failed(why), [dropped])
      case None =>
        Run(Compressed(c.digest(x), size, saved),
            PublishStates(s, temp, dest) + RetireStates(Published(s, temp, dest), name, temp))
  }

  lemma TailPublished(c: Codec, s: Disk, name: Name, temp: Name, size: nat, x: Bytes, h: seq<Disk>)
    requires Valid(s) && temp in s.dir
    ensures var run, dest := QuietTail(c, s, name, temp, size, x), ArchiveName(name);
      run.outcome.Compressed? ==>
        && run.outcome == Compressed(c.digest(x), size, size - |At(s, temp).data|)
        && h + run.states == h + PublishStates(s, temp, dest) + RetireStates(Published(s, temp, dest), name, temp)
  {
    AssocStates(h, PublishStates(s, temp, ArchiveName(name)),
      RetireStates(Published(s, temp, ArchiveName(name)), name, temp));
  }

  // ---------------------------------------------------------------------------
  // Every state of an undisturbed run survives every crash
  // ---------------------------------------------------------------------------

  ghost predicate AllKeep(states: seq<Disk>, d: Disk, n: Name)
    requires Valid(d) && n in d.dir
  {
    forall k :: 0 <= k < |states| ==> Anchored(states[k], n) && At(states[k], n) == At(d, n)
  }

  lemma StagingKeeps(d: Disk, temp: Name, data: Bytes, n: Name)
    requires Anchored(d, n) && n != temp
    ensures AllKeep(StagingStates(d, temp, data), d, n)
  {
    CreateKeeps(d, temp, n);
    WriteKeeps(Create(d, temp), d.next, data, n);
    WriteKeeps(Write(Create(d, temp), d.next, data), d.next, data, n);
  }

  lemma RetireKeeps(d: Disk, name: Name, temp: Name, n: Name)
    requires Anchored(d, n) && n != name && n != temp
    ensures AllKeep(RetireStates(d, name, temp), d, n)
  {
    var q := Changed(d, Unbind(name));
    ChangedKeeps(d, Unbind(name), n);
    SyncDirKeeps(q, n);
    ChangedKeeps(SyncDir(q), Unbind(temp), n);
  }

  lemma PublishKeeps(d: Disk, temp: Name, dest: Name, n: Name)
    requires Anchored(d, n) && n != dest && temp in d.dir
    ensures AllKeep(PublishStates(d, temp, dest), d, n)
  {
    ChangedKeeps(d, Bind(dest, d.dir[temp]), n);
    SyncDirKeeps(Linked(d, temp, dest), n);
  }

  /** An archive that was there and durable stays so. */
  lemma PublishKeepsArchive(d: Disk, temp: Name, dest: Name)
    requires Anchored(d, dest) && temp in d.dir
    ensures AllKeep(PublishStates(d, temp, dest), d, dest)
  {
    SyncDirKeeps(d, dest);
  }

  /** After publication the archive is anchored, given that its bytes are on the platter. */
  lemma PublishAnchors(c: Codec, d: Disk, temp: Name, dest: Name, x: Bytes)
    requires Sound(c) && Valid(d) && temp in d.dir && temp != dest
    requires At(d, temp).synced && c.gunzip(At(d, temp).data) == Some(x) && Refusal(c, d, dest, x).None?
    requires dest in d.dir ==> At(d, dest).synced
    ensures ArchiveSafe(c, Published(d, temp, dest), dest, x)
  {
    ChangedKeeps(d, Bind(dest, d.dir[temp]), dest);
    SyncDirKeeps(Linked(d, temp, dest), dest);
  }

  ghost predicate AllSecure(c: Codec, states: seq<Disk>, source: Name, archive: Name, original: Bytes) {
    forall k :: 0 <= k < |states| ==> Secure(c, states[k], source, archive, original)
  }

  lemma SecureConcat(c: Codec, a: seq<Disk>, b: seq<Disk>, source: Name, archive: Name, original: Bytes)
    requires AllSecure(c, a, source, archive, original) && AllSecure(c, b, source, archive, original)
    ensures AllSecure(c, a + b, source, archive, original)
  {
  }

  /** The tail of the run, started with the original bytes anchored as the source. */
  lemma TailSecure(c: Codec, s: Disk, name: Name, temp: Name, x: Bytes)
    requires Sound(c) && SourceSafe(s, name, x) && temp in s.dir && temp != name && temp != ArchiveName(name) &&
      ArchiveName(name) != name
    requires At(s, temp).synced && c.gunzip(At(s, temp).data) == Some(x)
    requires ArchiveName(name) in s.dir ==> At(s, ArchiveName(name)).synced
    ensures AllSecure(c, QuietTail(c, s, name, temp, |x|, x).states, name, ArchiveName(name), x)
  {
    var dest := ArchiveName(name);
    ChangedKeeps(s, Unbind(temp), name);
    if |At(s, temp).data| < |x| && Refusal(c, s, dest, x).None? {
      var p := Published(s, temp, dest);
      PublishKeeps(s, temp, dest, name);
      PublishAnchors(c, s, temp, dest, x);
      RetireKeeps(p, name, temp, dest);
      SecureConcat(c, PublishStates(s, temp, dest), RetireStates(p, name, temp), name, dest, x);
    }
  }

  /** The tail of the run, started with the original bytes anchored in the archive, whatever the source holds. */
  lemma TailKeepsArchive(c: Codec, s: Disk, name: Name, temp: Name, size: nat, x: Bytes, original: Bytes)
    requires ArchiveSafe(c, s, ArchiveName(name), original) && temp in s.dir && temp != ArchiveName(name) &&
      ArchiveName(name) != name
    ensures AllSecure(c, QuietTail(c, s, name, temp, size, x).states, name, ArchiveName(name), original)
  {
    var dest := ArchiveName(name);
    ChangedKeeps(s, Unbind(temp), dest);
    var p := Published(s, temp, dest);
    PublishKeepsArchive(s, temp, dest);
    assert p in PublishStates(s, temp, dest);
    SyncDirKeeps(s, dest);
    RetireKeeps(p, name, temp, dest);
    SecureConcat(c, PublishStates(s, temp, dest), RetireStates(p, name, temp), name, dest, original);
  }

  /** Every state of a run that starts safely is secure, in every outcome. */
  lemma QuietRunSecure(c: Codec, d: Disk, name: Name, temp: Name, original: Bytes)
    requires Sound(c) && SafeStart(c, d, name, ArchiveName(name), original)
    requires TEMP_STEM <= temp && temp !in d.dir
    ensures AllSecure(c, QuietRun(c, d, name, temp).states, name, ArchiveName(name), original)
  {
    if Unfit(d, name).None? {
      NamesDiffer(name, temp);
      var bytes, dest := At(d, name).data, ArchiveName(name);
      var gz := c.gzip(bytes);
      var s := Staged(d, temp, gz);
      StagedFacts(d, temp, gz);
      var kept := if SourceSafe(d, name, original) then name else dest;
      StagingKeeps(d, temp, gz, kept);
      assert s == StagingStates(d, temp, gz)[2];
      ChangedKeeps(s, Unbind(temp), kept);
      var checked := Checked(c, gz, bytes, |bytes|);
      if checked.Some? {
        if SourceSafe(d, name, original) {
          TailSecure(c, s, name, temp, original);
        } else {
          TailKeepsArchive(c, s, name, temp, |bytes|, checked.value, original);
        }
        SecureConcat(c, StagingStates(d, temp, gz), QuietTail(c, s, name, temp, |bytes|, checked.value).states, name,
          dest, original);
      }
    }
  }

  /**
    Crash safety over any number of crashes and reruns: from a safe start, whichever state of an
    undisturbed run a crash strikes in, and whatever subset of the unsynced changes reached the platter, the
    original bytes are on the volume and the next run starts safely again.
    */
  lemma CrashSafety(c: Codec, d: Disk, name: Name, temp: Name, original: Bytes, k: nat, t: Disk)
    requires Sound(c) && SafeStart(c, d, name, ArchiveName(name), original)
    requires TEMP_STEM <= temp && temp !in d.dir
    requires var states := QuietRun(c, d, name, temp).states; k < |states| && CrashOutcome(states[k], t)
    ensures Holds(c, t, name, ArchiveName(name), original) && SafeStart(c, t, name, ArchiveName(name), original)
  {
    QuietRunSecure(c, d, name, temp, original);
    CrashIsSafeStart(c, QuietRun(c, d, name, temp).states[k], t, name, ArchiveName(name), original);
  }

  /**
    A call that fails with an I/O error ends the run early: whichever state it is in, dropping the temporary
    name keeps it secure.
    */
  lemma EarlyEndSecure(c: Codec, d: Disk, name: Name, temp: Name, original: Bytes, k: nat)
    requires Sound(c) && SafeStart(c, d, name, ArchiveName(name), original)
    requires TEMP_STEM <= temp && temp !in d.dir && k < |QuietRun(c, d, name, temp).states|
    ensures Secure(c, Changed(QuietRun(c, d, name, temp).states[k], Unbind(temp)), name, ArchiveName(name), original)
  {
    assert Unfit(d, name).None?;
    QuietRunSecure(c, d, name, temp, original);
    NamesDiffer(name, temp);
    ChangedKeeps(QuietRun(c, d, name, temp).states[k], Unbind(temp), name);
    ChangedKeeps(QuietRun(c, d, name, temp).states[k], Unbind(temp), ArchiveName(name));
  }

  // ---------------------------------------------------------------------------
  // Every state of a disturbed run survives every crash
  // ---------------------------------------------------------------------------

  /** What a run on `name` that began in state `from - 1` of `h` guarantees when it unlinked the source. */
  ghost predicate Unlinked(c: Codec, h: seq<Disk>, from: nat, unlinked: Disk, name: Name, temp: Name, r: Outcome)
    requires 0 < from <= |h|
  {
    r.Compressed? ==>
      && Removal(c, unlinked, h[|h| - 1], name, temp, r) && Untouched(h[from - 1], unlinked, name)
      && Passed(h, from - 1, unlinked)
      && (ArchiveSynced(h[from - 1], name) ==> Anchored(unlinked, ArchiveName(name)))
  }

  /**
    The run answers for the bytes in state `d`: the source was untouched until then, or is unlinked
    in the end, or was archived.
    */
  ghost predicate Answerable(c: Codec, start: Disk, d: Disk, name: Name, original: Bytes, r: Outcome) {
    r.Compressed? || ArchiveSafe(c, start, ArchiveName(name), original) || Untouched(start, d, name)
  }

  /** After a crash the original bytes are on the volume and the next run starts safely. */
  ghost predicate Survived(c: Codec, t: Disk, name: Name, original: Bytes) {
    Valid(t) && Holds(c, t, name, ArchiveName(name), original) && SafeStart(c, t, name, ArchiveName(name), original)
  }

  /**
    While the source is untouched, or if it was unlinked in the end, or if the archive was safe to begin with,
    each state is secure.
    */
  lemma DisturbedSecure(c: Codec, h: seq<Disk>, from: nat, unlinked: Disk, name: Name, temp: Name, r: Outcome,
      original: Bytes, k: nat)
    requires Sound(c) && 0 < from <= k < |h| && Chain(h, Guard(from - 1, name, temp)) &&
      Unlinked(c, h, from, unlinked, name, temp, r)
    requires SafeStart(c, h[from - 1], name, ArchiveName(name), original)
    requires ArchiveName(name) != name && ArchiveName(name) != temp
    requires Answerable(c, h[from - 1], h[k], name, original, r)
    ensures Secure(c, h[k], name, ArchiveName(name), original)
  {
    var g, start := Guard(from - 1, name, temp), h[from - 1];
    ChainLinks(h, g, from - 1, k);
    if ArchiveSafe(c, start, ArchiveName(name), original) {
      assert KeepsAnchor(start, h[k], ArchiveName(name));
    } else if r.Compressed? {
      var at :| from - 1 <= at < |h| && h[at] == unlinked;
      ChainLinks(h, g, from - 1, at);
      if k <= at {
        ChainLinks(h, g, k, at);
        UntouchedBefore(start, h[k], unlinked, name, temp, original);
      } else {
        ChainLinks(h, g, at, k);
        assert KeepsAnchor(start, unlinked, name);
        ClosedByArchive(c, h, from, unlinked, name, temp, r, h[k]);
      }
    }
  }

  /** A source that ends untouched was untouched all along. */
  lemma UntouchedBefore(a: Disk, b: Disk, c: Disk, name: Name, temp: Name, original: Bytes)
    requires Keeps(a, b, name, temp) && Keeps(b, c, name, temp) && Untouched(a, c, name) &&
      SourceSafe(a, name, original)
    ensures SourceSafe(b, name, original)
  {
    KeepsTransitive(a, b, c, name, temp);
  }

  /**
    A call that fails with an I/O error ends a run early, beside any other processes: in whichever state of the run, as
    long as the run answers for the bytes, dropping the temporary name keeps them secure.
    */
  lemma DisturbedEarlyEnd(c: Codec, h: seq<Disk>, from: nat, unlinked: Disk, name: Name, temp: Name, r: Outcome,
      original: Bytes, k: nat)
    requires Sound(c) && 0 < from <= k < |h| && Chain(h, Guard(from - 1, name, temp)) &&
      Unlinked(c, h, from, unlinked, name, temp, r)
    requires SafeStart(c, h[from - 1], name, ArchiveName(name), original)
    requires ArchiveName(name) != name && ArchiveName(name) != temp && temp != name
    requires Answerable(c, h[from - 1], h[k], name, original, r)
    ensures Secure(c, Changed(h[k], Unbind(temp)), name, ArchiveName(name), original)
  {
    DisturbedSecure(c, h, from, unlinked, name, temp, r, original, k);
    ChangedKeeps(h[k], Unbind(temp), name);
    ChangedKeeps(h[k], Unbind(temp), ArchiveName(name));
  }

  /** From the unlink on, the archive is durable and holds the unlinked bytes. */
  lemma ClosedByArchive(c: Codec, h: seq<Disk>, from: nat, unlinked: Disk, name: Name, temp: Name, r: Outcome, d: Disk)
    requires Sound(c) && 0 < from <= |h| && Unlinked(c, h, from, unlinked, name, temp, r) && r.Compressed?
    requires ArchiveSynced(h[from - 1], name) && ArchiveName(name) != name && ArchiveName(name) != temp
    requires Keeps(unlinked, d, name, temp)
    ensures name in unlinked.dir && ArchiveSafe(c, d, ArchiveName(name), At(unlinked, name).data)
  {
    assert KeepsAnchor(unlinked, d, ArchiveName(name));
    assert At(h[|h| - 1], ArchiveName(name)) == At(unlinked, ArchiveName(name));
  }

  /**
    Crash safety beside other processes, for every script of theirs.  From a safe start, take any state of the
    run and any crash in it.  If the source was untouched up to that state, or the run went on to unlink it, or the
    archive was safe to begin with, then the original bytes survive.  Otherwise another process had already
    replaced, rewritten or removed the source, and the run does not unlink it.
    */
  method CompressSafely(v: Volume, name: Name, temp: Name, ghost original: Bytes) returns (r: Outcome)
    requires v.Current() && Sound(v.codec) && TEMP_STEM <= temp && temp !in v.disk.dir
    requires SafeStart(v.codec, v.disk, name, ArchiveName(name), original)
    modifies v
    ensures v.Current() && old(v.history) <= v.history
    ensures v.unlinks == old(v.unlinks) + if r.Compressed? then 1 else 0
    ensures forall k, t | |old(v.history)| <= k < |v.history| && CrashOutcome(v.history[k], t) ::
      Answerable(v.codec, old(v.disk), v.history[k], name, original, r) ==> Survived(v.codec, t, name, original)
  {
    ghost var unlinked, start, from := v.disk, v.disk, |v.history|;
    r, unlinked := v.CompressQuarantine(name, temp);
    forall k, t | from <= k < |v.history| && CrashOutcome(v.history[k], t)
      ensures Answerable(v.codec, start, v.history[k], name, original, r) ==> Survived(v.codec, t, name, original)
    {
      if Answerable(v.codec, start, v.history[k], name, original, r) {
        NamesDiffer(name, temp);
        DisturbedSecure(v.codec, v.history, from, unlinked, name, temp, r, original, k);
        CrashIsSafeStart(v.codec, v.history[k], t, name, ArchiveName(name), original);
      }
    }
  }

  // ---------------------------------------------------------------------------
  // How an undisturbed run ends
  // ---------------------------------------------------------------------------

  /** There is no archive, or a readable one that holds exactly these bytes. */
  ghost predicate Same(c: Codec, d: Disk, dest: Name, bytes: Bytes)
    requires Valid(d)
  {
    dest in d.dir ==> At(d, dest).regular && c.gunzip(At(d, dest).data) == Some(bytes)
  }

  /** The run will replace the source: a fit source that shrinks, and no archive or one with the same content. */
  ghost predicate Compresses(c: Codec, d: Disk, name: Name)
    requires Valid(d)
  {
    && Unfit(d, name).None?
    && var bytes, dest := At(d, name).data, ArchiveName(name);
       && c.gunzip(c.gzip(bytes)) == Some(bytes) && |c.gzip(bytes)| < |bytes|
       && Same(c, d, dest, bytes)
  }

  function End(d: Disk, run: Run): Disk {
    if run.states == [] then d else run.states[|run.states| - 1]
  }

  /**
    An undisturbed run on a fit source whose bytes survive gzip ends in one of three ways: compressed,
    with the source gone and the archive holding its bytes; retained, because it does not shrink; or
    refused, because a different or unreadable archive is in the way.  In the last two the directory is as it was.
    */
  lemma QuietRunEnds(c: Codec, d: Disk, name: Name, temp: Name)
    requires Sound(c) && Valid(d) && TEMP_STEM <= temp && temp !in d.dir
    requires Unfit(d, name).None?
    ensures var bytes, gz, dest, run := At(d, name).data, c.gzip(At(d, name).data), ArchiveName(name),
      QuietRun(c, d, name, temp);
      var end := End(d, run);
      && Valid(end)
      && (run.outcome == Failed(VerifyFailed) <==> c.gunzip(gz) != Some(bytes))
      && (run.outcome.RetainedNotSmaller? <==> c.gunzip(gz) == Some(bytes) && |gz| >= |bytes|)
      && (run.outcome.Compressed? <==> Compresses(c, d, name))
      && (run.outcome.Compressed? ==>
            && end.dir == d.dir[dest := if dest in d.dir then d.dir[dest] else d.next] - {name}
            && At(end, dest).regular && c.gunzip(At(end, dest).data) == Some(bytes))
      && (!run.outcome.Compressed? ==> end.dir == d.dir && At(end, name) == At(d, name))
  {
    NamesDiffer(name, temp);
    QuietRunFit(c, d, name, temp);
    if c.gunzip(c.gzip(At(d, name).data)) == Some(At(d, name).data) {
      VerifiedRunEnds(c, d, name, temp);
    } else {
      var s := Staged(d, temp, c.gzip(At(d, name).data));
      StagedFacts(d, temp, c.gzip(At(d, name).data));
      ChangedKeeps(s, Unbind(temp), name);
      DropTemp(d.dir, temp, d.next, temp + temp, d.next, name);
    }
  }

  /** What a run reports, and why one that touches nothing does so. */
  lemma QuietRunReports(c: Codec, d: Disk, name: Name, temp: Name)
    requires Valid(d) && temp !in d.dir
    ensures var outcome, quarantined := QuietRun(c, d, name, temp).outcome, IsQuarantineName(name);
      && (outcome == Failed(BadName) <==> !quarantined)
      && (outcome == Failed(NotFound) <==> quarantined && name !in d.dir)
      && (outcome == Failed(NotPlain) <==>
            && quarantined && name in d.dir
            && (!At(d, name).regular || exists n <- d.dir :: n != name && d.dir[n] == d.dir[name]))
    ensures var outcome := QuietRun(c, d, name, temp).outcome;
      && (outcome.Compressed? ==>
            && name in d.dir && outcome.sha == c.digest(At(d, name).data) && outcome.original == |At(d, name).data|
            && outcome.saved == |At(d, name).data| - |c.gzip(At(d, name).data)| > 0)
      && (outcome.RetainedNotSmaller? ==>
            name in d.dir && outcome.sha == c.digest(At(d, name).data) && outcome.original == |At(d, name).data|)
  {
    if Unfit(d, name).None? {
      QuietRunFit(c, d, name, temp);
      StagedFacts(d, temp, c.gzip(At(d, name).data));
    }
  }

  lemma VerifiedRunEnds(c: Codec, d: Disk, name: Name, temp: Name)
    requires Sound(c) && Valid(d) && temp !in d.dir && temp != name && temp != ArchiveName(name) &&
      ArchiveName(name) != name
    requires Unfit(d, name).None? && c.gunzip(c.gzip(At(d, name).data)) == Some(At(d, name).data)
    ensures var bytes, gz, dest, run := At(d, name).data, c.gzip(At(d, name).data), ArchiveName(name),
      QuietRun(c, d, name, temp);
      var end := End(d, run);
      && Valid(end) && run.outcome != Failed(VerifyFailed)
      && (run.outcome.RetainedNotSmaller? <==> |gz| >= |bytes|)
      && (run.outcome.Compressed? <==> |gz| < |bytes| && Same(c, d, dest, bytes))
      && (run.outcome.Compressed? ==>
            && end.dir == d.dir[dest := if dest in d.dir then d.dir[dest] else d.next] - {name}
            && At(end, dest).regular && c.gunzip(At(end, dest).data) == Some(bytes))
      && (!run.outcome.Compressed? ==> end.dir == d.dir && At(end, name) == At(d, name))
  {
    var bytes, dest := At(d, name).data, ArchiveName(name);
    var gz := c.gzip(bytes);
    QuietRunFit(c, d, name, temp);
    StagedFacts(d, temp, gz);
    DropTemp(d.dir, temp, d.next, dest, if dest in d.dir then d.dir[dest] else d.next, name);
    TailEnds(c, Staged(d, temp, gz), name, temp, bytes);
  }

  lemma TailEnds(c: Codec, s: Disk, name: Name, temp: Name, x: Bytes)
    requires Sound(c) && Valid(s) && temp in s.dir && temp != name && temp != ArchiveName(name) &&
      ArchiveName(name) != name
    requires c.gunzip(At(s, temp).data) == Some(x)
    ensures var dest, run := ArchiveName(name), QuietTail(c, s, name, temp, |x|, x);
      var end := run.states[|run.states| - 1];
      && run.states != [] && Valid(end) && end.files == s.files
      && (run.outcome.RetainedNotSmaller? <==> |At(s, temp).data| >= |x|)
      && run.outcome != Failed(VerifyFailed)
      && (run.outcome.Compressed? <==> |At(s, temp).data| < |x| && Same(c, s, dest, x))
      && (run.outcome.Compressed? ==>
        end.dir == s.dir[dest := if dest in s.dir then s.dir[dest] else s.dir[temp]] - {name, temp})
      && (!run.outcome.Compressed? ==> end.dir == s.dir - {temp})
  {
    var dest := ArchiveName(name);
    ChangedKeeps(s, Unbind(temp), name);
    if |At(s, temp).data| < |x| && Refusal(c, s, dest, x).None? {
      var p := Published(s, temp, dest);
      ChangedKeeps(s, Bind(dest, s.dir[temp]), name);
      SyncDirKeeps(Linked(s, temp, dest), name);
      ChangedKeeps(p, Unbind(name), dest);
      SyncDirKeeps(Changed(p, Unbind(name)), dest);
      ChangedKeeps(SyncDir(Changed(p, Unbind(name))), Unbind(temp), dest);
    }
  }

  // ---------------------------------------------------------------------------
  // The exact condition on an archive that is already there
  // ---------------------------------------------------------------------------

  ghost predicate EveryCrashHolds(c: Codec, states: seq<Disk>, source: Name, archive: Name, original: Bytes) {
    forall k, t :: 0 <= k < |states| && CrashOutcome(states[k], t) ==> Holds(c, t, source, archive, original)
  }

  /** A crash that blanks the unsynced file under `dest` and keeps everything else. */
  ghost function Blanked(d: Disk, dest: Name): Disk
    requires Valid(d) && dest in d.dir
  {
    Disk(map i | i in d.files ::
           if i == d.dir[dest] then d.files[i].(data := [], synced := true) else d.files[i].(synced := true),
         d.durable, d.durable, [], d.next)
  }

  lemma BlankedIsOutcome(d: Disk, dest: Name)
    requires Valid(d) && dest in d.dir && !At(d, dest).synced
    ensures CrashOutcome(d, Blanked(d, dest))
  {
    CrashNothing(d.durable, d.pending);
  }

  /** Verified but never synced, an existing archive can lose the bytes once the source is gone. */
  lemma UnsyncedArchiveLoses(c: Codec, d: Disk, name: Name, temp: Name)
    requires Sound(c) && Valid(d) && TEMP_STEM <= temp && temp !in d.dir && Compresses(c, d, name)
    requires ArchiveName(name) in d.dir && !At(d, ArchiveName(name)).synced
    ensures !EveryCrashHolds(c, QuietRun(c, d, name, temp).states, name, ArchiveName(name), At(d, name).data)
  {
    var bytes, dest, run := At(d, name).data, ArchiveName(name), QuietRun(c, d, name, temp);
    NamesDiffer(name, temp);
    QuietRunEnds(c, d, name, temp);
    var s := Staged(d, temp, c.gzip(bytes));
    StagedFacts(d, temp, c.gzip(bytes));
    var end := End(d, run);
    var u := SyncDir(Changed(Published(s, temp, dest), Unbind(name)));
    assert end == Changed(u, Unbind(temp)) && end.files == s.files && end.durable == u.dir;
    assert end.dir[dest] == d.dir[dest] && !At(end, dest).synced;
    BlankedIsOutcome(end, dest);
    assert !Holds(c, Blanked(end, dest), name, dest, bytes);
  }

  /**
    Starting from an anchored source, every crash in every state keeps the bytes if and only if the run
    does not end up relying on an existing archive whose own bytes were never synced.
    */
  lemma CrashSafetyExactly(c: Codec, d: Disk, name: Name, temp: Name)
    requires Sound(c) && TEMP_STEM <= temp && temp !in d.dir && Anchored(d, name)
    ensures EveryCrashHolds(c, QuietRun(c, d, name, temp).states, name, ArchiveName(name), At(d, name).data)
       <==> !(Compresses(c, d, name) && ArchiveName(name) in d.dir && !At(d, ArchiveName(name)).synced)
  {
    var bytes, dest, run := At(d, name).data, ArchiveName(name), QuietRun(c, d, name, temp);
    if Compresses(c, d, name) && dest in d.dir && !At(d, dest).synced {
      UnsyncedArchiveLoses(c, d, name, temp);
    } else {
      RetainedSecure(c, d, name, temp);
      forall k, t | 0 <= k < |run.states| && CrashOutcome(run.states[k], t) ensures Holds(c, t, name, dest, bytes) {
        CrashIsSafeStart(c, run.states[k], t, name, dest, bytes);
      }
    }
  }

  lemma RetainedSecure(c: Codec, d: Disk, name: Name, temp: Name)
    requires Sound(c) && TEMP_STEM <= temp && temp !in d.dir && Anchored(d, name)
    requires !(Compresses(c, d, name) && ArchiveName(name) in d.dir && !At(d, ArchiveName(name)).synced)
    ensures AllSecure(c, QuietRun(c, d, name, temp).states, name, ArchiveName(name), At(d, name).data)
  {
    var bytes, dest := At(d, name).data, ArchiveName(name);
    if dest !in d.dir || At(d, dest).synced {
      QuietRunSecure(c, d, name, temp, bytes);
    } else if Unfit(d, name).None? {
      NamesDiffer(name, temp);
      var gz := c.gzip(bytes);
      var s := Staged(d, temp, gz);
      QuietRunEnds(c, d, name, temp);
      StagedFacts(d, temp, gz);
      StagingKeeps(d, temp, gz, name);
      assert s == StagingStates(d, temp, gz)[2];
      ChangedKeeps(s, Unbind(temp), name);
    }
  }

  lemma NamesDiffer(name: Name, temp: Name)
    requires QUARANTINE_STEM <= name && TEMP_STEM <= temp
    ensures name != temp && ArchiveName(name) != temp && ArchiveName(name) != name
  {
    assert name[0] == 'f' && temp[0] == '.' && ArchiveName(name)[0] == 'f';
  }


  function Min(a: nat, b: nat): nat {
    if a <= b then a else b
  }
}
