/**
  Restoring an archive: `restore_archive` of rally_storage.py, its crashes, and the round trip with a
  compression.
  */
module Restore {
  import opened Basics
  import opened Disks
  import opened Archive

  // ---------------------------------------------------------------------------
  // What a restore does
  // ---------------------------------------------------------------------------

  datatype RestoreFailure = NotAnArchive | WrongName | NoArchive | BadStream | DestinationExists {
    /** Noticed only after the temporary file exists. */
    predicate LateFailure() { BadStream? || DestinationExists? }
  }

  function RestoreRefusal(c: Codec, d: Disk, archive: Name, destination: Name): Option<RestoreFailure>
    requires Valid(d)
  {
    if !(|archive| >= 3 && archive[|archive| - 3..] == ".gz" && IsQuarantineName(archive[..|archive| - 3]))
      then Some(NotAnArchive)
    else if destination != archive[..|archive| - 3] then Some(WrongName)
    else if archive !in d.dir || !At(d, archive).regular then Some(NoArchive)
    else if c.gunzip(At(d, archive).data).None? then Some(BadStream)
    else if destination in d.dir then Some(DestinationExists)
    else None
  }

  /** What a restore asks for: the destination is a quarantine name, the archive that name and `.gz`. */
  predicate Matches(archive: Name, destination: Name) {
    archive == destination + ".gz" && IsQuarantineName(destination)
  }

  /** When it goes through: matching names, a regular archive whose stream decompresses, a free destination. */
  predicate Restorable(c: Codec, d: Disk, archive: Name, destination: Name)
    requires Valid(d)
  {
    && Matches(archive, destination) && archive in d.dir && At(d, archive).regular
    && c.gunzip(At(d, archive).data).Some? && destination !in d.dir
  }

  /** Which restores are refused, and why. */
  lemma RestoreRefusedExactly(c: Codec, d: Disk, archive: Name, destination: Name)
    requires Valid(d)
    ensures var refused := RestoreRefusal(c, d, archive, destination);
      var regular := archive in d.dir && At(d, archive).regular;
      && (refused == None <==> Restorable(c, d, archive, destination))
      && (refused in {Some(NotAnArchive), Some(WrongName)} <==> !Matches(archive, destination))
      && (refused == Some(NotAnArchive) <==> !exists name :: Matches(archive, name))
      && (refused == Some(NoArchive) <==> Matches(archive, destination) && !regular)
      && (refused == Some(BadStream) <==>
            Matches(archive, destination) && regular && c.gunzip(At(d, archive).data).None?)
      && (refused == Some(DestinationExists) <==>
            && Matches(archive, destination) && regular && c.gunzip(At(d, archive).data).Some?
            && destination in d.dir)
  {
    forall name ensures Matches(archive, name) <==>
      && |archive| >= 3 && archive[|archive| - 3..] == ".gz" && archive[..|archive| - 3] == name
      && IsQuarantineName(name)
    {
      NameOfArchive(archive, name);
    }
  }

  lemma NameOfArchive(archive: Name, name: Name)
    ensures archive == name + ".gz"
       <==> |archive| >= 3 && archive[|archive| - 3..] == ".gz" && archive[..|archive| - 3] == name
  {
    if |archive| >= 3 { assert archive == archive[..|archive| - 3] + archive[|archive| - 3..]; }
  }

  /** Every state a restore passes through. */
  function RestoreStates(c: Codec, d: Disk, archive: Name, destination: Name, temp: Name): seq<Disk>
    requires Valid(d)
  {
    var why := RestoreRefusal(c, d, archive, destination);
    if why.Some? && !why.value.LateFailure() then []
    else if why == Some(BadStream) then [Create(d, temp), Changed(Create(d, temp), Unbind(temp))]
    else
      UnpackStates(d, destination, temp, c.gunzip(At(d, archive).data).value)
  }

  /** Stage the content, link it if the name is free, drop the temporary name. */
  function UnpackStates(d: Disk, destination: Name, temp: Name, x: Bytes): seq<Disk> {
    var s := Staged(d, temp, x);
    if destination in s.dir then StagingStates(d, temp, x) + [Changed(s, Unbind(temp))]
    else
      StagingStates(d, temp, x) + PublishStates(s, temp, destination)
      + [Changed(Published(s, temp, destination), Unbind(temp))]
  }

  /**
    `restore_archive` into the archive's own directory: exactly the states of `RestoreStates`, each of which keeps
    what was durable before.  It never overwrites, and leaves a durable copy of the archive's content.
    */
  method RestoreArchive(v: Volume, archive: Name, destination: Name, temp: Name)
      returns (refused: Option<RestoreFailure>)
    requires v.Current() && Valid(v.disk) && temp !in v.disk.dir && temp != destination
    modifies v`disk, v`history
    ensures v.Current() && Valid(v.disk) && refused == RestoreRefusal(v.codec, old(v.disk), archive, destination)
    ensures refused.None? <==> Restorable(v.codec, old(v.disk), archive, destination)
    ensures !Matches(archive, destination) ==> v.history == old(v.history)
    ensures Chain(v.history, Guard(|old(v.history)| - 1, temp, temp))
    ensures v.history == old(v.history) + RestoreStates(v.codec, old(v.disk), archive, destination, temp)
    ensures refused.Some? ==> v.disk.dir == old(v.disk).dir
    ensures refused.None? ==>
      && v.disk.dir == old(v.disk).dir[destination := old(v.disk).next]
      && Anchored(v.disk, destination) &&
        Some(At(v.disk, destination).data) == v.codec.gunzip(At(old(v.disk), archive).data)
    ensures forall n <- old(v.disk).dir :: n in v.disk.dir && At(v.disk, n) == At(old(v.disk), n)
  {
    ghost var start, g := v.disk, Guard(|v.history| - 1, temp, temp);
    RestoreRefusedExactly(v.codec, v.disk, archive, destination);
    refused := RestoreRefusal(v.codec, v.disk, archive, destination);
    if refused.Some? && !refused.value.LateFailure() { return; }
    Unpack(v, archive, destination, temp, g);
    RestoreEnds(v.codec, start, archive, destination, temp);
  }

  /** The part that writes: unpack beside the destination, link if the name is free, drop the temporary name. */
  method Unpack(v: Volume, archive: Name, destination: Name, temp: Name, ghost g: Guard)
    requires v.Chained(g) && g.name == temp && g.temp == temp && Valid(v.disk) && temp !in v.disk.dir &&
      temp != destination
    requires var why := RestoreRefusal(v.codec, v.disk, archive, destination); why.Some? ==> why.value.LateFailure()
    modifies v`disk, v`history
    ensures v.Chained(g) && Valid(v.disk)
    ensures v.history == old(v.history) + RestoreStates(v.codec, old(v.disk), archive, destination, temp)
    ensures v.disk == v.history[|v.history| - 1]
  {
    var content := v.codec.gunzip(At(v.disk, archive).data);
    if content.None? {
      KeepsCreate(v.disk, temp, temp, temp);
      CreateKeeps(v.disk, temp, temp);
      v.Commit(Create(v.disk, temp), g);
      v.Cleanup(temp, g);
    } else {
      UnpackWhole(v, content.value, destination, temp, g);
    }
  }

  method UnpackWhole(v: Volume, x: Bytes, destination: Name, temp: Name, ghost g: Guard)
    requires v.Chained(g) && g.name == temp && g.temp == temp && Valid(v.disk) && temp !in v.disk.dir &&
      temp != destination
    modifies v`disk, v`history
    ensures v.Chained(g) && Valid(v.disk) &&
      v.history == old(v.history) + UnpackStates(old(v.disk), destination, temp, x)
  {
    StagedFacts(v.disk, temp, x);
    StageBytes(v, temp, x, g);
    if destination !in v.disk.dir { LinkDurably(v, temp, destination, g); }
    v.Cleanup(temp, g);
  }

  method StageBytes(v: Volume, temp: Name, x: Bytes, ghost g: Guard)
    requires v.Chained(g) && g.name == temp && g.temp == temp && Valid(v.disk) && temp !in v.disk.dir
    modifies v`disk, v`history
    ensures v.Chained(g) && v.disk == Staged(old(v.disk), temp, x) &&
      v.history == old(v.history) + StagingStates(old(v.disk), temp, x)
  {
    StagingJoined(v.history, v.disk, temp, x);
    KeepsCreate(v.disk, temp, temp, temp);
    CreateKeeps(v.disk, temp, temp);
    BesideFresh(v.disk, temp);
    v.Commit(Create(v.disk, temp), g);
    v.WriteSynced(temp, x, g);
  }

  method LinkDurably(v: Volume, temp: Name, destination: Name, ghost g: Guard)
    requires v.Chained(g) && g.name == temp && g.temp == temp
    requires Valid(v.disk) && temp in v.disk.dir && temp != destination && destination !in v.disk.dir
    modifies v`disk, v`history
    ensures v.Chained(g) && Valid(v.disk) && v.disk == Published(old(v.disk), temp, destination)
    ensures v.history == old(v.history) + PublishStates(old(v.disk), temp, destination)
  {
    KeepsChange(v.disk, Bind(destination, v.disk.dir[temp]), temp, temp);
    v.Commit(Changed(v.disk, Bind(destination, v.disk.dir[temp])), g);
    KeepsSyncDir(v.disk, temp, temp);
    v.Commit(SyncDir(v.disk), g);
  }

  // ---------------------------------------------------------------------------
  // How a restore ends
  // ---------------------------------------------------------------------------

  /** The last state of a restore. */
  lemma RestoreEnds(c: Codec, d: Disk, archive: Name, destination: Name, temp: Name)
    requires Valid(d) && temp !in d.dir && temp != destination
    requires RestoreStates(c, d, archive, destination, temp) != []
    ensures var states := RestoreStates(c, d, archive, destination, temp);
      var end, refused := states[|states| - 1], RestoreRefusal(c, d, archive, destination);
      && Valid(end)
      && (refused.Some? ==> end.dir == d.dir)
      && (refused.None? ==>
            && end.dir == d.dir[destination := d.next]
            && Anchored(end, destination) && Some(At(end, destination).data) == c.gunzip(At(d, archive).data))
      && forall n <- d.dir :: n in end.dir && At(end, n) == At(d, n)
  {
    var content := c.gunzip(At(d, archive).data);
    if content.None? {
      CreateKeeps(d, temp, temp);
      ChangedKeeps(Create(d, temp), Unbind(temp), temp);
      DropTemp(d.dir, temp, d.next, destination, d.next, destination);
    } else {
      UnpackEnds(d, destination, temp, content.value);
    }
  }

  lemma UnpackEnds(d: Disk, destination: Name, temp: Name, x: Bytes)
    requires Valid(d) && temp !in d.dir && temp != destination
    ensures var states := UnpackStates(d, destination, temp, x);
      states != [] && var end := states[|states| - 1];
      && Valid(end) && end.files == Staged(d, temp, x).files
      && end.dir == (if destination in d.dir then d.dir else d.dir[destination := d.next])
      && (destination !in d.dir ==> Anchored(end, destination) && At(end, destination).data == x)
      && forall n <- d.dir :: At(end, n) == At(d, n)
  {
    var s := Staged(d, temp, x);
    StagedFacts(d, temp, x);
    DropTemp(d.dir, temp, d.next, destination, d.next, destination);
    ChangedKeeps(s, Unbind(temp), destination);
    if destination !in d.dir { LinkedEnds(s, destination, temp); }
  }

  lemma LinkedEnds(s: Disk, destination: Name, temp: Name)
    requires Valid(s) && temp in s.dir && At(s, temp).synced && temp != destination && destination !in s.dir
    ensures var end := Changed(Published(s, temp, destination), Unbind(temp));
      && Anchored(end, destination) && At(end, destination) == At(s, temp)
      && end.files == s.files && end.dir == s.dir[destination := s.dir[temp]] - {temp}
  {
    ChangedKeeps(s, Bind(destination, s.dir[temp]), destination);
    SyncDirKeeps(Linked(s, temp, destination), destination);
    ChangedKeeps(Published(s, temp, destination), Unbind(temp), destination);
  }

  // ---------------------------------------------------------------------------
  // Crashes during a restore
  // ---------------------------------------------------------------------------

  /** Neither on the platter nor on its way there. */
  ghost predicate Absent(d: Disk, name: Name) {
    name !in d.durable && forall k :: 0 <= k < |d.pending| ==> d.pending[k].name != name
  }

  /** Wherever the name may lead after a crash, there is a synced file with exactly these bytes. */
  ghost predicate OnlyWhole(d: Disk, name: Name, x: Bytes) {
    && (name in d.durable ==> Whole(d, d.durable[name], x))
    && forall k :: 0 <= k < |d.pending| && d.pending[k].Bind? && d.pending[k].name == name ==>
      Whole(d, d.pending[k].ino, x)
  }

  predicate Whole(d: Disk, ino: Ino, x: Bytes) {
    ino in d.files && d.files[ino].synced && d.files[ino].data == x
  }

  lemma {:induction false} BoundFrom(dir: map<Name, Ino>, pending: seq<Change>, out: map<Name, Ino>, name: Name)
    requires CrashDir(dir, pending, out) && name in out
    ensures (name in dir && out[name] == dir[name])
         || exists k :: 0 <= k < |pending| && pending[k] == Bind(name, out[name])
    decreases |pending|
  {
    if pending != [] {
      var next := if CrashDir(dir, pending[1..], out) then dir else Applied(dir, pending[0]);
      BoundFrom(next, pending[1..], out, name);
      if k :| 0 <= k < |pending| - 1 && pending[1..][k] == Bind(name, out[name]) {
        assert pending[k + 1] == Bind(name, out[name]);
      }
    }
  }

  lemma WholeOrAbsent(d: Disk, t: Disk, name: Name, x: Bytes)
    requires OnlyWhole(d, name, x) && CrashOutcome(d, t)
    ensures name in t.dir ==> At(t, name).data == x
  {
    if name in t.dir { BoundFrom(d.durable, d.pending, t.dir, name); }
  }

  /** In every state of a restore the destination can only be bound to the whole content. */
  lemma UnpackStatesWhole(d: Disk, destination: Name, temp: Name, x: Bytes, k: nat)
    requires Valid(d) && temp != destination && temp !in d.dir && Absent(d, destination) &&
      k < |UnpackStates(d, destination, temp, x)|
    ensures OnlyWhole(UnpackStates(d, destination, temp, x)[k], destination, x)
  {
    var s := Staged(d, temp, x);
    StagedFacts(d, temp, x);
    assert Absent(Create(d, temp), destination) && Absent(Write(Create(d, temp), d.next, x), destination) &&
      Absent(s, destination);
    assert Absent(Changed(s, Unbind(temp)), destination);
    if destination !in d.dir {
      var l := Linked(s, temp, destination);
      assert Whole(l, d.next, x) && OnlyWhole(l, destination, x);
      assert OnlyWhole(SyncDir(l), destination, x) && OnlyWhole(Changed(SyncDir(l), Unbind(temp)), destination, x);
    }
  }

  /** The destination is absent or holds the archive's whole content, and every durable name still leads to its file. */
  ghost predicate RestoreSurvived(c: Codec, start: Disk, t: Disk, archive: Name, destination: Name, temp: Name)
    requires Valid(start)
  {
    && Valid(t)
    && (destination in t.dir ==>
      archive in start.dir && Some(At(t, destination).data) == c.gunzip(At(start, archive).data))
    && forall n | n != temp :: KeepsAnchor(start, t, n)
  }

  lemma RestoreCrash(c: Codec, start: Disk, state: Disk, t: Disk, archive: Name, destination: Name, temp: Name, k: nat)
    requires Valid(start) && temp != destination && temp !in start.dir && Absent(start, destination)
    requires var states := RestoreStates(c, start, archive, destination, temp); k < |states| && state == states[k]
    requires Keeps(start, state, temp, temp) && CrashOutcome(state, t)
    ensures RestoreSurvived(c, start, t, archive, destination, temp)
  {
    RestoreStatesWhole(c, start, archive, destination, temp, k);
    var content := c.gunzip(At(start, archive).data);
    WholeOrAbsent(state, t, destination, if content.Some? then content.value else []);
    if content.None? && destination in t.dir { BoundFrom(state.durable, state.pending, t.dir, destination); }
    forall n | n != temp ensures KeepsAnchor(start, t, n) {
      assert KeepsAnchor(start, state, n);
      if Anchored(start, n) { AnchoredSurvives(state, t, n); }
    }
  }

  lemma RestoreStateAt(before: seq<Disk>, states: seq<Disk>, k: nat)
    requires |before| <= k < |before| + |states| && before != []
    ensures (before + states)[k] == states[k - |before|] && (before + states)[|before| - 1] == before[|before| - 1]
  {
  }

  ghost predicate AllSurvive(c: Codec, h: seq<Disk>, from: nat, start: Disk, archive: Name, destination: Name,
      temp: Name)
    requires Valid(start)
  {
    forall k, t :: from <= k < |h| && CrashOutcome(h[k], t) ==> RestoreSurvived(c, start, t, archive, destination, temp)
  }

  lemma RestoreCrashes(c: Codec, before: seq<Disk>, h: seq<Disk>, start: Disk, archive: Name, destination: Name,
      temp: Name)
    requires Valid(start) && temp != destination && temp !in start.dir && Absent(start, destination)
    requires before != [] && before[|before| - 1] == start && Chain(h, Guard(|before| - 1, temp, temp))
    requires h == before + RestoreStates(c, start, archive, destination, temp)
    ensures AllSurvive(c, h, |before|, start, archive, destination, temp)
  {
    forall k, t | |before| <= k < |h| && CrashOutcome(h[k], t)
      ensures RestoreSurvived(c, start, t, archive, destination, temp)
    {
      RestoreCrashAt(c, before, h, start, archive, destination, temp, k, t);
    }
  }

  lemma RestoreCrashAt(c: Codec, before: seq<Disk>, h: seq<Disk>, start: Disk, archive: Name, destination: Name,
      temp: Name, k: nat, t: Disk)
    requires Valid(start) && temp != destination && temp !in start.dir && Absent(start, destination)
    requires before != [] && before[|before| - 1] == start && Chain(h, Guard(|before| - 1, temp, temp))
    requires h == before + RestoreStates(c, start, archive, destination, temp)
    requires |before| <= k < |h| && CrashOutcome(h[k], t)
    ensures RestoreSurvived(c, start, t, archive, destination, temp)
  {
    var states := RestoreStates(c, start, archive, destination, temp);
    RestoreStateAt(before, states, k);
    ChainLinks(h, Guard(|before| - 1, temp, temp), |before| - 1, k);
    RestoreCrash(c, start, states[k - |before|], t, archive, destination, temp, k - |before|);
  }

  /** No crash at any point of a restore can do more harm than leave the destination absent. */
  method RestoreSafely(v: Volume, archive: Name, destination: Name, temp: Name)
      returns (refused: Option<RestoreFailure>)
    requires v.Current() && Valid(v.disk) && temp !in v.disk.dir && temp != destination && Absent(v.disk, destination)
    modifies v
    ensures v.Current() && old(v.history) <= v.history &&
      refused == RestoreRefusal(v.codec, old(v.disk), archive, destination)
    ensures AllSurvive(v.codec, v.history, |old(v.history)|, old(v.disk), archive, destination, temp)
  {
    ghost var start, before := v.disk, v.history;
    refused := RestoreArchive(v, archive, destination, temp);
    RestoreCrashes(v.codec, before, v.history, start, archive, destination, temp);
  }

  lemma RestoreStatesWhole(c: Codec, d: Disk, archive: Name, destination: Name, temp: Name, k: nat)
    requires Valid(d) && temp != destination && temp !in d.dir && Absent(d, destination)
    requires k < |RestoreStates(c, d, archive, destination, temp)|
    ensures archive in d.dir
    ensures match c.gunzip(At(d, archive).data)
      case None => Absent(RestoreStates(c, d, archive, destination, temp)[k], destination)
      case Some(x) => OnlyWhole(RestoreStates(c, d, archive, destination, temp)[k], destination, x)
  {
    var content := c.gunzip(At(d, archive).data);
    if content.Some? { UnpackStatesWhole(d, destination, temp, content.value, k); }
    else {
      var created := Create(d, temp);
      assert RestoreStates(c, d, archive, destination, temp) == [created, Changed(created, Unbind(temp))];
      assert Absent(created, destination) && Absent(Changed(created, Unbind(temp)), destination);
    }
  }

  /** Restoring an archive whose source is gone brings its content back, durably. */
  method Restore(v: Volume, name: Name, temp: Name, ghost x: Bytes)
    requires v.Current() && Valid(v.disk) && temp !in v.disk.dir && temp != name && IsQuarantineName(name) &&
      name !in v.disk.dir
    requires ArchiveName(name) in v.disk.dir
    requires At(v.disk, ArchiveName(name)).regular && v.codec.gunzip(At(v.disk, ArchiveName(name)).data) == Some(x)
    modifies v
    ensures v.acts == old(v.acts) && Anchored(v.disk, name) && At(v.disk, name).data == x
  {
    var archive := ArchiveName(name);
    assert archive[..|archive| - 3] == name && archive[|archive| - 3..] == ".gz";
    var _ := RestoreArchive(v, archive, name, temp);
  }

  /**
    Compressing and restoring returns the bytes: a run that compressed is undone by a restore, unless another
    process has put a new file under the name meanwhile.  Undisturbed, a run compresses exactly under `Compresses`.
    */
  method CompressThenRestore(v: Volume, name: Name, temp: Name) returns (done: bool, restored: bool)
    requires v.Current() && Sound(v.codec) && Valid(v.disk) && TEMP_STEM <= temp && temp !in v.disk.dir
    modifies v
    ensures v.acts == old(v.acts) ==> done == restored && (done <==> Compresses(v.codec, old(v.disk), name))
    ensures done && !restored ==> name in v.disk.dir
    ensures restored ==>
      name in old(v.disk).dir && Anchored(v.disk, name) && At(v.disk, name).data == At(old(v.disk), name).data
  {
    ghost var before := v.disk;
    var r, unlinked := v.CompressQuarantine(name, temp);
    done := r.Compressed?;
    CompressesWhen(v.codec, before, name, temp);
    restored := done && name !in v.disk.dir;
    if restored {
      NamesDiffer(name, temp);
      Restore(v, name, temp, At(before, name).data);
    }
  }

  lemma CompressesWhen(c: Codec, d: Disk, name: Name, temp: Name)
    requires Sound(c) && Valid(d) && TEMP_STEM <= temp && temp !in d.dir
    ensures QuietRun(c, d, name, temp).outcome.Compressed? <==> Compresses(c, d, name)
    ensures Compresses(c, d, name) ==> name !in End(d, QuietRun(c, d, name, temp)).dir
  {
    if Unfit(d, name).None? { QuietRunEnds(c, d, name, temp); }
    if Compresses(c, d, name) { NamesDiffer(name, temp); }
  }
}
