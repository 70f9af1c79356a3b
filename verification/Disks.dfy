/**
  A directory whose changes reach the platter only at a directory sync, files whose bytes do so only at a file
  sync, what a crash may leave of them, and what other processes may do meanwhile.
  */
module Disks {
  import opened Basics

  type Bytes = seq<bv8>
  type Name = string
  type Ino = nat

  // ---------------------------------------------------------------------------
  // The volume
  // ---------------------------------------------------------------------------

  /** `version` stands for the modification and change times: every write from outside raises it. */
  datatype File = File(data: Bytes, synced: bool, regular: bool, version: nat)

  datatype Change = Bind(name: Name, ino: Ino) | Unbind(name: Name)

  /** `dir` is what processes see; `durable` and the `pending` changes since the last sync are what a crash draws on. */
  datatype Disk = Disk(files: map<Ino, File>, dir: map<Name, Ino>, durable: map<Name, Ino>, pending: seq<Change>,
      next: Ino)

  ghost predicate Valid(d: Disk) {
    && (forall i <- d.files :: i < d.next)
    && (forall n <- d.dir :: d.dir[n] in d.files)
    && (forall n <- d.durable :: d.durable[n] in d.files)
    && (forall k :: 0 <= k < |d.pending| && d.pending[k].Bind? ==> d.pending[k].ino in d.files)
  }

  function At(d: Disk, name: Name): File
    requires Valid(d) && name in d.dir
  {
    d.files[d.dir[name]]
  }

  function Applied(dir: map<Name, Ino>, c: Change): map<Name, Ino> {
    match c
    case Bind(n, i) => dir[n := i]
    case Unbind(n) => dir - {n}
  }

  function Changed(d: Disk, c: Change): Disk {
    d.(dir := Applied(d.dir, c), pending := d.pending + [c])
  }

  /** A new empty file under `name`. */
  function Create(d: Disk, name: Name): Disk {
    Changed(d.(files := d.files[d.next := File([], false, true, 0)], next := d.next + 1), Bind(name, d.next))
  }

  function Write(d: Disk, ino: Ino, data: Bytes): Disk
    requires ino in d.files
  {
    d.(files := d.files[ino := d.files[ino].(data := data, synced := false, version := d.files[ino].version + 1)])
  }

  function Fsync(d: Disk, ino: Ino): Disk
    requires ino in d.files
  {
    d.(files := d.files[ino := d.files[ino].(synced := true)])
  }

  function SyncDir(d: Disk): Disk {
    d.(durable := d.dir, pending := [])
  }

  /** No other name leads to the file. */
  predicate SingleLink(d: Disk, name: Name)
    requires name in d.dir
  {
    forall n <- d.dir :: d.dir[n] == d.dir[name] ==> n == name
  }

  // ---------------------------------------------------------------------------
  // Crashes
  // ---------------------------------------------------------------------------

  /** Any subset of the unsynced directory changes reached the platter, in order. */
  ghost predicate CrashDir(dir: map<Name, Ino>, pending: seq<Change>, out: map<Name, Ino>)
    decreases |pending|
  {
    if pending == [] then out == dir
    else CrashDir(dir, pending[1..], out) || CrashDir(Applied(dir, pending[0]), pending[1..], out)
  }

  /** What a crash may leave: synced files keep their bytes, the others hold anything. */
  ghost predicate CrashOutcome(d: Disk, t: Disk) {
    && Valid(t)
    && CrashDir(d.durable, d.pending, t.dir)
    && t.durable == t.dir && t.pending == []
    && t.files.Keys == d.files.Keys
    && forall i <- d.files :: t.files[i].synced && (d.files[i].synced ==> t.files[i] == d.files[i])
  }

  /** No crash can lose this binding or the bytes behind it. */
  ghost predicate Anchored(d: Disk, name: Name) {
    && Valid(d)
    && name in d.dir && name in d.durable && d.durable[name] == d.dir[name]
    && (forall k :: 0 <= k < |d.pending| ==> d.pending[k].name != name)
    && At(d, name).synced
  }

  lemma {:induction false} UntouchedSurvives(dir: map<Name, Ino>, pending: seq<Change>, out: map<Name, Ino>, name: Name)
    requires CrashDir(dir, pending, out) && name in dir
    requires forall k :: 0 <= k < |pending| ==> pending[k].name != name
    ensures name in out && out[name] == dir[name]
    decreases |pending|
  {
    if pending != [] {
      assert pending[0].name != name;
      if CrashDir(dir, pending[1..], out) {
        UntouchedSurvives(dir, pending[1..], out, name);
      } else {
        UntouchedSurvives(Applied(dir, pending[0]), pending[1..], out, name);
      }
    }
  }

  lemma AnchoredSurvives(d: Disk, t: Disk, name: Name)
    requires Anchored(d, name) && CrashOutcome(d, t)
    ensures Anchored(t, name) && At(t, name) == At(d, name)
  {
    UntouchedSurvives(d.durable, d.pending, t.dir, name);
  }

  // ---------------------------------------------------------------------------
  // What each step keeps
  // ---------------------------------------------------------------------------

  lemma ChangedKeeps(d: Disk, c: Change, name: Name)
    requires Valid(d) && (c.Bind? ==> c.ino in d.files)
    ensures Valid(Changed(d, c))
    ensures Anchored(d, name) && c.name != name ==>
      Anchored(Changed(d, c), name) && At(Changed(d, c), name) == At(d, name)
  {
    var e := Changed(d, c);
    assert forall k :: 0 <= k < |d.pending| ==> e.pending[k] == d.pending[k];
  }

  lemma CreateKeeps(d: Disk, temp: Name, name: Name)
    requires Valid(d)
    ensures Valid(Create(d, temp)) && d.next !in d.files
    ensures Anchored(d, name) && temp != name ==>
      Anchored(Create(d, temp), name) && At(Create(d, temp), name) == At(d, name)
  {
    var e := d.(files := d.files[d.next := File([], false, true, 0)], next := d.next + 1);
    assert Valid(e);
    assert Anchored(d, name) ==> Anchored(e, name) && At(e, name) == At(d, name);
    ChangedKeeps(e, Bind(temp, d.next), name);
  }

  lemma WriteKeeps(d: Disk, ino: Ino, data: Bytes, name: Name)
    requires Valid(d) && ino in d.files
    ensures Valid(Write(d, ino, data)) && Valid(Fsync(d, ino))
    ensures Anchored(d, name) && d.dir[name] != ino ==>
      Anchored(Write(d, ino, data), name) && At(Write(d, ino, data), name) == At(d, name)
    ensures Anchored(d, name) ==> Anchored(Fsync(d, ino), name) && At(Fsync(d, ino), name) == At(d, name)
  {
  }

  lemma SyncDirKeeps(d: Disk, name: Name)
    requires Valid(d)
    ensures Valid(SyncDir(d))
    ensures name in d.dir && At(d, name).synced ==> Anchored(SyncDir(d), name) && At(SyncDir(d), name) == At(d, name)
  {
  }

  // ---------------------------------------------------------------------------
  // Other processes
  // ---------------------------------------------------------------------------

  /** What another process may do to the source while the run is under way. */
  datatype Act = Rewrite(data: Bytes) | Replace(data: Bytes) | Remove

  function Acted(d: Disk, name: Name, a: Act): Disk {
    match a
    case Rewrite(data) => if name in d.dir && d.dir[name] in d.files then Write(d, d.dir[name], data) else d
    case Replace(data) => var e := Create(d, name); Write(e, d.next, data)
    case Remove => if name in d.dir then Changed(d, Unbind(name)) else d
  }

  /** Device, inode, size and times, as far as they can differ. */
  datatype Fingerprint = Fingerprint(ino: Ino, size: nat, version: nat)

  function FingerprintOf(d: Disk, ino: Ino): Fingerprint
    requires ino in d.files
  {
    Fingerprint(ino, |d.files[ino].data|, d.files[ino].version)
  }

  /**
    What interference on `name` leaves alone: the same version means the same file, the other names keep
    their files, and `name` shares a file with none of them.
    */
  ghost predicate Quietly(d: Disk, e: Disk, name: Name) {
    && Valid(d) && Valid(e) && d.files.Keys <= e.files.Keys
    && (forall i <- d.files :: d.files[i].version <= e.files[i].version)
    && (forall i <- d.files :: d.files[i].version == e.files[i].version ==> e.files[i] == d.files[i])
    && (forall n <- d.dir :: n != name ==> n in e.dir && e.dir[n] == d.dir[n] && e.files[d.dir[n]] == d.files[d.dir[n]])
    && (forall n <- e.dir :: n != name ==> n in d.dir)
    && (name in e.dir ==> SingleLink(e, name))
  }

  lemma ActedQuietly(d: Disk, name: Name, a: Act)
    requires Valid(d) && (name in d.dir ==> SingleLink(d, name))
    ensures Quietly(d, Acted(d, name, a), name)
  {
    CreateKeeps(d, name, name);
    match a
    case Rewrite(data) =>
    case Replace(data) => assert Quietly(d, Acted(d, name, a), name);
    case Remove =>
  }

  lemma QuietlyTransitive(a: Disk, b: Disk, c: Disk, name: Name)
    requires Valid(a) && Quietly(a, b, name) && Quietly(b, c, name)
    ensures Quietly(a, c, name)
  {
    forall i <- a.files
      ensures a.files[i].version <= c.files[i].version
      ensures a.files[i].version == c.files[i].version ==> c.files[i] == a.files[i]
    {
      assert i in b.files;
    }
    forall n <- a.dir | n != name ensures n in c.dir && c.dir[n] == a.dir[n] && c.files[a.dir[n]] == a.files[a.dir[n]] {
      assert n in b.dir;
    }
  }

  // ---------------------------------------------------------------------------
  // What no step of a run takes away, whatever other processes do
  // ---------------------------------------------------------------------------

  /** `name` still leads to the file it led to, with no write from outside since. */
  predicate Untouched(d: Disk, e: Disk, name: Name) {
    && name in d.dir && name in e.dir && e.dir[name] == d.dir[name]
    && d.dir[name] in d.files && d.dir[name] in e.files
    && e.files[d.dir[name]].version == d.files[d.dir[name]].version
  }

  ghost predicate KeepsAnchor(d: Disk, e: Disk, n: Name) {
    Anchored(d, n) ==> Anchored(e, n) && At(e, n) == At(d, n)
  }

  /**
    From `d` to `e`, every anchored name but the source and the temporary one stays anchored to the same file; so
    does an untouched source; versions only rise and the source's old files do not come back under its name.
    */
  ghost predicate Keeps(d: Disk, e: Disk, name: Name, temp: Name) {
    && Valid(d) && Valid(e) && d.files.Keys <= e.files.Keys
    && (forall i <- d.files :: d.files[i].version <= e.files[i].version)
    && (name in e.dir && e.dir[name] in d.files ==> name in d.dir && d.dir[name] == e.dir[name])
    && (forall n | n != name && n != temp :: KeepsAnchor(d, e, n))
    && (Untouched(d, e, name) ==> KeepsAnchor(d, e, name))
  }

  lemma KeepsTransitive(a: Disk, b: Disk, c: Disk, name: Name, temp: Name)
    requires Keeps(a, b, name, temp) && Keeps(b, c, name, temp)
    ensures Keeps(a, c, name, temp)
    ensures Untouched(a, c, name) ==> Untouched(a, b, name)
  {
    forall i <- a.files ensures a.files[i].version <= c.files[i].version { assert i in b.files; }
    forall n | n != name && n != temp ensures KeepsAnchor(a, c, n) {
      assert KeepsAnchor(a, b, n) && KeepsAnchor(b, c, n);
    }
  }

  /** The source is as it was: the same binding, the same file. */
  predicate SameSource(d: Disk, e: Disk, name: Name) {
    && (name in e.dir <==> name in d.dir)
    && (name in d.dir && d.dir[name] in d.files ==>
      e.dir[name] == d.dir[name] && e.dir[name] in e.files && e.files[e.dir[name]] == d.files[d.dir[name]])
  }

  lemma KeepsChange(d: Disk, c: Change, name: Name, temp: Name)
    requires Valid(d) && (c.Bind? ==> c.ino in d.files && c.name != name && c.name !in d.dir)
    requires c.Unbind? ==> c.name in {name, temp}
    ensures Keeps(d, Changed(d, c), name, temp) && (c.name != name ==> SameSource(d, Changed(d, c), name))
  {
    forall n ensures n != c.name ==> KeepsAnchor(d, Changed(d, c), n) { ChangedKeeps(d, c, n); }
  }

  lemma KeepsCreate(d: Disk, added: Name, name: Name, temp: Name)
    requires Valid(d) && added in {name, temp}
    ensures Keeps(d, Create(d, added), name, temp) && (added != name ==> SameSource(d, Create(d, added), name))
  {
    forall n ensures n != added ==> KeepsAnchor(d, Create(d, added), n) { CreateKeeps(d, added, n); }
    CreateKeeps(d, added, added);
  }

  /** Writing to a file that only `name` or only `temp` leads to. */
  lemma KeepsWrite(d: Disk, data: Bytes, added: Name, name: Name, temp: Name)
    requires Valid(d) && added in d.dir && SingleLink(d, added) && added in {name, temp}
    ensures Keeps(d, Write(d, d.dir[added], data), name, temp) &&
      (added != name ==> SameSource(d, Write(d, d.dir[added], data), name))
  {
    var e := Write(d, d.dir[added], data);
    forall n ensures n != added ==> KeepsAnchor(d, e, n) { WriteKeeps(d, d.dir[added], data, n); }
    WriteKeeps(d, d.dir[added], data, added);
  }

  lemma KeepsFsync(d: Disk, ino: Ino, name: Name, temp: Name)
    requires Valid(d) && ino in d.files
    ensures Keeps(d, Fsync(d, ino), name, temp) &&
      ((name in d.dir && d.dir[name] == ino) || SameSource(d, Fsync(d, ino), name))
  {
    forall n ensures KeepsAnchor(d, Fsync(d, ino), n) { WriteKeeps(d, ino, [], n); }
    WriteKeeps(d, ino, [], name);
  }

  lemma KeepsSyncDir(d: Disk, name: Name, temp: Name)
    requires Valid(d)
    ensures Keeps(d, SyncDir(d), name, temp) && SameSource(d, SyncDir(d), name)
  {
    forall n ensures KeepsAnchor(d, SyncDir(d), n) { SyncDirKeeps(d, n); }
    SyncDirKeeps(d, name);
  }

  lemma KeepsAct(d: Disk, a: Act, name: Name, temp: Name)
    requires Valid(d) && (name in d.dir ==> SingleLink(d, name))
    ensures Keeps(d, Acted(d, name, a), name, temp)
  {
    match a
    case Rewrite(data) => if name in d.dir { KeepsWrite(d, data, name, name, temp); }
    case Replace(data) =>
      KeepsCreate(d, name, name, temp);
      CreateKeeps(d, name, name);
      var e := Create(d, name);
      KeepsWrite(e, data, name, name, temp);
      KeepsTransitive(d, e, Write(e, d.next, data), name, temp);
    case Remove => if name in d.dir { KeepsChange(d, Unbind(name), name, temp); }
  }

  /** The states from `from` on, of a run on `name` through `temp`. */
  datatype Guard = Guard(from: nat, name: Name, temp: Name)

  /** Each of these states keeps what every earlier one had. */
  ghost predicate Chain(h: seq<Disk>, g: Guard) {
    g.from < |h| && forall j, k {:trigger Keeps(h[j], h[k], g.name, g.temp)} :: g.from <= j <= k < |h| ==>
      Keeps(h[j], h[k], g.name, g.temp)
  }

  lemma ChainLinks(h: seq<Disk>, g: Guard, j: nat, k: nat)
    requires Chain(h, g) && g.from <= j <= k < |h|
    ensures Keeps(h[j], h[k], g.name, g.temp)
  {
  }

  lemma ChainExtends(h: seq<Disk>, g: Guard, d: Disk)
    requires Chain(h, g) && Keeps(h[|h| - 1], d, g.name, g.temp)
    ensures Chain(h + [d], g)
  {
    var all := h + [d];
    forall j, k | g.from <= j <= k < |all| ensures Keeps(all[j], all[k], g.name, g.temp) {
      if k == |h| {
        if j < |h| { KeepsTransitive(h[j], h[|h| - 1], d, g.name, g.temp); } else { KeepsSelf(h[|h| - 1], d, g); }
      }
    }
  }

  lemma KeepsSelf(d: Disk, e: Disk, g: Guard)
    requires Keeps(d, e, g.name, g.temp)
    ensures Keeps(e, e, g.name, g.temp)
  {
  }

  // ---------------------------------------------------------------------------
  // Staging and publishing a file
  // ---------------------------------------------------------------------------

  /** A finished, synced file under a new name. */
  function Staged(d: Disk, temp: Name, data: Bytes): Disk {
    Fsync(Write(Create(d, temp), d.next, data), d.next)
  }

  function StagingStates(d: Disk, temp: Name, data: Bytes): seq<Disk> {
    [Create(d, temp), Write(Create(d, temp), d.next, data), Staged(d, temp, data)]
  }

  lemma BesideFresh(d: Disk, temp: Name)
    requires Valid(d) && temp !in d.dir
    ensures temp in Create(d, temp).dir && SingleLink(Create(d, temp), temp)
  {
  }

  lemma StagingJoined(h: seq<Disk>, d: Disk, temp: Name, data: Bytes)
    ensures h + [Create(d, temp)] + [Write(Create(d, temp), d.next, data), Staged(d, temp, data)] ==
      h + StagingStates(d, temp, data)
  {
  }

  function Linked(d: Disk, temp: Name, dest: Name): Disk
    requires temp in d.dir
  {
    if dest in d.dir then d else Changed(d, Bind(dest, d.dir[temp]))
  }

  function Published(d: Disk, temp: Name, dest: Name): Disk
    requires temp in d.dir
  {
    SyncDir(Linked(d, temp, dest))
  }

  function PublishStates(d: Disk, temp: Name, dest: Name): seq<Disk>
    requires temp in d.dir
  {
    (if dest in d.dir then [] else [Linked(d, temp, dest)]) + [Published(d, temp, dest)]
  }

  lemma StagedIsValid(d: Disk, temp: Name, data: Bytes)
    requires Valid(d)
    ensures Valid(Staged(d, temp, data)) && temp in Staged(d, temp, data).dir
  {
    CreateKeeps(d, temp, temp);
    WriteKeeps(Create(d, temp), d.next, data, temp);
    WriteKeeps(Write(Create(d, temp), d.next, data), d.next, data, temp);
  }


  /** What the staged volume looks like. */
  lemma StagedFacts(d: Disk, temp: Name, data: Bytes)
    requires Valid(d) && temp !in d.dir
    ensures var s := Staged(d, temp, data);
      && Valid(s) && s.dir == d.dir[temp := d.next] && s.files[d.next].synced && s.files[d.next].data == data
      && (forall n <- d.dir :: At(s, n) == At(d, n))
  {
    StagedIsValid(d, temp, data);
  }


  lemma {:induction false} CrashNothing(dir: map<Name, Ino>, pending: seq<Change>)
    ensures CrashDir(dir, pending, dir)
    decreases |pending|
  {
    if pending != [] { CrashNothing(dir, pending[1..]); }
  }

  /** Binding and then dropping `temp` leaves no trace. */
  lemma DropTemp(dir: map<Name, Ino>, temp: Name, t: Ino, dest: Name, i: Ino, name: Name)
    requires temp !in dir && temp != dest
    ensures dir[temp := t] - {temp} == dir
    ensures dir[temp := t][dest := i] - {temp} == dir[dest := i]
    ensures dir[temp := t][dest := i] - {name, temp} == dir[dest := i] - {name}
  {
  }
}
