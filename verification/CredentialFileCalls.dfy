/** The write of the credential file, call by call, and what a crash leaves of it. A
    name refers to a file; what the name refers to on the disk may lag behind until
    the directory is flushed, and what a file holds until the file is. */
module CredentialFileCalls {
  import opened Wrappers
  import opened CredentialFileSpec

  datatype Name = Primary | Previous | Corrupt | CopyTemp | WriteTemp

  /** A file, and whether its bytes have reached the disk. */
  datatype Node = Node(file: File, synced: bool)

  type Names = map<Name, Node>

  /** `durable` is the directory as it last reached the disk. */
  datatype Fs = Fs(now: Names, durable: Names)

  datatype Call =
    | Create(name: Name)
    | Fill(name: Name, data: File)
    | Sync(name: Name)
    | Rename(from: Name, to: Name)
    | Unlink(name: Name)
    | SyncDirectory

  function Lookup(names: Names, n: Name): Node { if n in names then names[n] else Node(Absent, true) }

  function View(names: Names): Disk { Disk(Lookup(names, Primary).file, Lookup(names, Previous).file, Lookup(names, Corrupt).file) }

  /** The disk with nothing under way. */
  function AtRest(d: Disk): Fs {
    var names := map[Primary := Node(d.primary, true), Previous := Node(d.previous, true), Corrupt := Node(d.corrupt, true)];
    Fs(names, names)
  }

  /** An empty file reads as a store without accounts. */
  const EMPTY := Document(map[], map[])

  function Apply(fs: Fs, call: Call): Fs {
    match call
    case Create(n) => fs.(now := fs.now[n := Node(EMPTY, false)])
    case Fill(n, data) => fs.(now := fs.now[n := Node(data, false)])
    case Sync(n) => fs.(now := fs.now[n := Lookup(fs.now, n).(synced := true)])
    case Rename(from, to) => fs.(now := (fs.now - {from})[to := Lookup(fs.now, from)])
    case Unlink(n) => fs.(now := fs.now - {n})
    case SyncDirectory => fs.(durable := fs.now)
  }

  function Run(fs: Fs, calls: seq<Call>): Fs
    decreases |calls|
  {
    if calls == [] then fs else Run(Apply(fs, calls[0]), calls[1..])
  }

  // ---- The write ----------------------------------------------------------------------

  /** A file replaced by way of a temporary one, which is removed after a failure. */
  function ReplaceCalls(temp: Name, target: Name, data: File, failure: Option<Failure>): seq<Call> {
    match failure
    case Some(Unprepared) => []
    case Some(NoTemporary) => []
    case Some(Torn(scrap)) => [Create(temp), Fill(temp, scrap), Unlink(temp)]
    case Some(Unsynced) => [Create(temp), Fill(temp, data), Unlink(temp)]
    case Some(Unrenamed) => [Create(temp), Fill(temp, data), Sync(temp), Unlink(temp)]
    case None => [Create(temp), Fill(temp, data), Sync(temp), Rename(temp, target)]
  }

  function CopyCalls(d: Disk, f: Faults): seq<Call> {
    if IsFile(d.primary) && !IsOversized(d.primary) then ReplaceCalls(CopyTemp, Previous, d.primary, CopyFailure(d, f)) else []
  }

  function FlushCalls(f: Faults): seq<Call> { if f.write.None? && !f.directory then [SyncDirectory] else [] }

  /** `_atomic_write`. */
  function WriteCalls(d: Disk, content: File, f: Faults): seq<Call> {
    if d.primary.Directory? || CopyRefuses(d, f) then []
    else CopyCalls(d, f) + ReplaceCalls(WriteTemp, Primary, content, f.write) + FlushCalls(f)
  }

  function QuarantineCalls(d: Disk, f: Faults): seq<Call> {
    if IsFile(d.primary) && !f.quarantine then [Rename(Primary, Corrupt)] else []
  }

  /** The opening; nothing is written unless the primary has to be recovered. */
  function OpenCalls(d: Disk, f: Faults, fits: bool): seq<Call> {
    if d.primary.Directory? || d.primary.Document? then []
    else
      var aside := Quarantined(d, f);
      QuarantineCalls(d, f) + if aside.previous.Document? && fits then WriteCalls(aside, aside.previous, f) else []
  }

  // ---- What a crash leaves -------------------------------------------------------------

  /** What a name may refer to after a crash: the file of now or the one the disk
      still has under it; bytes that had not reached the disk may be anything, and so
      may those of the file being written. */
  ghost predicate Survives(fs: Fs, under: Option<Call>, n: Name, file: File) {
    || (under.Some? && under.value.Fill? && under.value.name == n)
    || (Lookup(fs.now, n).synced ==> file == Lookup(fs.now, n).file)
    || (Lookup(fs.durable, n).synced ==> file == Lookup(fs.durable, n).file)
  }

  ghost predicate CrashLeaves(fs: Fs, under: Option<Call>, d: Disk) {
    Survives(fs, under, Primary, d.primary) && Survives(fs, under, Previous, d.previous)
  }

  /** A crash after k calls of a sequence, or during the next one. */
  ghost predicate CrashAt(fs: Fs, calls: seq<Call>, k: nat, d: Disk) {
    k <= |calls| && CrashLeaves(Run(fs, calls[..k]), if k < |calls| then Some(calls[k]) else None, d)
  }

  // ---- Careful sequences ----------------------------------------------------------------

  /** Whatever happens, the name refers to one of the given files, whole. */
  predicate Holds(fs: Fs, n: Name, files: set<File>) {
    && Lookup(fs.now, n).synced && Lookup(fs.now, n).file in files
    && Lookup(fs.durable, n).synced && Lookup(fs.durable, n).file in files
  }

  /** The name is only ever touched by renaming one of the files over it, once it is
      on the disk, or by taking it away if nothing is allowed too. */
  predicate CarefulCall(fs: Fs, call: Call, n: Name, files: set<File>) {
    match call
    case Create(m) => m != n
    case Fill(m, _) => m != n
    case Sync(m) => m != n
    case Rename(from, to) =>
      && (to == n ==> Lookup(fs.now, from).synced && Lookup(fs.now, from).file in files)
      && (from == n && to != n ==> Absent in files)
    case Unlink(m) => m == n ==> Absent in files
    case SyncDirectory => true
  }

  predicate Careful(fs: Fs, calls: seq<Call>, n: Name, files: set<File>)
    decreases |calls|
  {
    calls == [] || (CarefulCall(fs, calls[0], n, files) && Careful(Apply(fs, calls[0]), calls[1..], n, files))
  }

  lemma {:induction false} CarefulPrefix(fs: Fs, calls: seq<Call>, n: Name, files: set<File>, k: nat)
    requires Holds(fs, n, files) && Careful(fs, calls, n, files) && k <= |calls|
    ensures Holds(Run(fs, calls[..k]), n, files)
    ensures k < |calls| ==> CarefulCall(Run(fs, calls[..k]), calls[k], n, files)
    decreases |calls|
  {
    if k > 0 {
      assert calls[..k][1..] == calls[1..][..k - 1];
      CarefulPrefix(Apply(fs, calls[0]), calls[1..], n, files, k - 1);
    }
  }

  /** A crash anywhere in a careful sequence leaves one of the files under the name. */
  lemma CarefulCrash(fs: Fs, calls: seq<Call>, n: Name, files: set<File>, k: nat, file: File)
    requires Holds(fs, n, files) && Careful(fs, calls, n, files) && k <= |calls|
    requires Survives(Run(fs, calls[..k]), if k < |calls| then Some(calls[k]) else None, n, file)
    ensures file in files
  {
    CarefulPrefix(fs, calls, n, files, k);
  }

  lemma {:induction false} RunAppend(fs: Fs, a: seq<Call>, b: seq<Call>)
    ensures Run(fs, a + b) == Run(Run(fs, a), b)
    decreases |a|
  {
    if a == [] {
      assert a + b == b;
    } else {
      assert (a + b)[1..] == a[1..] + b;
      RunAppend(Apply(fs, a[0]), a[1..], b);
    }
  }

  lemma {:induction false} CarefulAppend(fs: Fs, a: seq<Call>, b: seq<Call>, n: Name, files: set<File>)
    requires Careful(fs, a, n, files) && Careful(Run(fs, a), b, n, files)
    ensures Careful(fs, a + b, n, files)
    decreases |a|
  {
    if a == [] {
      assert a + b == b;
    } else {
      assert (a + b)[1..] == a[1..] + b;
      CarefulAppend(Apply(fs, a[0]), a[1..], b, n, files);
    }
  }

  lemma RunShort(fs: Fs, a: Call, b: Call, c: Call, d: Call)
    ensures Run(fs, [a, b, c]) == Apply(Apply(Apply(fs, a), b), c)
    ensures Run(fs, [a, b, c, d]) == Apply(Apply(Apply(Apply(fs, a), b), c), d)
  {
    RunAppend(fs, [a], [b]);
    RunAppend(fs, [a, b], [c]);
    RunAppend(fs, [a, b, c], [d]);
    assert [a] + [b] == [a, b] && [a, b] + [c] == [a, b, c] && [a, b, c] + [d] == [a, b, c, d];
  }

  lemma CarefulShort(fs: Fs, a: Call, b: Call, c: Call, d: Call, n: Name, files: set<File>)
    requires CarefulCall(fs, a, n, files) && CarefulCall(Apply(fs, a), b, n, files) && CarefulCall(Apply(Apply(fs, a), b), c, n, files)
    ensures Careful(fs, [a, b, c], n, files)
    ensures CarefulCall(Apply(Apply(Apply(fs, a), b), c), d, n, files) ==> Careful(fs, [a, b, c, d], n, files)
  {
    CarefulAppend(fs, [a], [b], n, files);
    assert Run(fs, [a]) == Apply(fs, a);
    CarefulAppend(fs, [a, b], [c], n, files) by { RunAppend(fs, [a], [b]); assert [a] + [b] == [a, b]; }
    RunShort(fs, a, b, c, d);
    assert [a, b] + [c] == [a, b, c] && [a, b, c] + [d] == [a, b, c, d];
    if CarefulCall(Run(fs, [a, b, c]), d, n, files) { CarefulAppend(fs, [a, b, c], [d], n, files); }
  }

  /** Replacing a file is careful with every name but its temporary one. */
  lemma ReplaceCareful(fs: Fs, temp: Name, target: Name, data: File, failure: Option<Failure>, n: Name, files: set<File>)
    requires temp != target && n != temp && (n == target && failure.None? ==> data in files)
    ensures Careful(fs, ReplaceCalls(temp, target, data, failure), n, files)
  {
    match failure
    case Some(Torn(scrap)) => CarefulShort(fs, Create(temp), Fill(temp, scrap), Unlink(temp), SyncDirectory, n, files);
    case Some(Unsynced) => CarefulShort(fs, Create(temp), Fill(temp, data), Unlink(temp), SyncDirectory, n, files);
    case Some(Unrenamed) => CarefulShort(fs, Create(temp), Fill(temp, data), Sync(temp), Unlink(temp), n, files);
    case None => CarefulShort(fs, Create(temp), Fill(temp, data), Sync(temp), Rename(temp, target), n, files);
    case _ =>
  }

  lemma TemporaryFilled(fs: Fs, temp: Name, data: File, n: Name)
    requires n != temp
    ensures var filled := Apply(Apply(fs, Create(temp)), Fill(temp, data));
            && filled.durable == fs.durable && Lookup(filled.now, n) == Lookup(fs.now, n) && Lookup(filled.now, temp) == Node(data, false)
  {}

  lemma TemporaryRemoved(fs: Fs, temp: Name, n: Name)
    requires n != temp
    ensures Lookup(Apply(fs, Unlink(temp)).now, n) == Lookup(fs.now, n)
    ensures Lookup(Apply(Apply(fs, Sync(temp)), Unlink(temp)).now, n) == Lookup(fs.now, n)
  {}

  lemma TemporaryRenamed(fs: Fs, temp: Name, target: Name, n: Name)
    requires n != temp
    ensures Lookup(Apply(Apply(fs, Sync(temp)), Rename(temp, target)).now, n)
            == if n == target then Lookup(fs.now, temp).(synced := true) else Lookup(fs.now, n)
  {}

  /** What it leaves under the names that last. */
  lemma ReplaceLeaves(fs: Fs, temp: Name, target: Name, data: File, failure: Option<Failure>, n: Name)
    requires temp != target && n != temp
    ensures var after := Run(fs, ReplaceCalls(temp, target, data, failure));
            && after.durable == fs.durable
            && Lookup(after.now, n) == if n == target && failure.None? then Node(data, true) else Lookup(fs.now, n)
  {
    var written := if failure.Some? && failure.value.Torn? then failure.value.scrap else data;
    var filled := Apply(Apply(fs, Create(temp)), Fill(temp, written));
    TemporaryFilled(fs, temp, written, n);
    TemporaryRemoved(filled, temp, n);
    TemporaryRenamed(filled, temp, target, n);
    RunShort(fs, Create(temp), Fill(temp, written), Unlink(temp), SyncDirectory);
    RunShort(fs, Create(temp), Fill(temp, written), Sync(temp), if failure.None? then Rename(temp, target) else Unlink(temp));
  }

  lemma RunThree(fs: Fs, a: seq<Call>, b: seq<Call>, c: seq<Call>)
    ensures Run(fs, a + b + c) == Run(Run(Run(fs, a), b), c)
  {
    RunAppend(fs, a + b, c);
    RunAppend(fs, a, b);
  }

  // ---- The write leaves what it should --------------------------------------------------

  lemma CopyLeaves(fs: Fs, f: Faults)
    ensures var d := View(fs.now);
            var after := Run(fs, CopyCalls(d, f));
            && after.durable == fs.durable && View(after.now) == Backed(d, f)
            && Lookup(after.now, Primary) == Lookup(fs.now, Primary)
            && Lookup(after.now, Previous) == if Copies(d, f) then Node(d.primary, true) else Lookup(fs.now, Previous)
  {
    var d := View(fs.now);
    if CopyCalls(d, f) != [] {
      ReplaceLeaves(fs, CopyTemp, Previous, d.primary, CopyFailure(d, f), Primary);
      ReplaceLeaves(fs, CopyTemp, Previous, d.primary, CopyFailure(d, f), Previous);
      ReplaceLeaves(fs, CopyTemp, Previous, d.primary, CopyFailure(d, f), Corrupt);
    }
  }

  /** The calls of a write leave the specified disk; when it succeeds and the
      directory could be flushed, the disk itself has the new file. */
  lemma WriteLeaves(fs: Fs, content: File, f: Faults)
    ensures var d := View(fs.now);
            var after := Run(fs, WriteCalls(d, content, f));
            && View(after.now) == Written(d, content, f)
            && (Lookup(after.now, Primary) == if WriteSucceeds(d, f) then Node(content, true) else Lookup(fs.now, Primary))
            && (after.durable == if WriteSucceeds(d, f) && !f.directory then after.now else fs.durable)
  {
    var d := View(fs.now);
    if !d.primary.Directory? && !CopyRefuses(d, f) {
      var copied := Run(fs, CopyCalls(d, f));
      CopyLeaves(fs, f);
      ReplaceLeaves(copied, WriteTemp, Primary, content, f.write, Primary);
      ReplaceLeaves(copied, WriteTemp, Primary, content, f.write, Previous);
      ReplaceLeaves(copied, WriteTemp, Primary, content, f.write, Corrupt);
      RunThree(fs, CopyCalls(d, f), ReplaceCalls(WriteTemp, Primary, content, f.write), FlushCalls(f));
    }
  }

  /** And they are careful with both names. */
  lemma WriteCareful(fs: Fs, content: File, f: Faults, n: Name, files: set<File>)
    requires n in {Primary, Previous}
    requires var d := View(fs.now);
             && (n == Primary && WriteSucceeds(d, f) ==> content in files)
             && (n == Previous && Copies(d, f) ==> d.primary in files)
    ensures Careful(fs, WriteCalls(View(fs.now), content, f), n, files)
  {
    var d := View(fs.now);
    if !d.primary.Directory? && !CopyRefuses(d, f) {
      var copy, write := CopyCalls(d, f), ReplaceCalls(WriteTemp, Primary, content, f.write);
      if copy != [] { ReplaceCareful(fs, CopyTemp, Previous, d.primary, CopyFailure(d, f), n, files); }
      ReplaceCareful(Run(fs, copy), WriteTemp, Primary, content, f.write, n, files);
      CarefulAppend(fs, copy, write, n, files);
      CarefulAppend(fs, copy + write, FlushCalls(f), n, files);
    }
  }

  // ---- Crashes ----------------------------------------------------------------------------

  /** The files the primary may be after some writes: the last one that succeeded,
      and those since the last flush of the directory. */
  function Possible(d: Disk, writes: seq<Write>): set<File> {
    if writes == [] then {d.primary} else
      var front, last := writes[..|writes| - 1], writes[|writes| - 1];
      if last.faults.write.Some? then Possible(d, front)
      else if last.faults.directory then Possible(d, front) + {last.content}
      else {last.content}
  }

  /** The file system after some writes, each the calls of `_atomic_write`. */
  function AfterCalls(fs: Fs, writes: seq<Write>): Fs {
    if writes == [] then fs else
      var before, last := AfterCalls(fs, writes[..|writes| - 1]), writes[|writes| - 1];
      Run(before, WriteCalls(View(before.now), last.content, last.faults))
  }

  ghost predicate Documents(writes: seq<Write>) { forall i {:trigger writes[i]} :: 0 <= i < |writes| ==> writes[i].content.Document? }

  /** However many writes there have been, failed ones included, the names hold what
      the specification says, and the disk itself one of the possible files. */
  lemma {:induction false} CallsRefineWrites(d: Disk, writes: seq<Write>)
    requires d.primary.Document? && Documents(writes)
    ensures View(AfterCalls(AtRest(d), writes).now) == After(d, writes)
    ensures After(d, writes).primary == LastWritten(d.primary, writes)
    ensures Holds(AfterCalls(AtRest(d), writes), Primary, Possible(d, writes))
    ensures forall file :: file in Possible(d, writes) ==> file.Document?
  {
    if writes != [] {
      var front, last := writes[..|writes| - 1], writes[|writes| - 1];
      assert Documents(front) by { assert forall i :: 0 <= i < |front| ==> front[i] == writes[i]; }
      CallsRefineWrites(d, front);
      AfterWrites(d, front);
      WriteLeaves(AfterCalls(AtRest(d), front), last.content, last.faults);
    }
  }

  /** A crash in the middle of a further write, at whatever call and whatever the disk
      had not taken yet, reopens to the new accounts or to those of a write that may
      not have been flushed; with every directory flushed that is the last write. */
  lemma CrashSafe(d: Disk, writes: seq<Write>, next: Write, k: nat, crashed: Disk, g: Faults, fits: bool)
    requires d.primary.Document? && Documents(writes) && next.content.Document?
    requires var fs := AfterCalls(AtRest(d), writes);
             CrashAt(fs, WriteCalls(View(fs.now), next.content, next.faults), k, crashed)
    ensures crashed.primary in Possible(d, writes) + {next.content} && crashed.primary.Document?
    ensures Open(crashed, g, fits) == Opened(crashed.primary.accounts, crashed.primary.languages, crashed)
    ensures (forall i :: 0 <= i < |writes| ==> !writes[i].faults.directory) ==>
              crashed.primary in {LastWritten(d.primary, writes), next.content}
  {
    var fs, files := AfterCalls(AtRest(d), writes), Possible(d, writes) + {next.content};
    var calls := WriteCalls(View(fs.now), next.content, next.faults);
    CallsRefineWrites(d, writes);
    WriteCareful(fs, next.content, next.faults, Primary, files);
    CarefulCrash(fs, calls, Primary, files, k, crashed.primary);
    if forall i :: 0 <= i < |writes| ==> !writes[i].faults.directory { FlushedIsLast(d, writes); }
  }

  lemma {:induction false} FlushedIsLast(d: Disk, writes: seq<Write>)
    requires forall i :: 0 <= i < |writes| ==> !writes[i].faults.directory
    ensures Possible(d, writes) == {LastWritten(d.primary, writes)}
  {
    if writes != [] {
      var front := writes[..|writes| - 1];
      assert forall i :: 0 <= i < |front| ==> front[i] == writes[i];
      FlushedIsLast(d, front);
    }
  }

  /** Once a write has succeeded and the directory was flushed, no crash undoes it. */
  lemma FlushedStays(d: Disk, writes: seq<Write>, last: Write, crashed: Disk)
    requires d.primary.Document? && Documents(writes) && WriteSucceeds(After(d, writes), last.faults) && !last.faults.directory
    requires last.content.Document?
    requires CrashLeaves(AfterCalls(AtRest(d), writes + [last]), None, crashed)
    ensures crashed.primary == last.content
  {
    var all := writes + [last];
    assert all[..|all| - 1] == writes;
    assert Documents(all);
    CallsRefineWrites(d, all);
  }

  // ---- Crashes while the store is recovered -----------------------------------------------

  /** The names while a spoilt primary is recovered: the primary is the spoilt file,
      nothing or the recovered one, and the backup stays unless it is overwritten. */
  lemma RecoveryCareful(d: Disk, f: Faults, fits: bool, k: nat, crashed: Disk)
    requires d.primary.Unreadable? && d.previous.Document? && CrashAt(AtRest(d), OpenCalls(d, f, fits), k, crashed)
    ensures crashed.primary in {d.primary, Absent, d.previous}
    ensures crashed.previous == d.previous || (f.quarantine && fits && Copies(d, f) && crashed.previous == d.primary)
  {
    var fs, aside, moved := AtRest(d), Quarantined(d, f), QuarantineCalls(d, f);
    var calls := OpenCalls(d, f, fits);
    var primaries := {d.primary, Absent, d.previous};
    var backups := {d.previous} + if f.quarantine && fits && Copies(d, f) then {d.primary} else {};
    var rest := if fits then WriteCalls(aside, d.previous, f) else [];
    assert View(Run(fs, moved).now) == aside;
    if fits {
      WriteCareful(Run(fs, moved), d.previous, f, Primary, primaries);
      WriteCareful(Run(fs, moved), d.previous, f, Previous, backups);
    }
    CarefulAppend(fs, moved, rest, Primary, primaries);
    CarefulAppend(fs, moved, rest, Previous, backups);
    CarefulCrash(fs, calls, Primary, primaries, k, crashed.primary);
    CarefulCrash(fs, calls, Previous, backups, k, crashed.previous);
  }

  /** Both files spoilt. */
  predicate Lost(crashed: Disk) { !crashed.primary.Document? && !crashed.previous.Document? }

  /** A crash at any call of the recovery leaves the recovered accounts, or nothing at
      all if both files are spoilt. */
  lemma RecoveryCrash(d: Disk, f: Faults, fits: bool, k: nat, crashed: Disk, g: Faults, fits': bool)
    requires d.primary.Unreadable? && d.previous.Document? && CrashAt(AtRest(d), OpenCalls(d, f, fits), k, crashed)
    ensures Open(crashed, g, fits').accounts == if Lost(crashed) then map[] else d.previous.accounts
  {
    RecoveryCareful(d, f, fits, k, crashed);
  }

  /** There is a crash that spoils both exactly if the spoilt primary could not be
      moved aside and the copy over the backup succeeds. */
  lemma RecoveryLosesExactly(d: Disk, f: Faults, fits: bool)
    requires d.primary.Unreadable? && d.previous.Document?
    ensures (exists k, crashed :: CrashAt(AtRest(d), OpenCalls(d, f, fits), k, crashed) && Lost(crashed))
            <==> f.quarantine && fits && Copies(d, f)
  {
    if f.quarantine && fits && Copies(d, f) { CopySpoils(d, f); }
    forall k, crashed | CrashAt(AtRest(d), OpenCalls(d, f, fits), k, crashed) && !(f.quarantine && fits && Copies(d, f))
      ensures !Lost(crashed)
    {
      RecoveryCareful(d, f, fits, k, crashed);
    }
  }

  /** The crash right after that copy. */
  lemma CopySpoils(d: Disk, f: Faults)
    requires d.primary.Unreadable? && d.previous.Document? && f.quarantine && Copies(d, f)
    ensures CrashAt(AtRest(d), OpenCalls(d, f, true), |CopyCalls(d, f)|, Backed(d, f)) && Lost(Backed(d, f))
  {
    var calls, copy := OpenCalls(d, f, true), CopyCalls(d, f);
    assert calls == WriteCalls(d, d.previous, f);
    assert calls[..|copy|] == copy;
    assert View(AtRest(d).now) == d;
    CopyLeaves(AtRest(d), f);
  }
}
