/** The credential file, its backup and its quarantine, and what opening them gives.
    A document is what a file parses to; its text is not modelled. */
module CredentialFileSpec {
  import opened Wrappers

  datatype Credentials = Credentials(username: string, displayName: string, token: string)

  type Accounts = map<int, Credentials>
  type Languages = map<int, string>

  /** A path: nothing, a directory, a file that cannot be read as a store (perhaps
      longer than a store may be), or a store. */
  datatype File =
    | Absent
    | Directory
    | Unreadable(oversized: bool)
    | Document(accounts: Accounts, languages: Languages)

  datatype Disk = Disk(primary: File, previous: File, corrupt: File)

  /** How replacing a file by way of a temporary one fails: before there is a
      temporary file (the source cannot be read, or the file cannot be made), while
      it is written, before it has reached the disk, or at the renaming. */
  datatype Failure = Unprepared | NoTemporary | Torn(scrap: File) | Unsynced | Unrenamed

  /** Which operating system calls fail. `directory` is the final flush of the
      directory, whose error is swallowed. */
  datatype Faults = Faults(quarantine: bool, backup: Option<Failure>, write: Option<Failure>, directory: bool)

  predicate IsFile(f: File) { f.Unreadable? || f.Document? }
  predicate IsOversized(f: File) { f.Unreadable? && f.oversized }

  /** How the copy over the backup fails; nothing can be renamed over a directory. */
  function CopyFailure(d: Disk, f: Faults): Option<Failure> {
    if f.backup.None? && d.previous.Directory? then Some(Unrenamed) else f.backup
  }

  predicate Copies(d: Disk, f: Faults) { IsFile(d.primary) && !IsOversized(d.primary) && CopyFailure(d, f).None? }

  /** The copy of the primary over the backup, which is replaced in one step. Its
      system errors are swallowed. */
  function Backed(d: Disk, f: Faults): Disk { if Copies(d, f) then d.(previous := d.primary) else d }

  /** The copy refuses an oversized primary it has read, and that error is not
      swallowed. */
  predicate CopyRefuses(d: Disk, f: Faults) { IsOversized(d.primary) && f.backup != Some(Unprepared) }

  predicate WriteSucceeds(d: Disk, f: Faults) { !d.primary.Directory? && !CopyRefuses(d, f) && f.write.None? }

  /** What `_atomic_write` leaves. */
  function Written(d: Disk, content: File, f: Faults): Disk {
    if d.primary.Directory? || CopyRefuses(d, f) then d
    else if f.write.Some? then Backed(d, f)
    else Backed(d, f).(primary := content)
  }

  function Quarantined(d: Disk, f: Faults): Disk {
    if IsFile(d.primary) && !f.quarantine then d.(primary := Absent, corrupt := d.primary) else d
  }

  datatype Opened = Opened(accounts: Accounts, languages: Languages, disk: Disk)

  /** `_load_with_recovery`. The recovered snapshot is written back if it can be;
      `fits` says whether its text is short enough. */
  function Open(d: Disk, f: Faults, fits: bool): Opened {
    if d.primary.Directory? then Opened(map[], map[], d)
    else if d.primary.Document? then Opened(d.primary.accounts, d.primary.languages, d)
    else
      var aside := if d.primary.Unreadable? then Quarantined(d, f) else d;
      if aside.previous.Document? then
        Opened(aside.previous.accounts, aside.previous.languages, if fits then Written(aside, aside.previous, f) else aside)
      else Opened(map[], map[], aside)
  }

  // ---- Properties -------------------------------------------------------------------

  /** Opening an unreadable primary with a good backup gives the backup's accounts.
      They are still there at the next opening, except in exactly one case: the
      primary could not be moved aside, so that it was copied over the good backup,
      and then the write that should have restored it failed. */
  lemma RecoveryKeepsTheCopy(d: Disk, f: Faults, fits: bool, g: Faults, fits': bool)
    requires d.primary.Unreadable? && d.previous.Document?
    ensures var first := Open(d, f, fits);
            var lost := f.quarantine && f.backup.None? && f.write.Some? && fits && !d.primary.oversized;
            && first.accounts == d.previous.accounts && first.languages == d.previous.languages
            && Open(first.disk, g, fits').accounts == if lost then map[] else d.previous.accounts
  {}

  // ---- Any number of writes --------------------------------------------------------------

  /** One write and the faults it meets. */
  datatype Write = Write(content: File, faults: Faults)

  function After(d: Disk, writes: seq<Write>): Disk {
    if writes == [] then d else
      var last := writes[|writes| - 1];
      Written(After(d, writes[..|writes| - 1]), last.content, last.faults)
  }

  /** The last content whose write did not fail. */
  function LastWritten(first: File, writes: seq<Write>): File {
    if writes == [] then first else
      var last := writes[|writes| - 1];
      if last.faults.write.Some? then LastWritten(first, writes[..|writes| - 1]) else last.content
  }

  /** The primary as it was at the last backup that did not fail. */
  function LastBackup(d: Disk, writes: seq<Write>): File {
    if writes == [] then d.previous else
      var front := writes[..|writes| - 1];
      if writes[|writes| - 1].faults.backup.Some? || d.previous.Directory? then LastBackup(d, front) else LastWritten(d.primary, front)
  }

  lemma {:induction false} AfterWrites(d: Disk, writes: seq<Write>)
    requires d.primary.Document? && forall i {:trigger writes[i]} :: 0 <= i < |writes| ==> writes[i].content.Document?
    ensures After(d, writes).primary.Document? && (LastBackup(d, writes).Directory? <==> d.previous.Directory?)
    ensures After(d, writes) == Disk(LastWritten(d.primary, writes), LastBackup(d, writes), d.corrupt)
  {
    if writes != [] {
      var front := writes[..|writes| - 1];
      assert forall i :: 0 <= i < |front| ==> front[i] == writes[i];
      AfterWrites(d, front);
    }
  }

  /** A primary spoilt from outside after any number of writes, if it can be moved
      aside, is recovered from the last backup: one write behind, if the last write
      neither failed nor failed to back up, and not behind at all if it failed after
      its backup. */
  lemma SpoiltIsRecovered(d: Disk, writes: seq<Write>, oversized: bool, g: Faults, fits: bool)
    requires d.primary.Document? && forall i {:trigger writes[i]} :: 0 <= i < |writes| ==> writes[i].content.Document?
    requires !g.quarantine && LastBackup(d, writes).Document?
    ensures var found := Open(After(d, writes).(primary := Unreadable(oversized)), g, fits);
            found.accounts == LastBackup(d, writes).accounts && found.languages == LastBackup(d, writes).languages
  {
    AfterWrites(d, writes);
  }

  /** What was written last without a failure is what the next opening gives, and that
      opening changes no file. */
  lemma LastIsReopened(d: Disk, writes: seq<Write>, g: Faults, fits: bool)
    requires d.primary.Document? && forall i {:trigger writes[i]} :: 0 <= i < |writes| ==> writes[i].content.Document?
    ensures var last := LastWritten(d.primary, writes);
            last.Document? && Open(After(d, writes), g, fits) == Opened(last.accounts, last.languages, After(d, writes))
  {
    AfterWrites(d, writes);
  }

  /** An oversized primary refuses every write that gets as far as reading it: whatever
      is written, the disk stays as it is. */
  lemma {:induction false} OversizedStays(d: Disk, writes: seq<Write>)
    requires d.primary == Unreadable(true) && forall i {:trigger writes[i]} :: 0 <= i < |writes| ==> writes[i].faults.backup != Some(Unprepared)
    ensures After(d, writes) == d && forall i :: 0 <= i < |writes| ==> !WriteSucceeds(d, writes[i].faults)
  {
    if writes != [] { OversizedStays(d, writes[..|writes| - 1]); }
  }
}
