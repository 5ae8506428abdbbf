/** `UserStore`: the accounts in memory, and the files behind them. */
module UserStore {
  import opened Wrappers
  import opened CredentialFileSpec
  import opened CredentialFileCalls
  import opened PythonText

  datatype StoreError = BadUserId | BadCredentials | NotWritten

  const LANGUAGES: set<string> := {"zh_TW", "en", "zh_CN"}
  const DEFAULT_LANGUAGE := "zh_TW"

  /** Nothing but white space. */
  predicate Blank(s: string) { forall i :: 0 <= i < |s| ==> IsSpace(s[i]) }

  predicate CredentialsOk(c: Credentials) { !Blank(c.username) && !Blank(c.displayName) && !Blank(c.token) }

  class Store {
    var fs: Fs
    var accounts: Accounts
    var languages: Languages

    /** Every document that has been the primary since the last opening, in order,
        and which of them the backup holds; -1 when it holds something older. */
    ghost var committed: seq<File>
    ghost var backup: int

    /** The file system this object began with, and the calls it has made since. */
    ghost const origin: Fs
    ghost var trace: seq<Call>

    ghost predicate Traced()
      reads this
    {
      fs == Run(origin, trace)
    }

    function OnDisk(): Disk
      reads `fs
    {
      View(fs.now)
    }

    ghost predicate Valid()
      reads this
    {
      && Traced()
      && (forall i {:trigger committed[i]} :: 0 <= i < |committed| ==> committed[i].Document?)
      && (|committed| > 0 ==> OnDisk().primary == committed[|committed| - 1])
      && (|committed| > 0 ==> accounts == OnDisk().primary.accounts)
      && (|committed| == 0 ==> !OnDisk().primary.Document?)
      && -1 <= backup < |committed| && (backup >= 0 ==> OnDisk().previous == committed[backup])
    }

    /** The constructor and `initialize`. */
    constructor Initialize(fs: Fs, f: Faults, fits: bool)
      ensures Valid()
      ensures var result := Open(View(fs.now), f, fits);
              accounts == result.accounts && OnDisk() == result.disk && languages == result.languages
      ensures origin == fs && trace == OpenCalls(View(fs.now), f, fits)
    {
      this.fs, origin := fs, fs;
      accounts, languages, committed, backup, trace := map[], map[], [], -1, [];
      new;
      if OnDisk().primary.Document? {
        accounts, languages := OnDisk().primary.accounts, OnDisk().primary.languages;
      } else if !OnDisk().primary.Directory? {
        if OnDisk().primary.Unreadable? {
          Quarantine(f);
        }
        if OnDisk().previous.Document? {
          accounts, languages := OnDisk().previous.accounts, OnDisk().previous.languages;
          if fits {
            var _ := AtomicWrite(OnDisk().previous, f);
          }
        }
      }
      committed := if OnDisk().primary.Document? then [OnDisk().primary] else [];
    }

    /** One operating system call. */
    method Perform(call: Call)
      requires Traced()
      modifies `fs, `trace
      ensures Traced() && fs == Apply(old(fs), call) && trace == old(trace) + [call]
    {
      RunAppend(origin, trace, [call]);
      fs := Apply(fs, call);
      trace := trace + [call];
    }

    method Quarantine(f: Faults)
      requires Traced()
      modifies `fs, `trace
      ensures Traced() && trace == old(trace) + QuarantineCalls(old(OnDisk()), f)
      ensures OnDisk() == Quarantined(old(OnDisk()), f)
    {
      if IsFile(OnDisk().primary) && !f.quarantine {
        Perform(Rename(Primary, Corrupt));
      }
    }

    /** A temporary file with the given bytes. */
    method Stage(temp: Name, data: File)
      requires Traced()
      modifies `fs, `trace
      ensures Traced() && trace == old(trace) + [Create(temp), Fill(temp, data)]
    {
      Perform(Create(temp));
      Perform(Fill(temp, data));
    }

    /** A file replaced by way of a temporary one. */
    method Replace(temp: Name, target: Name, data: File, failure: Option<Failure>) returns (ok: bool)
      requires Traced()
      modifies `fs, `trace
      ensures Traced() && trace == old(trace) + ReplaceCalls(temp, target, data, failure)
      ensures ok <==> failure.None?
    {
      if failure in {Some(Unprepared), Some(NoTemporary)} { return false; }
      Stage(temp, if failure.Some? && failure.value.Torn? then failure.value.scrap else data);
      if failure.Some? && !failure.value.Unrenamed? {
        Perform(Unlink(temp));
        return false;
      }
      Perform(Sync(temp));
      if failure.None? {
        Perform(Rename(temp, target));
      } else {
        Perform(Unlink(temp));
      }
      return failure.None?;
    }

    /** `_copy_file_best_effort` as it is used: only the refusal of an oversized file is
        not swallowed. */
    method Copy(f: Faults) returns (refused: bool)
      requires Traced()
      modifies `fs, `trace
      ensures Traced() && trace == old(trace) + CopyCalls(old(OnDisk()), f)
      ensures refused <==> CopyRefuses(old(OnDisk()), f)
    {
      refused := false;
      if IsFile(OnDisk().primary) && f.backup != Some(Unprepared) {
        if IsOversized(OnDisk().primary) { return true; }
        var _ := Replace(CopyTemp, Previous, OnDisk().primary, CopyFailure(OnDisk(), f));
      }
    }

    /** `_atomic_write`. */
    method WriteFile(content: File, f: Faults) returns (ok: bool)
      requires Traced()
      modifies `fs, `trace
      ensures Traced() && trace == old(trace) + WriteCalls(old(OnDisk()), content, f)
      ensures ok <==> WriteSucceeds(old(OnDisk()), f)
    {
      if OnDisk().primary.Directory? { return false; }
      var refused := Copy(f);
      if refused { return false; }
      ok := Replace(WriteTemp, Primary, content, f.write);
      if ok && !f.directory {
        Perform(SyncDirectory);
      }
    }

    /** The same, with what it leaves. Its calls are the specified ones, of which
        `CrashSafe` says what a crash among them leaves. */
    method AtomicWrite(content: File, f: Faults) returns (ok: bool)
      requires Traced()
      modifies `fs, `trace
      ensures Traced() && trace == old(trace) + WriteCalls(old(OnDisk()), content, f)
      ensures fs == Run(old(fs), WriteCalls(old(OnDisk()), content, f))
      ensures OnDisk() == Written(old(OnDisk()), content, f)
      ensures ok <==> WriteSucceeds(old(OnDisk()), f)
    {
      WriteLeaves(fs, content, f);
      RunAppend(origin, trace, WriteCalls(OnDisk(), content, f));
      ok := WriteFile(content, f);
    }

    /** `_write_store`. Printing the document parses it again, and that replaces the
        languages in memory, before anything is written. The ghost fields record a
        commit; the caller still has to take over the accounts. */
    method WriteStore(snapshot: Accounts, chosen: Languages, f: Faults, fits: bool) returns (ok: bool)
      requires Valid()
      modifies `fs, `trace, `languages, `committed, `backup
      ensures Traced()
      ensures OnDisk() == if fits then Written(old(OnDisk()), Document(snapshot, chosen), f) else old(OnDisk())
      ensures ok <==> fits && WriteSucceeds(old(OnDisk()), f)
      ensures languages == if fits then chosen else old(languages)
      ensures committed == if ok then old(committed) + [Document(snapshot, chosen)] else old(committed)
      ensures -1 <= backup < |committed| && (backup >= 0 ==> OnDisk().previous == committed[backup])
      ensures !ok ==> OnDisk().primary == old(OnDisk()).primary
      ensures ok && |old(committed)| > 0 ==> backup == if CopyFailure(old(OnDisk()), f).Some? then old(backup) else |old(committed)| - 1
    {
      if !fits { return false; }
      languages := chosen;
      if |committed| > 0 && CopyFailure(OnDisk(), f).None? {
        backup := |committed| - 1;
      } else if IsFile(OnDisk().primary) && CopyFailure(OnDisk(), f).None? && !IsOversized(OnDisk().primary) {
        backup := -1;
      }
      ok := AtomicWrite(Document(snapshot, chosen), f);
      if ok {
        committed := committed + [Document(snapshot, chosen)];
      }
    }

    /** Memory follows a write that succeeded, and only such a write; what was the
        primary before is then the backup, unless copying it failed. */
    method StoreCredentials(user: int, c: Credentials, f: Faults, fits: bool) returns (problem: Option<StoreError>)
      requires Valid()
      modifies this
      ensures Valid()
      ensures problem == if user <= 0 then Some(BadUserId) else if Blank(c.username) || Blank(c.displayName) || Blank(c.token) then Some(BadCredentials)
                         else if !fits || !WriteSucceeds(old(OnDisk()), f) then Some(NotWritten) else None
      ensures problem.Some? ==> accounts == old(accounts) && OnDisk().primary == old(OnDisk()).primary && committed == old(committed)
      ensures problem.None? ==> accounts == old(accounts)[user := c] && OnDisk().primary == Document(accounts, old(languages))
                                && committed == old(committed) + [OnDisk().primary]
      ensures problem.None? && |old(committed)| > 0 && CopyFailure(old(OnDisk()), f).None? ==> OnDisk().previous == old(OnDisk()).primary
      ensures languages == old(languages)
    {
      if user <= 0 { return Some(BadUserId); }
      if !CredentialsOk(c) { return Some(BadCredentials); }
      var snapshot := accounts[user := c];
      var ok := WriteStore(snapshot, languages, f, fits);
      if !ok { return Some(NotWritten); }
      accounts := snapshot;
      return None;
    }

    method Remove(user: int, f: Faults, fits: bool) returns (r: Fallible<bool, StoreError>)
      requires Valid()
      modifies this
      ensures Valid() && languages == old(languages)
      ensures user <= 0 ==> r == Err(BadUserId)
      ensures user > 0 && user !in old(accounts) ==> r == Ok(false)
      ensures user > 0 && user in old(accounts) ==> r == if fits && WriteSucceeds(old(OnDisk()), f) then Ok(true) else Err(NotWritten)
      ensures r != Ok(true) ==> accounts == old(accounts) && OnDisk().primary == old(OnDisk()).primary && committed == old(committed)
      ensures r == Ok(true) ==> accounts == old(accounts) - {user} && OnDisk().primary == Document(accounts, old(languages))
                                && committed == old(committed) + [OnDisk().primary]
    {
      if user <= 0 { return Err(BadUserId); }
      if user !in accounts { return Ok(false); }
      var snapshot := accounts - {user};
      var ok := WriteStore(snapshot, languages, f, fits);
      if !ok { return Err(NotWritten); }
      accounts := snapshot;
      return Ok(true);
    }

    /** The language changes in memory even when the write fails, as soon as the
        document could be printed. */
    method SetLanguage(user: int, language: string, f: Faults, fits: bool) returns (problem: Option<StoreError>)
      requires Valid()
      modifies this
      ensures Valid() && accounts == old(accounts)
      ensures problem == if user <= 0 then Some(BadUserId) else if !fits || !WriteSucceeds(old(OnDisk()), f) then Some(NotWritten) else None
      ensures user > 0 && fits ==> languages == old(languages)[user := if language in LANGUAGES then language else DEFAULT_LANGUAGE]
      ensures user <= 0 || !fits ==> languages == old(languages)
      ensures problem.Some? ==> OnDisk().primary == old(OnDisk()).primary
    {
      if user <= 0 { return Some(BadUserId); }
      var chosen := languages[user := if language in LANGUAGES then language else DEFAULT_LANGUAGE];
      var ok := WriteStore(accounts, chosen, f, fits);
      if !ok { return Some(NotWritten); }
      languages := chosen;
      return None;
    }

    /** If the primary is spoilt now and can be moved aside, the next opening finds
        the commit the backup holds. */
    lemma RecoversTheBackup(f: Faults, fits: bool, oversized: bool)
      requires Valid() && backup >= 0 && !f.quarantine
      ensures Open(OnDisk().(primary := Unreadable(oversized)), f, fits).accounts == committed[backup].accounts
    {
      assert committed[backup].Document?;
    }
  }
}
