/** internal/container/secrets_refresher.go: replacing the shared secrets file, and one
    mint-and-conditional-rewrite cycle, on a file system that can crash. */
module SecretsWrite {
  import opened Prelude
  import opened SecretsFile

  // ----- The file system -----

  type Ino = nat
  type Dir = map<string, Ino>

  /** The directory of the secrets file and its files, as running processes see them, and what
      is known of the disk.  An operation on the directory is never half done, but a crash may
      bring back any directory there has been; a file not synced since it was last written may
      come back with any content. */
  datatype Disk = Disk(
    dir: Dir,
    past: set<Dir>,          // the directories a crash may bring back
    data: map<Ino, string>,
    synced: set<Ino>,
    next: Ino                // no file has this number or a higher one yet
  ) {
    function Read(name: string): Option<string> {
      if name in dir && dir[name] in data then Some(data[dir[name]]) else None
    }

    /** open with O_CREATE and O_TRUNC: a file of that name is emptied, not replaced. */
    function Open(name: string): Disk {
      if name in dir then this.(data := data[dir[name] := ""], synced := synced - {dir[name]})
      else Link(name, next).(data := data[next := ""], synced := synced - {next}, next := next + 1)
    }

    /** The file has grown, or been overwritten, to this. */
    function Write(ino: Ino, content: string): Disk {
      this.(data := data[ino := content], synced := synced - {ino})
    }

    function Sync(ino: Ino): Disk {
      this.(synced := synced + {ino})
    }

    function Link(name: string, ino: Ino): Disk {
      this.(dir := dir[name := ino], past := past + {dir[name := ino]})
    }

    function Unlink(name: string): Disk {
      this.(dir := dir - {name}, past := past + {dir - {name}})
    }

    function Rename(from: string, to: string): Disk
      requires from in dir
    {
      var renamed := (dir - {from})[to := dir[from]];
      this.(dir := renamed, past := past + {renamed})
    }
  }

  /** What the disk may be found to be after a crash. */
  ghost predicate MayReboot(before: Disk, after: Disk) {
    && after.dir in before.past && after.past == {after.dir} && after.next == before.next
    && after.data.Keys == before.data.Keys == after.synced
    && (forall ino :: ino in before.data && ino in before.synced ==> after.data[ino] == before.data[ino])
  }

  /** Every crash: one of the directories, and noise for what was not synced. */
  function Rebooted(before: Disk, dir: Dir, noise: map<Ino, string>): Disk {
    var data := map ino | ino in before.data ::
                  if ino in noise && ino !in before.synced then noise[ino] else before.data[ino];
    Disk(dir, {dir}, data, before.data.Keys, before.next)
  }

  lemma RebootedIsAny(before: Disk, after: Disk, dir: Dir, noise: map<Ino, string>)
    ensures dir in before.past ==> MayReboot(before, Rebooted(before, dir, noise))
    ensures MayReboot(before, after) ==> after == Rebooted(before, after.dir, after.data)
  {
  }

  // ----- What the secrets path holds -----

  const PATH := "env"
  const TMP := "env.tmp"

  /** In any directory a crash may bring back the path names a synced file with one of these
      contents, or nothing if that is allowed; and no temporary file is that file. */
  ghost predicate Safe(d: Disk, allowed: set<Option<string>>) {
    && d.dir in d.past
    && (forall dir :: dir in d.past ==> SafeDir(d, dir, allowed))
  }

  predicate SafeDir(d: Disk, dir: Dir, allowed: set<Option<string>>) {
    && (forall name :: name in dir ==> dir[name] < d.next && dir[name] in d.data)
    && (PATH in dir ==> dir[PATH] in d.synced && dir[PATH] in d.data && Some(d.data[dir[PATH]]) in allowed)
    && (PATH !in dir ==> None in allowed)
    && (PATH in dir && TMP in dir ==> dir[TMP] != dir[PATH])
    && (PATH in dir && TMP in d.dir ==> d.dir[TMP] != dir[PATH])
  }

  /** So a reader finds one of them now, and so does whoever looks after a crash. */
  lemma SafeMeans(d: Disk, allowed: set<Option<string>>, rebooted: Disk)
    requires Safe(d, allowed) && MayReboot(d, rebooted)
    ensures d.Read(PATH) in allowed && rebooted.Read(PATH) in allowed
    ensures Safe(rebooted, allowed)
  {
    assert SafeDir(d, d.dir, allowed) && SafeDir(d, rebooted.dir, allowed);
    assert SafeDir(rebooted, rebooted.dir, allowed);
  }

  lemma OpenIsSafe(d: Disk, allowed: set<Option<string>>)
    requires Safe(d, allowed)
    ensures Safe(d.Open(TMP), allowed) && TMP in d.Open(TMP).dir && d.Open(TMP).Read(PATH) == d.Read(PATH)
  {
    var d' := d.Open(TMP);
    assert SafeDir(d, d.dir, allowed);
    forall dir | dir in d'.past ensures SafeDir(d', dir, allowed) {
      if dir in d.past {
        assert SafeDir(d, dir, allowed);
      }
    }
  }

  /** Neither writing nor syncing the temporary file touches what the path may name. */
  lemma WriteIsSafe(d: Disk, allowed: set<Option<string>>, content: string)
    requires Safe(d, allowed) && TMP in d.dir
    ensures Safe(d.Write(d.dir[TMP], content), allowed) && d.Write(d.dir[TMP], content).Read(PATH) == d.Read(PATH)
  {
    var d' := d.Write(d.dir[TMP], content);
    assert SafeDir(d, d.dir, allowed);
    forall dir | dir in d'.past ensures SafeDir(d', dir, allowed) {
      assert SafeDir(d, dir, allowed);
    }
  }

  lemma SyncIsSafe(d: Disk, allowed: set<Option<string>>)
    requires Safe(d, allowed) && TMP in d.dir
    ensures Safe(d.Sync(d.dir[TMP]), allowed)
  {
    var d' := d.Sync(d.dir[TMP]);
    forall dir | dir in d'.past ensures SafeDir(d', dir, allowed) {
      assert SafeDir(d, dir, allowed);
    }
  }

  lemma UnlinkIsSafe(d: Disk, allowed: set<Option<string>>)
    requires Safe(d, allowed)
    ensures Safe(d.Unlink(TMP), allowed) && d.Unlink(TMP).Read(PATH) == d.Read(PATH)
  {
    var d' := d.Unlink(TMP);
    assert SafeDir(d, d.dir, allowed);
    forall dir | dir in d'.past ensures SafeDir(d', dir, allowed) {
      if dir in d.past {
        assert SafeDir(d, dir, allowed);
      }
    }
  }

  /** Renaming is where the new content comes in, and only a synced file may be renamed. */
  lemma RenameIsSafe(d: Disk, allowed: set<Option<string>>)
    requires Safe(d, allowed) && TMP in d.dir && d.dir[TMP] in d.synced && d.dir[TMP] in d.data
    ensures var d' := d.Rename(TMP, PATH);
            Safe(d', allowed + {d.Read(TMP)}) && d'.Read(PATH) == d.Read(TMP) && TMP !in d'.dir
  {
    var d' := d.Rename(TMP, PATH);
    assert SafeDir(d, d.dir, allowed);
    forall dir | dir in d'.past ensures SafeDir(d', dir, allowed + {d.Read(TMP)}) {
      if dir in d.past {
        assert SafeDir(d, dir, allowed);
      }
    }
  }

  /** Without the sync a crash right after the rename may leave any content at the path. */
  lemma UnsyncedRenameTears(d: Disk, torn: string) returns (rebooted: Disk)
    requires TMP in d.dir && d.dir[TMP] in d.data && d.dir[TMP] !in d.synced
    ensures MayReboot(d.Rename(TMP, PATH), rebooted) && rebooted.Read(PATH) == Some(torn)
  {
    var d' := d.Rename(TMP, PATH);
    rebooted := Disk(d'.dir, {d'.dir}, d'.data[d.dir[TMP] := torn], d'.data.Keys, d'.next);
  }

  lemma SafeGrows(d: Disk, allowed: set<Option<string>>, more: set<Option<string>>)
    requires Safe(d, allowed) && allowed <= more
    ensures Safe(d, more)
  {
    forall dir | dir in d.past ensures SafeDir(d, dir, more) {
      assert SafeDir(d, dir, allowed);
    }
  }

  // ----- The atomic write -----

  ghost predicate AllSafe(journal: seq<Disk>, allowed: set<Option<string>>) {
    forall i :: 0 <= i < |journal| ==> Safe(journal[i], allowed)
  }

  /** Which of the calls of one write succeed. */
  datatype Calls = Calls(open: bool, chmod: bool, write: bool, sync: bool, close: bool, rename: bool, remove: bool) {
    predicate Work() {
      open && chmod && write && sync && close && rename
    }
  }

  /** The calls the write makes.  Each may fail, and then changes nothing but the file it works
      on; the journal keeps every state the disk goes through. */
  class FileSystem {
    var disk: Disk
    var journal: seq<Disk>

    constructor (disk: Disk)
      ensures this.disk == disk && journal == []
    {
      this.disk := disk;
      journal := [];
    }

    method Enter(disk': Disk)
      modifies this
      ensures disk == disk' && journal == old(journal) + [disk']
    {
      disk := disk';
      journal := journal + [disk'];
    }

    /** A crash in the k-th of the states gone through, or in the present one; what came after it
        did not happen. */
    method Crash(k: nat)
      requires k <= |journal| && (journal + [disk])[k].past != {}
      modifies this
      ensures MayReboot((old(journal) + [old(disk)])[k], disk)
      ensures journal == (old(journal) + [old(disk)])[..k + 1] + [disk]
    {
      var states := journal + [disk];
      var dir :| dir in states[k].past;
      var noise: map<Ino, string> := *;
      RebootedIsAny(states[k], disk, dir, noise);
      journal := states[..k + 1];
      Enter(Rebooted(states[k], dir, noise));
    }

    method OpenTmp(ok: bool, ghost allowed: set<Option<string>>)
      requires Safe(disk, allowed)
      modifies this
      ensures Safe(disk, allowed) && disk.Read(PATH) == old(disk).Read(PATH)
      ensures old(journal) <= journal && AllSafe(journal[|old(journal)|..], allowed)
      ensures if ok then TMP in disk.dir else disk == old(disk)
    {
      if ok {
        OpenIsSafe(disk, allowed);
        Enter(disk.Open(TMP));
      }
    }

    /** The content may get to the file in any number of pieces, and the write fail at any. */
    method WriteTmp(content: string, ok: bool, ghost allowed: set<Option<string>>)
      requires Safe(disk, allowed) && TMP in disk.dir
      modifies this
      ensures Safe(disk, allowed) && disk.dir == old(disk).dir && disk.Read(PATH) == old(disk).Read(PATH)
      ensures old(journal) <= journal && AllSafe(journal[|old(journal)|..], allowed)
      ensures ok ==> disk.Read(TMP) == Some(content)
    {
      var ino, written := disk.dir[TMP], 0;
      var failed := false;
      while !failed && written < |content|
        invariant 0 <= written <= |content|
        invariant Safe(disk, allowed) && disk.dir == old(disk).dir && disk.Read(PATH) == old(disk).Read(PATH)
        invariant old(journal) <= journal && AllSafe(journal[|old(journal)|..], allowed)
        invariant written > 0 ==> ino in disk.data && disk.data[ino] == content[..written]
        invariant failed ==> !ok
        decreases |content| - written, !failed
      {
        var now: bool := *;
        failed := !ok && now;
        if !failed {
          var piece: nat := *;
          written := if 0 < piece <= |content| - written then written + piece else |content|;
          WriteIsSafe(disk, allowed, content[..written]);
          Enter(disk.Write(ino, content[..written]));
        }
      }
      if ok && content == "" {
        WriteIsSafe(disk, allowed, "");
        Enter(disk.Write(ino, ""));
      }
      assert content[..|content|] == content;
    }

    method SyncTmp(ok: bool, ghost allowed: set<Option<string>>)
      requires Safe(disk, allowed) && TMP in disk.dir
      modifies this
      ensures Safe(disk, allowed) && disk.dir == old(disk).dir && disk.data == old(disk).data
      ensures old(journal) <= journal && AllSafe(journal[|old(journal)|..], allowed)
      ensures ok ==> disk.dir[TMP] in disk.synced
    {
      if ok {
        SyncIsSafe(disk, allowed);
        Enter(disk.Sync(disk.dir[TMP]));
      }
    }

    method RenameTmp(ok: bool, ghost allowed: set<Option<string>>)
      requires Safe(disk, allowed) && TMP in disk.dir && disk.dir[TMP] in disk.synced && disk.dir[TMP] in disk.data
      modifies this
      ensures !ok ==> disk == old(disk) && journal == old(journal)
      ensures ok ==>
                && disk.Read(PATH) == old(disk).Read(TMP) && TMP !in disk.dir
                && journal == old(journal) + [disk] && Safe(disk, allowed + {old(disk).Read(TMP)})
    {
      if ok {
        RenameIsSafe(disk, allowed);
        Enter(disk.Rename(TMP, PATH));
      }
    }

    /** os.Remove, whose error is ignored. */
    method RemoveTmp(ok: bool, ghost allowed: set<Option<string>>)
      requires Safe(disk, allowed)
      modifies this
      ensures Safe(disk, allowed) && disk.Read(PATH) == old(disk).Read(PATH)
      ensures ok ==> TMP !in disk.dir
      ensures old(journal) <= journal && AllSafe(journal[|old(journal)|..], allowed)
    {
      if ok {
        UnlinkIsSafe(disk, allowed);
        Enter(disk.Unlink(TMP));
      }
    }

    /** It succeeds exactly if every call does.  A failed write leaves every state as safe as
        before, and no temporary file if that can be removed; a successful one adds the new body to
        what a reader or a crash may find, at its very last step. */
    method WriteSecretsFileAtomic(body: string, calls: Calls, ghost allowed: set<Option<string>>) returns (ok: bool)
      requires Safe(disk, allowed)
      modifies this
      ensures ok <==> calls.open && calls.chmod && calls.write && calls.sync && calls.close && calls.rename
      ensures old(journal) <= journal
      ensures !ok ==>
                && disk.Read(PATH) == old(disk).Read(PATH)
                && Safe(disk, allowed) && AllSafe(journal[|old(journal)|..], allowed)
                && (calls.open && calls.remove ==> TMP !in disk.dir)
                && (!calls.open ==> disk == old(disk))
      ensures ok ==>
                && disk.Read(PATH) == Some(body) && TMP !in disk.dir && Safe(disk, allowed + {Some(body)})
                && |journal| > |old(journal)| && AllSafe(journal[|old(journal)|..|journal| - 1], allowed)
                && journal[|journal| - 1] == disk
    {
      OpenTmp(calls.open, allowed);
      if !calls.open {
        return false;
      }
      if !calls.chmod {
        RemoveTmp(calls.remove, allowed);
        return false;
      }
      WriteTmp(body, calls.write, allowed);
      if !calls.write {
        RemoveTmp(calls.remove, allowed);
        return false;
      }
      SyncTmp(calls.sync, allowed);
      if !calls.sync {
        RemoveTmp(calls.remove, allowed);
        return false;
      }
      if !calls.close {
        RemoveTmp(calls.remove, allowed);
        return false;
      }
      ghost var before := journal;
      RenameTmp(calls.rename, allowed);
      if !calls.rename {
        RemoveTmp(calls.remove, allowed);
        return false;
      }
      assert journal[|old(journal)|..|journal| - 1] == before[|old(journal)|..];
      return true;
    }
  }

  // ----- What a worker gets to read -----

  /** Every content the path may have renders one of these maps. */
  ghost predicate AllRendered(allowed: set<Option<string>>, known: set<map<string, string>>) {
    forall c :: c in allowed && c.Some? ==> RendersOne(c.value, known)
  }

  ghost predicate RendersOne(body: string, known: set<map<string, string>>) {
    exists m :: m in known && IsRendering(body, m)
  }

  /** A shell reads one of the maps in full, or finds no file if there may be none. */
  ghost predicate ReadsInFull(d: Disk, known: set<map<string, string>>, mayBeMissing: bool) {
    match d.Read(PATH)
    case None => mayBeMissing
    case Some(body) => exists m :: m in known && IsRendering(body, m) && ReadsAs(body, m)
  }

  /** In a safe state and after a crash in it, with shell names for keys. */
  lemma RecoversInFull(d: Disk, rebooted: Disk, allowed: set<Option<string>>, known: set<map<string, string>>)
    requires AllRendered(allowed, known) && Safe(d, allowed) && MayReboot(d, rebooted)
    requires forall m :: m in known ==> AllNames(m)
    ensures ReadsInFull(d, known, None in allowed) && ReadsInFull(rebooted, known, None in allowed)
    ensures Safe(rebooted, allowed)
  {
    SafeMeans(d, allowed, rebooted);
    SafeReads(d, allowed, known);
    SafeReads(rebooted, allowed, known);
  }

  lemma SafeReads(d: Disk, allowed: set<Option<string>>, known: set<map<string, string>>)
    requires AllRendered(allowed, known) && Safe(d, allowed)
    requires forall m :: m in known ==> AllNames(m)
    ensures ReadsInFull(d, known, None in allowed)
  {
    assert SafeDir(d, d.dir, allowed);
    if d.Read(PATH).Some? {
      var body := d.Read(PATH).value;
      assert RendersOne(body, known);
      var m :| m in known && IsRendering(body, m);
      ReadsBackExactly(body, m);
    }
  }

  /** So over a write that found a file, the old map or the new one. */
  lemma RecoversOldOrNewMap(d: Disk, rebooted: Disk, oldBody: string, oldMap: map<string, string>,
                            body: string, newMap: map<string, string>)
    requires IsRendering(oldBody, oldMap) && IsRendering(body, newMap) && AllNames(oldMap) && AllNames(newMap)
    requires Safe(d, {Some(oldBody), Some(body)}) && MayReboot(d, rebooted)
    ensures ReadsOldOrNew(d.Read(PATH), oldMap, newMap) && ReadsOldOrNew(rebooted.Read(PATH), oldMap, newMap)
  {
    SafeMeans(d, {Some(oldBody), Some(body)}, rebooted);
    NamedReadsBack(oldBody, oldMap);
    NamedReadsBack(body, newMap);
  }

  ghost predicate ReadsOldOrNew(c: Option<string>, oldMap: map<string, string>, newMap: map<string, string>) {
    c.Some? && (ReadsAs(c.value, oldMap) || ReadsAs(c.value, newMap))
  }

  // ----- One cycle -----

  datatype RefreshError = MintFailed | Rejected(error: Error) | WriteFailed

  class TokenRefresher {
    const staticEnv: map<string, string>
    const fs: FileSystem

    constructor (staticEnv: map<string, string>, fs: FileSystem)
      ensures this.staticEnv == staticEnv && this.fs == fs
    {
      this.staticEnv := staticEnv;
      this.fs := fs;
    }

    ghost function Env(token: string): map<string, string> {
      staticEnv[CM_GIT_TOKEN := token]
    }

    /** Nothing in token or credentials that the renderer refuses. */
    predicate Renders(token: string) {
      && CM_GIT_TOKEN !in staticEnv && IsTokenValid(token)
      && (forall k :: k in staticEnv ==> IsValidStaticSecret(staticEnv[k]))
    }

    /** It was made by StartTokenRefresher. */
    ghost predicate IsRunners() {
      exists config :: staticEnv == BuildStaticAuthEnv(config)
    }

    /** doOneRefresh.  `readable` says whether stat and read of the current file succeed, and
        `allowed` what a reader or a crash might have found before: the cycle adds the new
        rendering to that and nothing else, at no step on the way.  It reports a change, if the
        file could be read, exactly if the environment to deliver is another one than the file
        stands for; for the runner's own refresher and file, exactly if the token or the Claude
        credential is another one. */
    method DoOneRefresh(minted: Option<string>, readable: bool, calls: Calls, ghost allowed: set<Option<string>>)
      returns (changed: bool, err: Option<RefreshError>)
      requires Safe(fs.disk, allowed)
      modifies fs
      ensures err == Some(MintFailed) <==> minted == None
      ensures err.Some? && err.value.Rejected? <==> minted.Some? && !Renders(minted.value)
      ensures err == Some(WriteFailed) ==> !calls.Work()
      ensures minted.Some? && Renders(minted.value) && calls.Work() ==> err == None
      ensures changed ==> calls.Work()
      ensures err != None ==> !changed && fs.disk.Read(PATH) == old(fs.disk).Read(PATH)
      ensures err == None ==>
                && minted.Some? && fs.disk.Read(PATH).Some?
                && IsRendering(fs.disk.Read(PATH).value, Env(minted.value))
      ensures err == None && !changed ==> fs.disk == old(fs.disk) && fs.journal == old(fs.journal)
      ensures err == None && !(readable && old(fs.disk).Read(PATH).Some?) ==> changed
      ensures old(fs.journal) <= fs.journal
      ensures Safe(fs.disk, allowed + {fs.disk.Read(PATH)})
      ensures AllSafe(fs.journal[|old(fs.journal)|..], allowed + {fs.disk.Read(PATH)})
      ensures err == None && readable && old(fs.disk).Read(PATH).Some? && AllNames(Env(minted.value)) ==>
                forall m :: IsRendering(old(fs.disk).Read(PATH).value, m) && AllNames(m) ==>
                  (changed <==> m != Env(minted.value))
      ensures err == None && readable && old(fs.disk).Read(PATH).Some? && IsRunners() ==>
                forall config, token :: IsRendering(old(fs.disk).Read(PATH).value, AuthEnv(config, token)) ==>
                  (changed <==> token != minted.value || BuildStaticAuthEnv(config) != staticEnv)
    {
      ghost var file := fs.disk.Read(PATH);
      SafeGrows(fs.disk, allowed, allowed + {file});
      if minted.None? {
        return false, Some(MintFailed);
      }
      var rendered := RenderSecretsFile(minted.value, staticEnv);
      if rendered.Err? {
        return false, Some(Rejected(rendered.error));
      }
      var body := rendered.value;
      ChangeIsExact(file, body, Env(minted.value));
      if config :| staticEnv == BuildStaticAuthEnv(config) {
        AuthChangeIsExact(file, body, config, minted.value);
      }
      if readable {
        var existing := fs.disk.Read(PATH);
        if existing.Some? && |existing.value| == |body| {
          if existing.value == body {
            return false, None;
          }
        }
      }
      changed := Rewrite(body, calls, allowed);
      err := if changed then None else Some(WriteFailed);
    }

    method Rewrite(body: string, calls: Calls, ghost allowed: set<Option<string>>) returns (ok: bool)
      requires Safe(fs.disk, allowed)
      modifies fs
      ensures ok <==> calls.Work()
      ensures fs.disk.Read(PATH) == if ok then Some(body) else old(fs.disk).Read(PATH)
      ensures old(fs.journal) <= fs.journal
      ensures Safe(fs.disk, allowed + {fs.disk.Read(PATH)})
      ensures AllSafe(fs.journal[|old(fs.journal)|..], allowed + {fs.disk.Read(PATH)})
    {
      ok := fs.WriteSecretsFileAtomic(body, calls, allowed);
      ghost var steps, more := fs.journal[|old(fs.journal)|..], allowed + {fs.disk.Read(PATH)};
      if ok {
        assert steps[..|steps| - 1] == fs.journal[|old(fs.journal)|..|fs.journal| - 1];
        AllSafeGrows(steps[..|steps| - 1], allowed, more);
      } else {
        SafeGrows(fs.disk, allowed, more);
        AllSafeGrows(steps, allowed, more);
      }
    }
  }

  lemma AllSafeGrows(journal: seq<Disk>, allowed: set<Option<string>>, more: set<Option<string>>)
    requires AllSafe(journal, allowed) && allowed <= more
    ensures AllSafe(journal, more)
  {
    forall i | 0 <= i < |journal| ensures Safe(journal[i], more) {
      SafeGrows(journal[i], allowed, more);
    }
  }

  lemma ChangeIsExact(file: Option<string>, body: string, newMap: map<string, string>)
    requires IsRendering(body, newMap)
    ensures forall m :: file.Some? && IsRendering(file.value, m) && AllNames(m) && AllNames(newMap) ==>
              (file.value != body <==> m != newMap)
  {
    forall m | file.Some? && IsRendering(file.value, m) && AllNames(m) && AllNames(newMap)
      ensures file.value != body <==> m != newMap
    {
      SameBytesSameMap(file.value, m, body, newMap);
    }
  }

  lemma AuthChangeIsExact(file: Option<string>, body: string, config: AuthConfig, token: string)
    requires IsRendering(body, AuthEnv(config, token))
    ensures forall before, oldToken :: file.Some? && IsRendering(file.value, AuthEnv(before, oldToken)) ==>
              (file.value != body <==> oldToken != token || BuildStaticAuthEnv(before) != BuildStaticAuthEnv(config))
  {
    forall before, oldToken | file.Some? && IsRendering(file.value, AuthEnv(before, oldToken))
      ensures file.value != body <==> oldToken != token || BuildStaticAuthEnv(before) != BuildStaticAuthEnv(config)
    {
      SameAuthFile(file.value, before, oldToken, body, config, token);
    }
  }

  // ----- The runner's cycles and crashes -----

  ghost predicate IsAuthEnv(m: map<string, string>) {
    exists config, token :: m == AuthEnv(config, token)
  }

  /** What may be at the path are environments of the runner's. */
  ghost predicate RunnersFile(allowed: set<Option<string>>, known: set<map<string, string>>) {
    AllRendered(allowed, known) && forall m :: m in known ==> IsAuthEnv(m)
  }

  /** Then no state of a safe disk has anything else for a shell to read. */
  lemma RunnersFileReads(d: Disk, allowed: set<Option<string>>, known: set<map<string, string>>)
    requires Safe(d, allowed) && RunnersFile(allowed, known)
    ensures ReadsInFull(d, known, None in allowed)
  {
    forall m | m in known ensures AllNames(m) {
      var config, token :| m == AuthEnv(config, token);
      AuthEnvIsNamed(config, token);
    }
    SafeReads(d, allowed, known);
  }

  ghost predicate AllRead(journal: seq<Disk>, known: set<map<string, string>>, mayBeMissing: bool) {
    forall i :: 0 <= i < |journal| ==> ReadsInFull(journal[i], known, mayBeMissing)
  }

  lemma AllSafeRead(journal: seq<Disk>, allowed: set<Option<string>>, known: set<map<string, string>>)
    requires AllSafe(journal, allowed) && RunnersFile(allowed, known)
    ensures AllRead(journal, known, None in allowed)
  {
    forall i | 0 <= i < |journal| ensures ReadsInFull(journal[i], known, None in allowed) {
      RunnersFileReads(journal[i], allowed, known);
    }
  }

  function Minted(config: AuthConfig, token: Option<string>): set<map<string, string>> {
    if token.Some? then {AuthEnv(config, token.value)} else {}
  }

  /** One cycle of the refresher that StartTokenRefresher makes. */
  method OneCycle(fs: FileSystem, config: AuthConfig, token: Option<string>, readable: bool, calls: Calls,
                  ghost allowed: set<Option<string>>, ghost known: set<map<string, string>>)
    returns (ghost now: set<Option<string>>)
    requires Safe(fs.disk, allowed) && AllSafe(fs.journal, allowed) && RunnersFile(allowed, known)
    modifies fs
    ensures old(fs.journal) <= fs.journal
    ensures Safe(fs.disk, now) && AllSafe(fs.journal, now) && RunnersFile(now, known + Minted(config, token))
    ensures None in now <==> None in allowed
  {
    var refresher := new TokenRefresher(BuildStaticAuthEnv(config), fs);
    assert SafeDir(fs.disk, fs.disk.dir, allowed);
    var _, err := refresher.DoOneRefresh(token, readable, calls, allowed);
    now := allowed + {fs.disk.Read(PATH)};
    AllSafeGrows(old(fs.journal), allowed, now);
    assert fs.journal == old(fs.journal) + fs.journal[|old(fs.journal)|..];
    if err == None {
      assert IsAuthEnv(AuthEnv(config, token.value));
    }
  }

  /** A crash at some state from the start-th on, or none. */
  method MayCrash(fs: FileSystem, start: nat, ghost now: set<Option<string>>)
    requires Safe(fs.disk, now) && AllSafe(fs.journal, now)
    modifies fs
    ensures Safe(fs.disk, now) && AllSafe(fs.journal, now)
  {
    var crash: bool, k: nat := *, *;
    if crash && start <= k <= |fs.journal| {
      ghost var states := fs.journal + [fs.disk];
      assert AllSafe(states, now);
      assert Safe(states[k], now);
      fs.Crash(k);
      SafeMeans(states[k], now, fs.disk);
    }
  }

  /** Any number of cycles, minting whatever they mint under whatever configuration the runner was
      last started with, each cut short by a crash at any of its steps or not at all: in every
      state the disk goes through, a shell reads one of the environments there were before or one
      of those minted, in full. */
  method RefreshThroughCrashes(fs: FileSystem, cycles: nat, ghost allowed: set<Option<string>>,
                               ghost before: set<map<string, string>>)
    returns (ghost minted: set<map<string, string>>)
    requires fs.journal == [] && Safe(fs.disk, allowed) && RunnersFile(allowed, before)
    modifies fs
    ensures AllRead(fs.journal, before + minted, None in allowed)
    ensures ReadsInFull(fs.disk, before + minted, None in allowed)
  {
    ghost var now := allowed;
    minted := {};
    for n := 0 to cycles
      invariant Safe(fs.disk, now) && AllSafe(fs.journal, now) && RunnersFile(now, before + minted)
      invariant None in now <==> None in allowed
    {
      var config: AuthConfig, token: Option<string>, readable: bool, calls: Calls := *, *, *, *;
      var start := |fs.journal|;
      now := OneCycle(fs, config, token, readable, calls, now, before + minted);
      minted := minted + Minted(config, token);
      MayCrash(fs, start, now);
    }
    AllSafeRead(fs.journal, now, before + minted);
    RunnersFileReads(fs.disk, now, before + minted);
  }
}
