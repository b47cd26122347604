/** The run as a whole: resolve the path, check the file exists, back it up,
    then update it, stopping at the first failure. */
module Entrypoint {
  import opened JsonValues
  import opened Effects
  import opened PathResolver
  import opened Backup
  import opened ConfigMutator

  /** Everything a run depends on but cannot decide for itself: the platform
      and environment, the answers the file system will give, the clock and
      the generated identifiers. */
  datatype World = World(
    platform: string,
    home: string,
    appData: string,
    isFile: bool,
    copySucceeds: bool,
    parsed: Option<Json>,
    writeSucceeds: bool,
    now: Timestamp,
    ids: seq<string>)

  /** What a clock and the identifier generator can produce. */
  predicate ValidWorld(w: World) {
    ValidTimestamp(w.now) && |w.ids| == |TelemetryKeys|
  }

  /** The parsed file is a JSON object. */
  predicate ParsedObject(w: World) {
    w.parsed.Some? && w.parsed.value.JObject?
  }

  /** How processing the file at `path` ends and what it does on the way:
      the existence check, then the copy, then the read, then the write,
      stopping at the first failure. */
  function ProcessOutcome(path: string, w: World): (Status, seq<Event>)
    requires ValidWorld(w)
  {
    var backupPath := BackupPath(path, w.now);
    if !w.isFile then
      (Fail(ConfigNotFound(path)), [IsFile(path, false)])
    else if !w.copySucceeds then
      (Fail(BackupFailed(backupPath)), [IsFile(path, true), Copy(path, backupPath, false)])
    else if w.parsed.None? then
      (Fail(ReadFailed(path)), [IsFile(path, true), Copy(path, backupPath, true), Read(path, false)])
    else if !w.parsed.value.JObject? then
      (Fail(NotAnObject(path)), [IsFile(path, true), Copy(path, backupPath, true), Read(path, true)])
    else
      var content := JObject(Refresh(w.parsed.value.fields, w.ids));
      (if w.writeSucceeds then Ok else Fail(WriteFailed(path)),
       [IsFile(path, true), Copy(path, backupPath, true), Read(path, true), Write(path, content, w.writeSucceeds)])
  }

  /** How a whole run ends and what it does. */
  function RunOutcome(w: World): (Status, seq<Event>)
    requires ValidWorld(w)
  {
    match ConfigPath(w.platform, w.home, w.appData)
    case Unsupported(platform) => (Fail(UnsupportedPlatform(platform)), [])
    case Resolved(path) => ProcessOutcome(path, w)
  }

  /** The existence check, the backup and the update of the file at `path`. */
  method ProcessConfig(path: string, w: World) returns (status: Status, trace: seq<Event>)
    requires ValidWorld(w)
    ensures (status, trace) == ProcessOutcome(path, w)
  {
    var expected := ProcessOutcome(path, w);
    trace := [IsFile(path, w.isFile)];
    if !w.isFile {
      status := Fail(ConfigNotFound(path));
      return;
    }
    var backupTrace;
    status, backupTrace := BackupFile(path, w.now, w.copySucceeds);
    trace := trace + backupTrace;
    var backupPath := BackupPath(path, w.now);
    if status.Fail? {
      assert trace == [IsFile(path, true), Copy(path, backupPath, false)];
      return;
    }
    var updateTrace;
    status, updateTrace := UpdateConfigFile(path, w.parsed, w.ids, w.writeSucceeds);
    assert trace == [IsFile(path, true), Copy(path, backupPath, true)];
    trace := trace + updateTrace;
    if w.parsed.None? {
      assert expected == (Fail(ReadFailed(path)), [IsFile(path, true), Copy(path, backupPath, true), Read(path, false)]);
      assert trace == expected.1;
    } else if !w.parsed.value.JObject? {
      assert expected == (Fail(NotAnObject(path)), [IsFile(path, true), Copy(path, backupPath, true), Read(path, true)]);
      assert trace == expected.1;
    } else {
      var content := JObject(Refresh(w.parsed.value.fields, w.ids));
      assert expected.1 == [IsFile(path, true), Copy(path, backupPath, true), Read(path, true), Write(path, content, w.writeSucceeds)];
      assert trace == expected.1;
    }
  }

  /** The whole run: resolve the path, then process the file there. */
  method Run(w: World) returns (status: Status, trace: seq<Event>)
    requires ValidWorld(w)
    ensures (status, trace) == RunOutcome(w)
  {
    var resolved := ConfigPath(w.platform, w.home, w.appData);
    if resolved.Unsupported? {
      status, trace := Fail(UnsupportedPlatform(w.platform)), [];
      return;
    }
    status, trace := ProcessConfig(resolved.path, w);
  }

  /** Processing succeeds exactly when every step does; otherwise the status
      names the first step that failed. */
  lemma ProcessStatus(path: string, w: World)
    requires ValidWorld(w)
    ensures var status := ProcessOutcome(path, w).0;
      && (status == Ok <==> w.isFile && w.copySucceeds && ParsedObject(w) && w.writeSucceeds)
      && (!w.isFile ==> status == Fail(ConfigNotFound(path)))
      && (w.isFile && !w.copySucceeds ==> status == Fail(BackupFailed(BackupPath(path, w.now))))
      && (w.isFile && w.copySucceeds && w.parsed.None? ==> status == Fail(ReadFailed(path)))
      && (w.isFile && w.copySucceeds && w.parsed.Some? && !w.parsed.value.JObject? ==> status == Fail(NotAnObject(path)))
      && (w.isFile && w.copySucceeds && ParsedObject(w) && !w.writeSucceeds ==> status == Fail(WriteFailed(path)))
  {
  }

  /** The safety guarantees of processing: the existence check comes first; a
      missing file is neither copied nor written; an existing one is copied
      exactly once, to the timestamped sibling, before any read or write, and a
      failed copy stops the run; after a successful copy the file is read;
      nothing is written unless the read produced an object, and then the
      refreshed object is written, as the last step. */
  lemma ProcessSafe(path: string, w: World)
    requires ValidWorld(w)
    ensures var trace := ProcessOutcome(path, w).1;
      && |trace| > 0 && trace[0] == IsFile(path, w.isFile)
      && (!w.isFile ==> NoCopy(trace) && NoWrite(trace))
      && SafeOrder(trace)
      && (!w.copySucceeds ==> NoReadOrWrite(trace))
      && (!ParsedObject(w) ==> NoWrite(trace))
      && (w.isFile ==> SingleCopy(trace, path, BackupPath(path, w.now), w.copySucceeds))
      && (w.isFile && w.copySucceeds ==> |trace| >= 3 && trace[2] == Read(path, w.parsed.Some?))
      && (w.isFile && w.copySucceeds && ParsedObject(w) ==>
            |trace| == 4 && trace[3] == Write(path, JObject(Refresh(w.parsed.value.fields, w.ids)), w.writeSucceeds))
      && (ParsedObject(w) ==> WritesAre(trace, path, JObject(Refresh(w.parsed.value.fields, w.ids)), w.writeSucceeds))
  {
    var backupPath := BackupPath(path, w.now);
    if !w.isFile || !w.copySucceeds {
      EarlyTracesSafe(path, backupPath, w.copySucceeds);
    } else if !ParsedObject(w) {
      ReadTraceSafe(path, backupPath, w.parsed.Some?);
    } else {
      FullTraceSafe(path, backupPath, JObject(Refresh(w.parsed.value.fields, w.ids)), w.writeSucceeds);
    }
  }

  /** The same guarantees for the whole run; an unsupported platform touches no file. */
  lemma RunSafe(w: World)
    requires ValidWorld(w)
    ensures var (status, trace) := RunOutcome(w);
      && (status == Ok <==>
            ConfigPath(w.platform, w.home, w.appData).Resolved? && w.isFile && w.copySucceeds && ParsedObject(w) && w.writeSucceeds)
      && (ConfigPath(w.platform, w.home, w.appData).Unsupported? ==>
            status == Fail(UnsupportedPlatform(w.platform)) && trace == [])
      && (!w.isFile ==> NoCopy(trace) && NoWrite(trace))
      && SafeOrder(trace)
      && (!w.copySucceeds ==> NoReadOrWrite(trace))
      && (!ParsedObject(w) ==> NoWrite(trace))
      && (ConfigPath(w.platform, w.home, w.appData).Resolved? ==>
            var path := ConfigPath(w.platform, w.home, w.appData).path;
            && |trace| > 0 && trace[0] == IsFile(path, w.isFile)
            && (w.isFile ==> SingleCopy(trace, path, BackupPath(path, w.now), w.copySucceeds))
            && (w.isFile && w.copySucceeds ==> |trace| >= 3 && trace[2] == Read(path, w.parsed.Some?))
            && (w.isFile && w.copySucceeds && ParsedObject(w) ==>
                  |trace| == 4 && trace[3] == Write(path, JObject(Refresh(w.parsed.value.fields, w.ids)), w.writeSucceeds))
            && (ParsedObject(w) ==> WritesAre(trace, path, JObject(Refresh(w.parsed.value.fields, w.ids)), w.writeSucceeds)))
  {
    match ConfigPath(w.platform, w.home, w.appData)
    case Unsupported(_) =>
    case Resolved(path) =>
      ProcessStatus(path, w);
      ProcessSafe(path, w);
  }
}
