/** What a run does to the outside world, and how it ends. */
module Effects {
  import opened JsonValues

  /** The fatal conditions of a run. Each one ends the process with status 1. */
  datatype Error =
    | UnsupportedPlatform(platform: string)
    | ConfigNotFound(path: string)
    | BackupFailed(backupPath: string)
    | ReadFailed(path: string)
    /** The file parsed, but to something other than an object: assigning a
        string key to it raises an exception that nothing catches. */
    | NotAnObject(path: string)
    | WriteFailed(path: string)

  /** How a step (or the whole run) ends: go on, or stop with an error. */
  datatype Status = Ok | Fail(error: Error)

  /** One file-system operation, with whether it succeeded. */
  datatype Event =
    | IsFile(path: string, found: bool)
    | Copy(src: string, dst: string, ok: bool)
    | Read(path: string, ok: bool)
    | Write(path: string, content: Json, ok: bool)

  /** The process exit status: zero only when nothing failed. */
  function ExitCode(s: Status): (code: int)
    ensures code == 0 <==> s.Ok?
    ensures code == 0 || code == 1
  {
    match s
    case Ok => 0
    case Fail(_) => 1
  }

  /** No event of `trace` writes a file. */
  predicate NoWrite(trace: seq<Event>) {
    forall j :: 0 <= j < |trace| ==> !trace[j].Write?
  }

  /** No event of `trace` reads or writes a file. */
  predicate NoReadOrWrite(trace: seq<Event>) {
    forall j :: 0 <= j < |trace| ==> !trace[j].Read? && !trace[j].Write?
  }

  /** No event of `trace` copies a file. */
  predicate NoCopy(trace: seq<Event>) {
    forall j :: 0 <= j < |trace| ==> !trace[j].Copy?
  }

  /** Every read or write of a file comes after a successful copy of that same file. */
  predicate BackupFirst(trace: seq<Event>) {
    forall j :: 0 <= j < |trace| && (trace[j].Read? || trace[j].Write?) ==>
      exists i :: 0 <= i < j && trace[i].Copy? && trace[i].ok && trace[i].src == trace[j].path
  }

  /** Every write of a file comes after a successful read of that same file. */
  predicate ReadBeforeWrite(trace: seq<Event>) {
    forall j :: 0 <= j < |trace| && trace[j].Write? ==>
      exists i :: 0 <= i < j && trace[i] == Read(trace[j].path, true)
  }

  /** Nothing follows a failed operation. */
  predicate StopsAtFailure(trace: seq<Event>) {
    forall i :: 0 <= i < |trace| - 1 ==>
      match trace[i]
      case IsFile(_, found) => found
      case Copy(_, _, ok) => ok
      case Read(_, ok) => ok
      case Write(_, _, ok) => ok
  }

  /** The ordering guarantees of a run, together. */
  predicate SafeOrder(trace: seq<Event>) {
    BackupFirst(trace) && ReadBeforeWrite(trace) && StopsAtFailure(trace)
  }

  /** `trace` copies exactly once, as its second event, and that copy is `Copy(src, dst, ok)`. */
  predicate SingleCopy(trace: seq<Event>, src: string, dst: string, ok: bool) {
    && |trace| >= 2
    && trace[1] == Copy(src, dst, ok)
    && forall j :: 0 <= j < |trace| && j != 1 ==> !trace[j].Copy?
  }

  /** Every write in `trace` is `Write(path, content, ok)`. */
  predicate WritesAre(trace: seq<Event>, path: string, content: Json, ok: bool) {
    forall j :: 0 <= j < |trace| && trace[j].Write? ==> trace[j] == Write(path, content, ok)
  }

  /** Every way a run can end (at the existence check, at the copy, at the
      read, or after the write) keeps the ordering guarantees. */
  lemma EarlyTracesSafe(path: string, dst: string, copyOk: bool)
    ensures var t := [IsFile(path, false)];
      SafeOrder(t) && NoCopy(t) && NoWrite(t)
    ensures var t := [IsFile(path, true), Copy(path, dst, copyOk)];
      SafeOrder(t) && SingleCopy(t, path, dst, copyOk) && NoWrite(t)
  {
  }

  lemma ReadTraceSafe(path: string, dst: string, readOk: bool)
    ensures var t := [IsFile(path, true), Copy(path, dst, true), Read(path, readOk)];
      SafeOrder(t) && SingleCopy(t, path, dst, true) && NoWrite(t)
  {
    var t := [IsFile(path, true), Copy(path, dst, true), Read(path, readOk)];
    assert t[1].Copy? && t[1].ok && t[1].src == t[2].path;
  }

  lemma FullTraceSafe(path: string, dst: string, content: Json, writeOk: bool)
    ensures var t := [IsFile(path, true), Copy(path, dst, true), Read(path, true), Write(path, content, writeOk)];
      && SafeOrder(t) && SingleCopy(t, path, dst, true)
      && WritesAre(t, path, content, writeOk)
  {
    var t := [IsFile(path, true), Copy(path, dst, true), Read(path, true), Write(path, content, writeOk)];
    assert t[1].Copy? && t[1].ok && t[1].src == t[2].path && t[1].src == t[3].path;
    assert t[2] == Read(t[3].path, true);
  }
}
