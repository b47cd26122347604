# Safe Cursor config reset, modelled in Dafny

This project models the core of the Cursor config reset tool `safe_cursor_reset.py`.
The tool finds Cursor's `storage.json` for the current platform and checks that
it exists. It copies the file to a timestamped sibling
`<path>.backup_<YYYYMMDD_HHMMSS>`, then loads the JSON object and sets the four
telemetry identifiers (`telemetry.machineId`, `telemetry.macMachineId`,
`telemetry.devDeviceId`, `telemetry.sqmId`) to freshly generated values. Last,
it writes the object back. Any failure ends the run with exit status 1.

The model is split by concern:

- `json_values.dfy` (`JsonValues`): a JSON value type and `Option`.
- `effects.dfy` (`Effects`): the run's fatal errors and the Ok/Fail status.
  It also defines a trace of file-system events (existence check, copy, read,
  write, each with its outcome) and the ordering predicates stated over such
  traces.
- `path_resolver.dfy` (`PathResolver`): `get_config_path` as a pure function
  returning either a resolved path or the rejected platform name.
- `backup.dfy` (`Backup`): the clock reading as a record, the zero-padded
  `%Y%m%d_%H%M%S` stamp, and the backup path. It proves both round trips and
  proves that the backup path is injective.
- `config_mutator.dfy` (`ConfigMutator`): the telemetry keys, the
  key-to-identifier mapping, and the update loop as a method over a map. The
  loop is proved against the function `Assign`, and properties of the update
  (`Refresh`) are proved as lemmas.
- `entrypoint.dfy` (`Entrypoint`): `main`'s step ordering.
  - A `World` record supplies everything a run cannot decide for itself: the
    platform, the home and APPDATA directories, and the answer each
    file-system call will give.
  - The clock reading and the generated identifiers are part of `World` too.
  - `Run` is proved equal to the specification function `RunOutcome`, and the
    safety and status properties are lemmas about that function.

A file that parses as JSON but not to an object (a list, a number, `null`)
is its own failure case. `json.load` succeeds, and then `config_data[key] =
new_id` (safe_cursor_reset.py:56) raises a `TypeError` that nothing catches.
The process exits with status 1, after the backup and before any write. The
model keeps this as the error `NotAnObject`.

## Model

| member | source | states |
|---|---|---|
| `ConfigMutator.TelemetryKeysDistinct` | safe_cursor_reset.py:21-26 | The telemetry key list has four entries and no duplicates, so its set has four elements. |
| `ConfigMutator.ZipKeys` | safe_cursor_reset.py:30 | The dictionary built by key/value insertion has exactly the given keys. For distinct keys, each key maps to its own value. |
| `ConfigMutator.GenerateNewIds` | safe_cursor_reset.py:28-30 | The id mapping contains exactly the telemetry keys, and key `i` maps to the `i`-th supplied identifier. |
| `ConfigMutator.GenerateNewIdsKeys` | safe_cursor_reset.py:28-30 | The id mapping's key set is exactly the four telemetry keys. |
| `ConfigMutator.AssignSpec` | safe_cursor_reset.py:55-56 | Assigning a key sequence inserts or overwrites exactly those keys, each with `JString` of its new id. Every other entry is kept, and no key is removed. |
| `ConfigMutator.AssignZipped` | safe_cursor_reset.py:53-56 | Assigning from the mapping built over distinct keys gives key `i` value `i`. The key set becomes the old keys together with the assigned ones, and the rest is unchanged. |
| `ConfigMutator.AssignLastWins` | safe_cursor_reset.py:55-56 | Assigning the same keys twice equals assigning only the second values. |
| `ConfigMutator.AssignKeepsOthers` | safe_cursor_reset.py:55-56 | Outside the assigned keys, the map is unchanged. |
| `ConfigMutator.RefreshFields` | safe_cursor_reset.py:53-56 | After the update `Refresh` (the `Assign` of the four telemetry keys from `GenerateNewIds`), each telemetry key holds the identifier supplied for it and non-telemetry entries are unchanged. The key set is the input keys together with the four telemetry keys. |
| `ConfigMutator.RefreshLastWins` | safe_cursor_reset.py:53-56 | Of two successive updates, the second one's identifiers win completely. |
| `ConfigMutator.RefreshIdempotent` | safe_cursor_reset.py:53-56 | Updating twice with the same identifiers is the same as updating once. |
| `ConfigMutator.RefreshKeepsOtherFields` | safe_cursor_reset.py:53-56 | The update is the identity outside the telemetry keys, whatever the identifiers. |
| `ConfigMutator.AssignOrderFree` | safe_cursor_reset.py:55-56 | Assigning two key sequences with the same members gives the same map, so the order in which `new_ids.items()` yields its keys does not affect the result. |
| `ConfigMutator.SetFields` | safe_cursor_reset.py:55-56 | The `for key, new_id in new_ids.items()` loop computes exactly `Assign` over the keys in iteration order. |
| `ConfigMutator.UpdateConfigFile` | safe_cursor_reset.py:43-66 | If the read fails: `ReadFailed` and no write. If it parses to a non-object: `NotAnObject` and no write. If it parses to an object: one write of the updated object, with status Ok exactly when the write succeeds, else `WriteFailed`. |
| `Backup.Pad` | safe_cursor_reset.py:34 | A zero-padded field has exactly the requested width, only digits, and the number as its decimal value. |
| `Backup.Stamp` | safe_cursor_reset.py:34 | The timestamp rendering is 15 characters: digits with `_` at position 8. |
| `Backup.StampRoundTrip` | safe_cursor_reset.py:34 | Parsing the rendered stamp gives back the clock reading. |
| `Backup.StampExample` | safe_cursor_reset.py:34 | 2024-03-07 09:05:00 renders as `20240307_090500`. |
| `Backup.BackupPath` | safe_cursor_reset.py:35 | The backup path is longer than the config path by `.backup_` plus 15 characters. The config path is a strict prefix of it, followed by exactly `.backup_` and the stamp; the appended part has no separator, so the copy is a sibling distinct from the original. |
| `Backup.BackupPathRoundTrip` | safe_cursor_reset.py:34-35 | The original path and the clock reading can be recovered from the backup path. |
| `Backup.BackupPathInjective` | safe_cursor_reset.py:34-35 | Two backup paths are equal if and only if they are for the same file and the same second. |
| `Backup.BackupFile` | safe_cursor_reset.py:32-41 | The backup performs exactly one copy of the file to its backup path. Status is Ok when the copy succeeds, else `BackupFailed` naming the backup path. |
| `PathResolver.ConfigPath` | safe_cursor_reset.py:68-78 | A `win*` platform gives APPDATA's path. Otherwise `darwin` gives the macOS path and `linux*` the XDG config path. Any other name is rejected, carrying that name, and the result is Unsupported exactly then. |
| `PathResolver.DispatchTestsDisjoint` | safe_cursor_reset.py:70-74 | No platform name passes two of the three tests, so their order does not affect the result. |
| `PathResolver.ResolvedPathShape` | safe_cursor_reset.py:70-75 | Every resolved path ends in `/Cursor/User/globalStorage/storage.json`. It starts with APPDATA plus `/` on Windows and with the home directory plus `/` elsewhere. |
| `PathResolver.ConfigPathExamples` | safe_cursor_reset.py:68-78 | `win32`, `darwin` and `linux` resolve to their layouts. `cygwin`, `freebsd14` and `darwin2` are rejected. |
| `Effects.ExitCode` | safe_cursor_reset.py:80-88 | The exit status is 0 exactly when the run ended Ok, and 1 otherwise. |
| `Effects.EarlyTracesSafe` | safe_cursor_reset.py:82-87 | Traces that stop at the existence check or the copy are safely ordered and never write. The copy, when there is one, is the second event and the only copy. |
| `Effects.ReadTraceSafe` | safe_cursor_reset.py:82-88 | A trace ending at the read is safely ordered, because the read follows a successful copy of the same file. It never writes. |
| `Effects.FullTraceSafe` | safe_cursor_reset.py:82-88 | The full four-step trace is safely ordered: the single copy precedes the read and write of the same file, and the write follows a successful read. |
| `Entrypoint.ProcessConfig` | safe_cursor_reset.py:82-88 | The existence check, backup and update give exactly the status and event trace that `ProcessOutcome` specifies. |
| `Entrypoint.Run` | safe_cursor_reset.py:80-88 | The whole run gives exactly the status and trace that `RunOutcome` specifies. |
| `Entrypoint.ProcessStatus` | safe_cursor_reset.py:82-88 | Processing ends Ok if and only if the file exists, the copy succeeds, the file parses to an object and the write succeeds. Otherwise the error names the first step that failed: `ConfigNotFound`, `BackupFailed`, `ReadFailed`, `NotAnObject` or `WriteFailed`. |
| `Entrypoint.ProcessSafe` | safe_cursor_reset.py:82-88 | Processing starts with the existence check, and a missing file is neither copied nor written. An existing file is copied exactly once, as the second event, to `BackupPath(path, now)`, and every copy is that one. Every read or write comes after a successful copy of the file, and a failed step is the last event. After a failed copy nothing is read or written. After a successful copy the file is read, as the third event. Nothing is written unless the file parsed to an object; when it did, the fourth and last event writes the refreshed object to the config path. |
| `Entrypoint.RunSafe` | safe_cursor_reset.py:80-88 | The whole run is Ok exactly when the platform is supported and every step succeeds. An unsupported platform fails with its name and touches no file. For a resolved path, the existence check comes first, an existing file is copied exactly once, as the second event, to `BackupPath(path, now)`, a successful copy is followed by the read, and an object is then written back refreshed, as the fourth and last event. Every read or write follows a successful copy, a failed step is the last event, and nothing is written unless the file parsed to an object. |

## Left out

- File-system calls, JSON parsing and serialising (including `indent=4` and key
  order), and the clock are not performed. Their outcomes are the fields of
  `World`: `isFile`, `copySucceeds`, `parsed`, `writeSucceeds` and `now`.
- `shutil.copy2` copying file metadata is not modelled. A copy is one event
  that either succeeds or fails.
- `uuid.uuid4` randomness is not modelled. The identifiers are supplied as a
  parameter, so nothing is claimed about their format or their distinctness.
- `print` and `sys.exit` are not modelled as such. The log lines are not
  modelled, and `sys.exit(1)` becomes a `Fail` status whose process exit code
  is `Effects.ExitCode`.
- `os.path.join` and `os.path.expanduser` are modelled as concatenation with
  `/`. Windows' `\` separator is not modelled. Library edge cases are not
  modelled either, for example:
  - `posixpath.expanduser` strips a trailing `/` from the home directory, while
    the model then gives a doubled `//`.
  - For an empty APPDATA, `ntpath.join("", "Cursor", ...)` gives `Cursor\...`
    with no leading separator, while the model gives `/Cursor/...`.
  - `ntpath.join` adds no separator after an APPDATA that already ends in `\`
    or `/`, and gives `C:Cursor\...` for a bare drive `C:`.
  - The case where `~` cannot be expanded.
- A missing `APPDATA` variable is not modelled. On Windows, `os.getenv`
  returns `None` and `os.path.join` raises; here `appData` is always a string.
- Backup.Stamp: the year is always padded to four digits. The platform's
  `strftime("%Y")` may not pad years below 1000.
- UpdateConfigFile: a failed write is one failed event. Whether a partly
  written file is left behind after `open(..., "w")` truncates it is not
  modelled.
- Two runs within the same second on the same file produce the same backup
  path, and the later copy replaces the earlier one. `Backup.BackupPathInjective`
  states exactly when this happens; the model does not track the files'
  contents across runs.
- The iteration order of `new_ids.items()` is taken to be the insertion order
  of `TELEMETRY_KEYS`, as for Python 3.7+ dictionaries.
  `ConfigMutator.AssignOrderFree` shows that any other order gives the same
  result.
