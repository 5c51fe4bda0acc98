/** The entry point (`main.py`): check the configuration, build the notifier and the watcher, run the
    workflow once and turn its result into the process's exit code. */
module Cli {
  import opened Wrappers
  import opened Models
  import opened Notifiers
  import opened Watcher

  /** The fields `validate_config` requires, in the order it checks them. */
  const REQUIRED_FIELDS: seq<string> := ["username", "password"]

  /** The data file used when the configuration names none. */
  const DEFAULT_DATA_FILE: string := "course_data.json"

  /** `config.get(field)` is truthy. */
  predicate HasField(config: Config, field: string) {
    Truthy(Get(config, field, Null))
  }

  /** `validate_config`: true iff every required field is present and truthy. When it fails, `missing` is the
      first failing field in checking order, the one the message names. */
  method ValidateConfig(config: Config) returns (ok: bool, missing: Option<string>)
    ensures ok <==> HasField(config, "username") && HasField(config, "password")
    ensures ok <==> missing.None?
    ensures !ok ==> missing == Some(if !HasField(config, "username") then "username" else "password")
  {
    for i := 0 to |REQUIRED_FIELDS|
      invariant forall j | 0 <= j < i :: HasField(config, REQUIRED_FIELDS[j])
    {
      if !HasField(config, REQUIRED_FIELDS[i]) {
        assert i == 1 ==> HasField(config, REQUIRED_FIELDS[0]);
        return false, Some(REQUIRED_FIELDS[i]);
      }
    }
    assert HasField(config, REQUIRED_FIELDS[0]) && HasField(config, REQUIRED_FIELDS[1]);
    return true, None;
  }

  /** `config.get("data_file", "course_data.json")` as a path; `None` when the value is not text and building
      the path raises. */
  function DataFileName(config: Config): (r: Option<string>)
    ensures "data_file" !in config ==> r == Some(DEFAULT_DATA_FILE)
    ensures "data_file" in config ==> (r.Some? <==> config["data_file"].Str?)
    ensures "data_file" in config && config["data_file"].Str? ==> r == Some(config["data_file"].s)
  {
    match Get(config, "data_file", Str(DEFAULT_DATA_FILE))
    case Str(s) => Some(s)
    case _ => None
  }

  /** How the `try` around `run_full_workflow` ends: with its result, by an interrupt, or by another exception. */
  datatype RunEnd = Finished(success: bool) | Interrupted | Crashed

  /** The exit code `main` passes to `sys.exit`. */
  function ExitCode(e: RunEnd): int {
    match e
    case Finished(success) => if success then 0 else 1
    case Interrupted => 1
    case Crashed => 1
  }

  lemma ExitCodeMeaning(e: RunEnd)
    ensures ExitCode(e) == 0 <==> e == Finished(true)
    ensures ExitCode(e) != 0 ==> ExitCode(e) == 1
  {}

  /** Everything `main` needs before the workflow starts: a valid configuration, a notifier factory that does
      not raise and a data file name. */
  predicate CanStart(config: Config) {
    && HasField(config, "username") && HasField(config, "password")
    && CreateNotifierFromConfig(config).Success?
    && DataFileName(config).Some?
  }

  /** `main` after `load_config`, with the login's result, the fetch and the write given: exit code 0 iff the
      configuration lets the run start and the workflow, from an empty store, succeeds; a run that cannot
      start leaves the disk untouched. */
  method RunMain(config: Config, disk: Disk, loginOk: bool, fetch: FetchOutcome, write: WriteOutcome)
    returns (code: int, after: Disk)
    ensures code == 0 || code == 1
    ensures !CanStart(config) ==> code == 1 && after == disk
    ensures CanStart(config) ==>
              var r := RunWorkflow(EMPTY, disk, CreateNotifierFromConfig(config).value.Some?, loginOk, fetch, write);
              (code == 0 <==> r.ok) && after == r.disk
  {
    var valid, _ := ValidateConfig(config);
    if !valid {
      return 1, disk;
    }
    var notifier := CreateNotifierFromConfig(config);
    if notifier.Failure? {
      // The factory is called outside the `try`: its exception ends the process with status 1.
      return 1, disk;
    }
    var dataFile := DataFileName(config);
    if dataFile.None? {
      return 1, disk;
    }
    var watcher := new GradeWatcher(config["username"], config["password"], notifier.value, dataFile.value);
    var success;
    success, after := watcher.RunFullWorkflow(disk, loginOk, fetch, write);
    ExitCodeMeaning(Finished(success));
    code := ExitCode(Finished(success));
  }
}
