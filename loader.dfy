/** The loader itself: one pass over the data directory, each batch resolved against its spec file, decoded,
    handed to the database and moved to where its outcome says. */
module Loader {
  import opened Base
  import opened PyText
  import opened Files
  import opened Schema
  import opened Records
  import opened Batches

  /** The loader asks the database to create the table when it does not exist yet. */
  const CreateTable: bool := true
  const DataExtension: string := ".txt"
  const SpecExtension: string := ".csv"

  const ProcessedMessage: string := "Moving successfully processed data files:"
  const DataHoldMessage: string := "Moving unprocessed data files for review:"
  const SpecHoldMessage: string := "Moving incorrectly formatted spec file for review:"
  const HeaderErrorMessage: string := "Spec file error: incorrect format headers: "

  /** The arguments of one call to `_load_data_into_db`. */
  datatype LoadRequest = LoadRequest(table: string, columns: seq<Field>, rows: seq<Row>, schema: SpecSchema, createTable: bool)

  /** The list `[boolean result of insert, message]` the database step returns. */
  datatype LoadReply = LoadReply(ok: bool, message: string)

  /** The database: its answer to a request, given the requests made before it. */
  type Storage = (seq<LoadRequest>, LoadRequest) -> LoadReply

  /** Everything a pass can change: the directories, `log_message`, and the requests made to the database. */
  datatype State = State(fs: FileSystem, log: seq<string>, loads: seq<LoadRequest>)

  /** The state after a step, and what it returned or the exception that ended it. */
  datatype Effect<T> = Effect(st: State, result: Result<T, Error>)

  function Logged(st: State, line: string): State {
    st.(log := st.log + [line])
  }

  /** A move: its heading message, the directory it takes files from and the one it puts them in. */
  datatype Move = Move(message: string, src: string, dst: string)

  /** The three actions `_move_files` knows; any other is ignored. */
  function ActionFor(action: string): Option<Move> {
    if action == "data_processed" then Some(Move(ProcessedMessage, DataDir, DataProcessedDir))
    else if action == "data_hold" then Some(Move(DataHoldMessage, DataDir, DataHoldDir))
    else if action == "spec_hold" then Some(Move(SpecHoldMessage, SpecDir, SpecHoldDir))
    else None
  }

  /** `_move_files(files, action)`. */
  function MoveFilesSpec(st: State, files: seq<string>, action: string): Effect<()> {
    match ActionFor(action)
    case None => Effect(st, Success(()))
    case Some(m) =>
      var t := MoveAll(st.fs, m.src, m.dst, files);
      Effect(State(t.fs, st.log + [m.message] + t.log, st.loads), if t.error.Some? then Failure(t.error.value) else Success(()))
  }

  function SpecPath(spec: string): string {
    PathOf(SpecDir, spec + SpecExtension)
  }

  /** The schema a spec file with the expected header gives: one entry per row in each of the three lists. */
  function SchemaFor(st: State, spec: string): (s: SpecSchema)
    requires IsFile(st.fs, SpecDir, spec + SpecExtension)
    ensures s.WellShaped()
  {
    var rows := SpecRows(st.fs[SpecDir][spec + SpecExtension]);
    SchemaShape(rows);
    SchemaOf(rows)
  }

  /** `_process_spec_file(spec, data_files)`: the schema, or None where the source returns False. */
  function ResolveSpec(st: State, spec: string, files: seq<string>): (e: Effect<Option<SpecSchema>>)
    ensures e.result.Success? && e.result.value.Some? ==> e.result.value.value.WellShaped()
  {
    var st1 := Logged(st, "\nProcessing spec file: " + SpecPath(spec));
    match Lookup(st.fs, SpecDir, spec + SpecExtension)
    case None =>
      var m := MoveFilesSpec(Logged(st1, "No spec file found: " + SpecPath(spec)), files, "data_hold");
      Effect(m.st, if m.result.Failure? then Failure(m.result.error) else Success(None))
    case Some(f) =>
      if HeaderLine(f) != SpecHeader then
        var m1 := MoveFilesSpec(Logged(st1, HeaderErrorMessage), [spec + SpecExtension], "spec_hold");
        if m1.result.Failure? then Effect(m1.st, Failure(m1.result.error))
        else
          var m2 := MoveFilesSpec(m1.st, files, "data_hold");
          Effect(m2.st, if m2.result.Failure? then Failure(m2.result.error) else Success(None))
      else Effect(st1, Success(Some(SchemaFor(st, spec))))
  }

  /** `_process_data_files(spec_schema, data_files)`: the rows, and the log lines decoding added. */
  function DecodeDataSpec(st: State, schema: SpecSchema, files: seq<string>): Effect<seq<Row>>
    requires schema.WellShaped()
  {
    var d := DecodeData(st.fs, schema, files);
    Effect(st.(log := st.log + d.log), d.result)
  }

  /** `_process_files(spec, data_files)`: resolve, decode, load, and move the batch on a successful load. */
  function ProcessFilesSpec(storage: Storage, st: State, spec: string, files: seq<string>): Effect<()> {
    var s := ResolveSpec(st, spec, files);
    if s.result.Failure? then Effect(s.st, Failure(s.result.error))
    else if s.result.value.None? then Effect(s.st, Success(()))
    else
      var schema := s.result.value.value;
      var d := DecodeDataSpec(s.st, schema, files);
      if d.result.Failure? then Effect(d.st, Failure(d.result.error))
      else
        var request := LoadRequest(spec, schema.names, d.result.value, schema, CreateTable);
        var reply := storage(d.st.loads, request);
        var st3 := State(d.st.fs, d.st.log + [reply.message], d.st.loads + [request]);
        if reply.ok then MoveFilesSpec(st3, files, "data_processed") else Effect(st3, Success(()))
  }

  /** What handling one batch does to the state. */
  type BatchStep = (State, string, seq<string>) -> Effect<()>

  /** `_process_files` against the given database, as a step of the pass. */
  function ProcessBatch(storage: Storage): BatchStep {
    (st: State, spec: string, files: seq<string>) => ProcessFilesSpec(storage, st, spec, files)
  }

  /** `process` handles a batch exactly as `_process_files` against `storage` does. */
  ghost predicate StepOf(storage: Storage, process: BatchStep) {
    forall st: State, spec: string, names: seq<string> {:trigger ProcessFilesSpec(storage, st, spec, names)} ::
      process(st, spec, names) == ProcessFilesSpec(storage, st, spec, names)
  }

  /** The first `k` batches of `files`, in the dict's key order, each handled by `process`, until one raises. */
  function GroupsUpTo(process: BatchStep, st: State, files: seq<string>, k: nat): Effect<()>
    requires AllSplit(files) && k <= |KeyOrder(files)|
    decreases k
  {
    if k == 0 then Effect(st, Success(()))
    else
      var prev := GroupsUpTo(process, st, files, k - 1);
      if prev.result.Failure? then prev
      else
        var key := KeyOrder(files)[k - 1];
        process(prev.st, key, Members(files, key))
  }

  /** Once a batch raises, the pass ends: the later batches change nothing. */
  lemma {:induction false} GroupsAbort(process: BatchStep, st: State, files: seq<string>, k: nat, n: nat)
    requires AllSplit(files) && k <= n <= |KeyOrder(files)|
    requires GroupsUpTo(process, st, files, k).result.Failure?
    ensures GroupsUpTo(process, st, files, n) == GroupsUpTo(process, st, files, k)
    decreases n - k
  {
    if n > k {
      GroupsAbort(process, st, files, k, n - 1);
    }
  }

  /** One turn of the batch loop: running batch `i` on the state the first `i` batches left extends the pass by
      that batch, and a batch that raises is where the pass ends. */
  lemma GroupsStep(process: BatchStep, st0: State, files: seq<string>, grouped: Grouping, i: nat, st: State, e: Effect<()>)
    requires AllSplit(files) && GroupsOf(grouped, files) && i < |grouped.keys|
    requires GroupsUpTo(process, st0, files, i) == Effect(st, Success(()))
    requires e == process(st, grouped.keys[i], grouped.groups[grouped.keys[i]])
    ensures GroupsUpTo(process, st0, files, i + 1) == e
    ensures e.result.Failure? ==> GroupsUpTo(process, st0, files, |KeyOrder(files)|) == e
  {
    assert grouped.keys[i] in grouped.groups;
    if e.result.Failure? {
      GroupsAbort(process, st0, files, i + 1, |KeyOrder(files)|);
    }
  }

  /** The data files of a pass: the sorted listing of the data directory, those ending in `.txt`. */
  ghost function DataFiles(fs: FileSystem): seq<string>
    requires DataDir in fs
  {
    WithExtension(SortedSeq(fs[DataDir].Keys), DataExtension)
  }

  /** One pass of `__call__`, begun at `begun` and ending at `now`. */
  ghost function RunSpec(storage: Storage, st: State, begun: string, now: string): Effect<()> {
    if DataDir !in st.fs then Effect(st, Failure(FileNotFound(DataDir)))
    else
      var files := DataFiles(st.fs);
      if files == [] then Effect(Logged(st, begun + " No data files to process"), Success(()))
      else
        var st1 := Logged(st, begun + " Begin processing data files");
        if !AllSplit(files) then Effect(st1, Failure(NotEnoughValues(files[FirstUnsplit(files)])))
        else
          var e := GroupsUpTo(ProcessBatch(storage), st1, files, |KeyOrder(files)|);
          if e.result.Failure? then e else Effect(Logged(e.st, "\n" + now + " Exiting"), Success(()))
  }

  /** `_move_files` with an unknown action changes nothing; with a known one it logs the heading and then one
      line per file, relocates exactly the listed files (replacing same-named files in the target), and makes no
      database request. */
  lemma MoveFilesEffect(st: State, files: seq<string>, action: string)
    requires ActionFor(action).Some? ==> Movable(st.fs, ActionFor(action).value.src, ActionFor(action).value.dst, files)
    ensures ActionFor(action).None? ==> MoveFilesSpec(st, files, action) == Effect(st, Success(()))
    ensures ActionFor(action).Some? ==>
      var m, e := ActionFor(action).value, MoveFilesSpec(st, files, action);
      && e.result == Success(()) && e.st.loads == st.loads
      && Relocated(st.fs, m.src, m.dst, files, e.st.fs)
      && |e.st.log| == |st.log| + 1 + |files| && e.st.log[..|st.log| + 1] == st.log + [m.message]
      && forall i :: 0 <= i < |files| ==> e.st.log[|st.log| + 1 + i] == MovedLine(m.dst, files[i])
  {
    if ActionFor(action).Some? {
      var m := ActionFor(action).value;
      MoveAllEffect(st.fs, m.src, m.dst, files);
      var t := MoveAll(st.fs, m.src, m.dst, files);
      var log := st.log + [m.message] + t.log;
      assert log[..|st.log| + 1] == st.log + [m.message];
      assert forall i :: 0 <= i < |files| ==> log[|st.log| + 1 + i] == t.log[i];
    }
  }

  /** No spec file: the resolver logs the spec path and that it is missing, the batch's data files all go to
      `data/hold` (one log line each, after the heading), it returns False, and nothing is decoded or loaded. */
  lemma MissingSpecHoldsData(storage: Storage, st: State, spec: string, files: seq<string>)
    requires !IsFile(st.fs, SpecDir, spec + SpecExtension) && Movable(st.fs, DataDir, DataHoldDir, files)
    ensures var r, n := ResolveSpec(st, spec, files), |st.log|;
      && r.result == Success(None) && r.st.loads == st.loads && Relocated(st.fs, DataDir, DataHoldDir, files, r.st.fs)
      && |r.st.log| == n + 3 + |files|
      && r.st.log[..n + 3] == st.log + ["\nProcessing spec file: " + SpecPath(spec), "No spec file found: " + SpecPath(spec), DataHoldMessage]
      && forall i :: 0 <= i < |files| ==> r.st.log[n + 3 + i] == MovedLine(DataHoldDir, files[i])
    ensures ProcessFilesSpec(storage, st, spec, files) == Effect(ResolveSpec(st, spec, files).st, Success(()))
  {
    var st1 := Logged(Logged(st, "\nProcessing spec file: " + SpecPath(spec)), "No spec file found: " + SpecPath(spec));
    MoveFilesEffect(st1, files, "data_hold");
  }

  /** A spec file whose first line is not the expected header goes to `specs/hold`, the batch's data files go
      to `data/hold`, every other file stays where it was, the resolver returns False, and nothing is decoded
      or loaded. */
  lemma HeaderMismatchHolds(storage: Storage, st: State, spec: string, files: seq<string>)
    requires IsFile(st.fs, SpecDir, spec + SpecExtension) && HeaderLine(st.fs[SpecDir][spec + SpecExtension]) != SpecHeader
    requires SpecHoldDir in st.fs && Movable(st.fs, DataDir, DataHoldDir, files)
    ensures var r, name := ResolveSpec(st, spec, files), spec + SpecExtension;
      && r.result == Success(None) && r.st.loads == st.loads
      && r.st.fs.Keys == st.fs.Keys
      && forall d, n :: Lookup(r.st.fs, d, n) ==
           if d == DataHoldDir && n in files then Lookup(st.fs, DataDir, n)
           else if d == DataDir && n in files then None
           else if d == SpecHoldDir && n in [name] then Lookup(st.fs, SpecDir, n)
           else if d == SpecDir && n in [name] then None
           else Lookup(st.fs, d, n)
    ensures var r, k := ResolveSpec(st, spec, files), |st.log|;
      && |r.st.log| == k + 5 + |files|
      && r.st.log[..k + 5] == st.log + ["\nProcessing spec file: " + SpecPath(spec), HeaderErrorMessage,
                                         SpecHoldMessage, MovedLine(SpecHoldDir, spec + SpecExtension), DataHoldMessage]
      && forall i :: 0 <= i < |files| ==> r.st.log[k + 5 + i] == MovedLine(DataHoldDir, files[i])
    ensures ProcessFilesSpec(storage, st, spec, files) == Effect(ResolveSpec(st, spec, files).st, Success(()))
  {
    var name := spec + SpecExtension;
    var st1 := Logged(Logged(st, "\nProcessing spec file: " + SpecPath(spec)), HeaderErrorMessage);
    HeaderMismatchMoves(st1, name, files);
    var m1 := MoveFilesSpec(st1, [name], "spec_hold");
    var log := MoveFilesSpec(m1.st, files, "data_hold").st.log;
    RelocatedThen(st.fs, SpecDir, SpecHoldDir, [name], m1.st.fs, DataDir, DataHoldDir, files, MoveFilesSpec(m1.st, files, "data_hold").st.fs);
    assert log[..|st.log| + 5] == st1.log + log[|st1.log|..|st1.log| + 3] by {
      assert log[..|st1.log|] == st1.log;
    }
  }

  /** The two moves of a rejected spec succeed one after the other, leave the requests alone, and log the spec
      file's heading and line, then the data files' heading and one line for each. */
  lemma HeaderMismatchMoves(st: State, name: string, files: seq<string>)
    requires IsFile(st.fs, SpecDir, name) && SpecHoldDir in st.fs && Movable(st.fs, DataDir, DataHoldDir, files)
    ensures var m1 := MoveFilesSpec(st, [name], "spec_hold");
      var m2, n := MoveFilesSpec(m1.st, files, "data_hold"), |st.log|;
      && m1.result == Success(()) && m2.result == Success(()) && m2.st.loads == st.loads
      && Relocated(st.fs, SpecDir, SpecHoldDir, [name], m1.st.fs)
      && Relocated(m1.st.fs, DataDir, DataHoldDir, files, m2.st.fs)
      && |m2.st.log| == n + 3 + |files|
      && m2.st.log[..n + 3] == st.log + [SpecHoldMessage, MovedLine(SpecHoldDir, name), DataHoldMessage]
      && forall i :: 0 <= i < |files| ==> m2.st.log[n + 3 + i] == MovedLine(DataHoldDir, files[i])
  {
    assert Movable(st.fs, SpecDir, SpecHoldDir, [name]);
    MoveFilesEffect(st, [name], "spec_hold");
    var m1 := MoveFilesSpec(st, [name], "spec_hold");
    assert Movable(m1.st.fs, DataDir, DataHoldDir, files) by {
      forall i | 0 <= i < |files| ensures IsFile(m1.st.fs, DataDir, files[i]) {
        assert Lookup(m1.st.fs, DataDir, files[i]) == Lookup(st.fs, DataDir, files[i]);
      }
    }
    MoveFilesEffect(m1.st, files, "data_hold");
    var n := |st.log|;
    assert m1.st.log == st.log + [SpecHoldMessage, MovedLine(SpecHoldDir, name)] by {
      assert m1.st.log[..n + 1] == st.log + [SpecHoldMessage];
    }
    var log := MoveFilesSpec(m1.st, files, "data_hold").st.log;
    assert log[..n + 3] == st.log + [SpecHoldMessage, MovedLine(SpecHoldDir, name), DataHoldMessage] by {
      assert log[..n + 3] == log[..n + 2 + 1];
    }
  }

  /** A spec file with the expected header is read into its schema, and nothing but the log changes. */
  lemma ResolveValid(st: State, spec: string, files: seq<string>)
    requires IsFile(st.fs, SpecDir, spec + SpecExtension) && HeaderLine(st.fs[SpecDir][spec + SpecExtension]) == SpecHeader
    ensures var r := ResolveSpec(st, spec, files);
      && r.result == Success(Some(SchemaFor(st, spec)))
      && r.st.fs == st.fs && r.st.loads == st.loads && r.st.log == st.log + ["\nProcessing spec file: " + SpecPath(spec)]
  {
  }

  /** With a valid spec whose data files all decode, exactly one load request is made, holding the spec's
      column names and the decoded rows; the data files move to `data/processed` exactly when the database
      reports success, and otherwise stay where they are. */
  lemma LoadDisposition(storage: Storage, st: State, spec: string, files: seq<string>)
    requires IsFile(st.fs, SpecDir, spec + SpecExtension) && HeaderLine(st.fs[SpecDir][spec + SpecExtension]) == SpecHeader
    requires DecodeData(st.fs, SchemaFor(st, spec), files).result.Success?
    ensures var schema := SchemaFor(st, spec);
      var request := LoadRequest(spec, schema.names, DecodeData(st.fs, schema, files).result.value, schema, CreateTable);
      var reply, e := storage(st.loads, request), ProcessFilesSpec(storage, st, spec, files);
      && e.st.loads == st.loads + [request]
      && (reply.ok && Movable(st.fs, DataDir, DataProcessedDir, files) ==>
            e.result == Success(()) && Relocated(st.fs, DataDir, DataProcessedDir, files, e.st.fs))
      && (!reply.ok ==> e.result == Success(()) && e.st.fs == st.fs)
  {
    ResolveValid(st, spec, files);
    var schema := SchemaFor(st, spec);
    var d := DecodeDataSpec(ResolveSpec(st, spec, files).st, schema, files);
    var request := LoadRequest(spec, schema.names, d.result.value, schema, CreateTable);
    var st3 := State(d.st.fs, d.st.log + [storage(d.st.loads, request).message], d.st.loads + [request]);
    if storage(st.loads, request).ok && Movable(st.fs, DataDir, DataProcessedDir, files) {
      MoveFilesEffect(st3, files, "data_processed");
    }
  }

  /** When decoding raises, the pass ends with that exception, no load request is made and no file moves. */
  lemma DecodeFailureNoLoad(storage: Storage, st: State, spec: string, files: seq<string>)
    requires IsFile(st.fs, SpecDir, spec + SpecExtension) && HeaderLine(st.fs[SpecDir][spec + SpecExtension]) == SpecHeader
    requires DecodeData(st.fs, SchemaFor(st, spec), files).result.Failure?
    ensures var e := ProcessFilesSpec(storage, st, spec, files);
      && e.result == Failure(DecodeData(st.fs, SchemaFor(st, spec), files).result.error)
      && e.st.loads == st.loads && e.st.fs == st.fs
  {
    ResolveValid(st, spec, files);
  }

  /** A batch makes at most one load request, appended to those made before. */
  lemma ProcessLoadsGrow(storage: Storage, st: State, spec: string, files: seq<string>)
    ensures LoadsExtend(st.loads, ProcessFilesSpec(storage, st, spec, files).st.loads, 1)
  {
    var e := ProcessFilesSpec(storage, st, spec, files);
    var r := ResolveSpec(st, spec, files);
    assert r.st.loads == st.loads;
    if r.result.Success? && r.result.value.Some? {
      var d := DecodeDataSpec(r.st, r.result.value.value, files);
      if d.result.Success? {
        assert e.st.loads == st.loads + [e.st.loads[|st.loads|]];
      }
    }
  }

  /** `after` is `before` with at most `n` requests appended. */
  predicate LoadsExtend(before: seq<LoadRequest>, after: seq<LoadRequest>, n: nat) {
    |before| <= |after| <= |before| + n && after[..|before|] == before
  }

  lemma LoadsExtendTrans(a: seq<LoadRequest>, b: seq<LoadRequest>, c: seq<LoadRequest>, m: nat, n: nat)
    requires LoadsExtend(a, b, m) && LoadsExtend(b, c, n)
    ensures LoadsExtend(a, c, m + n)
  {
    assert c[..|a|] == c[..|b|][..|a|];
  }

  /** Every step of `process` appends at most one request. */
  ghost predicate AppendsAtMostOne(process: BatchStep) {
    forall st: State, spec: string, names: seq<string> :: LoadsExtend(st.loads, process(st, spec, names).st.loads, 1)
  }

  lemma ProcessBatchAppends(storage: Storage)
    ensures AppendsAtMostOne(ProcessBatch(storage))
  {
    forall st: State, spec: string, names: seq<string> ensures LoadsExtend(st.loads, ProcessBatch(storage)(st, spec, names).st.loads, 1) {
      ProcessLoadsGrow(storage, st, spec, names);
    }
  }

  /** The first `k` batches make at most one load request each, appended to those made before. */
  lemma {:induction false} GroupsLoadsGrow(process: BatchStep, st: State, files: seq<string>, k: nat)
    requires AllSplit(files) && k <= |KeyOrder(files)| && AppendsAtMostOne(process)
    ensures LoadsExtend(st.loads, GroupsUpTo(process, st, files, k).st.loads, k)
    decreases k
  {
    if k > 0 {
      GroupsLoadsGrow(process, st, files, k - 1);
      var prev := GroupsUpTo(process, st, files, k - 1);
      if prev.result.Success? {
        var key := KeyOrder(files)[k - 1];
        LoadsExtendTrans(st.loads, prev.st.loads, process(prev.st, key, Members(files, key)).st.loads, k - 1, 1);
      } else {
        assert LoadsExtend(st.loads, prev.st.loads, k);
      }
    }
  }

  /** A data directory with no `.txt` file: the pass logs one line and changes nothing else. */
  lemma RunNoFiles(storage: Storage, st: State, begun: string, now: string)
    requires DataDir in st.fs && forall n :: n in st.fs[DataDir] ==> !EndsWith(n, DataExtension)
    ensures RunSpec(storage, st, begun, now) == Effect(Logged(st, begun + " No data files to process"), Success(()))
  {
    WithExtensionNone(SortedSeq(st.fs[DataDir].Keys), DataExtension);
  }

  /** Over a pass, requests are only appended, at most one per format key. */
  lemma RunLoadsGrow(storage: Storage, st: State, begun: string, now: string)
    requires DataDir in st.fs && AllSplit(DataFiles(st.fs))
    ensures LoadsExtend(st.loads, RunSpec(storage, st, begun, now).st.loads, |KeyOrder(DataFiles(st.fs))|)
  {
    var files := DataFiles(st.fs);
    if files != [] {
      ProcessBatchAppends(storage);
      GroupsLoadsGrow(ProcessBatch(storage), Logged(st, begun + " Begin processing data files"), files, |KeyOrder(files)|);
    }
  }

  /** The loader object: the directories it works on, its log, and the requests it has made. */
  class DataLoader {
    var fs: FileSystem
    var log: seq<string>
    var loads: seq<LoadRequest>
    const beginTimestamp: string

    function Snapshot(): State
      reads this
    {
      State(fs, log, loads)
    }

    /** `DataLoader()` over the given directories, with the time the object was made. */
    constructor(dirs: FileSystem, now: string)
      ensures Snapshot() == State(dirs, [], []) && beginTimestamp == now
    {
      fs := dirs;
      log := [];
      loads := [];
      beginTimestamp := now;
    }

    method MoveFiles(files: seq<string>, action: string) returns (r: Result<(), Error>)
      modifies this
      ensures Effect(Snapshot(), r) == MoveFilesSpec(old(Snapshot()), files, action)
    {
      var move := ActionFor(action);
      if move.None? {
        return Success(());
      }
      var Move(message, src, dst) := move.value;
      log := log + [message];
      var err := MoveEach(src, dst, files);
      r := if err.Some? then Failure(err.value) else Success(());
    }

    /** The loop of `_move_files`: each file in turn is replaced into `dst` and its line logged, until one
        cannot be moved. */
    method MoveEach(src: string, dst: string, files: seq<string>) returns (err: Option<Error>)
      modifies this
      ensures var t := MoveAll(old(fs), src, dst, files);
        fs == t.fs && log == old(log) + t.log && loads == old(loads) && err == t.error
    {
      ghost var fs0 := fs;
      var moved: seq<string> := [];
      var i := 0;
      while i < |files|
        invariant i <= |files| && loads == old(loads) && log == old(log)
        invariant MoveUpTo(fs0, src, dst, files, i) == MoveTrace(fs, moved, None)
      {
        var next := Replace(fs, src, dst, files[i]);
        if next.Failure? {
          MoveAbort(fs0, src, dst, files, i + 1, |files|);
          log := log + moved;
          return Some(next.error);
        }
        fs := next.value;
        moved := moved + [MovedLine(dst, files[i])];
        i := i + 1;
      }
      log := log + moved;
      return None;
    }

    method ProcessSpecFile(spec: string, files: seq<string>) returns (r: Result<Option<SpecSchema>, Error>)
      modifies this
      ensures Effect(Snapshot(), r) == ResolveSpec(old(Snapshot()), spec, files)
    {
      var specFile := SpecPath(spec);
      log := log + ["\nProcessing spec file: " + specFile];
      if !IsFile(fs, SpecDir, spec + SpecExtension) {
        log := log + ["No spec file found: " + specFile];
        var moved := MoveFiles(files, "data_hold");
        if moved.Failure? {
          return Failure(moved.error);
        }
        return Success(None);
      }
      var file := fs[SpecDir][spec + SpecExtension];
      if HeaderLine(file) != SpecHeader {
        log := log + [HeaderErrorMessage];
        var moved := MoveFiles([spec + SpecExtension], "spec_hold");
        if moved.Failure? {
          return Failure(moved.error);
        }
        moved := MoveFiles(files, "data_hold");
        if moved.Failure? {
          return Failure(moved.error);
        }
        return Success(None);
      }
      var schema := BuildSchema(SpecRows(file));
      return Success(Some(schema));
    }

    /** `_process_data_files`, with the expected length the sum of the widths read as integers. */
    method ProcessDataFiles(schema: SpecSchema, files: seq<string>) returns (r: Result<seq<Row>, Error>)
      requires schema.WellShaped()
      modifies this
      ensures Effect(Snapshot(), r) == DecodeDataSpec(old(Snapshot()), schema, files)
    {
      var widths := ParseWidths(ReadWidth, schema.widths);
      if widths.Failure? {
        return Failure(widths.error);
      }
      var ws := widths.value;
      var lineLength := Sum(ws);
      var rows, logged := DecodeFiles(Coerce, ws, schema.datatypes, FieldDecoder(Coerce, ws, schema.datatypes), LengthMessage, fs, lineLength, files);
      log := log + logged;
      return rows;
    }

    method ProcessFiles(storage: Storage, spec: string, files: seq<string>) returns (r: Result<(), Error>)
      modifies this
      ensures Effect(Snapshot(), r) == ProcessFilesSpec(storage, old(Snapshot()), spec, files)
    {
      var resolved := ProcessSpecFile(spec, files);
      if resolved.Failure? {
        return Failure(resolved.error);
      }
      if resolved.value.None? {
        return Success(());
      }
      var schema := resolved.value.value;
      var parsed := ProcessDataFiles(schema, files);
      if parsed.Failure? {
        return Failure(parsed.error);
      }
      var request := LoadRequest(spec, schema.names, parsed.value, schema, CreateTable);
      var reply := storage(loads, request);
      loads := loads + [request];
      log := log + [reply.message];
      if reply.ok {
        r := MoveFiles(files, "data_processed");
      } else {
        r := Success(());
      }
    }

    /** One batch, seen as a step of the pass. */
    method ProcessBatchStep(storage: Storage, ghost process: BatchStep, spec: string, files: seq<string>) returns (r: Result<(), Error>)
      requires StepOf(storage, process)
      modifies this
      ensures Effect(Snapshot(), r) == process(old(Snapshot()), spec, files)
    {
      r := ProcessFiles(storage, spec, files);
    }

    /** The loop over the batches, in the dict's key order; `process` is `_process_files` against `storage`. */
    method ProcessGroups(storage: Storage, ghost process: BatchStep, files: seq<string>, grouped: Grouping) returns (r: Result<(), Error>)
      requires AllSplit(files) && GroupsOf(grouped, files)
      requires StepOf(storage, process)
      modifies this
      ensures Effect(Snapshot(), r) == GroupsUpTo(process, old(Snapshot()), files, |KeyOrder(files)|)
    {
      ghost var st0 := Snapshot();
      var i := 0;
      while i < |grouped.keys|
        invariant i <= |grouped.keys| == |KeyOrder(files)|
        invariant GroupsUpTo(process, st0, files, i) == Effect(Snapshot(), Success(()))
      {
        var key := grouped.keys[i];
        ghost var st := Snapshot();
        var done := ProcessBatchStep(storage, process, key, grouped.groups[key]);
        GroupsStep(process, st0, files, grouped, i, st, Effect(Snapshot(), done));
        if done.Failure? {
          return done;
        }
        var unit: () := done.value;
        assert unit == ();
        i := i + 1;
      }
      r := Success(());
    }

    /** One pass of `__call__`; `now` is the time read when the pass ends. */
    method Run(storage: Storage, now: string) returns (r: Result<(), Error>)
      modifies this
      ensures Effect(Snapshot(), r) == RunSpec(storage, old(Snapshot()), beginTimestamp, now)
    {
      if DataDir !in fs {
        return Failure(FileNotFound(DataDir));
      }
      var listing := SortedNames(fs[DataDir].Keys);
      SortedUnique(listing, fs[DataDir].Keys);
      var files := WithExtension(listing, DataExtension);
      if |files| == 0 {
        log := log + [beginTimestamp + " No data files to process"];
        return Success(());
      }
      log := log + [beginTimestamp + " Begin processing data files"];
      var grouping := GroupByFormat(files);
      if grouping.Failure? {
        return Failure(grouping.error);
      }
      r := ProcessGroups(storage, ProcessBatch(storage), files, grouping.value);
      if r.Failure? {
        return;
      }
      log := log + ["\n" + now + " Exiting"];
      return Success(());
    }
  }
}
