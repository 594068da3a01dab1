/**
 * The Prefect flow of the recommendation pipeline: ten tasks of one shape, each
 * running one fixed script, logging the script's captured output line by line
 * under a tag, and raising when the script exits non-zero; and the flow that
 * submits them, declaring which task waits for which.
 *
 * The subprocess itself is not modelled: its captured stdout, stderr and return
 * code are the input of a task step.
 */
module Orchestration {
  import opened Text
  import Lists

  datatype Level = Info | Error

  /** One record written through a Prefect run logger. */
  datatype LogRecord = LogRecord(level: Level, message: string)

  datatype TaskId =
    | IngestReviews | IngestPurchaseHistory | IngestProductPopularity
    | MergeData | ValidateData | ProfileData | PreprocessData
    | EngineerFeatures | CreateFeatureStore | TrainModel

  /** The fixed parts of one task: its Prefect name, the script it runs, the tag
      its output lines carry, and its three messages. */
  datatype TaskSpec = TaskSpec(
    name: string, script: string, tag: string,
    startMessage: string, failureMessage: string, successMessage: string)

  function Spec(t: TaskId): TaskSpec {
    match t
    case IngestReviews => TaskSpec("Ingest Reviews", "ingest_reviews.py", "ingest_reviews",
      "Ingesting reviews into PostgreSQL...", "Reviews ingestion failed", "Reviews ingested")
    case IngestPurchaseHistory => TaskSpec("Ingest Purchase History", "ingest_purchase_history.py", "ingest_purchase_history",
      "Ingesting purchase history into PostgreSQL...", "Purchase history ingestion failed",
      "Purchase history ingested")
    case IngestProductPopularity => TaskSpec("Ingest Product Popularity", "ingest_product_popularity.py", "ingest_product_popularity",
      "Ingesting product popularity into PostgreSQL...", "Product popularity ingestion failed",
      "Product popularity ingested")
    case MergeData => TaskSpec("Merge Data", "src/merge_data.py", "merge_data",
      "Merging data from PostgreSQL...", "Data merge failed", "Merged data saved")
    case ValidateData => TaskSpec("Validate Data", "src/data_validation.py", "data_validation",
      "Validating merged data...", "Data validation failed", "Data validation passed")
    case ProfileData => TaskSpec("Profile Data", "src/data_profiling.py", "data_profiling",
      "Profiling merged and validated data...", "Data profiling failed", "Data profiling completed")
    case PreprocessData => TaskSpec("Preprocess Data", "src/data_processing.py", "data_processing",
      "Preprocessing data...", "Data preprocessing failed", "Data preprocessing completed")
    case EngineerFeatures => TaskSpec("Engineer Features", "src/feature_engineering.py", "feature_engineering",
      "Engineering features...", "Feature engineering failed", "Features engineered")
    case CreateFeatureStore => TaskSpec("Create Feature Store", "src/feature_store_creation.py", "feature_store_creation",
      "Creating versioned feature store...", "Feature store creation failed", "Feature store created")
    case TrainModel => TaskSpec("Train Model", "src/train_model.py", "train_model",
      "Training recommendation model...", "Model training failed", "Model trained and saved")
  }

  /** The command line a task spawns. */
  function Argv(t: TaskId): seq<string> {
    ["python", Spec(t).script]
  }

  /** The file name of a path with its directory and its `.py` suffix cut off. */
  function Stem(path: string): string {
    var base := BaseName(path);
    if |base| >= 3 && base[|base| - 3..] == ".py" then base[..|base| - 3] else base
  }

  function BaseName(path: string): string {
    if path == [] then []
    else if path[|path| - 1] == '/' then []
    else BaseName(path[..|path| - 1]) + [path[|path| - 1]]
  }

  /** What `subprocess.run(..., capture_output=True, text=True)` hands back. */
  datatype ProcessResult = ProcessResult(stdout: string, stderr: string, returncode: int)

  /** How a task ends: normally, or by raising `Exception(message)`. */
  datatype TaskOutcome = Completed | Raised(message: string)

  /** The lines of one captured stream that a task logs: nothing for empty
      output, otherwise the non-empty pieces of the stripped text split at
      newlines. */
  function OutputLines(out: string): seq<string> {
    if out == [] then [] else NonEmpty(Split(Strip(out)))
  }

  function Tagged(tag: string, line: string): string {
    "[" + tag + "] " + line
  }

  /** One record per line, at `level`, each line prefixed by the tag. */
  function LineRecords(level: Level, tag: string, lines: seq<string>): (r: seq<LogRecord>)
    ensures |r| == |lines|
  {
    seq(|lines|, i requires 0 <= i < |lines| => LogRecord(level, Tagged(tag, lines[i])))
  }

  /** Everything one run of a task writes to the log, given the lines its
      stdout and stderr yield and its return code. */
  function StepLog(spec: TaskSpec, out: seq<string>, err: seq<string>, returncode: int): seq<LogRecord> {
    [LogRecord(Info, spec.startMessage)]
    + LineRecords(Info, spec.tag, out)
    + LineRecords(Error, spec.tag, err)
    + (if returncode != 0 then [] else [LogRecord(Info, spec.successMessage)])
  }

  /** Everything one run of a task writes to the log, given the result of its
      subprocess. */
  function TaskLog(spec: TaskSpec, r: ProcessResult): seq<LogRecord> {
    StepLog(spec, OutputLines(r.stdout), OutputLines(r.stderr), r.returncode)
  }

  /** How a task ends, given the result of its subprocess. */
  function Outcome(spec: TaskSpec, r: ProcessResult): TaskOutcome {
    if r.returncode != 0 then Raised(spec.failureMessage) else Completed
  }

  /** The append-only sink behind Prefect's run loggers. */
  class RunLogger {
    var records: seq<LogRecord>

    constructor ()
      ensures records == []
    {
      records := [];
    }

    method Log(level: Level, message: string)
      modifies this
      ensures records == old(records) + [LogRecord(level, message)]
    {
      records := records + [LogRecord(level, message)];
    }
  }

  lemma LineRecordsAppend(level: Level, tag: string, a: seq<string>, b: seq<string>)
    ensures LineRecords(level, tag, a + b) == LineRecords(level, tag, a) + LineRecords(level, tag, b)
  {
  }

  /** One more piece: a record for it exactly when it is non-empty. */
  lemma LineRecordsStep(level: Level, tag: string, lines: seq<string>, i: nat)
    requires i < |lines|
    ensures LineRecords(level, tag, NonEmpty(lines[..i + 1]))
      == LineRecords(level, tag, NonEmpty(lines[..i]))
         + (if lines[i] != [] then [LogRecord(level, Tagged(tag, lines[i]))] else [])
  {
    assert lines[..i + 1] == lines[..i] + [lines[i]];
    NonEmptyAppend(lines[..i], [lines[i]]);
    LineRecordsAppend(level, tag, NonEmpty(lines[..i]), NonEmpty([lines[i]]));
  }

  /** Logs the lines of one captured stream, in order, at `level`. */
  method LogOutput(logger: RunLogger, level: Level, tag: string, out: string)
    modifies logger
    ensures logger.records == old(logger.records) + LineRecords(level, tag, OutputLines(out))
  {
    if out != [] {
      var lines := Split(Strip(out));
      LogLines(logger, level, tag, lines);
    }
  }

  /** The `for line in ...: if line:` loop over the pieces of one stream. */
  method LogLines(logger: RunLogger, level: Level, tag: string, lines: seq<string>)
    modifies logger
    ensures logger.records == old(logger.records) + LineRecords(level, tag, NonEmpty(lines))
  {
    ghost var before := logger.records;
    var i := 0;
    while i < |lines|
      invariant i <= |lines|
      invariant logger.records == before + LineRecords(level, tag, NonEmpty(lines[..i]))
    {
      var line := lines[i];
      LineRecordsStep(level, tag, lines, i);
      if line != [] {
        logger.Log(level, Tagged(tag, line));
      }
      i := i + 1;
    }
    assert lines[..i] == lines;
  }

  /** The body shared by the ten `@task` functions, for the task described by
      `spec`: logs its start, the subprocess's stdout at info and stderr at
      error, then raises on a non-zero return code or logs its success line. */
  method RunTask(logger: RunLogger, spec: TaskSpec, result: ProcessResult) returns (outcome: TaskOutcome)
    modifies logger
    ensures logger.records == old(logger.records) + TaskLog(spec, result)
    ensures outcome == Outcome(spec, result)
  {
    ghost var before := logger.records;
    ghost var head := [LogRecord(Info, spec.startMessage)];
    ghost var outs := LineRecords(Info, spec.tag, OutputLines(result.stdout));
    ghost var errs := LineRecords(Error, spec.tag, OutputLines(result.stderr));
    ghost var tail: seq<LogRecord> :=
      if result.returncode != 0 then [] else [LogRecord(Info, spec.successMessage)];
    assert StepLog(spec, OutputLines(result.stdout), OutputLines(result.stderr), result.returncode)
      == head + outs + errs + tail;
    logger.Log(Info, spec.startMessage);
    LogOutput(logger, Info, spec.tag, result.stdout);
    LogOutput(logger, Error, spec.tag, result.stderr);
    if result.returncode != 0 {
      outcome := Raised(spec.failureMessage);
    } else {
      logger.Log(Info, spec.successMessage);
      outcome := Completed;
    }
    assert logger.records == before + head + outs + errs + tail;
    AppendAssoc(before, head, outs, errs, tail);
  }

  lemma AppendAssoc<T>(a: seq<T>, b: seq<T>, c: seq<T>, d: seq<T>, e: seq<T>)
    ensures a + (b + c + d + e) == a + b + c + d + e
  {
  }

  // ---------------------------------------------------------------------------
  // What one task step logs, and how it ends
  // ---------------------------------------------------------------------------

  /** Lines of a stream that is empty or only whitespace produce no record;
      otherwise each logged line is non-empty and newline-free, and together
      they hold exactly the characters of the stripped output other than its
      newlines, in order: blank lines are dropped and nothing else is. */
  lemma OutputLinesSpec(out: string)
    ensures AllSpace(out) ==> OutputLines(out) == []
    ensures forall k :: 0 <= k < |OutputLines(out)| ==>
      OutputLines(out)[k] != [] && NoNewline(OutputLines(out)[k])
    ensures Concat(OutputLines(out)) == RemoveNewlines(Strip(out))
  {
    StripEmptyIffAllSpace(out);
    var pieces := Split(Strip(out));
    SplitJoin(Strip(out));
    SplitKeepsText(Strip(out));
    NonEmptyKeepsText(pieces);
    if out == [] {
      assert Strip(out) == [];
    } else {
      assert AllSpace(out) ==> pieces == [[]];
    }
  }

  /** Interior blank lines are dropped, and so is the trailing newline. */
  lemma BlankLinesDropped()
    ensures OutputLines("a\n\nb\n") == ["a", "b"]
  {
    StripTrailingNewline();
    SplitBlankLine();
    assert NonEmpty(["a", "", "b"]) == ["a", "b"];
  }

  lemma StripTrailingNewline()
    ensures Strip("a\n\nb\n") == "a\n\nb"
  {
    var out := "a\n\nb\n";
    assert StripLeft(out) == out;
    assert out[..|out| - 1] == "a\n\nb";
    assert StripRight(out) == StripRight("a\n\nb");
  }

  lemma SplitBlankLine()
    ensures Split("a\n\nb") == ["a", "", "b"]
  {
    var parts := ["a", "", "b"];
    assert AllNoNewline(parts);
    assert Join(parts) == "a\n\nb";
    JoinSplit(parts);
  }

  /** A task's log, position by position: its start line, then one info record
      per stdout line in order, then one error record per stderr line in order,
      then the success line exactly when the return code is 0. Every stdout
      record precedes every stderr record. */
  lemma StepLogLayout(spec: TaskSpec, out: seq<string>, err: seq<string>, returncode: int)
    ensures var log := StepLog(spec, out, err, returncode);
      && |log| == 1 + |out| + |err| + (if returncode == 0 then 1 else 0)
      && log[0] == LogRecord(Info, spec.startMessage)
      && (forall i :: 0 <= i < |out| ==> log[1 + i] == LogRecord(Info, Tagged(spec.tag, out[i])))
      && (forall j :: 0 <= j < |err| ==>
            log[1 + |out| + j] == LogRecord(Error, Tagged(spec.tag, err[j])))
      && (returncode == 0 ==> log[|log| - 1] == LogRecord(Info, spec.successMessage))
  {
    var log := StepLog(spec, out, err, returncode);
    var outs := LineRecords(Info, spec.tag, out);
    var errs := LineRecords(Error, spec.tag, err);
    assert log[1..1 + |out|] == outs;
    assert log[1 + |out|..1 + |out| + |err|] == errs;
    forall i | 0 <= i < |out| ensures log[1 + i] == LogRecord(Info, Tagged(spec.tag, out[i])) {
      assert log[1 + i] == outs[i];
    }
    forall j | 0 <= j < |err| ensures log[1 + |out| + j] == LogRecord(Error, Tagged(spec.tag, err[j])) {
      assert log[1 + |out| + j] == errs[j];
    }
  }

  predicate IsError(rec: LogRecord) {
    rec.level == Error
  }

  predicate IsInfo(rec: LogRecord) {
    rec.level == Info
  }

  lemma {:induction false} LineRecordsCount(level: Level, tag: string, lines: seq<string>)
    ensures Lists.Count(LineRecords(level, tag, lines), IsError) == (if level == Error then |lines| else 0)
    ensures Lists.Count(LineRecords(level, tag, lines), IsInfo) == (if level == Info then |lines| else 0)
  {
    if lines != [] {
      var last := |lines| - 1;
      assert LineRecords(level, tag, lines)[..last] == LineRecords(level, tag, lines[..last]);
      LineRecordsCount(level, tag, lines[..last]);
    }
  }

  /** Log fidelity: a task whose stdout yields N lines and whose stderr yields M
      lines writes exactly M error records, and N info records besides its
      start line and, on success, its success line. */
  lemma StepLogLevelCounts(spec: TaskSpec, out: seq<string>, err: seq<string>, returncode: int)
    ensures Lists.Count(StepLog(spec, out, err, returncode), IsError) == |err|
    ensures Lists.Count(StepLog(spec, out, err, returncode), IsInfo)
      == 1 + |out| + (if returncode == 0 then 1 else 0)
  {
    var head := [LogRecord(Info, spec.startMessage)];
    var outs := LineRecords(Info, spec.tag, out);
    var errs := LineRecords(Error, spec.tag, err);
    var tail: seq<LogRecord> := if returncode != 0 then [] else [LogRecord(Info, spec.successMessage)];
    assert StepLog(spec, out, err, returncode) == head + outs + errs + tail;
    LineRecordsCount(Info, spec.tag, out);
    LineRecordsCount(Error, spec.tag, err);
    Lists.CountAppend(head, outs, IsError);
    Lists.CountAppend(head + outs, errs, IsError);
    Lists.CountAppend(head + outs + errs, tail, IsError);
    Lists.CountAppend(head, outs, IsInfo);
    Lists.CountAppend(head + outs, errs, IsInfo);
    Lists.CountAppend(head + outs + errs, tail, IsInfo);
    assert head[..0] == [];
    assert tail != [] ==> tail[..0] == [];
  }

  /** Output is logged before the return code is looked at: a failing task logs
      everything the same task would log on success except the success line. */
  lemma FailingTaskLogsAllOutput(spec: TaskSpec, r: ProcessResult)
    requires r.returncode != 0
    ensures TaskLog(spec, r) + [LogRecord(Info, spec.successMessage)]
      == TaskLog(spec, r.(returncode := 0))
  {
    var out, err := OutputLines(r.stdout), OutputLines(r.stderr);
    assert TaskLog(spec, r) == StepLog(spec, out, err, r.returncode);
    assert TaskLog(spec, r.(returncode := 0)) == StepLog(spec, out, err, 0);
  }

  /** A task description whose success line cannot be mistaken for its start
      line or for a tagged output line. */
  predicate DistinctMessages(spec: TaskSpec) {
    spec.successMessage != spec.startMessage
    && (spec.successMessage == [] || spec.successMessage[0] != '[')
  }

  /** A non-zero return code makes the task raise its own failure message and
      its success line is never logged; return code 0 completes the task and
      logs the success line. */
  lemma ExitCodeClassification(spec: TaskSpec, r: ProcessResult)
    requires DistinctMessages(spec)
    ensures r.returncode != 0 <==> Outcome(spec, r) == Raised(spec.failureMessage)
    ensures LogRecord(Info, spec.successMessage) in TaskLog(spec, r) <==> r.returncode == 0
  {
    var out, err := OutputLines(r.stdout), OutputLines(r.stderr);
    var log := StepLog(spec, out, err, r.returncode);
    assert TaskLog(spec, r) == log;
    StepLogLayout(spec, out, err, r.returncode);
    if r.returncode != 0 {
      forall k | 0 <= k < |log| ensures log[k] != LogRecord(Info, spec.successMessage) {
        if 1 <= k < 1 + |out| {
          assert log[k].message == Tagged(spec.tag, out[k - 1]);
        } else if 1 + |out| <= k {
          assert log[k].message == Tagged(spec.tag, err[k - 1 - |out|]);
        }
      }
    }
  }

  lemma {:induction false} BaseNameAppend(dir: string, file: string)
    requires NoSlash(file)
    ensures BaseName(dir + file) == BaseName(dir) + file
  {
    if file != [] {
      var last := |file| - 1;
      assert (dir + file)[..|dir + file| - 1] == dir + file[..last];
      BaseNameAppend(dir, file[..last]);
      assert file[..last] + [file[last]] == file;
    } else {
      assert dir + file == dir;
    }
  }

  predicate NoSlash(s: string) {
    forall i :: 0 <= i < |s| ==> s[i] != '/'
  }

  /** The stem of `<dir>/<name>.py` is `name`. */
  lemma StemOf(dir: string, name: string)
    requires dir == [] || dir[|dir| - 1] == '/'
    requires NoSlash(name)
    ensures Stem(dir + name + ".py") == name
  {
    assert NoSlash(name + ".py");
    BaseNameAppend(dir, name + ".py");
    assert dir + name + ".py" == dir + (name + ".py");
    assert BaseName(dir) == [] by {
      if dir != [] { assert dir[..|dir| - 1] + [dir[|dir| - 1]] == dir; }
    }
    var base := name + ".py";
    assert base[..|base| - 3] == name;
  }

  /** Each of the ten tasks tags its output lines with its script's file stem
      (the task "Validate Data" runs `src/data_validation.py` and tags its lines
      `data_validation`). */
  lemma TagIsScriptStem(t: TaskId)
    ensures Argv(t)[0] == "python" && Stem(Argv(t)[1]) == Spec(t).tag
  {
    if t in Ingestion {
      IngestionStems(t);
    } else if t in {MergeData, ValidateData, ProfileData} {
      PreparationStems(t);
    } else if t in {PreprocessData, EngineerFeatures} {
      FeatureStems(t);
    } else {
      ModellingStems(t);
    }
  }

  lemma IngestionStems(t: TaskId)
    requires t in Ingestion
    ensures Stem(Spec(t).script) == Spec(t).tag
  {
    match t
    case IngestReviews => ScriptStem("ingest_reviews.py", "", "ingest_reviews");
    case IngestPurchaseHistory => ScriptStem("ingest_purchase_history.py", "", "ingest_purchase_history");
    case IngestProductPopularity => ScriptStem("ingest_product_popularity.py", "", "ingest_product_popularity");
  }

  lemma PreparationStems(t: TaskId)
    requires t in {MergeData, ValidateData, ProfileData}
    ensures Stem(Spec(t).script) == Spec(t).tag
  {
    match t
    case MergeData => ScriptStem("src/merge_data.py", "src/", "merge_data");
    case ValidateData => ScriptStem("src/data_validation.py", "src/", "data_validation");
    case ProfileData => ScriptStem("src/data_profiling.py", "src/", "data_profiling");
  }

  lemma FeatureStems(t: TaskId)
    requires t in {PreprocessData, EngineerFeatures}
    ensures Stem(Spec(t).script) == Spec(t).tag
  {
    match t
    case PreprocessData => ScriptStem("src/data_processing.py", "src/", "data_processing");
    case EngineerFeatures => ScriptStem("src/feature_engineering.py", "src/", "feature_engineering");
  }

  lemma ModellingStems(t: TaskId)
    requires t in {CreateFeatureStore, TrainModel}
    ensures Stem(Spec(t).script) == Spec(t).tag
  {
    match t
    case CreateFeatureStore => ScriptStem("src/feature_store_creation.py", "src/", "feature_store_creation");
    case TrainModel => ScriptStem("src/train_model.py", "src/", "train_model");
  }

  /** A script path that reads `<dir><tag>.py`, for a tag without a slash, has
      the stem `tag`. */
  lemma ScriptStem(script: string, dir: string, tag: string)
    requires script == dir + tag + ".py"
    requires dir == [] || dir[|dir| - 1] == '/'
    requires NoSlash(tag)
    ensures Stem(script) == tag
  {
    StemOf(dir, tag);
  }

  /** Every task's success line differs from its start line and from every
      tagged output line. */
  lemma TaskMessagesDistinct(t: TaskId)
    ensures DistinctMessages(Spec(t))
  {
    if t in Ingestion {
      IngestionMessages(t);
    } else if t in {MergeData, ValidateData, ProfileData} {
      PreparationMessages(t);
    } else {
      ModellingMessages(t);
    }
  }

  lemma IngestionMessages(t: TaskId)
    requires t in Ingestion
    ensures DistinctMessages(Spec(t))
  {
    match t
    case IngestReviews =>
    case IngestPurchaseHistory =>
    case IngestProductPopularity =>
  }

  lemma PreparationMessages(t: TaskId)
    requires t in {MergeData, ValidateData, ProfileData}
    ensures DistinctMessages(Spec(t))
  {
    match t
    case MergeData =>
    case ValidateData =>
    case ProfileData =>
  }

  lemma ModellingMessages(t: TaskId)
    requires t !in Ingestion && t !in {MergeData, ValidateData, ProfileData}
    ensures DistinctMessages(Spec(t))
  {
    match t
    case PreprocessData =>
    case EngineerFeatures =>
    case CreateFeatureStore =>
    case TrainModel =>
  }

  // ---------------------------------------------------------------------------
  // The flow: submissions and their declared waits
  // ---------------------------------------------------------------------------

  /** One `task.submit(...)` call: the task and the tasks named in `wait_for`. */
  datatype Submission = Submission(task: TaskId, waitFor: seq<TaskId>)

  const Banner := "============================================================"
  const PipelineStart := "Starting Core Recommendation Pipeline (Ingest -> Model)"
  const PipelineDone := "Pipeline completed successfully!"

  const Ingestion: set<TaskId> := {IngestReviews, IngestPurchaseHistory, IngestProductPopularity}

  /** The submissions of `recommendation_pipeline`, in the order it makes them. */
  const PipelineSubmissions: seq<Submission> := [
    Submission(IngestReviews, []),
    Submission(IngestPurchaseHistory, []),
    Submission(IngestProductPopularity, []),
    Submission(MergeData, [IngestReviews, IngestPurchaseHistory, IngestProductPopularity]),
    Submission(ValidateData, []),
    Submission(ProfileData, []),
    Submission(PreprocessData, []),
    Submission(EngineerFeatures, []),
    Submission(CreateFeatureStore, []),
    Submission(TrainModel, [])
  ]

  /** What the flow body itself logs. */
  const FlowLog: seq<LogRecord> := [
    LogRecord(Info, Banner), LogRecord(Info, PipelineStart), LogRecord(Info, Banner),
    LogRecord(Info, PipelineDone)
  ]

  /** The flow body: logs its banner, submits the ten tasks (only the merge
      waits for anything), and logs its completion line. It never looks at a
      task's outcome, so the completion line is logged whatever the tasks do. */
  method RecommendationPipeline(logger: RunLogger) returns (submitted: seq<Submission>)
    modifies logger
    ensures logger.records == old(logger.records) + FlowLog
    ensures submitted == PipelineSubmissions
  {
    logger.Log(Info, Banner);
    logger.Log(Info, PipelineStart);
    logger.Log(Info, Banner);
    submitted := [Submission(IngestReviews, [])];
    submitted := submitted + [Submission(IngestPurchaseHistory, [])];
    submitted := submitted + [Submission(IngestProductPopularity, [])];
    submitted := submitted + [Submission(MergeData,
      [IngestReviews, IngestPurchaseHistory, IngestProductPopularity])];
    submitted := submitted + [Submission(ValidateData, [])];
    submitted := submitted + [Submission(ProfileData, [])];
    submitted := submitted + [Submission(PreprocessData, [])];
    submitted := submitted + [Submission(EngineerFeatures, [])];
    submitted := submitted + [Submission(CreateFeatureStore, [])];
    submitted := submitted + [Submission(TrainModel, [])];
    logger.Log(Info, PipelineDone);
  }

  /** The declared dependency edges `(upstream, downstream)`. */
  function Edges(subs: seq<Submission>): set<(TaskId, TaskId)> {
    set i, k | 0 <= i < |subs| && 0 <= k < |subs[i].waitFor| :: (subs[i].waitFor[k], subs[i].task)
  }

  /** A task may start once every task it waits for has finished. */
  predicate Ready(edges: set<(TaskId, TaskId)>, t: TaskId, finished: set<TaskId>) {
    forall u :: (u, t) in edges ==> u in finished
  }

  function TasksOf(subs: seq<Submission>): set<TaskId> {
    set i | 0 <= i < |subs| :: subs[i].task
  }

  /** The declared edges are exactly the three from the ingestion tasks to the
      merge: no task waits on the merge, and the six later tasks wait on nothing. */
  lemma DeclaredEdges()
    ensures Edges(PipelineSubmissions) == set u | u in Ingestion :: (u, MergeData)
  {
    var subs := PipelineSubmissions;
    var expected := set u | u in Ingestion :: (u, MergeData);
    forall e | e in Edges(subs) ensures e in expected {
      var i, k :| 0 <= i < |subs| && 0 <= k < |subs[i].waitFor| && e == (subs[i].waitFor[k], subs[i].task);
      assert i == 3;
    }
    forall e | e in expected ensures e in Edges(subs) {
      var k := if e.0 == IngestReviews then 0 else if e.0 == IngestPurchaseHistory then 1 else 2;
      assert e == (subs[3].waitFor[k], subs[3].task);
    }
  }

  /** Readiness over the declared edges: the merge is ready exactly when all
      three ingestion tasks have finished; every other task is ready at once,
      the six later tasks included, before the merge has finished. */
  lemma ReadyIff(t: TaskId, finished: set<TaskId>)
    ensures Ready(Edges(PipelineSubmissions), t, finished) <==> (t == MergeData ==> Ingestion <= finished)
  {
    DeclaredEdges();
    if t == MergeData && Ready(Edges(PipelineSubmissions), t, finished) {
      forall u | u in Ingestion ensures u in finished {
        assert (u, MergeData) in Edges(PipelineSubmissions);
      }
    }
  }

  /** Every task is submitted exactly once, and every task a submission waits
      for was submitted before it. */
  lemma SubmissionOrder()
    ensures forall t: TaskId :: t in TasksOf(PipelineSubmissions)
    ensures forall i, j :: 0 <= i < j < |PipelineSubmissions| ==>
      PipelineSubmissions[i].task != PipelineSubmissions[j].task
    ensures forall i, k :: 0 <= i < |PipelineSubmissions| && 0 <= k < |PipelineSubmissions[i].waitFor| ==>
      PipelineSubmissions[i].waitFor[k] in TasksOf(PipelineSubmissions[..i])
  {
    var subs := PipelineSubmissions;
    forall t: TaskId ensures t in TasksOf(subs) {
      var i := match t
        case IngestReviews => 0
        case IngestPurchaseHistory => 1
        case IngestProductPopularity => 2
        case MergeData => 3
        case ValidateData => 4
        case ProfileData => 5
        case PreprocessData => 6
        case EngineerFeatures => 7
        case CreateFeatureStore => 8
        case TrainModel => 9;
      assert subs[i].task == t;
    }
    assert TasksOf(subs[..3]) == Ingestion by {
      assert subs[..3][0].task == IngestReviews;
      assert subs[..3][1].task == IngestPurchaseHistory;
      assert subs[..3][2].task == IngestProductPopularity;
    }
  }
}
