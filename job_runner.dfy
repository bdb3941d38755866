/** The job as a whole (the main block of run.py): load the configuration,
    load the table, run the signal stage, build the metrics record, and turn
    any failure on the way into an error record. The elapsed time is a
    parameter; writing the record and the log is not modelled. */
module JobRunner {
  import opened Common
  import opened ConfigLoader
  import opened DataLoader
  import opened SignalPipeline
  import opened Metrics

  /** The version an error record carries when no configuration was loaded. */
  const DefaultVersion := Str("v1")

  /** What the rolling-window library raises for a window that is not a
      non-negative integer. */
  const InvalidWindowMessage := "window must be an integer 0 or greater"

  /** The configured window as the rolling-window library takes it: a
      non-negative integer, or an error. */
  function RollingWindow(v: Value): Result<nat, string> {
    if v.Int? && v.i >= 0 then Success(v.i) else Failure(InvalidWindowMessage)
  }

  /** The record one run writes, given what reading the two files produced
      and the latency measured after the signal stage. */
  function Job(configFile: ConfigFile, csvFile: CsvFile, latencyMs: int): (rec: Record)
    ensures rec.SuccessRecord? ==> rec.status == "success" && rec.metric == "signal_rate"
    ensures rec.ErrorRecord? ==> rec.status == "error"
    ensures rec.ErrorRecord? && LoadConfigSpec(configFile).Failure? ==> rec.version == DefaultVersion
    ensures rec.SuccessRecord? ==> configFile.ConfigRead? && csvFile.CsvRead?
  {
    match LoadConfigSpec(configFile)
    case Failure(message) => ErrorMetrics(DefaultVersion, message)
    case Success(config) =>
      assert RequiredFields[0] == "seed" && RequiredFields[2] == "version";
      match LoadData(csvFile)
      case Failure(message) => ErrorMetrics(config["version"], message)
      case Success(table) =>
        assert RequiredFields[1] == "window";
        match RollingWindow(config["window"])
        case Failure(message) => ErrorMetrics(config["version"], message)
        case Success(window) => ComputeMetrics(Pipeline(table.close, window), latencyMs, config)
  }

  /** The process exit status for a record: 0 after success, 1 after error. */
  function ExitCode(rec: Record): int {
    if rec.SuccessRecord? then 0 else 1
  }

  /** One run of the job: the stages in order, the table's columns added in
      place, and the first failure turned into the error record. */
  method RunJob(configFile: ConfigFile, csvFile: CsvFile, latencyMs: int)
    returns (rec: Record, exitCode: int)
    ensures rec == Job(configFile, csvFile, latencyMs)
    ensures exitCode == ExitCode(rec)
  {
    var loaded := LoadConfig(configFile);
    if loaded.Failure? {
      rec := ErrorMetrics(DefaultVersion, loaded.error);
      return rec, 1;
    }
    var config := loaded.value;
    assert RequiredFields[0] == "seed" && RequiredFields[1] == "window" && RequiredFields[2] == "version";
    var data := LoadData(csvFile);
    if data.Failure? {
      rec := ErrorMetrics(config["version"], data.error);
      return rec, 1;
    }
    var window := RollingWindow(config["window"]);
    if window.Failure? {
      rec := ErrorMetrics(config["version"], window.error);
      return rec, 1;
    }
    var frame := new PriceFrame(data.value.close);
    frame.ComputeRollingMean(window.value);
    var kept := frame.GenerateSignal();
    rec := ComputeMetrics(kept, latencyMs, config);
    exitCode := 0;
  }

  /** When the configuration, the table and the window are all accepted, the
      run's record is the metrics of the signal stage's output. */
  lemma JobRunsPipeline(doc: Config, table: Table, window: nat, latencyMs: int)
    requires LoadConfigSpec(ConfigRead(doc)).Success?
    requires LoadData(CsvRead(table)).Success?
    requires "window" in doc && doc["window"] == Int(window)
    ensures "version" in doc && "seed" in doc
    ensures Job(ConfigRead(doc), CsvRead(table), latencyMs)
      == ComputeMetrics(Pipeline(table.close, window), latencyMs, doc)
  {
  }

  /** A run either succeeds or yields an error record; its status is
      "success" exactly when it exits 0, and "error" exactly when it exits 1. */
  lemma ExitCodeFollowsStatus(configFile: ConfigFile, csvFile: CsvFile, latencyMs: int)
    ensures var rec := Job(configFile, csvFile, latencyMs);
      && (rec.status == "success" <==> ExitCode(rec) == 0)
      && (rec.status == "error" <==> ExitCode(rec) == 1)
  {
  }

  /** A run fails exactly when the configuration, the table or the window is
      rejected. */
  lemma JobFailsIff(configFile: ConfigFile, csvFile: CsvFile, latencyMs: int)
    ensures Job(configFile, csvFile, latencyMs).ErrorRecord? <==>
      || LoadConfigSpec(configFile).Failure?
      || LoadData(csvFile).Failure?
      || (configFile.ConfigRead? && "window" in configFile.doc
          && RollingWindow(configFile.doc["window"]).Failure?)
  {
  }

  /** Once the configuration and the table are accepted, the run fails
      exactly when the configured window is not a non-negative integer, and
      that failure carries the configured version and the rolling-window
      library's message. */
  lemma WindowRejected(doc: Config, table: Table, latencyMs: int)
    requires LoadConfigSpec(ConfigRead(doc)).Success?
    requires LoadData(CsvRead(table)).Success?
    ensures "window" in doc && "version" in doc
    ensures Job(ConfigRead(doc), CsvRead(table), latencyMs).ErrorRecord?
      <==> !(doc["window"].Int? && doc["window"].i >= 0)
    ensures Job(ConfigRead(doc), CsvRead(table), latencyMs).ErrorRecord? ==>
      Job(ConfigRead(doc), CsvRead(table), latencyMs)
        == ErrorRecord(doc["version"], "error", InvalidWindowMessage)
  {
  }

  /** When the configuration is rejected the error record carries version
      "v1" and the loader's message, whatever the table. */
  lemma ConfigFailureUsesDefaultVersion(configFile: ConfigFile, csvFile: CsvFile, latencyMs: int)
    requires LoadConfigSpec(configFile).Failure?
    ensures Job(configFile, csvFile, latencyMs)
      == ErrorRecord(DefaultVersion, "error", LoadConfigSpec(configFile).error)
  {
  }

  /** When the failure comes after the configuration was loaded, the error
      record carries the configured version and the failing stage's message. */
  lemma LaterFailureUsesConfigVersion(configFile: ConfigFile, csvFile: CsvFile, latencyMs: int)
    requires LoadConfigSpec(configFile).Success?
    requires Job(configFile, csvFile, latencyMs).ErrorRecord?
    ensures configFile.ConfigRead? && "version" in configFile.doc && "window" in configFile.doc
    ensures Job(configFile, csvFile, latencyMs).status == "error"
    ensures Job(configFile, csvFile, latencyMs).version == configFile.doc["version"]
    ensures Job(configFile, csvFile, latencyMs).errorMessage ==
      if LoadData(csvFile).Failure? then LoadData(csvFile).error else InvalidWindowMessage
  {
  }

  /** When the configuration, the table and the window are accepted, the run
      succeeds and reports "signal_rate" with the configured version and
      seed; it counts one row per full window of the table (none when the
      window is longer than the table, still a success, with an undefined
      value); otherwise its value is the fraction of kept rows signalled 1,
      in [0, 1]. */
  lemma SuccessRecordFields(doc: Config, table: Table, window: nat, latencyMs: int)
    requires LoadConfigSpec(ConfigRead(doc)).Success?
    requires LoadData(CsvRead(table)).Success?
    requires "window" in doc && doc["window"] == Int(window)
    ensures "version" in doc && "seed" in doc
    ensures var rec := Job(ConfigRead(doc), CsvRead(table), latencyMs);
      && rec.SuccessRecord? && rec.status == "success" && rec.metric == "signal_rate" && rec.latencyMs == latencyMs
      && rec.version == doc["version"] && rec.seed == doc["seed"]
      && rec.rowsProcessed == RowsAfterWarmUp(table.rowCount, window)
      && (rec.value.None? <==> rec.rowsProcessed == 0)
      && (rec.value.Some? ==>
            && 0.0 <= rec.value.value <= 1.0
            && rec.value.value == CountSignalled(Pipeline(table.close, window)) as real
                                  / rec.rowsProcessed as real)
  {
    JobRunsPipeline(doc, table, window, latencyMs);
    var kept := Pipeline(table.close, window);
    PipelineKeepsFullWindows(table.close, window);
    assert BinarySignals(kept) by {
      forall j | 0 <= j < |kept| ensures kept[j].signal == 0 || kept[j].signal == 1 {
        SignalFacts(table.close, window, j + window - 1);
      }
    }
    if kept != [] {
      SignalRateIsFraction(kept);
    }
  }

  /** With a window of one every close equals its own mean: the stage keeps
      every row and the signal rate of a non-empty table is 0. */
  lemma WindowOneRateZero(close: seq<real>)
    ensures |Pipeline(close, 1)| == |close|
    ensures close != [] ==> SignalRate(Pipeline(close, 1)) == Some(0.0)
  {
    WindowOneSignalsZero(close);
    AllZeroCountsNone(Pipeline(close, 1));
  }

  /** Rows whose signals are all 0 have none signalled 1 and sum to 0. */
  lemma {:induction false} AllZeroCountsNone(rows: seq<Row>)
    requires forall j :: 0 <= j < |rows| ==> rows[j].signal == 0
    ensures CountSignalled(rows) == 0 && SignalSum(rows) == 0
  {
    if rows != [] {
      assert forall j :: 0 <= j < |rows[1..]| ==> rows[1..][j] == rows[j + 1];
      AllZeroCountsNone(rows[1..]);
    }
  }

  /** With strictly rising closes and a window of at least two, the signal
      rate of the kept rows is 1 whenever any row is kept. */
  lemma RisingClosesRateOne(close: seq<real>, window: nat)
    requires StrictlyIncreasing(close)
    requires window >= 2
    ensures Pipeline(close, window) != [] ==> SignalRate(Pipeline(close, window)) == Some(1.0)
  {
    IncreasingSignalsOne(close, window);
    AllOneRateOne(Pipeline(close, window));
  }

  /** Rows whose signals are all 1 have a signal rate of 1. */
  lemma AllOneRateOne(rows: seq<Row>)
    requires forall j :: 0 <= j < |rows| ==> rows[j].signal == 1
    ensures rows != [] ==> SignalRate(rows) == Some(1.0)
  {
    AllOneCountsAll(rows);
    if rows != [] {
      var n := |rows| as real;
      assert SignalSum(rows) as real == n;
      assert n / n == 1.0;
    }
  }

  /** Rows whose signals are all 1 sum to their number. */
  lemma {:induction false} AllOneCountsAll(rows: seq<Row>)
    requires forall j :: 0 <= j < |rows| ==> rows[j].signal == 1
    ensures SignalSum(rows) == |rows|
  {
    if rows != [] {
      assert forall j :: 0 <= j < |rows[1..]| ==> rows[1..][j] == rows[j + 1];
      AllOneCountsAll(rows[1..]);
    }
  }

  /** Closes 1, 2, 3, 4, 5 with a window of 3: three rows survive, with
      means 2, 3 and 4, each close above its mean, so the rate is 1. */
  lemma RisingFiveRowsExample(seed: Value, version: Value, latencyMs: int)
    ensures var doc := map["seed" := seed, "window" := Int(3), "version" := version];
      var table := TableShape(["close"], 5, [1.0, 2.0, 3.0, 4.0, 5.0]);
      Job(ConfigRead(doc), CsvRead(table), latencyMs)
        == SuccessRecord(version, 3, "signal_rate", Some(1.0), latencyMs, seed, "success")
  {
    var doc := map["seed" := seed, "window" := Int(3), "version" := version];
    var table := TableShape(["close"], 5, [1.0, 2.0, 3.0, 4.0, 5.0]);
    ConfigValidation(doc);
    JobRunsPipeline(doc, table, 3, latencyMs);
    RisingFiveRowsStage();
  }

  /** The signal stage on closes 1..5 with a window of 3 keeps three rows,
      all signalled 1. */
  lemma RisingFiveRowsStage()
    ensures |Pipeline([1.0, 2.0, 3.0, 4.0, 5.0], 3)| == 3
    ensures SignalRate(Pipeline([1.0, 2.0, 3.0, 4.0, 5.0], 3)) == Some(1.0)
  {
    var close := [1.0, 2.0, 3.0, 4.0, 5.0];
    assert StrictlyIncreasing(close);
    PipelineKeepsFullWindows(close, 3);
    RisingClosesRateOne(close, 3);
  }
}
