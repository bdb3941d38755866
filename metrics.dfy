/** The metrics record the job writes (compute_metrics and the error record
    of run.py's main block). */
module Metrics {
  import opened Common
  import opened SignalPipeline

  /** The two shapes of output record, field for field. A success value of
      None stands for the NaN pandas yields as the mean of an empty column. */
  datatype Record =
    | SuccessRecord(version: Value, rowsProcessed: nat, metric: string, value: Option<real>,
                    latencyMs: int, seed: Value, status: string)
    | ErrorRecord(version: Value, status: string, errorMessage: string)

  /** Sum of the `signal` column. */
  function SignalSum(rows: seq<Row>): int {
    if rows == [] then 0 else rows[0].signal + SignalSum(rows[1..])
  }

  /** Number of rows whose signal is 1. */
  function CountSignalled(rows: seq<Row>): nat {
    if rows == [] then 0 else (if rows[0].signal == 1 then 1 else 0) + CountSignalled(rows[1..])
  }

  /** Signals that are all 0 or 1. */
  predicate BinarySignals(rows: seq<Row>) {
    forall j :: 0 <= j < |rows| ==> rows[j].signal == 0 || rows[j].signal == 1
  }

  /** When every signal is 0 or 1, summing the column counts the 1s, and the
      count is at most the number of rows. */
  lemma {:induction false} SignalSumCounts(rows: seq<Row>)
    requires BinarySignals(rows)
    ensures SignalSum(rows) == CountSignalled(rows) <= |rows|
  {
    if rows != [] {
      assert BinarySignals(rows[1..]) by {
        forall j | 0 <= j < |rows[1..]| ensures rows[1..][j].signal == 0 || rows[1..][j].signal == 1 {
          assert rows[1..][j] == rows[j + 1];
        }
      }
      SignalSumCounts(rows[1..]);
    }
  }

  /** signal_rate: the mean of the `signal` column, undefined on no rows. */
  function SignalRate(rows: seq<Row>): (rate: Option<real>)
    ensures rate.None? <==> rows == []
  {
    if rows == [] then None else Some(SignalSum(rows) as real / |rows| as real)
  }

  /** The rate is the fraction of rows signalled 1, and so lies in [0, 1]. */
  lemma SignalRateIsFraction(rows: seq<Row>)
    requires BinarySignals(rows) && rows != []
    ensures SignalRate(rows) == Some(CountSignalled(rows) as real / |rows| as real)
    ensures 0.0 <= SignalRate(rows).value <= 1.0
  {
    SignalSumCounts(rows);
    var n := |rows| as real;
    var c := CountSignalled(rows) as real;
    FractionBounds(c, n);
  }

  /** A part of a positive whole, as a fraction, lies in [0, 1]. */
  lemma FractionBounds(c: real, n: real)
    requires 0.0 <= c <= n && n > 0.0
    ensures 0.0 <= c / n <= 1.0
  {
  }

  /** compute_metrics: the success record for the rows left after dropna. */
  function ComputeMetrics(kept: seq<Row>, latencyMs: int, config: Config): (rec: Record)
    requires "version" in config && "seed" in config
    ensures rec.SuccessRecord? && rec.status == "success" && rec.metric == "signal_rate"
    ensures rec.rowsProcessed == |kept| && rec.latencyMs == latencyMs
    ensures rec.version == config["version"] && rec.seed == config["seed"]
    ensures rec.value.None? <==> kept == []
  {
    SuccessRecord(config["version"], |kept|, "signal_rate", SignalRate(kept), latencyMs,
                  config["seed"], "success")
  }

  /** The error record built from the caught exception's message. */
  function ErrorMetrics(version: Value, message: string): Record {
    ErrorRecord(version, "error", message)
  }
}
