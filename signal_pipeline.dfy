/** The signal stage of the job (compute_rolling_mean and generate_signal in
    run.py): a trailing-window mean of the close prices, a 0/1 signal that
    says whether the close is above that mean, and the removal of the rows
    whose mean is undefined. Prices are exact reals. */
module SignalPipeline {
  import opened Common

  /** Sum of a sequence of prices, adding the last element last. */
  function Sum(s: seq<real>): real {
    if |s| == 0 then 0.0 else Sum(s[..|s| - 1]) + s[|s| - 1]
  }

  /** Sum can also be taken from the front: the first element plus the rest. */
  lemma {:induction false} SumDropFirst(s: seq<real>)
    requires |s| >= 1
    ensures Sum(s) == s[0] + Sum(s[1..])
  {
    if |s| == 1 {
      assert s[1..] == [];
      assert s[..0] == [];
    } else {
      SumDropFirst(s[..|s| - 1]);
      assert s[..|s| - 1][1..] == s[1..][..|s[1..]| - 1];
    }
  }

  /** A sum of prices each strictly below `x` is strictly below |s| * x. */
  lemma {:induction false} SumBelow(s: seq<real>, x: real)
    requires |s| >= 1
    requires forall j :: 0 <= j < |s| ==> s[j] < x
    ensures Sum(s) < |s| as real * x
  {
    if |s| == 1 {
      assert s[..0] == [];
    } else {
      SumBelow(s[..|s| - 1], x);
    }
  }

  /** The arithmetic mean of the `window` closes ending at row i. */
  function WindowMean(close: seq<real>, window: nat, i: nat): real
    requires 1 <= window <= i + 1 <= |close|
  {
    Sum(close[i + 1 - window..i + 1]) / window as real
  }

  /** The `rolling_mean` column: pandas' rolling(window).mean() with its
      default minimum of `window` observations. Row i has a mean only when a
      full window ends there; a window of 0 is accepted and leaves every
      row undefined. */
  function RollingMean(close: seq<real>, window: nat): (means: seq<Option<real>>)
    ensures |means| == |close|
    ensures forall i :: 0 <= i < |close| ==> (means[i].Some? <==> 1 <= window <= i + 1)
  {
    seq(|close|, i requires 0 <= i < |close| =>
      if 1 <= window <= i + 1 then Some(WindowMean(close, window, i)) else None)
  }

  /** The first row of the window that ends just before row i, clamped at 0. */
  function WindowStart(i: nat, window: nat): nat {
    if i >= window then i - window else 0
  }

  /** The rolling mean as computed row by row: a running total gains each new
      close and loses the one that falls out of the window. */
  method SlidingMeans(close: seq<real>, window: nat) returns (means: seq<Option<real>>)
    ensures means == RollingMean(close, window)
  {
    var column := new Option<real>[|close|];
    var total := 0.0;
    var i := 0;
    while i < |close|
      invariant 0 <= i <= |close|
      invariant total == Sum(close[WindowStart(i, window)..i])
      invariant forall k :: 0 <= k < i ==> column[k] == RollingMean(close, window)[k]
    {
      var start := WindowStart(i, window);
      assert close[start..i + 1][..i - start] == close[start..i];
      total := total + close[i];
      if i >= window {
        SumDropFirst(close[start..i + 1]);
        assert close[start..i + 1][1..] == close[start + 1..i + 1];
        total := total - close[i - window];
      }
      column[i] := if 1 <= window <= i + 1 then Some(total / window as real) else None;
      i := i + 1;
    }
    means := column[..];
  }

  /** The `signal` column: 1 where the close is above its rolling mean, else
      0; an undefined mean compares false and so gives 0. */
  function SignalColumn(close: seq<real>, means: seq<Option<real>>): (signal: seq<int>)
    requires |means| == |close|
    ensures |signal| == |close|
    ensures forall i :: 0 <= i < |close| ==> signal[i] == 0 || signal[i] == 1
    ensures forall i :: 0 <= i < |close| && means[i].None? ==> signal[i] == 0
  {
    seq(|close|, i requires 0 <= i < |close| =>
      if means[i].Some? && close[i] > means[i].value then 1 else 0)
  }

  /** One row of the table after both columns have been added. */
  datatype Row = Row(close: real, rollingMean: Option<real>, signal: int)

  /** The table as rows, from its three columns. */
  function Zip(close: seq<real>, means: seq<Option<real>>, signal: seq<int>): (rows: seq<Row>)
    requires |means| == |close| && |signal| == |close|
    ensures |rows| == |close|
  {
    seq(|close|, i requires 0 <= i < |close| => Row(close[i], means[i], signal[i]))
  }

  /** dropna: the rows whose rolling mean is defined, in their original order. */
  function DropNa(rows: seq<Row>): (kept: seq<Row>)
    ensures |kept| <= |rows|
    ensures forall r :: r in kept <==> r in rows && r.rollingMean.Some?
  {
    if rows == [] then []
    else
      var rest := DropNa(rows[1..]);
      assert forall r :: r in rows <==> r == rows[0] || r in rows[1..];
      if rows[0].rollingMean.Some? then [rows[0]] + rest else rest
  }

  /** dropna works row by row: filtering a concatenation concatenates the
      filtered parts, so the kept rows stay in their original order. */
  lemma {:induction false} DropNaAppend(a: seq<Row>, b: seq<Row>)
    ensures DropNa(a + b) == DropNa(a) + DropNa(b)
  {
    if a == [] {
      assert a + b == b;
    } else {
      var ab := a + b;
      assert ab != [] && ab[0] == a[0];
      assert ab[1..] == a[1..] + b;
      DropNaAppend(a[1..], b);
      var head := if a[0].rollingMean.Some? then [a[0]] else [];
      assert DropNa(ab) == head + DropNa(a[1..] + b);
      assert DropNa(a) == head + DropNa(a[1..]);
    }
  }

  /** When the undefined rows are exactly a prefix of length k, dropna
      removes that prefix and keeps the rest unchanged. */
  lemma {:induction false} DropNaDropsPrefix(rows: seq<Row>, k: nat)
    requires k <= |rows|
    requires forall j :: 0 <= j < k ==> rows[j].rollingMean.None?
    requires forall j :: k <= j < |rows| ==> rows[j].rollingMean.Some?
    ensures DropNa(rows) == rows[k..]
  {
    if rows == [] {
    } else if k == 0 {
      DropNaDropsPrefix(rows[1..], 0);
      assert rows == [rows[0]] + rows[1..];
    } else {
      DropNaDropsPrefix(rows[1..], k - 1);
      assert rows[1..][k - 1..] == rows[k..];
    }
  }

  /** The table after both columns are added, before dropna. */
  function FullRows(close: seq<real>, window: nat): (rows: seq<Row>)
    ensures |rows| == |close|
  {
    var means := RollingMean(close, window);
    Zip(close, means, SignalColumn(close, means))
  }

  /** The whole signal stage: add the rolling mean and the signal, then drop
      the incomplete rows. */
  function Pipeline(close: seq<real>, window: nat): (kept: seq<Row>)
    ensures |kept| <= |close|
    ensures forall r :: r in kept ==> r.rollingMean.Some? && (r.signal == 0 || r.signal == 1)
  {
    var rows := FullRows(close, window);
    assert forall r :: r in rows ==> r.signal == 0 || r.signal == 1;
    DropNa(rows)
  }

  /** Number of rows that survive the warm-up: one per full window. */
  function RowsAfterWarmUp(n: nat, window: nat): nat {
    if 1 <= window <= n then n - window + 1 else 0
  }

  /** Every signal is 0 or 1; it is 1 exactly when the mean is defined and
      the close is above it; the warm-up rows before the first full window
      always get 0. */
  lemma SignalFacts(close: seq<real>, window: nat, i: nat)
    requires i < |close|
    ensures var signal := SignalColumn(close, RollingMean(close, window));
      && (signal[i] == 0 || signal[i] == 1)
      && (signal[i] == 1 <==> 1 <= window <= i + 1 && close[i] > WindowMean(close, window, i))
      && (i + 1 < window ==> signal[i] == 0)
  {
  }

  /** Number of leading rows without a full window. */
  function WarmUpRows(n: nat, window: nat): nat {
    if 1 <= window <= n then window - 1 else n
  }

  /** The stage keeps a suffix of the full table: it drops exactly the
      warm-up rows. */
  lemma PipelineIsSuffix(close: seq<real>, window: nat)
    ensures Pipeline(close, window) == FullRows(close, window)[WarmUpRows(|close|, window)..]
  {
    var rows := FullRows(close, window);
    var k := WarmUpRows(|close|, window);
    assert forall j :: 0 <= j < |rows| ==> rows[j].rollingMean == RollingMean(close, window)[j];
    DropNaDropsPrefix(rows, k);
  }

  /** The rows the stage keeps are exactly the rows from `window - 1` on, in
      order, with their close, mean and signal as computed over the whole
      series; there are n - window + 1 of them when window <= n, else none. */
  lemma PipelineKeepsFullWindows(close: seq<real>, window: nat)
    ensures |Pipeline(close, window)| == RowsAfterWarmUp(|close|, window)
    ensures forall j :: 0 <= j < |Pipeline(close, window)| ==>
      1 <= window <= j + window <= |close|
      && Pipeline(close, window)[j].close == close[j + window - 1]
      && Pipeline(close, window)[j].rollingMean == Some(WindowMean(close, window, j + window - 1))
      && Pipeline(close, window)[j].signal == SignalColumn(close, RollingMean(close, window))[j + window - 1]
  {
    PipelineIsSuffix(close, window);
    var kept := Pipeline(close, window);
    var rows := FullRows(close, window);
    var k := WarmUpRows(|close|, window);
    assert |kept| == |close| - k;
    forall j | 0 <= j < |kept|
      ensures 1 <= window <= j + window <= |close|
      ensures kept[j].close == close[j + window - 1]
      ensures kept[j].rollingMean == Some(WindowMean(close, window, j + window - 1))
      ensures kept[j].signal == SignalColumn(close, RollingMean(close, window))[j + window - 1]
    {
      var means := RollingMean(close, window);
      assert k == window - 1 && 1 <= window;
      assert kept[j] == rows[j + k];
      assert rows[j + k] == Row(close[j + k], means[j + k], SignalColumn(close, means)[j + k]);
      assert means[j + k] == Some(WindowMean(close, window, j + k));
    }
  }

  /** With a window of one the mean is the close itself, so no close is above
      it: every row survives and every signal is 0. */
  lemma WindowOneSignalsZero(close: seq<real>)
    ensures |Pipeline(close, 1)| == |close|
    ensures forall j :: 0 <= j < |close| ==> Pipeline(close, 1)[j].rollingMean == Some(close[j])
    ensures forall j :: 0 <= j < |close| ==> Pipeline(close, 1)[j].signal == 0
  {
    PipelineKeepsFullWindows(close, 1);
    forall j | 0 <= j < |close|
      ensures WindowMean(close, 1, j) == close[j]
    {
      var w := close[j..j + 1];
      assert w[..0] == [];
      assert Sum(w) == Sum(w[..0]) + w[0];
      assert w[0] == close[j];
    }
  }

  /** Closes that rise strictly. */
  predicate StrictlyIncreasing(close: seq<real>) {
    forall a, b :: 0 <= a < b < |close| ==> close[a] < close[b]
  }

  /** With strictly rising closes and a window of at least two, each close is
      above the mean of its window, so every surviving signal is 1. */
  lemma IncreasingSignalsOne(close: seq<real>, window: nat)
    requires StrictlyIncreasing(close)
    requires window >= 2
    ensures forall j :: 0 <= j < |Pipeline(close, window)| ==> Pipeline(close, window)[j].signal == 1
  {
    PipelineKeepsFullWindows(close, window);
    var kept := Pipeline(close, window);
    forall j | 0 <= j < |kept|
      ensures kept[j].signal == 1
    {
      var i := j + window - 1;
      CloseAboveRisingWindow(close, window, i);
      assert SignalColumn(close, RollingMean(close, window))[i] == 1;
    }
  }

  /** In a strictly rising series, the close ending a window of two or more
      is above the window's mean. */
  lemma CloseAboveRisingWindow(close: seq<real>, window: nat, i: nat)
    requires StrictlyIncreasing(close)
    requires 2 <= window <= i + 1 <= |close|
    ensures close[i] > WindowMean(close, window, i)
  {
    var w := close[i + 1 - window..i + 1];
    assert w[..window - 1] == close[i + 1 - window..i];
    SumBelow(w[..window - 1], close[i]);
    assert Sum(w) == Sum(w[..window - 1]) + close[i];
    assert Sum(w) < window as real * close[i];
  }

  /** The table the source mutates in place: its `close` column and the
      `rolling_mean` and `signal` columns the stage adds (empty until added). */
  class PriceFrame {
    var close: seq<real>
    var rollingMean: seq<Option<real>>
    var signal: seq<int>

    /** The table as loaded: only its close column. */
    constructor (close: seq<real>)
      ensures this.close == close && rollingMean == [] && signal == []
    {
      this.close := close;
      rollingMean := [];
      signal := [];
    }

    /** The rows of the table once both columns are present. */
    function Rows(): (rows: seq<Row>)
      reads this
      requires |rollingMean| == |close| && |signal| == |close|
      ensures |rows| == |close|
    {
      Zip(close, rollingMean, signal)
    }

    /** compute_rolling_mean: adds the `rolling_mean` column. */
    method ComputeRollingMean(window: nat)
      modifies this
      ensures close == old(close) && signal == old(signal)
      ensures rollingMean == RollingMean(close, window)
    {
      rollingMean := SlidingMeans(close, window);
    }

    /** generate_signal: adds the `signal` column and returns the table that
        dropna produces, a new table of the rows with a defined mean. */
    method GenerateSignal() returns (kept: seq<Row>)
      requires |rollingMean| == |close|
      modifies this
      ensures close == old(close) && rollingMean == old(rollingMean)
      ensures signal == SignalColumn(close, rollingMean)
      ensures kept == DropNa(Rows())
    {
      signal := SignalColumn(close, rollingMean);
      kept := DropNa(Rows());
    }
  }
}
