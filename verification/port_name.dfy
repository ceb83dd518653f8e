/**
 * main of port_name.py: after the options, every row of the CSV file
 * (header first) drives one pass of an inner loop that sends one
 * update_switch_port call per data row. The outer loop never uses its
 * row, so the whole batch is sent once per row of the file.
 */
module PortName {

  import opened ArgOptions
  import opened Payload
  import opened SwitchApi

  /** One CSV row as csv.reader gives it: the list of its fields. */
  type Row = seq<string>

  /** How a run ends: sys.exit(code), the end of main, or an uncaught IndexError on a short row. */
  datatype Ending = Exited(code: nat) | Completed | IndexError

  /** The ending of a run and the calls it made, in order. */
  datatype RunResult = RunResult(ending: Ending, calls: seq<PortUpdate>)

  /** The exit status of the Python process for each ending (an uncaught exception gives 1). */
  function ProcessStatus(e: Ending): nat
  {
    match e
    case Exited(code) => code
    case Completed => 0
    case IndexError => 1
  }

  /** A row the inner loop can read: it has a port number, a name and a serial (j[0], j[1], j[2]). */
  predicate WellFormed(row: Row) {
    |row| >= 3
  }

  /** portsAndNames[1:]: the rows after the header. */
  function DataRows(rows: seq<Row>): seq<Row>
  {
    if |rows| == 0 then [] else rows[1..]
  }

  /** The call one data row turns into: serial from the third field, port from the first, body from the second. */
  function RowCall(apiKey: string, row: Row): PortUpdate
    requires WellFormed(row)
  {
    PortUpdate(apiKey, row[2], row[0], NamePayload(row[1]))
  }

  /** The calls of one pass over well-formed data rows: one per row, in file order. */
  function BatchCalls(apiKey: string, data: seq<Row>): (calls: seq<PortUpdate>)
    requires forall q | 0 <= q < |data| :: WellFormed(data[q])
    ensures |calls| == |data|
    ensures forall q | 0 <= q < |data| :: calls[q] == RowCall(apiKey, data[q])
  {
    if data == [] then []
    else BatchCalls(apiKey, data[..|data| - 1]) + [RowCall(apiKey, data[|data| - 1])]
  }

  /** Sending one more well-formed row adds its call at the end. */
  lemma BatchCallsSnoc(apiKey: string, data: seq<Row>, row: Row)
    requires forall q | 0 <= q < |data| :: WellFormed(data[q])
    requires WellFormed(row)
    ensures BatchCalls(apiKey, data + [row]) == BatchCalls(apiKey, data) + [RowCall(apiKey, row)]
  {
  }

  /** The position of the first row that is not well-formed, or |data| when all are. */
  function FirstMalformed(data: seq<Row>): (k: nat)
    ensures k <= |data|
    ensures forall q | 0 <= q < k :: WellFormed(data[q])
    ensures k < |data| ==> !WellFormed(data[k])
  {
    if data == [] || !WellFormed(data[0]) then 0
    else 1 + FirstMalformed(data[1..])
  }

  /** s written out n times in a row. */
  function Repeat<T>(s: seq<T>, n: nat): seq<T>
  {
    if n == 0 then [] else Repeat(s, n - 1) + s
  }

  /**
   * What a run does, stated without its loops: the option handling may
   * exit before anything is sent; otherwise the rows decide.
   */
  function Run(opts: seq<OptPair>, rows: seq<Row>): RunResult
  {
    match Configure(opts)
    case Exit(code) => RunResult(Exited(code), [])
    case Start(apiKey, _, _) => RunRows(apiKey, rows)
  }

  /**
   * The loops of main over the rows: a short data row aborts the first
   * pass after the calls of the rows before it, and a file of well-formed
   * rows sends its whole batch once for every row of the file.
   */
  function RunRows(apiKey: string, rows: seq<Row>): RunResult
  {
    var data := DataRows(rows);
    var k := FirstMalformed(data);
    if |rows| == 0 then RunResult(Completed, [])
    else if k < |data| then RunResult(IndexError, BatchCalls(apiKey, data[..k]))
    else RunResult(Completed, Repeat(BatchCalls(apiKey, data), |rows|))
  }

  /**
   * The inner loop, for j in portsAndNames[1:]: one call per data row, in
   * order, until a row too short to index ends it with an IndexError.
   */
  method ApplyNames(apiKey: string, rows: seq<Row>, api: Dashboard) returns (ok: bool)
    modifies api
    ensures ok == (FirstMalformed(DataRows(rows)) == |DataRows(rows)|)
    ensures api.log == old(api.log) + BatchCalls(apiKey, DataRows(rows)[..FirstMalformed(DataRows(rows))])
  {
    var data := DataRows(rows);
    var q := 0;
    while q < |data|
      invariant 0 <= q <= |data|
      invariant forall m | 0 <= m < q :: WellFormed(data[m])
      invariant api.log == old(api.log) + BatchCalls(apiKey, data[..q])
    {
      var row := data[q];
      assert !WellFormed(row) ==> FirstMalformed(data) == q;
      if |row| < 1 {
        return false;
      }
      var portNum := row[0];
      if |row| < 2 {
        return false;
      }
      var portName := row[1];
      if |row| < 3 {
        return false;
      }
      var serial := row[2];
      var payload := NamePayload(portName);
      // The reply is ignored: a caught RequestException does not stop the loop.
      var reply := api.UpdateSwitchPort(apiKey, serial, portNum, payload);
      assert data[..q + 1] == data[..q] + [row];
      BatchCallsSnoc(apiKey, data[..q], row);
      q := q + 1;
    }
    assert data[..q] == data;
    return true;
  }

  /** main: the options, then the loops over the rows. */
  method RenamePorts(opts: seq<OptPair>, rows: seq<Row>, api: Dashboard) returns (ending: Ending)
    modifies api
    ensures ending == Run(opts, rows).ending
    ensures api.log == old(api.log) + Run(opts, rows).calls
  {
    var setup := ParseArgs(opts);
    if setup.Exit? {
      return Exited(setup.code);
    }
    ending := ApplyEveryPass(setup.apiKey, rows, api);
  }

  /** The outer loop, for i in portsAndNames: one run of the inner loop per row, i itself unused. */
  method ApplyEveryPass(apiKey: string, rows: seq<Row>, api: Dashboard) returns (ending: Ending)
    modifies api
    ensures ending == RunRows(apiKey, rows).ending
    ensures api.log == old(api.log) + RunRows(apiKey, rows).calls
  {
    ghost var data := DataRows(rows);
    ghost var complete := FirstMalformed(data) == |data|;
    var i := 0;
    while i < |rows|
      invariant 0 <= i <= |rows|
      invariant i == 0 ==> api.log == old(api.log)
      invariant i > 0 ==> complete && api.log == old(api.log) + Repeat(BatchCalls(apiKey, data), i)
    {
      ghost var before := api.log;
      var ok := ApplyNames(apiKey, rows, api);
      if !ok {
        return IndexError;
      }
      assert data[..|data|] == data;
      ghost var batch := BatchCalls(apiKey, data);
      assert api.log == before + batch;
      assert Repeat(batch, i + 1) == Repeat(batch, i) + batch;
      i := i + 1;
    }
    return Completed;
  }

  /** Repeat(s, n) holds n copies of s. */
  lemma {:induction false} RepeatLength<T>(s: seq<T>, n: nat)
    ensures |Repeat(s, n)| == n * |s|
  {
    if n > 0 {
      RepeatLength(s, n - 1);
      assert n * |s| == (n - 1) * |s| + |s|;
    }
  }

  /** Copy p of s inside Repeat(s, n) starts at p * |s|. */
  lemma {:induction false} RepeatAt<T>(s: seq<T>, n: nat, p: nat, q: nat)
    requires p < n && q < |s|
    ensures p * |s| + q < |Repeat(s, n)|
    ensures Repeat(s, n)[p * |s| + q] == s[q]
  {
    RepeatLength(s, n - 1);
    assert n * |s| == (n - 1) * |s| + |s|;
    if p < n - 1 {
      RepeatAt(s, n - 1, p, q);
    }
  }

  /**
   * Past the option handling, a file of well-formed rows ends normally
   * after |rows| * (|rows| - 1) calls: the batch of data rows once for
   * every row of the file, header included.
   */
  lemma RunCallCount(apiKey: string, rows: seq<Row>)
    requires forall j | 1 <= j < |rows| :: WellFormed(rows[j])
    ensures RunRows(apiKey, rows).ending == Completed
    ensures |RunRows(apiKey, rows).calls| == |rows| * (|rows| - 1)
  {
    if |rows| > 0 {
      var data := DataRows(rows);
      assert forall q | 0 <= q < |data| :: data[q] == rows[q + 1];
      RepeatLength(BatchCalls(apiKey, data), |rows|);
    }
  }

  /**
   * Pass p (one per row of the file) sends data row q + 1 as call
   * p * (|rows| - 1) + q. So the header row is never sent, each pass
   * follows file order and all passes are identical.
   */
  lemma RunCallAt(apiKey: string, rows: seq<Row>, p: nat, q: nat) returns (k: nat)
    requires forall j | 1 <= j < |rows| :: WellFormed(rows[j])
    requires p < |rows| && q < |rows| - 1
    ensures k == p * (|rows| - 1) + q
    ensures k < |RunRows(apiKey, rows).calls| && RunRows(apiKey, rows).calls[k] == RowCall(apiKey, rows[q + 1])
  {
    var data := DataRows(rows);
    assert forall m | 0 <= m < |data| :: data[m] == rows[m + 1];
    RepeatAt(BatchCalls(apiKey, data), |rows|, p, q);
    k := p * (|rows| - 1) + q;
  }

  /** An empty file or one holding only the header sends nothing and ends normally. */
  lemma HeaderOnlySendsNothing(opts: seq<OptPair>, rows: seq<Row>)
    requires Configure(opts).Start? && |rows| <= 1
    ensures Run(opts, rows) == RunResult(Completed, [])
  {
  }

  /**
   * A data row with fewer than three fields aborts the run with an
   * IndexError in the first pass: exactly the data rows before it have
   * been sent, once each, in order.
   */
  lemma ShortRowAborts(opts: seq<OptPair>, rows: seq<Row>, k: nat)
    requires Configure(opts).Start?
    requires 1 <= k < |rows| && !WellFormed(rows[k])
    requires forall j | 1 <= j < k :: WellFormed(rows[j])
    ensures Run(opts, rows).ending == IndexError
    ensures |Run(opts, rows).calls| == k - 1
    ensures forall j | 1 <= j < k :: Run(opts, rows).calls[j - 1] == RowCall(Configure(opts).apiKey, rows[j])
  {
  }

  /**
   * Failing option handling ends the run before the file is read: the
   * process status is the exit code and no call is sent.
   */
  lemma SetupFailureSendsNothing(opts: seq<OptPair>, rows: seq<Row>)
    requires Configure(opts).Exit?
    ensures Run(opts, rows).calls == []
    ensures ProcessStatus(Run(opts, rows).ending) == Configure(opts).code
  {
  }

  /** The first three fields of a row, which are all main reads of it. */
  function Trim(row: Row): Row
  {
    if |row| > 3 then row[..3] else row
  }

  /** Every row cut down to its first three fields. */
  function TrimRows(rows: seq<Row>): seq<Row>
  {
    seq(|rows|, j requires 0 <= j < |rows| => Trim(rows[j]))
  }

  /** Columns after the third are never read: cutting them off changes nothing about a run. */
  lemma ExtraColumnsIgnored(opts: seq<OptPair>, rows: seq<Row>)
    ensures Run(opts, rows) == Run(opts, TrimRows(rows))
  {
    if Configure(opts).Start? {
      RunRowsTrim(Configure(opts).apiKey, rows);
    }
  }

  /** The step of ExtraColumnsIgnored past the options: trimming the rows leaves RunRows unchanged. */
  lemma RunRowsTrim(apiKey: string, rows: seq<Row>)
    ensures RunRows(apiKey, rows) == RunRows(apiKey, TrimRows(rows))
  {
    if |rows| > 0 {
      var data, tdata := DataRows(rows), DataRows(TrimRows(rows));
      assert |tdata| == |data|;
      assert forall q | 0 <= q < |data| :: tdata[q] == Trim(data[q]);
      FirstMalformedTrim(data, tdata);
      var k := FirstMalformed(data);
      BatchCallsTrim(apiKey, data[..k], tdata[..k]);
      if k == |data| {
        assert data[..k] == data && tdata[..k] == tdata;
      }
    }
  }

  /** The step of ExtraColumnsIgnored for the short-row search: trimming moves no short row. */
  lemma FirstMalformedTrim(data: seq<Row>, tdata: seq<Row>)
    requires |tdata| == |data|
    requires forall q | 0 <= q < |data| :: tdata[q] == Trim(data[q])
    ensures FirstMalformed(tdata) == FirstMalformed(data)
  {
  }

  /** The step of ExtraColumnsIgnored for one pass: trimmed well-formed rows give the same calls. */
  lemma BatchCallsTrim(apiKey: string, data: seq<Row>, tdata: seq<Row>)
    requires |tdata| == |data|
    requires forall q | 0 <= q < |data| :: WellFormed(data[q])
    requires forall q | 0 <= q < |data| :: tdata[q] == Trim(data[q])
    ensures forall q | 0 <= q < |tdata| :: WellFormed(tdata[q])
    ensures BatchCalls(apiKey, tdata) == BatchCalls(apiKey, data)
  {
  }

  /** The options of the sample run: all three required arguments, each once. */
  const SampleOpts: seq<OptPair> := [("-k", "K"), ("-o", "O"), ("-f", "ports.csv")]

  /** The sample file: a header and two rows for switch Q2XX-0000-0001. */
  const SampleRows: seq<Row> := [["PortNumber", "PortName", "Switch SerialNumber"],
                                 ["1", "Uplink-A", "Q2XX-0000-0001"],
                                 ["2", "Desk-12", "Q2XX-0000-0001"]]

  lemma SampleOptsStart()
    ensures Configure(SampleOpts) == Start("K", "O", "ports.csv")
  {
    assert forall m | 0 <= m < |SampleOpts| :: Accepted(SampleOpts[m].0) && SampleOpts[m].0 != "-h";
    assert LastArg(SampleOpts, "-k") == "K";
    assert LastArg(SampleOpts, "-o") == "O";
    assert LastArg(SampleOpts, "-f") == "ports.csv";
  }

  /**
   * The sample file run with -k, -o and -f: six calls, the file's two
   * rows three times over.
   */
  lemma SampleFileSentThreeTimes()
    ensures
      var first := PortUpdate("K", "Q2XX-0000-0001", "1", "{\"name\": \"Uplink-A\"}");
      var second := PortUpdate("K", "Q2XX-0000-0001", "2", "{\"name\": \"Desk-12\"}");
      Run(SampleOpts, SampleRows) == RunResult(Completed, [first, second, first, second, first, second])
  {
    SampleOptsStart();
    var data := DataRows(SampleRows);
    assert data == [SampleRows[1], SampleRows[2]];
    assert FirstMalformed(data) == 2;
    var first := PortUpdate("K", "Q2XX-0000-0001", "1", "{\"name\": \"Uplink-A\"}");
    var second := PortUpdate("K", "Q2XX-0000-0001", "2", "{\"name\": \"Desk-12\"}");
    assert RowCall("K", data[0]) == first;
    assert RowCall("K", data[1]) == second;
    var batch := BatchCalls("K", data);
    assert batch == [first, second];
    assert Repeat(batch, 1) == batch;
    assert Repeat(batch, 2) == batch + batch;
    assert Repeat(batch, 3) == [first, second, first, second, first, second];
  }
}
