/** The `__main__` loop: fetch, fall back to an empty snapshot when the fetch
    raises, write, sleep, repeat; a KeyboardInterrupt ends it. The never-ending
    `while True` is run here over a finite script giving, cycle by cycle, what
    the outside world does: the fetch outcome, the store's answer and whether
    and where an interrupt arrives. */
module PollLoop {
  import opened Wrappers
  import opened PyValues
  import opened StatusFetcher
  import opened MetricWriter

  /** What the HTTP GET and JSON decoding deliver: the decoded array, or an
      exception (connection error, timeout, non-2xx status, a body that is not
      JSON, or one whose iteration fails or yields something other than
      objects). An empty JSON object or string iterates like `Fetched([])`. */
  datatype FetchOutcome = Fetched(items: seq<StatusItem>) | FetchFailed(reason: string)

  /** Where in an iteration a KeyboardInterrupt arrives, if at all. */
  datatype Interrupt =
    | NoInterrupt
      // while fetching or printing the snapshot
    | BeforeWrite
      // inside write_to_influx
    | DuringWrite
      // after write_to_influx returned or raised: in the print or the sleep
      // that follow
    | AfterWrite

  datatype CycleInput = CycleInput(fetch: FetchOutcome, store: StoreOutcome, interrupt: Interrupt)

  /** How the loop ends: through `except KeyboardInterrupt` ("Stopped by
      user", `break`), or by an interrupt that arrives inside the
      `except Exception` handler, which the same `try` does not catch, so it
      leaves the loop as an uncaught exception. */
  datatype Exit = StoppedByUser | InterruptEscapes

  /** What one iteration did: the snapshot handed to `write_to_influx` (if it
      was called), how that call ended (if it did), whether it reached the
      print-and-sleep step that follows the write (`sleeps`; an `AfterWrite`
      interrupt may arrive in that print, before the sleep starts), and
      whether the loop ended. */
  datatype CycleReport = CycleReport(writerInput: Option<Snapshot>, write: Option<WriteReport>, sleeps: bool, exit: Option<Exit>)

  datatype RunReport = RunReport(cycles: seq<CycleReport>, exit: Option<Exit>)

  /** The inner `try`: the snapshot of this cycle; an exception from the
      request, the decoding or `int()` gives `{}`. */
  function FetchStage(f: FetchOutcome): (m: Snapshot)
    ensures WellTyped(m)
    ensures f.FetchFailed? ==> m == map[]
    ensures f.Fetched? ==> m == (if Normalise(f.items).Success? then Normalise(f.items).value else map[])
  {
    match f
    case FetchFailed(_) => map[]
    case Fetched(items) =>
      OnlySnapshotKeys(items);
      var r := Normalise(items);
      if r.Success? then r.value else map[]
  }

  /** One iteration of the loop. */
  function Cycle(cfg: InfluxConfig, c: CycleInput): (r: CycleReport)
    ensures r.exit.Some? <==> c.interrupt != NoInterrupt
    ensures r.writerInput.Some? <==> c.interrupt != BeforeWrite
    ensures r.writerInput.Some? ==> r.writerInput.value == FetchStage(c.fetch)
    ensures r.write.Some? <==> c.interrupt == NoInterrupt || c.interrupt == AfterWrite
    ensures r.write.Some? ==> r.write.value == WriteToInflux(cfg, FetchStage(c.fetch), c.store)
    ensures r.sleeps <==> r.write.Some?
    ensures r.exit == Some(InterruptEscapes) <==> c.interrupt == AfterWrite && !r.write.value.result.Written?
  {
    match c.interrupt
    case BeforeWrite => CycleReport(None, None, false, Some(StoppedByUser))
    case DuringWrite => CycleReport(Some(FetchStage(c.fetch)), None, false, Some(StoppedByUser))
    case NoInterrupt =>
      CycleReport(Some(FetchStage(c.fetch)), Some(WriteToInflux(cfg, FetchStage(c.fetch), c.store)), true, None)
    case AfterWrite =>
      var w := WriteToInflux(cfg, FetchStage(c.fetch), c.store);
      CycleReport(Some(FetchStage(c.fetch)), Some(w), true,
                  if w.result.Written? then Some(StoppedByUser) else Some(InterruptEscapes))
  }

  /** The loop over a script of cycle inputs, up to the cycle that ends it:
      never more cycles than the script, and all of them when none ends the
      loop. */
  function Run(cfg: InfluxConfig, script: seq<CycleInput>): (r: RunReport)
    ensures |r.cycles| <= |script|
    ensures r.exit.None? ==> |r.cycles| == |script|
    decreases |script|
  {
    if script == [] then RunReport([], None)
    else
      var r := Cycle(cfg, script[0]);
      if r.exit.Some? then RunReport([r], r.exit)
      else
        var rest := Run(cfg, script[1..]);
        RunReport([r] + rest.cycles, rest.exit)
  }

  /** One pass through the body of the `while True` loop. */
  method RunCycle(cfg: InfluxConfig, c: CycleInput) returns (report: CycleReport)
    ensures report == Cycle(cfg, c)
  {
    if c.interrupt == BeforeWrite {
      report := CycleReport(None, None, false, Some(StoppedByUser));
    } else {
      var result: Snapshot;
      match c.fetch {
        case FetchFailed(_) =>
          result := map[];
        case Fetched(items) =>
          var r := GetDslInfo(items);
          result := if r.Success? then r.value else map[];
      }
      if c.interrupt == DuringWrite {
        report := CycleReport(Some(result), None, false, Some(StoppedByUser));
      } else {
        var w := WriteToInflux(cfg, result, c.store);
        var stop: Option<Exit> := None;
        if c.interrupt == AfterWrite {
          stop := if w.result.Written? then Some(StoppedByUser) else Some(InterruptEscapes);
        }
        report := CycleReport(Some(result), Some(w), true, stop);
      }
    }
  }

  /** The `while True` loop of `__main__`, for as many cycles as the script
      gives. */
  method RunMonitor(cfg: InfluxConfig, script: seq<CycleInput>) returns (reports: seq<CycleReport>, exit: Option<Exit>)
    ensures RunReport(reports, exit) == Run(cfg, script)
  {
    reports := [];
    exit := None;
    var i := 0;
    while i < |script|
      invariant 0 <= i <= |script|
      invariant Run(cfg, script[..i]) == RunReport(reports, None)
    {
      var report := RunCycle(cfg, script[i]);
      RunPrefixStep(cfg, script, i, reports);
      reports := reports + [report];
      if report.exit.Some? {
        exit := report.exit;
        return;
      }
      i := i + 1;
    }
    assert script[..i] == script;
  }

  /** One more cycle of a run that has not ended: it either ends the whole
      run or extends the prefix. */
  lemma {:induction false} RunPrefixStep(cfg: InfluxConfig, script: seq<CycleInput>, i: nat, reports: seq<CycleReport>)
    requires i < |script| && Run(cfg, script[..i]) == RunReport(reports, None)
    ensures Cycle(cfg, script[i]).exit.None? ==>
              Run(cfg, script[..i + 1]) == RunReport(reports + [Cycle(cfg, script[i])], None)
    ensures Cycle(cfg, script[i]).exit.Some? ==>
              Run(cfg, script) == RunReport(reports + [Cycle(cfg, script[i])], Cycle(cfg, script[i]).exit)
  {
    var c := script[i];
    RunSnoc(cfg, script[..i], c);
    assert script[..i + 1] == script[..i] + [c];
    if Cycle(cfg, c).exit.Some? {
      RunStopsAtExit(cfg, script[..i + 1], script[i + 1..]);
      assert script == script[..i + 1] + script[i + 1..];
    }
  }

  lemma {:induction false} RunSnoc(cfg: InfluxConfig, p: seq<CycleInput>, c: CycleInput)
    requires Run(cfg, p).exit == None
    ensures Run(cfg, p + [c]) == RunReport(Run(cfg, p).cycles + [Cycle(cfg, c)], Cycle(cfg, c).exit)
    decreases |p|
  {
    if p != [] {
      assert (p + [c])[1..] == p[1..] + [c];
      RunSnoc(cfg, p[1..], c);
    }
  }

  lemma {:induction false} RunStopsAtExit(cfg: InfluxConfig, p: seq<CycleInput>, q: seq<CycleInput>)
    requires Run(cfg, p).exit.Some?
    ensures Run(cfg, p + q) == Run(cfg, p)
    decreases |p|
  {
    if Cycle(cfg, p[0]).exit.None? {
      assert (p + q)[1..] == p[1..] + q;
      RunStopsAtExit(cfg, p[1..], q);
    }
  }

  /** The shape of a run: the cycles are those of the script, in order; only
      the last one may end the loop, and the run covers the whole script when
      none does. */
  lemma {:induction false} RunStructure(cfg: InfluxConfig, script: seq<CycleInput>)
    ensures var R := Run(cfg, script);
            && |R.cycles| <= |script|
            && (forall j :: 0 <= j < |R.cycles| ==> R.cycles[j] == Cycle(cfg, script[j]))
            && (forall j :: 0 <= j < |R.cycles| - 1 ==> R.cycles[j].exit == None)
            && (R.exit.None? ==> |R.cycles| == |script| && forall j :: 0 <= j < |R.cycles| ==> R.cycles[j].exit == None)
            && (R.exit.Some? ==> |R.cycles| > 0 && R.exit == R.cycles[|R.cycles| - 1].exit)
    decreases |script|
  {
    RunCyclesFollowScript(cfg, script);
    RunExitIsLast(cfg, script);
  }

  lemma {:induction false} RunCyclesFollowScript(cfg: InfluxConfig, script: seq<CycleInput>)
    ensures forall j :: 0 <= j < |Run(cfg, script).cycles| ==> Run(cfg, script).cycles[j] == Cycle(cfg, script[j])
    decreases |script|
  {
    if script != [] && Cycle(cfg, script[0]).exit.None? {
      var rest := script[1..];
      RunCyclesFollowScript(cfg, rest);
      var R, rr := Run(cfg, script), Run(cfg, rest);
      assert R.cycles == [Cycle(cfg, script[0])] + rr.cycles;
      forall j | 0 < j < |R.cycles| ensures R.cycles[j] == Cycle(cfg, script[j]) {
        assert R.cycles[j] == rr.cycles[j - 1];
        assert script[j] == rest[j - 1];
      }
    }
  }

  lemma {:induction false} RunExitIsLast(cfg: InfluxConfig, script: seq<CycleInput>)
    ensures forall j :: 0 <= j < |Run(cfg, script).cycles| - 1 ==> Run(cfg, script).cycles[j].exit == None
    ensures Run(cfg, script).exit.None? ==> forall j :: 0 <= j < |Run(cfg, script).cycles| ==> Run(cfg, script).cycles[j].exit == None
    ensures Run(cfg, script).exit.Some? ==>
              |Run(cfg, script).cycles| > 0 && Run(cfg, script).exit == Run(cfg, script).cycles[|Run(cfg, script).cycles| - 1].exit
    decreases |script|
  {
    if script != [] {
      var R, c0 := Run(cfg, script), Cycle(cfg, script[0]);
      if c0.exit.None? {
        var rest := script[1..];
        RunExitIsLast(cfg, rest);
        var rr := Run(cfg, rest);
        assert R == RunReport([c0] + rr.cycles, rr.exit);
        forall j | 0 < j < |R.cycles| ensures R.cycles[j] == rr.cycles[j - 1] {
        }
      } else {
        assert R == RunReport([c0], c0.exit);
      }
    }
  }

  /** Only the interrupt stops the loop: every cycle before the last one had
      no interrupt (so it wrote and reached its sleep, whatever went wrong), and the loop
      ends exactly at the first cycle with an interrupt, or runs the whole
      script when there is none. */
  lemma {:induction false} OnlyInterruptStops(cfg: InfluxConfig, script: seq<CycleInput>)
    ensures Run(cfg, script).exit.Some? <==> exists i :: 0 <= i < |script| && script[i].interrupt != NoInterrupt
    ensures |Run(cfg, script).cycles| <= |script|
    ensures forall j :: 0 <= j < |Run(cfg, script).cycles| - 1 ==> script[j].interrupt == NoInterrupt && Run(cfg, script).cycles[j].sleeps
    ensures Run(cfg, script).exit.Some? ==>
              var n := |Run(cfg, script).cycles|;
              0 < n <= |script| && script[n - 1].interrupt != NoInterrupt
    ensures Run(cfg, script).exit.None? ==> |Run(cfg, script).cycles| == |script|
  {
    RunStructure(cfg, script);
    var R := Run(cfg, script);
    if R.exit.None? {
      forall i | 0 <= i < |script| ensures script[i].interrupt == NoInterrupt {
        assert R.cycles[i] == Cycle(cfg, script[i]);
      }
    }
    if R.exit.Some? {
      assert R.cycles[|R.cycles| - 1] == Cycle(cfg, script[|R.cycles| - 1]);
    }
    forall j | 0 <= j < |R.cycles| - 1 ensures script[j].interrupt == NoInterrupt && R.cycles[j].sleeps {
      assert R.cycles[j] == Cycle(cfg, script[j]);
    }
  }

  /** A failed fetch never prevents a write attempt: unless interrupted
      first, a cycle whose fetch failed hands `{}` to the writer, which
      (configuration permitting) sends the all-default point. */
  lemma {:induction false} FetchFailureStillWrites(cfg: InfluxConfig, c: CycleInput)
    requires c.fetch.FetchFailed? && c.interrupt != BeforeWrite
    ensures Cycle(cfg, c).writerInput == Some(map[])
    ensures c.interrupt != DuringWrite ==>
              && Cycle(cfg, c).write.Some?
              && (|| Cycle(cfg, c).write.value.result.ConfigFailed?
                  || Cycle(cfg, c).write.value.effects[1] ==
                       PointSent(cfg.bucket, Measurement("dsl_status", "speedport", IntField(0), IntField(0),
                                                         BoolField(false), BoolField(false), BoolField(false))))
  {
  }

  /** From status items to the written point: a field holds the value
      converted from the last item writing its key, or its default when no
      item writes it. */
  lemma {:induction false} WrittenFieldFromItems(items: seq<StatusItem>, k: string)
    requires Normalise(items).Success? && k in SnapshotKeys
    ensures (forall i :: 0 <= i < |items| ==> !Writes(items[i], k)) ==>
              FieldOf(ToMeasurement(Normalise(items).value), k) == DefaultFor(k)
    ensures forall i :: LastWriter(items, i, k) ==>
              Coerce(k, items[i].varvalue) == Some(FieldOf(ToMeasurement(Normalise(items).value), k))
  {
    var m := Normalise(items).value;
    PresentIffWritten(items, k);
    MeasurementIsTotal(m, k);
    if k in m {
      LastWriteWins(items, k);
      var i0 :| LastWriter(items, i0, k) && Coerce(k, items[i0].varvalue) == Some(m[k]);
      forall i | LastWriter(items, i, k) ensures i == i0 { }
    }
  }

  /** Scenario: a downstream rate given as a string and an online status. */
  lemma {:induction false} ScenarioRateAndOnline()
    ensures var items := [
              StatusItem(Some(JStr("value")), Some(JStr("dsl_downstream")), Some(JStr("50000"))),
              StatusItem(Some(JStr("status")), Some(JStr("onlinestatus")), Some(JStr("online")))];
            && Normalise(items) == Success(map["downstream" := IntField(50000), "online" := BoolField(true)])
            && ToMeasurement(Normalise(items).value) ==
                 Measurement("dsl_status", "speedport", IntField(50000), IntField(0),
                             BoolField(false), BoolField(true), BoolField(false))
  {
    var x := StatusItem(Some(JStr("value")), Some(JStr("dsl_downstream")), Some(JStr("50000")));
    var y := StatusItem(Some(JStr("status")), Some(JStr("onlinestatus")), Some(JStr("online")));
    NormaliseTwo(x, y);
    FiftyThousandParses();
    var m1 := map["downstream" := IntField(50000)];
    assert Step(Success(map[]), x) == Success(m1);
    OnlineStatusStep(m1);
    ScenarioPoint();
  }

  lemma {:induction false} ScenarioPoint()
    ensures ToMeasurement(map["downstream" := IntField(50000), "online" := BoolField(true)]) ==
              Measurement("dsl_status", "speedport", IntField(50000), IntField(0),
                          BoolField(false), BoolField(true), BoolField(false))
  {
    var m := map["downstream" := IntField(50000), "online" := BoolField(true)];
    assert m.Keys == {"downstream", "online"};
    assert FieldOr(m, "upstream") == IntField(0);
    assert FieldOr(m, "link") == BoolField(false);
    assert FieldOr(m, "connected") == BoolField(false);
  }

  lemma {:induction false} OnlineStatusStep(m: Snapshot)
    ensures Step(Success(m), StatusItem(Some(JStr("status")), Some(JStr("onlinestatus")), Some(JStr("online"))))
            == Success(m["online" := BoolField(true)])
  {
    assert TargetKey(Some(JStr("onlinestatus"))) == Some("online");
  }

  lemma {:induction false} NormaliseTwo(x: StatusItem, y: StatusItem)
    ensures Normalise([x, y]) == Step(Step(Success(map[]), x), y)
  {
    assert [x, y][..1] == [x];
    assert [x][..0] == [];
    assert NormaliseFrom(Success(map[]), [x]) == Step(Success(map[]), x);
  }

  lemma {:induction false} FiftyThousandParses()
    ensures Coerce("downstream", Some(JStr("50000"))) == Some(IntField(50000))
  {
    assert NatToDecimal(5) == "5";
    assert NatToDecimal(50) == "50";
    assert NatToDecimal(500) == "500";
    assert NatToDecimal(5000) == "5000";
    assert IntToDecimal(50000) == "50000";
    IntDecimalRoundTrip(50000);
  }

  /** Scenario: the configuration lacks the token, so every uninterrupted
      cycle fails validation before any client exists, reports the token,
      sleeps and goes on. */
  lemma {:induction false} ScenarioTokenUnset(url: string, org: string, bucket: string, c: CycleInput)
    requires url != "" && org != "" && c.interrupt == NoInterrupt
    ensures var r := Cycle(InfluxConfig(Some(url), None, Some(org), bucket), c);
            && r.write.value == WriteReport(ConfigFailed(ConfigError(["INFLUX_TOKEN"])), [])
            && Message(r.write.value.result.error) == "Missing required environment variables: INFLUX_TOKEN"
            && r.sleeps && r.exit == None
  {
    var cfg := InfluxConfig(Some(url), None, Some(org), bucket);
    MissingSettingsUnfold(cfg);
    assert MissingSettings(cfg) == ["INFLUX_TOKEN"];
    OneMissingMessage(cfg);
    assert Lead + "INFLUX_TOKEN" == "Missing required environment variables: INFLUX_TOKEN";
  }

  /** Scenario: an interrupt during the sleep after a successful write ends
      the loop cleanly; no later cycle runs. */
  lemma {:induction false} ScenarioInterruptDuringSleep(cfg: InfluxConfig, c: CycleInput, later: seq<CycleInput>)
    requires !Unset(cfg.url) && !Unset(cfg.token) && !Unset(cfg.org)
    requires c.store == Stored && c.interrupt == AfterWrite
    ensures Run(cfg, [c] + later) == RunReport([Cycle(cfg, c)], Some(StoppedByUser))
  {
  }
}
