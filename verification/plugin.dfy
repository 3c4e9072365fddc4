/** The whole check (main.go:128-253) once its I/O is stripped: the URL
    normaliser, the roster/liveness fold, the service-state gate and the
    threshold chain, each able to end the run, and the reporter. `Check` is the
    specification; `CheckRun` keeps the source's global variables and runs the
    same steps in place. */
module Plugin {
  import opened Options
  import opened Strings
  import opened Nagios
  import opened PerfData
  import opened Url
  import opened Liveness
  import opened ServiceState
  import opened Thresholds

  /** Everything the check reads: the `url.Parse` result for `-l`, the typed projections
      of the API replies, the elapsed time and the threshold options. */
  datatype Input = Input(
    url: Option<ParsedUrl>,
    totalClusterNodes: real,
    probes: seq<Probe>,
    system: SystemInfo,
    sample: Sample,
    elapsedText: string,
    limits: Limits)

  /** The decided outcome, and whether `perf` had run (the metrics were sampled) before `quit`. */
  datatype Verdict = Verdict(outcome: Outcome, sampled: bool)

  function ContextOf(inp: Input): Context {
    Context(inp.sample, inp.totalClusterNodes, AliveReport(inp.probes), inp.elapsedText)
  }

  function Decide(inp: Input, parse: FloatParser, show: Formatter): (v: Verdict)
    ensures IsStatus(v.outcome.status)
    ensures v.sampled <==> Normalise(inp.url).Continue? && DeadHosts(inp.probes) == [] && Gate(inp.system).None?
  {
    NoDeadIffAllAlive(inp.probes);
    GateOrder(inp.system);
    EvaluateStatus(inp.limits, inp.sample, TextsOf(ContextOf(inp), show), parse);
    match Normalise(inp.url)
    case Exit(o) => Verdict(o, false)
    case Continue(_) =>
      var dead := DeadReport(inp.probes);
      if |dead| > 0 then Verdict(Outcome(CRITICAL, dead), false)
      else
        match Gate(inp.system)
        case Some(o) => Verdict(o, false)
        case None => Verdict(Evaluate(inp.limits, inp.sample, TextsOf(ContextOf(inp), show), parse), true)
  }

  /** The perfdata printed: the zeros of `init` on every exit before sampling, else the sample. */
  function PrintedPerf(inp: Input, v: Verdict, show: Formatter): string {
    if v.sampled then Perf(inp.sample, show) else Perf(ZeroSample, show)
  }

  /** What one run of the plugin leaves behind. */
  function Check(inp: Input, parse: FloatParser, show: Formatter): (r: Report)
    ensures IsStatus(r.exitCode)
  {
    var v := Decide(inp, parse, show);
    Emit(v.outcome, PrintedPerf(inp, v, show))
  }

  // ---- Which stage decides ----

  /** A URL that `parse` rejects ends the run UNKNOWN before any query, with zero perfdata. */
  lemma UrlDecides(inp: Input, parse: FloatParser, show: Formatter)
    requires Normalise(inp.url).Exit?
    ensures Check(inp, parse, show) == Emit(Normalise(inp.url).outcome, Perf(ZeroSample, show))
    ensures Check(inp, parse, show).exitCode == UNKNOWN
  {
  }

  /** A dead node ends the run CRITICAL with the list of dead nodes, whatever the service
      state, the metrics and the thresholds; the perfdata is still the zeros. */
  lemma DeadNodeDecides(inp: Input, parse: FloatParser, show: Formatter)
    requires Normalise(inp.url).Continue?
    requires exists i | 0 <= i < |inp.probes| :: !IsAlive(inp.probes[i])
    ensures Check(inp, parse, show) == Emit(Outcome(CRITICAL, DeadReport(inp.probes)), Perf(ZeroSample, show))
  {
    NoDeadIffAllAlive(inp.probes);
  }

  /** With every node alive, a failing service-state check ends the run before the thresholds are read. */
  lemma GateDecides(inp: Input, parse: FloatParser, show: Formatter)
    requires Normalise(inp.url).Continue?
    requires forall i | 0 <= i < |inp.probes| :: IsAlive(inp.probes[i])
    requires Gate(inp.system).Some?
    ensures Check(inp, parse, show) == Emit(Gate(inp.system).value, Perf(ZeroSample, show))
  {
    NoDeadIffAllAlive(inp.probes);
  }

  /** Only when every earlier stage passes do the thresholds decide, with the sampled perfdata
      and a console summary listing every node as alive. */
  lemma ThresholdsDecide(inp: Input, parse: FloatParser, show: Formatter)
    requires Normalise(inp.url).Continue?
    requires forall i | 0 <= i < |inp.probes| :: IsAlive(inp.probes[i])
    requires Gate(inp.system).None?
    ensures Decide(inp, parse, show) == Verdict(Evaluate(inp.limits, inp.sample, TextsOf(ContextOf(inp), show), parse), true)
    ensures Check(inp, parse, show)
            == Emit(Evaluate(inp.limits, inp.sample, TextsOf(ContextOf(inp), show), parse), Perf(inp.sample, show))
    ensures ContextOf(inp).runningNode == Concat(AliveLines(inp.probes))
  {
    NoDeadIffAllAlive(inp.probes);
    AliveReportLists(inp.probes);
  }

  /** Every line the plugin prints reads back as its exit code, its message and the eight
      perfdata entries in order, whichever stage decided. */
  lemma CheckLineReadable(inp: Input, parse: FloatParser, show: Formatter)
    requires PlainFormatter(show)
    ensures var r := Check(inp, parse, show);
            var v := Decide(inp, parse, show);
            var line := ReadLine(r.line);
            && line.Some?
            && line.value.status == r.exitCode
            && line.value.message == v.outcome.message
            && ReadFields(line.value.perfdata)
               == Fields(if v.sampled then inp.sample else ZeroSample, show)
  {
    var v := Decide(inp, parse, show);
    var pdata := PrintedPerf(inp, v, show);
    PerfRoundTrip(if v.sampled then inp.sample else ZeroSample, show);
    ReadEmitted(v.outcome, pdata);
  }

  // ---- End-to-end scenarios ----

  /** A roster node `n-a` on `host-a` that `/cluster` omits gives exit 2 and names the host. */
  lemma DeadNodeScenario(inp: Input, parse: FloatParser, show: Formatter)
    requires Normalise(inp.url).Continue?
    requires inp.probes == [Probe(RosterNode("n-a", "host-a"), map[])]
    ensures Check(inp, parse, show).exitCode == CRITICAL
    ensures Decide(inp, parse, show).outcome.message == "Node: host-a - not alive"
  {
    assert !IsAlive(inp.probes[0]);
    DeadNodeDecides(inp, parse, show);
    assert inp.probes[..0] == [];
  }

  /** `-w 10 -c 100` with 500 index failures ends CRITICAL with the critical index summary. */
  lemma IndexCriticalScenario(inp: Input, parse: FloatParser, show: Formatter)
    requires Normalise(inp.url).Continue?
    requires forall i | 0 <= i < |inp.probes| :: IsAlive(inp.probes[i])
    requires Gate(inp.system).None?
    requires inp.limits == Limits("10", "100", "", "", "")
    requires parse("10") == Some(10.0) && parse("100") == Some(100.0)
    requires inp.sample.indexFailures == 500.0
    ensures Check(inp, parse, show).exitCode == CRITICAL
    ensures HasPrefix(Check(inp, parse, show).line, "CRITICAL" + " - " + "Index Failure above Critical Limit!")
  {
    var texts := TextsOf(ContextOf(inp), show);
    assert IndexCritBreached(inp.limits, inp.sample.indexFailures, parse);
    IndexCriticalWins(inp.limits, inp.sample, texts, parse);
    var h := "Index Failure above Critical Limit!";
    var m := IndexSummary(h, inp.sample, inp.elapsedText, show);
    var o := Outcome(CRITICAL, m);
    assert texts.indexCrit == m;
    ThresholdsDecide(inp, parse, show);
    PrefixOfPrefix(m, h, "\nService is running\n");
    EmitShowsMessagePrefix(o, Perf(inp.sample, show), h);
  }

  /** No threshold options: exit 2 with "no thresholds set", whatever the metrics. */
  lemma NoThresholdsScenario(inp: Input, parse: FloatParser, show: Formatter)
    requires Normalise(inp.url).Continue?
    requires forall i | 0 <= i < |inp.probes| :: IsAlive(inp.probes[i])
    requires Gate(inp.system).None?
    requires NoneSet(inp.limits)
    ensures Check(inp, parse, show) == Emit(NoThresholds, Perf(inp.sample, show))
  {
    NoThresholdsIsCritical(inp.limits, inp.sample, TextsOf(ContextOf(inp), show), parse);
    ThresholdsDecide(inp, parse, show);
  }

  /** `-uc 1000` with 2000 uncommitted entries and no index limits: exit 2 with the
      uncommitted message, the "service is running" line and the console summary. */
  lemma UncommittedScenario(inp: Input, parse: FloatParser, show: Formatter)
    requires Normalise(inp.url).Continue?
    requires forall i | 0 <= i < |inp.probes| :: IsAlive(inp.probes[i])
    requires Gate(inp.system).None?
    requires inp.limits == Limits("", "", "1000", "", "")
    requires parse("1000") == Some(1000.0)
    requires inp.sample.uncommitted == 2000.0
    ensures Check(inp, parse, show).exitCode == CRITICAL
    ensures HasPrefix(Check(inp, parse, show).line, "CRITICAL" + " - " + "Uncommited above Warning Limit!")
    ensures Decide(inp, parse, show).outcome.message
            == "Uncommited above Warning Limit!"
               + ("\nService is running\n" + Console(inp.sample, inp.totalClusterNodes, AliveReport(inp.probes), show))
  {
    var t := TextsOf(ContextOf(inp), show);
    UncommittedOnlyIsCritical(inp.limits, inp.sample, t, parse);
    ThresholdsDecide(inp, parse, show);
    EmitShowsMessagePrefix(Evaluate(inp.limits, inp.sample, t, parse), Perf(inp.sample, show),
                           "Uncommited above Warning Limit!");
  }

  /** The limits and metrics of `UncommittedScenario`: only the uncommitted check fires. */
  lemma UncommittedOnlyIsCritical(l: Limits, s: Sample, t: Texts, parse: FloatParser)
    requires l == Limits("", "", "1000", "", "")
    requires parse("1000") == Some(1000.0)
    requires s.uncommitted == 2000.0
    ensures Evaluate(l, s, t, parse)
            == Outcome(CRITICAL, "Uncommited above Warning Limit!" + ("\nService is running\n" + t.console))
    ensures HasPrefix(Evaluate(l, s, t, parse).message, "Uncommited above Warning Limit!")
  {
    LaterChecksInOrder(l, s, t, parse);
    AppendAssoc("Uncommited above Warning Limit!", "\nService is running\n", t.console);
    PrefixOfPrefix(Evaluate(l, s, t, parse).message, "Uncommited above Warning Limit!",
                   "\nService is running\n" + t.console);
  }
  /** All five limits set and every metric inside them: exit 0, "Service is running!",
      and the sampled perfdata with `uncommited=0;;;;;` among its entries. */
  lemma HappyPathScenario(inp: Input, parse: FloatParser, show: Formatter)
    requires Normalise(inp.url).Continue?
    requires forall i | 0 <= i < |inp.probes| :: IsAlive(inp.probes[i])
    requires Gate(inp.system).None?
    requires inp.limits == Limits("10", "100", "1000", "5", "10")
    requires parse("10") == Some(10.0) && parse("100") == Some(100.0)
    requires parse("1000") == Some(1000.0) && parse("5") == Some(5.0)
    requires inp.sample.indexFailures == 0.0 && inp.sample.uncommitted == 0.0
    requires inp.sample.processBufferTime == 0.001 && inp.sample.inputBuffer == 500.0
    ensures Check(inp, parse, show).exitCode == OK
    ensures HasPrefix(Check(inp, parse, show).line, "OK" + " - " + "Service is running!")
    ensures PlainFormatter(show) && show(Fixed(0), 0.0) == "0" ==>
              var line := ReadLine(Check(inp, parse, show).line);
              line.Some? && Field("uncommited", "0", ";;;;;") in ReadFields(line.value.perfdata)
  {
    var t := TextsOf(ContextOf(inp), show);
    var pdata := Perf(inp.sample, show);
    InsideLimitsIsHealthy(inp.limits, inp.sample, t, parse);
    ThresholdsDecide(inp, parse, show);
    assert Check(inp, parse, show) == Emit(Healthy(t), pdata);
    EmitShowsMessagePrefix(Healthy(t), pdata, "Service is running!");
    if PlainFormatter(show) && show(Fixed(0), 0.0) == "0" {
      PerfRoundTrip(inp.sample, show);
      ReadEmitted(Healthy(t), pdata);
      assert Fields(inp.sample, show)[5] == Field("uncommited", "0", ";;;;;");
    }
  }

  /** The limits and metrics of `HappyPathScenario`: no check of the chain fires. */
  lemma InsideLimitsIsHealthy(l: Limits, s: Sample, t: Texts, parse: FloatParser)
    requires l == Limits("10", "100", "1000", "5", "10")
    requires parse("10") == Some(10.0) && parse("100") == Some(100.0)
    requires parse("1000") == Some(1000.0) && parse("5") == Some(5.0)
    requires s.indexFailures == 0.0 && s.uncommitted == 0.0
    requires s.processBufferTime == 0.001 && s.inputBuffer == 500.0
    ensures Evaluate(l, s, t, parse) == Healthy(t)
  {
    assert IndexWarnCheck(l, s, t, parse).None?;
    assert IndexCritCheck(l, s, t, parse).None?;
    assert UncommittedCheck(l, s, t, parse).None?;
    assert ProcessBufferCheck(l, s, t, parse).None?;
    assert InputBufferCheck(l, s, t, parse).None?;
    LaterChecksInOrder(l, s, t, parse);
  }

  // ---- The globals of main.go and the steps that update them in place ----

  /** The process-wide variables of one invocation: `pdata`, `critical_node`, `running_node`. */
  class CheckRun {
    const show: Formatter
    var pdata: string
    var criticalNode: string
    var runningNode: string

    /** `init`: perfdata preset to zeros, node lists empty. */
    constructor (show: Formatter)
      ensures this.show == show
      ensures pdata == Perf(ZeroSample, show) && criticalNode == "" && runningNode == ""
    {
      this.show := show;
      pdata := Perf(ZeroSample, show);
      criticalNode := "";
      runningNode := "";
    }

    /** `perf(...)`: overwrites `pdata`. */
    method SetPerf(s: Sample)
      modifies this`pdata
      ensures pdata == Perf(s, show)
    {
      pdata := Perf(s, show);
    }

    /** The node loop: appends to `critical_node` for each dead node and to `running_node`
        for every node, and counts both. */
    method CheckNodes(probes: seq<Probe>) returns (runNodeOk: nat, runNodeErr: nat)
      modifies this`criticalNode, this`runningNode
      ensures criticalNode == old(criticalNode) + DeadReport(probes)
      ensures runningNode == old(runningNode) + AliveReport(probes)
      ensures runNodeOk == |probes| && runNodeErr == |DeadHosts(probes)|
    {
      runNodeOk, runNodeErr := 0, 0;
      ghost var dead0, alive0 := criticalNode, runningNode;
      for i := 0 to |probes|
        invariant criticalNode == dead0 + DeadReport(probes[..i])
        invariant runningNode == alive0 + AliveReport(probes[..i])
        invariant runNodeOk == i && runNodeErr == |DeadHosts(probes[..i])|
      {
        FoldStep(probes, i);
        var p := probes[i];
        AppendAssoc(alive0, AliveReport(probes[..i]), AliveLine(p.node.hostname));
        if !IsAlive(p) {
          AppendAssoc(dead0, DeadReport(probes[..i]), DeadLine(p.node.hostname));
          criticalNode := criticalNode + DeadLine(p.node.hostname);
          runNodeErr := runNodeErr + 1;
        }
        runningNode := runningNode + AliveLine(p.node.hostname);
        runNodeOk := runNodeOk + 1;
      }
      assert probes[..|probes|] == probes;
    }

    /** `quit`: the outcome with the current `pdata`. */
    method Quit(o: Outcome) returns (r: Report)
      ensures r == Emit(o, pdata)
    {
      r := Emit(o, pdata);
    }

    /** `main` after flag parsing, on a fresh set of globals: the same report as `Check`. */
    method Run(inp: Input, parse: FloatParser) returns (r: Report)
      requires pdata == Perf(ZeroSample, show) && criticalNode == "" && runningNode == ""
      modifies this
      ensures r == Check(inp, parse, show)
      ensures pdata == PrintedPerf(inp, Decide(inp, parse, show), show)
      ensures Normalise(inp.url).Exit? ==> criticalNode == "" && runningNode == ""
      ensures Normalise(inp.url).Continue? ==>
                criticalNode == DeadReport(inp.probes) && runningNode == AliveReport(inp.probes)
    {
      var base := Normalise(inp.url);
      if base.Exit? {
        r := Quit(base.outcome);
        UrlDecides(inp, parse, show);
        return;
      }
      var ok, err := CheckNodes(inp.probes);
      assert criticalNode == DeadReport(inp.probes) && runningNode == AliveReport(inp.probes);
      NoDeadIffAllAlive(inp.probes);
      if |criticalNode| > 0 {
        r := Quit(Outcome(CRITICAL, criticalNode));
        return;
      }
      var gate := Gate(inp.system);
      if gate.Some? {
        r := Quit(gate.value);
        GateDecides(inp, parse, show);
        return;
      }
      SetPerf(inp.sample);
      var ctx := Context(inp.sample, inp.totalClusterNodes, runningNode, inp.elapsedText);
      assert ctx == ContextOf(inp);
      ThresholdsDecide(inp, parse, show);
      r := Quit(Evaluate(inp.limits, inp.sample, TextsOf(ctx, show), parse));
    }
  }
}
