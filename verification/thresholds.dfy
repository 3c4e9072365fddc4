/** The threshold evaluator (main.go:200-253): an ordered chain of early exits
    over the five threshold options, ending in OK. `strconv.ParseFloat` is a
    parameter: `parse(s)` is the number it reads, or nothing when it reports
    an error. */
module Thresholds {
  import opened Options
  import opened Nagios
  import opened Strings
  import opened PerfData

  type FloatParser = string -> Option<real>

  /** The five threshold options as given on the command line (`-w`, `-c`, `-uc`, `-pbtc`, `-ibc`); "" when unset. */
  datatype Limits = Limits(
    indexWarn: string,
    indexCrit: string,
    uncommitCrit: string,
    processBufferTimeCrit: string,
    inputBufferCrit: string)

  predicate NoneSet(l: Limits) {
    l.indexWarn == "" && l.indexCrit == "" && l.uncommitCrit == ""
    && l.processBufferTimeCrit == "" && l.inputBufferCrit == ""
  }

  /** The sampled values and texts the messages are built from. */
  datatype Context = Context(sample: Sample, totalClusterNodes: real, runningNode: string, elapsedText: string)

  /** The formatted message bodies the chain can report: the two index summaries and `consoleOutput`. */
  datatype Texts = Texts(indexWarn: string, indexCrit: string, console: string)

  function TextsOf(ctx: Context, show: Formatter): (t: Texts)
    ensures HasPrefix(t.indexWarn, "Index Failure above Warning Limit!" + "\nService is running\n")
    ensures HasPrefix(t.indexCrit, "Index Failure above Critical Limit!" + "\nService is running\n")
    ensures HasPrefix(t.console, "All nodes in the Cluster: " + show(Shortest, ctx.totalClusterNodes) + "\nRunning nodes:\n" + ctx.runningNode)
  {
    Texts(IndexSummary("Index Failure above Warning Limit!", ctx.sample, ctx.elapsedText, show),
          IndexSummary("Index Failure above Critical Limit!", ctx.sample, ctx.elapsedText, show),
          Console(ctx.sample, ctx.totalClusterNodes, ctx.runningNode, show))
  }

  const NoThresholds := Outcome(CRITICAL, "no thresholds set")
  const WarnParseError := Outcome(UNKNOWN, "Cannot parse given index warning error value.")
  const CritParseError := Outcome(UNKNOWN, "Cannot parse given index critical error value.")
  const UncommitParseError := Outcome(UNKNOWN, "Cannot parse given uncommited warning error value.")
  const ProcessBufferParseError := Outcome(UNKNOWN, "Cannot parse given process buffer time critical value.")
  const InputBufferParseError := Outcome(UNKNOWN, "Cannot parse given input buffer critical value.")

  /** The warning limit as the warn branch uses it: its parse error is overwritten by the
      critical one, so a bad `-w` counts as the 0 that `ParseFloat` returns with a syntax error. */
  function WarnLimit(parse: FloatParser, s: string): (v: real)
    ensures parse(s).Some? ==> v == parse(s).value
    ensures parse(s).None? ==> v == 0.0
  {
    match parse(s)
    case Some(v) => v
    case None => 0.0
  }

  function NoThresholdsCheck(l: Limits): Option<Outcome> {
    if NoneSet(l) then Some(NoThresholds) else None
  }

  /** The warn branch fires: `-w` set, `-c` parseable, warn limit <= failures < crit limit. */
  predicate IndexWarnBreached(l: Limits, x: real, parse: FloatParser) {
    l.indexWarn != "" && parse(l.indexCrit).Some?
    && x >= WarnLimit(parse, l.indexWarn) && x < parse(l.indexCrit).value
  }

  predicate IndexCritBreached(l: Limits, x: real, parse: FloatParser) {
    l.indexCrit != "" && parse(l.indexCrit).Some? && x >= parse(l.indexCrit).value
  }

  /** The warn branch falls through: `-w` unset, or `-c` parseable and the failures outside [warn, crit). */
  predicate IndexWarnSilent(l: Limits, x: real, parse: FloatParser) {
    l.indexWarn == "" || (parse(l.indexCrit).Some? && !IndexWarnBreached(l, x, parse))
  }

  /** The critical branch falls through: `-c` unset, or parseable and the failures below it. */
  predicate IndexCritSilent(l: Limits, x: real, parse: FloatParser) {
    l.indexCrit == "" || (parse(l.indexCrit).Some? && x < parse(l.indexCrit).value)
  }

  /** Every later check falls through: each option unset, or parseable and not breached. */
  predicate LaterChecksSilent(l: Limits, s: Sample, parse: FloatParser) {
    && (l.uncommitCrit == "" || (parse(l.uncommitCrit).Some? && s.uncommitted <= parse(l.uncommitCrit).value))
    && (l.processBufferTimeCrit == ""
        || (parse(l.processBufferTimeCrit).Some? && s.processBufferTime <= parse(l.processBufferTimeCrit).value))
    && (l.inputBufferCrit == "" || (parse(l.inputBufferCrit).Some? && s.inputBuffer >= parse(l.inputBufferCrit).value))
  }

  /** With `-w` set: parse `-w` and `-c`, test only the second parse, then warn on warn <= failures < crit. */
  function IndexWarnCheck(l: Limits, s: Sample, t: Texts, parse: FloatParser): (r: Option<Outcome>)
    ensures l.indexWarn == "" ==> r.None?
    ensures l.indexWarn != "" && parse(l.indexCrit).None? ==> r == Some(WarnParseError)
    ensures (r.Some? && r.value.status == WARNING) <==> IndexWarnBreached(l, s.indexFailures, parse)
    ensures r.None? <==> IndexWarnSilent(l, s.indexFailures, parse)
  {
    if l.indexWarn == "" then None
    else
      match parse(l.indexCrit)
      case None => Some(WarnParseError)
      case Some(crit) =>
        var x := s.indexFailures;
        if x >= WarnLimit(parse, l.indexWarn) && x < crit
        then Some(Outcome(WARNING, t.indexWarn))
        else None
  }

  function IndexCritCheck(l: Limits, s: Sample, t: Texts, parse: FloatParser): (r: Option<Outcome>)
    ensures l.indexCrit == "" ==> r.None?
    ensures l.indexCrit != "" && parse(l.indexCrit).None? ==> r == Some(CritParseError)
    ensures (r.Some? && r.value.status == CRITICAL) <==> IndexCritBreached(l, s.indexFailures, parse)
    ensures r.None? <==> IndexCritSilent(l, s.indexFailures, parse)
  {
    if l.indexCrit == "" then None
    else
      match parse(l.indexCrit)
      case None => Some(CritParseError)
      case Some(crit) =>
        if s.indexFailures >= crit
        then Some(Outcome(CRITICAL, t.indexCrit))
        else None
  }

  /** The uncommitted-journal check; its message says "Warning Limit" although it is CRITICAL. */
  function UncommittedCheck(l: Limits, s: Sample, t: Texts, parse: FloatParser): (r: Option<Outcome>)
    ensures l.uncommitCrit == "" ==> r.None?
    ensures l.uncommitCrit != "" && parse(l.uncommitCrit).None? ==> r == Some(UncommitParseError)
    ensures (r.Some? && r.value.status == CRITICAL)
            <==> l.uncommitCrit != "" && parse(l.uncommitCrit).Some?
                 && s.uncommitted > parse(l.uncommitCrit).value
    ensures r.None? <==> l.uncommitCrit == ""
                         || (parse(l.uncommitCrit).Some? && s.uncommitted <= parse(l.uncommitCrit).value)
    ensures r.Some? && r.value.status == CRITICAL ==> r.value.message == "Uncommited above Warning Limit!" + "\nService is running\n" + t.console
  {
    if l.uncommitCrit == "" then None
    else
      match parse(l.uncommitCrit)
      case None => Some(UncommitParseError)
      case Some(limit) =>
        if s.uncommitted > limit
        then Some(Outcome(CRITICAL, "Uncommited above Warning Limit!" + "\nService is running\n" + t.console))
        else None
  }

  function ProcessBufferCheck(l: Limits, s: Sample, t: Texts, parse: FloatParser): (r: Option<Outcome>)
    ensures l.processBufferTimeCrit == "" ==> r.None?
    ensures l.processBufferTimeCrit != "" && parse(l.processBufferTimeCrit).None? ==> r == Some(ProcessBufferParseError)
    ensures (r.Some? && r.value.status == CRITICAL)
            <==> l.processBufferTimeCrit != "" && parse(l.processBufferTimeCrit).Some?
                 && s.processBufferTime > parse(l.processBufferTimeCrit).value
    ensures r.None? <==> l.processBufferTimeCrit == ""
                         || (parse(l.processBufferTimeCrit).Some?
                             && s.processBufferTime <= parse(l.processBufferTimeCrit).value)
    ensures r.Some? && r.value.status == CRITICAL ==> r.value.message == "Process Buffer Time critical!" + "\nService is running\n" + t.console
  {
    if l.processBufferTimeCrit == "" then None
    else
      match parse(l.processBufferTimeCrit)
      case None => Some(ProcessBufferParseError)
      case Some(limit) =>
        if s.processBufferTime > limit
        then Some(Outcome(CRITICAL, "Process Buffer Time critical!" + "\nService is running\n" + t.console))
        else None
  }

  /** The only lower-bound check: the 15-minute input rate must not fall below its limit. */
  function InputBufferCheck(l: Limits, s: Sample, t: Texts, parse: FloatParser): (r: Option<Outcome>)
    ensures l.inputBufferCrit == "" ==> r.None?
    ensures l.inputBufferCrit != "" && parse(l.inputBufferCrit).None? ==> r == Some(InputBufferParseError)
    ensures (r.Some? && r.value.status == CRITICAL)
            <==> l.inputBufferCrit != "" && parse(l.inputBufferCrit).Some?
                 && s.inputBuffer < parse(l.inputBufferCrit).value
    ensures r.None? <==> l.inputBufferCrit == ""
                         || (parse(l.inputBufferCrit).Some? && s.inputBuffer >= parse(l.inputBufferCrit).value)
    ensures r.Some? && r.value.status == CRITICAL ==> r.value.message == "Input Buffer rate below threshold!" + "\nService is running\n" + t.console
  {
    if l.inputBufferCrit == "" then None
    else
      match parse(l.inputBufferCrit)
      case None => Some(InputBufferParseError)
      case Some(limit) =>
        if s.inputBuffer < limit
        then Some(Outcome(CRITICAL, "Input Buffer rate below threshold!" + "\nService is running\n" + t.console))
        else None
  }

  /** The checks in the order the source runs them. */
  function Checks(l: Limits, s: Sample, t: Texts, parse: FloatParser): (cs: seq<Option<Outcome>>)
    ensures |cs| == 6
    ensures forall j | 0 <= j < 6 :: FiresNotOk(cs[j])
  {
    [ NoThresholdsCheck(l),
      IndexWarnCheck(l, s, t, parse),
      IndexCritCheck(l, s, t, parse),
      UncommittedCheck(l, s, t, parse),
      ProcessBufferCheck(l, s, t, parse),
      InputBufferCheck(l, s, t, parse) ]
  }

  function Healthy(t: Texts): (o: Outcome)
    ensures o.status == OK
    ensures HasPrefix(o.message, "Service is running!")
  {
    PrefixOfPrefix("Service is running!" + ("\n" + t.console), "Service is running!", "\n" + t.console);
    AppendAssoc("Service is running!", "\n", t.console);
    Outcome(OK, "Service is running!" + "\n" + t.console)
  }

  /** The outcome of the chain: the first check that fires, else OK. */
  function Evaluate(l: Limits, s: Sample, t: Texts, parse: FloatParser): (o: Outcome)
    ensures IsStatus(o.status)
  {
    ResolveStatus(Checks(l, s, t, parse), Healthy(t));
    Resolve(Checks(l, s, t, parse), Healthy(t))
  }

  // ---- Properties of the chain ----

  /** With no threshold given the result is CRITICAL, whatever was sampled. */
  lemma NoThresholdsIsCritical(l: Limits, s: Sample, t: Texts, parse: FloatParser)
    requires NoneSet(l)
    ensures Evaluate(l, s, t, parse) == NoThresholds
  {
    var cs := Checks(l, s, t, parse);
    assert cs[0] == Some(NoThresholds);
  }

  /** Every outcome is a Nagios status, and OK exactly when no check fires. */
  lemma EvaluateStatus(l: Limits, s: Sample, t: Texts, parse: FloatParser)
    ensures IsStatus(Evaluate(l, s, t, parse).status)
    ensures Evaluate(l, s, t, parse).status == OK
            <==> forall j | 0 <= j < 6 :: Checks(l, s, t, parse)[j].None?
    ensures Evaluate(l, s, t, parse).status == OK ==> Evaluate(l, s, t, parse) == Healthy(t)
  {
    var cs := Checks(l, s, t, parse);
    assert FiresNotOk(cs[0]) && FiresNotOk(cs[1]) && FiresNotOk(cs[2]);
    assert FiresNotOk(cs[3]) && FiresNotOk(cs[4]) && FiresNotOk(cs[5]);
    ResolveStatus(cs, Healthy(t));
  }

  /** The run ends OK, with the "Service is running!" summary, iff some option is set and
      every option that is set parses and is not breached. */
  lemma OkIffWithinLimits(l: Limits, s: Sample, t: Texts, parse: FloatParser)
    ensures Evaluate(l, s, t, parse).status == OK
            <==> !NoneSet(l) && IndexWarnSilent(l, s.indexFailures, parse)
                 && IndexCritSilent(l, s.indexFailures, parse) && LaterChecksSilent(l, s, parse)
    ensures Evaluate(l, s, t, parse).status == OK ==> Evaluate(l, s, t, parse) == Healthy(t)
  {
    EvaluateStatus(l, s, t, parse);
    var cs := Checks(l, s, t, parse);
    assert cs[0] == NoThresholdsCheck(l) && cs[1] == IndexWarnCheck(l, s, t, parse);
    assert cs[2] == IndexCritCheck(l, s, t, parse) && cs[3] == UncommittedCheck(l, s, t, parse);
    assert cs[4] == ProcessBufferCheck(l, s, t, parse) && cs[5] == InputBufferCheck(l, s, t, parse);
  }

  /** WARNING is reported iff the warn branch fires, and then with the index summary. */
  lemma WarningIff(l: Limits, s: Sample, t: Texts, parse: FloatParser)
    ensures Evaluate(l, s, t, parse).status == WARNING
            <==> IndexWarnBreached(l, s.indexFailures, parse)
    ensures Evaluate(l, s, t, parse).status == WARNING
            ==> Evaluate(l, s, t, parse).message == t.indexWarn
  {
    var cs := Checks(l, s, t, parse);
    EvaluateStatus(l, s, t, parse);
    assert NeverWarns(cs[0]) && NeverWarns(cs[2]) && NeverWarns(cs[3]);
    assert NeverWarns(cs[4]) && NeverWarns(cs[5]);
    assert cs[1].Some? && cs[1].value.status == WARNING
           <==> IndexWarnBreached(l, s.indexFailures, parse);
    var k := FirstHit(cs);
    if k < 6 {
      assert FirstExit(cs) == cs[k];
      if k != 1 {
        assert NeverWarns(cs[k]);
      }
    }
  }

  predicate NeverWarns(c: Option<Outcome>) {
    c.Some? ==> c.value.status != WARNING
  }

  /** With `-w` set, an unparseable `-c` ends UNKNOWN before any comparison. */
  lemma WarnWithBadCritIsUnknown(l: Limits, s: Sample, t: Texts, parse: FloatParser)
    requires l.indexWarn != "" && parse(l.indexCrit).None?
    ensures Evaluate(l, s, t, parse) == WarnParseError
  {
    var cs := Checks(l, s, t, parse);
    assert cs[0].None? && cs[1] == Some(WarnParseError);
  }

  /** In particular `-w` without `-c` ends UNKNOWN: `ParseFloat("")` is an error. */
  lemma WarnWithoutCritIsUnknown(l: Limits, s: Sample, t: Texts, parse: FloatParser)
    requires l.indexWarn != "" && l.indexCrit == "" && parse("").None?
    ensures Evaluate(l, s, t, parse) == WarnParseError
  {
    WarnWithBadCritIsUnknown(l, s, t, parse);
  }

  /** A `-w` that does not parse acts as 0: WARNING iff 0 <= failures < crit. */
  lemma BadWarnReadsAsZero(l: Limits, s: Sample, t: Texts, parse: FloatParser)
    requires l.indexWarn != "" && parse(l.indexWarn).None? && parse(l.indexCrit).Some?
    ensures Evaluate(l, s, t, parse).status == WARNING
            <==> 0.0 <= s.indexFailures < parse(l.indexCrit).value
  {
    WarningIff(l, s, t, parse);
  }

  /** The two index branches never both fire for the same failure count. */
  lemma IndexBranchesExclusive(l: Limits, x: real, parse: FloatParser)
    ensures !(IndexWarnBreached(l, x, parse) && IndexCritBreached(l, x, parse))
  {
  }

  /** failures >= crit gives CRITICAL with the index summary, whether or not `-w` is set. */
  lemma IndexCriticalWins(l: Limits, s: Sample, t: Texts, parse: FloatParser)
    requires IndexCritBreached(l, s.indexFailures, parse)
    ensures Evaluate(l, s, t, parse)
            == Outcome(CRITICAL, t.indexCrit)
  {
    var cs := Checks(l, s, t, parse);
    assert cs[0].None? && cs[1].None? && cs[2].Some?;
  }

  /** Once neither index branch fires, the remaining checks are consulted in order
      (uncommitted, process-buffer time, input-buffer rate) and the first that fires wins. */
  lemma LaterChecksInOrder(l: Limits, s: Sample, t: Texts, parse: FloatParser)
    requires !NoneSet(l)
    requires IndexWarnCheck(l, s, t, parse).None? && IndexCritCheck(l, s, t, parse).None?
    ensures Evaluate(l, s, t, parse) ==
      if UncommittedCheck(l, s, t, parse).Some? then UncommittedCheck(l, s, t, parse).value
      else if ProcessBufferCheck(l, s, t, parse).Some? then ProcessBufferCheck(l, s, t, parse).value
      else if InputBufferCheck(l, s, t, parse).Some? then InputBufferCheck(l, s, t, parse).value
      else Healthy(t)
  {
    var cs := Checks(l, s, t, parse);
    var u, p, i := UncommittedCheck(l, s, t, parse), ProcessBufferCheck(l, s, t, parse),
                   InputBufferCheck(l, s, t, parse);
    assert cs[0].None? && cs[1].None? && cs[2].None?;
    FirstExitSkip(cs, 3);
    var rest := [u, p, i];
    assert cs[3..] == rest;
    if u.Some? {
      assert FirstExit(rest) == rest[0];
    } else if p.Some? {
      assert FirstExit(rest) == rest[1];
    } else if i.Some? {
      assert FirstExit(rest) == rest[2];
    } else {
      assert FirstExit(rest).None?;
    }
  }

  /** An unset threshold is never consulted: its metric cannot change the severity,
      whatever texts the two runs format. */
  lemma UnsetUncommittedIgnored(l: Limits, s: Sample, t: Texts, t': Texts, parse: FloatParser, v: real)
    requires l.uncommitCrit == ""
    ensures Evaluate(l, s, t, parse).status == Evaluate(l, s.(uncommitted := v), t', parse).status
  {
    SameStatusesSameOutcomeStatus(l, s, t, s.(uncommitted := v), t', parse);
  }

  lemma UnsetProcessBufferIgnored(l: Limits, s: Sample, t: Texts, t': Texts, parse: FloatParser, v: real)
    requires l.processBufferTimeCrit == ""
    ensures Evaluate(l, s, t, parse).status == Evaluate(l, s.(processBufferTime := v), t', parse).status
  {
    SameStatusesSameOutcomeStatus(l, s, t, s.(processBufferTime := v), t', parse);
  }

  lemma UnsetInputBufferIgnored(l: Limits, s: Sample, t: Texts, t': Texts, parse: FloatParser, v: real)
    requires l.inputBufferCrit == ""
    ensures Evaluate(l, s, t, parse).status == Evaluate(l, s.(inputBuffer := v), t', parse).status
  {
    SameStatusesSameOutcomeStatus(l, s, t, s.(inputBuffer := v), t', parse);
  }

  lemma UnsetIndexIgnored(l: Limits, s: Sample, t: Texts, t': Texts, parse: FloatParser, v: real)
    requires l.indexWarn == "" && l.indexCrit == ""
    ensures Evaluate(l, s, t, parse).status == Evaluate(l, s.(indexFailures := v), t', parse).status
  {
    SameStatusesSameOutcomeStatus(l, s, t, s.(indexFailures := v), t', parse);
  }

  /** Two runs whose checks fire alike end with the same severity. */
  lemma SameStatusesSameOutcomeStatus(l: Limits, s: Sample, t: Texts, s': Sample, t': Texts, parse: FloatParser)
    requires Alike(IndexWarnCheck(l, s, t, parse), IndexWarnCheck(l, s', t', parse))
    requires Alike(IndexCritCheck(l, s, t, parse), IndexCritCheck(l, s', t', parse))
    requires Alike(UncommittedCheck(l, s, t, parse), UncommittedCheck(l, s', t', parse))
    requires Alike(ProcessBufferCheck(l, s, t, parse), ProcessBufferCheck(l, s', t', parse))
    requires Alike(InputBufferCheck(l, s, t, parse), InputBufferCheck(l, s', t', parse))
    ensures Evaluate(l, s, t, parse).status == Evaluate(l, s', t', parse).status
  {
    SixAlike(NoThresholdsCheck(l), IndexWarnCheck(l, s, t, parse), IndexCritCheck(l, s, t, parse),
             UncommittedCheck(l, s, t, parse), ProcessBufferCheck(l, s, t, parse), InputBufferCheck(l, s, t, parse),
             NoThresholdsCheck(l), IndexWarnCheck(l, s', t', parse), IndexCritCheck(l, s', t', parse),
             UncommittedCheck(l, s', t', parse), ProcessBufferCheck(l, s', t', parse), InputBufferCheck(l, s', t', parse),
             Healthy(t), Healthy(t'));
  }

  lemma SixAlike(c0: Option<Outcome>, c1: Option<Outcome>, c2: Option<Outcome>,
                 c3: Option<Outcome>, c4: Option<Outcome>, c5: Option<Outcome>,
                 d0: Option<Outcome>, d1: Option<Outcome>, d2: Option<Outcome>,
                 d3: Option<Outcome>, d4: Option<Outcome>, d5: Option<Outcome>, x: Outcome, y: Outcome)
    requires c0 == d0 && Alike(c1, d1) && Alike(c2, d2) && Alike(c3, d3) && Alike(c4, d4) && Alike(c5, d5)
    requires x.status == y.status
    ensures Resolve([c0, c1, c2, c3, c4, c5], x).status == Resolve([d0, d1, d2, d3, d4, d5], y).status
  {
    var a, b := [c0, c1, c2, c3, c4, c5], [d0, d1, d2, d3, d4, d5];
    assert forall j | 0 <= j < 6 :: Alike(a[j], b[j]);
    ResolveAlike(a, b, x, y);
  }
}
