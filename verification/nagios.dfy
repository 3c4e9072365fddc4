/** The Nagios plugin contract as the check implements it (main.go:16-22, 86-108):
    four status codes, the outcome a check ends with, and the one status line
    `quit` prints before exiting with the status as its exit code. */
module Nagios {
  import opened Options
  import opened Strings

  const OK: int := 0
  const WARNING: int := 1
  const CRITICAL: int := 2
  const UNKNOWN: int := 3

  /** How the check ends: the status handed to `quit` and its message. */
  datatype Outcome = Outcome(status: int, message: string)

  /** A stage either hands its value on or ends the check with an outcome. */
  datatype Step<+T> = Continue(value: T) | Exit(outcome: Outcome)

  predicate IsStatus(status: int) { OK <= status <= UNKNOWN }

  /** The tag `quit` selects for a status; a status outside 0..3 gets none. */
  function Label(status: int): (ev: string)
    ensures ev == "OK" <==> status == OK
    ensures ev == "WARNING" <==> status == WARNING
    ensures ev == "CRITICAL" <==> status == CRITICAL
    ensures ev == "UNKNOWN" <==> status == UNKNOWN
    ensures ev == "" <==> !IsStatus(status)
  {
    if status == OK then "OK"
    else if status == WARNING then "WARNING"
    else if status == CRITICAL then "CRITICAL"
    else if status == UNKNOWN then "UNKNOWN"
    else ""
  }

  /** What the process leaves behind: its exit code and the line on stdout. */
  datatype Report = Report(exitCode: int, line: string)

  /** `quit(status, message, _)` with the global perfdata `pdata`. */
  function Emit(o: Outcome, pdata: string): (r: Report)
    ensures r.exitCode == o.status
    ensures HasPrefix(r.line, Label(o.status) + " - ")
  {
    Report(o.status, Label(o.status) + " - " + o.message + "|" + pdata + "\n")
  }

  /** The line starts with the label and then the message, so a message prefix is visible at a fixed place. */
  lemma EmitShowsMessagePrefix(o: Outcome, pdata: string, h: string)
    requires HasPrefix(o.message, h)
    ensures HasPrefix(Emit(o, pdata).line, Label(o.status) + " - " + h)
  {
    var tag := Label(o.status) + " - ";
    var line := Emit(o, pdata).line;
    assert line == tag + o.message + ("|" + pdata + "\n");
    assert o.message == h + o.message[|h|..];
    assert line == (tag + h) + (o.message[|h|..] + "|" + pdata + "\n");
  }

  /** A status line as a monitoring host reads it. */
  datatype StatusLine = StatusLine(status: int, message: string, perfdata: string)

  /** The status named at the head of a line, and the length of `LABEL - `. */
  function HeadStatus(head: string): (r: Option<(int, nat)>)
    ensures r.Some? ==> IsStatus(r.value.0) && r.value.1 == |Label(r.value.0) + " - "|
    ensures r.Some? ==> HasPrefix(head, Label(r.value.0) + " - ")
  {
    if HasPrefix(head, "OK - ") then Some((OK, 5))
    else if HasPrefix(head, "WARNING - ") then Some((WARNING, 10))
    else if HasPrefix(head, "CRITICAL - ") then Some((CRITICAL, 11))
    else if HasPrefix(head, "UNKNOWN - ") then Some((UNKNOWN, 10))
    else None
  }

  /** Splits a status line at its last `|`: the message may contain `|`, the perfdata may not. */
  function ReadLine(line: string): Option<StatusLine> {
    if |line| == 0 || line[|line| - 1] != '\n' then None
    else
      var body := line[..|line| - 1];
      match LastIndexOf(body, '|')
      case None => None
      case Some(k) =>
        match HeadStatus(body[..k])
        case None => None
        case Some((status, n)) => Some(StatusLine(status, body[..k][n..], body[k + 1..]))
  }

  /** Every line `quit` prints for a Nagios status reads back as that status, message and perfdata. */
  lemma ReadEmitted(o: Outcome, pdata: string)
    requires IsStatus(o.status)
    requires '|' !in pdata
    ensures ReadLine(Emit(o, pdata).line) == Some(StatusLine(o.status, o.message, pdata))
  {
    var tag := Label(o.status) + " - ";
    var head := tag + o.message;
    var line := Emit(o, pdata).line;
    assert line == head + "|" + pdata + "\n";
    var body := line[..|line| - 1];
    assert body == head + ['|'] + pdata;
    LastIndexOfAt(head, '|', pdata);
    assert body[..|head|] == head;
    assert body[|head| + 1..] == pdata;
    HeadStatusOf(o.status, o.message);
    assert head[|tag|..] == o.message;
  }

  lemma HeadStatusOf(status: int, message: string)
    requires IsStatus(status)
    ensures HeadStatus(Label(status) + " - " + message) == Some((status, |Label(status) + " - "|))
  {
    var head := Label(status) + " - " + message;
    assert head[..|Label(status) + " - "|] == Label(status) + " - ";
    assert head[0] == Label(status)[0];
  }

  /** Index of the first early exit in a chain of checks, or the chain's length when none fires. */
  function FirstHit(steps: seq<Option<Outcome>>): (k: nat)
    ensures k <= |steps|
    ensures k < |steps| ==> steps[k].Some?
    ensures forall j | 0 <= j < k :: steps[j].None?
  {
    if |steps| == 0 || steps[0].Some? then 0 else 1 + FirstHit(steps[1..])
  }

  /** The outcome of a chain of early exits: the first check that fires, if any. */
  function FirstExit(steps: seq<Option<Outcome>>): (r: Option<Outcome>)
    ensures r.None? <==> forall j | 0 <= j < |steps| :: steps[j].None?
    ensures forall k | 0 <= k < |steps| && steps[k].Some? && (forall j | 0 <= j < k :: steps[j].None?) :: r == steps[k]
  {
    var k := FirstHit(steps);
    if k < |steps| then steps[k] else None
  }

  /** Chains whose checks fire at the same places stop at the same place. */
  lemma {:induction false} FirstHitSamePlaces(a: seq<Option<Outcome>>, b: seq<Option<Outcome>>)
    requires |a| == |b|
    requires forall j | 0 <= j < |a| :: a[j].Some? == b[j].Some?
    ensures FirstHit(a) == FirstHit(b)
  {
    if |a| > 0 && a[0].None? {
      FirstHitSamePlaces(a[1..], b[1..]);
    }
  }

  /** Two check results that fire alike: both or neither, and with the same status. */
  predicate Alike(a: Option<Outcome>, b: Option<Outcome>) {
    a.Some? == b.Some? && (a.Some? ==> a.value.status == b.value.status)
  }

  /** Chains whose checks fire alike end alike. */
  lemma FirstExitAlike(a: seq<Option<Outcome>>, b: seq<Option<Outcome>>)
    requires |a| == |b|
    requires forall j | 0 <= j < |a| :: Alike(a[j], b[j])
    ensures Alike(FirstExit(a), FirstExit(b))
  {
    FirstHitSamePlaces(a, b);
    var k := FirstHit(a);
    if k < |a| {
      assert Alike(a[k], b[k]);
    }
  }

  /** The outcome of a chain that falls through to `otherwise` when no check fires. */
  function Resolve(steps: seq<Option<Outcome>>, otherwise: Outcome): (r: Outcome)
    ensures (forall j | 0 <= j < |steps| :: steps[j].None?) ==> r == otherwise
    ensures forall k | 0 <= k < |steps| && steps[k].Some? && (forall j | 0 <= j < k :: steps[j].None?) ::
              r == steps[k].value
  {
    match FirstExit(steps)
    case Some(o) => o
    case None => otherwise
  }

  /** Chains whose checks fire alike, with fall-throughs of the same status, end with the same status. */
  lemma ResolveAlike(a: seq<Option<Outcome>>, b: seq<Option<Outcome>>, x: Outcome, y: Outcome)
    requires |a| == |b|
    requires forall j | 0 <= j < |a| :: Alike(a[j], b[j])
    requires x.status == y.status
    ensures Resolve(a, x).status == Resolve(b, y).status
  {
    FirstExitAlike(a, b);
  }

  /** A check that fires reports a Nagios status other than OK. */
  predicate FiresNotOk(c: Option<Outcome>) {
    c.Some? ==> IsStatus(c.value.status) && c.value.status != OK
  }

  /** A chain of non-OK checks that falls through to an OK outcome is OK exactly when nothing fires. */
  lemma ResolveStatus(steps: seq<Option<Outcome>>, x: Outcome)
    requires forall j | 0 <= j < |steps| :: FiresNotOk(steps[j])
    requires x.status == OK
    ensures IsStatus(Resolve(steps, x).status)
    ensures Resolve(steps, x).status == OK <==> forall j | 0 <= j < |steps| :: steps[j].None?
    ensures Resolve(steps, x).status == OK ==> Resolve(steps, x) == x
  {
    var k := FirstHit(steps);
    if k < |steps| {
      assert FirstExit(steps) == steps[k];
      assert FiresNotOk(steps[k]);
    }
  }

  /** Checks that do not fire can be skipped: the chain's outcome is that of the rest. */
  lemma {:induction false} FirstExitSkip(steps: seq<Option<Outcome>>, n: nat)
    requires n <= |steps|
    requires forall j | 0 <= j < n :: steps[j].None?
    ensures FirstExit(steps) == FirstExit(steps[n..])
  {
    if n > 0 {
      assert steps[1..][n - 1..] == steps[n..];
      FirstExitSkip(steps[1..], n - 1);
    }
  }
}
