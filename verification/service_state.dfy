/** The service-state gate (main.go:173-182): three checks of `/system`, in order. */
module ServiceState {
  import opened Options
  import opened Nagios

  /** The typed projection of the `/system` reply. */
  datatype SystemInfo = SystemInfo(isProcessing: bool, lifecycle: string, lbStatus: string)

  function ProcessingCheck(sys: SystemInfo): (r: Option<Outcome>)
    ensures r.Some? <==> !sys.isProcessing
    ensures r.Some? ==> r.value.status == CRITICAL
  {
    if !sys.isProcessing then Some(Outcome(CRITICAL, "Service is not processing!")) else None
  }

  function LifecycleCheck(sys: SystemInfo): (r: Option<Outcome>)
    ensures r.Some? <==> sys.lifecycle != "running"
    ensures r.Some? ==> r.value.status == WARNING
  {
    if sys.lifecycle != "running" then Some(Outcome(WARNING, "lifecycle: " + sys.lifecycle)) else None
  }

  function LbStatusCheck(sys: SystemInfo): (r: Option<Outcome>)
    ensures r.Some? <==> sys.lbStatus != "alive"
    ensures r.Some? ==> r.value.status == WARNING
  {
    if sys.lbStatus != "alive" then Some(Outcome(WARNING, "lb_status: " + sys.lbStatus)) else None
  }

  /** The first failing check ends the run; none failing lets the evaluation go on. */
  function Gate(sys: SystemInfo): (r: Option<Outcome>)
    ensures r.None? <==> sys.isProcessing && sys.lifecycle == "running" && sys.lbStatus == "alive"
    ensures r.Some? ==> r.value.status == CRITICAL || r.value.status == WARNING
  {
    var steps := [ProcessingCheck(sys), LifecycleCheck(sys), LbStatusCheck(sys)];
    assert steps[0] == ProcessingCheck(sys) && steps[1] == LifecycleCheck(sys) && steps[2] == LbStatusCheck(sys);
    FirstExit(steps)
  }

  /** The gate passes iff the service processes, is `running` and is `alive`; otherwise
      only the first failing check is reported, with its own severity. */
  lemma GateOrder(sys: SystemInfo)
    ensures Gate(sys).None? <==> sys.isProcessing && sys.lifecycle == "running" && sys.lbStatus == "alive"
    ensures !sys.isProcessing ==> Gate(sys) == Some(Outcome(CRITICAL, "Service is not processing!"))
    ensures sys.isProcessing && sys.lifecycle != "running"
            ==> Gate(sys) == Some(Outcome(WARNING, "lifecycle: " + sys.lifecycle))
    ensures sys.isProcessing && sys.lifecycle == "running" && sys.lbStatus != "alive"
            ==> Gate(sys) == Some(Outcome(WARNING, "lb_status: " + sys.lbStatus))
  {
    var steps := [ProcessingCheck(sys), LifecycleCheck(sys), LbStatusCheck(sys)];
    assert steps[0] == ProcessingCheck(sys) && steps[1] == LifecycleCheck(sys) && steps[2] == LbStatusCheck(sys);
  }
}
