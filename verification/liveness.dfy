/** The roster/liveness fold (main.go:145-171): every node of the roster is looked
    up in the `/cluster` reply fetched for it; a node whose id is missing there
    (or maps to JSON null) is reported as not alive. */
module Liveness {

  /** One entry of the `/system/cluster/nodes` roster. */
  datatype RosterNode = RosterNode(nodeId: string, hostname: string)

  /** A value of the `/cluster` map, reduced to what the loop looks at: JSON null or anything else. */
  datatype ClusterEntry = NullEntry | NodeEntry

  type ClusterView = map<string, ClusterEntry>

  /** A roster entry with the `/cluster` reply queried in its own iteration. */
  datatype Probe = Probe(node: RosterNode, view: ClusterView)

  /** `run_node[node_id] != nil`. */
  predicate IsAlive(p: Probe) {
    p.node.nodeId in p.view && p.view[p.node.nodeId] != NullEntry
  }

  function DeadLine(hostname: string): string {
    "Node: " + hostname + " - not alive"
  }

  function AliveLine(hostname: string): string {
    "\tNode: " + hostname + " - is alive\n"
  }

  /** `critical_node` after the loop has visited `probes`, entries appended with no separator. */
  function DeadReport(probes: seq<Probe>): (r: string)
    ensures r == "" <==> forall i | 0 <= i < |probes| :: IsAlive(probes[i])
  {
    if |probes| == 0 then ""
    else
      var last := probes[|probes| - 1];
      var init := probes[..|probes| - 1];
      assert forall i | 0 <= i < |init| :: init[i] == probes[i];
      if IsAlive(last) then DeadReport(init)
      else
        assert |DeadLine(last.node.hostname)| > 0;
        DeadReport(init) + DeadLine(last.node.hostname)
  }

  /** `running_node` after the loop: the loop appends an "is alive" line for every node, dead or not. */
  function AliveReport(probes: seq<Probe>): (r: string)
    ensures r == "" <==> probes == []
  {
    if |probes| == 0 then ""
    else AliveReport(probes[..|probes| - 1]) + AliveLine(probes[|probes| - 1].node.hostname)
  }

  /** Reference definition: the hostnames of the dead nodes, in roster order. */
  function DeadHosts(probes: seq<Probe>): (hs: seq<string>)
    ensures |hs| <= |probes|
  {
    if |probes| == 0 then []
    else
      var last := probes[|probes| - 1];
      if IsAlive(last) then DeadHosts(probes[..|probes| - 1])
      else DeadHosts(probes[..|probes| - 1]) + [last.node.hostname]
  }

  function Concat(ss: seq<string>): string {
    if |ss| == 0 then "" else Concat(ss[..|ss| - 1]) + ss[|ss| - 1]
  }

  function DeadLines(hs: seq<string>): (ls: seq<string>)
    ensures |ls| == |hs|
    ensures forall i | 0 <= i < |ls| :: ls[i] == DeadLine(hs[i])
  {
    if |hs| == 0 then [] else DeadLines(hs[..|hs| - 1]) + [DeadLine(hs[|hs| - 1])]
  }

  function AliveLines(probes: seq<Probe>): (ls: seq<string>)
    ensures |ls| == |probes|
    ensures forall i | 0 <= i < |ls| :: ls[i] == AliveLine(probes[i].node.hostname)
  {
    if |probes| == 0 then [] else AliveLines(probes[..|probes| - 1]) + [AliveLine(probes[|probes| - 1].node.hostname)]
  }

  /** One more roster node: what each fold gains from `probes[i]`. */
  lemma FoldStep(probes: seq<Probe>, i: nat)
    requires i < |probes|
    ensures IsAlive(probes[i]) ==> DeadReport(probes[..i + 1]) == DeadReport(probes[..i])
    ensures !IsAlive(probes[i]) ==>
              DeadReport(probes[..i + 1]) == DeadReport(probes[..i]) + DeadLine(probes[i].node.hostname)
    ensures AliveReport(probes[..i + 1]) == AliveReport(probes[..i]) + AliveLine(probes[i].node.hostname)
    ensures |DeadHosts(probes[..i + 1])| == |DeadHosts(probes[..i])| + (if IsAlive(probes[i]) then 0 else 1)
  {
    assert probes[..i + 1][..i] == probes[..i];
  }

  lemma ConcatSnoc(ss: seq<string>, s: string)
    ensures Concat(ss + [s]) == Concat(ss) + s
  {
    assert (ss + [s])[..|ss|] == ss;
  }

  /** `critical_node` is the "not alive" line of each dead node, in roster order, concatenated. */
  lemma {:induction false} DeadReportLists(probes: seq<Probe>)
    ensures DeadReport(probes) == Concat(DeadLines(DeadHosts(probes)))
  {
    if |probes| > 0 {
      var init := probes[..|probes| - 1];
      var last := probes[|probes| - 1];
      DeadReportLists(init);
      var hs := DeadHosts(init);
      if !IsAlive(last) {
        var line := DeadLine(last.node.hostname);
        DeadLinesSnoc(hs, last.node.hostname);
        ConcatSnoc(DeadLines(hs), line);
        assert DeadReport(probes) == DeadReport(init) + line;
      }
    }
  }

  lemma DeadLinesSnoc(hs: seq<string>, h: string)
    ensures DeadLines(hs + [h]) == DeadLines(hs) + [DeadLine(h)]
  {
    assert (hs + [h])[..|hs|] == hs;
  }

  /** `running_node` holds an "is alive" line for every roster node, in roster order. */
  lemma {:induction false} AliveReportLists(probes: seq<Probe>)
    ensures AliveReport(probes) == Concat(AliveLines(probes))
  {
    if |probes| > 0 {
      var init := probes[..|probes| - 1];
      AliveReportLists(init);
      ConcatSnoc(AliveLines(init), AliveLine(probes[|probes| - 1].node.hostname));
    }
  }

  /** A hostname is listed as dead iff some roster entry with that hostname is missing from its `/cluster` reply. */
  lemma {:induction false} DeadHostsExactly(probes: seq<Probe>, h: string)
    ensures h in DeadHosts(probes)
            <==> exists i | 0 <= i < |probes| :: !IsAlive(probes[i]) && probes[i].node.hostname == h
  {
    if |probes| > 0 {
      var init := probes[..|probes| - 1];
      DeadHostsExactly(init, h);
      if exists i | 0 <= i < |init| :: !IsAlive(init[i]) && init[i].node.hostname == h {
        var i :| 0 <= i < |init| && !IsAlive(init[i]) && init[i].node.hostname == h;
        assert probes[i] == init[i];
      }
      if exists i | 0 <= i < |probes| :: !IsAlive(probes[i]) && probes[i].node.hostname == h {
        var i :| 0 <= i < |probes| && !IsAlive(probes[i]) && probes[i].node.hostname == h;
        if i < |init| {
          assert init[i] == probes[i];
        }
      }
    }
  }

  /** `critical_node` is empty iff every node is alive iff no hostname is listed as dead. */
  lemma {:induction false} NoDeadIffAllAlive(probes: seq<Probe>)
    ensures DeadReport(probes) == "" <==> forall i | 0 <= i < |probes| :: IsAlive(probes[i])
    ensures DeadHosts(probes) == [] <==> forall i | 0 <= i < |probes| :: IsAlive(probes[i])
  {
    if |probes| > 0 {
      var init := probes[..|probes| - 1];
      NoDeadIffAllAlive(init);
      assert forall i | 0 <= i < |init| :: init[i] == probes[i];
      var last := probes[|probes| - 1];
      if !IsAlive(last) {
        assert |DeadLine(last.node.hostname)| > 0;
      }
    }
  }
}
