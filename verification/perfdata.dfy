/** Performance data and console summary (main.go:61-68, 77): the text `perf`
    stores in the global `pdata` and the text `consoleOutput` returns. Go's
    `fmt` number formatting is a parameter: `show(verb, x)` is what the verb
    prints for `x`. */
module PerfData {
  import opened Strings

  /** The numeric verbs the plugin uses: `%.Nf` (`%f` is `%.6f`, `%.f` is `%.0f`) and `%v`. */
  datatype Verb = Fixed(precision: nat) | Shortest

  type Formatter = (Verb, real) -> string

  /** The eight sampled values `perf` receives, in its parameter order. */
  datatype Sample = Sample(
    elapsed: real,
    total: real,
    inputs: real,
    throughput: real,
    indexFailures: real,
    uncommitted: real,
    processBufferTime: real,
    inputBuffer: real)

  /** What `init` passes to `perf` before anything is sampled. */
  const ZeroSample := Sample(0.0, 0.0, 0.0, 0.0, 0.0, 0.0, 0.0, 0.0)

  /** One perfdata entry: `name=value` followed by its empty warn/crit/min/max fields. */
  datatype Field = Field(name: string, value: string, suffix: string)

  const FieldNames: seq<string> := ["time", "total", "sources", "throughput", "index_failures",
                                    "uncommited", "processbuffertime", "inputbufferate_m15"]

  function Fields(s: Sample, show: Formatter): (fs: seq<Field>)
    ensures |fs| == |FieldNames|
    ensures forall i | 0 <= i < |fs| :: fs[i].name == FieldNames[i]
  {
    [ Field("time", show(Fixed(6), s.elapsed), ";;;;"),
      Field("total", show(Fixed(0), s.total), ";;;;"),
      Field("sources", show(Fixed(0), s.inputs), ";;;;"),
      Field("throughput", show(Fixed(0), s.throughput), ";;;;"),
      Field("index_failures", show(Fixed(0), s.indexFailures), ";;;;"),
      Field("uncommited", show(Fixed(0), s.uncommitted), ";;;;;"),
      Field("processbuffertime", show(Fixed(10), s.processBufferTime), ";;;;;"),
      Field("inputbufferate_m15", show(Fixed(6), s.inputBuffer), "") ]
  }

  function Chunk(f: Field): string {
    f.name + "=" + f.value + f.suffix
  }

  /** Entries joined by single spaces. */
  function Render(fs: seq<Field>): string {
    if |fs| == 0 then ""
    else if |fs| == 1 then Chunk(fs[0])
    else Chunk(fs[0]) + " " + Render(fs[1..])
  }

  /** The value of `pdata` after `perf(s...)`. */
  function Perf(s: Sample, show: Formatter): (r: string)
    ensures HasPrefix(r, "time=")
  {
    var fs := Fields(s, show);
    var head := Chunk(fs[0]);
    assert Render(fs) == head + (" " + Render(fs[1..]));
    assert head == "time=" + (fs[0].value + fs[0].suffix);
    assert (head + (" " + Render(fs[1..])))[..5] == "time=";
    Render(fs)
  }

  /** The text `consoleOutput` builds; `runningNode` is the global list of live nodes. */
  function Console(s: Sample, totalClusterNodes: real, runningNode: string, show: Formatter): (r: string)
    ensures HasPrefix(r, "All nodes in the Cluster: " + show(Shortest, totalClusterNodes) + "\nRunning nodes:\n" + runningNode)
  {
    "All nodes in the Cluster: " + show(Shortest, totalClusterNodes) + "\nRunning nodes:\n" + runningNode
    + "\n" + show(Fixed(0), s.total) + " total events processed\n"
    + show(Fixed(0), s.indexFailures) + " index failures\n"
    + show(Fixed(0), s.throughput) + " throughput\n"
    + show(Fixed(0), s.inputs) + " sources\n"
    + show(Fixed(0), s.uncommitted) + " uncommited\n"
    + show(Fixed(10), s.processBufferTime) + " processbuffertime\n"
    + show(Fixed(6), s.inputBuffer) + " inputbufferrate m_15 \nCheck took "
    + show(Shortest, s.elapsed) + "\n"
  }

  /** The shorter summary of the two index-failure messages; `elapsedText` is `%v` of the elapsed `time.Duration`. */
  function IndexSummary(headline: string, s: Sample, elapsedText: string, show: Formatter): (r: string)
    ensures HasPrefix(r, headline + "\nService is running\n")
  {
    headline + "\nService is running\n"
    + show(Fixed(0), s.total) + " total events processed\n"
    + show(Fixed(0), s.indexFailures) + " index failures\n"
    + show(Fixed(0), s.throughput) + " throughput\n"
    + show(Fixed(0), s.inputs) + " sources\nCheck took " + elapsedText + "\n"
  }

  // ---- Reading perfdata back, as a graphing backend does ----

  /** A formatted number never contains the characters perfdata uses as separators. */
  predicate PlainValue(v: string) {
    ' ' !in v && ';' !in v && '=' !in v && '|' !in v
  }

  ghost predicate PlainFormatter(show: Formatter) {
    forall verb: Verb, x: real :: PlainValue(show(verb, x))
  }

  predicate WellFormed(f: Field) {
    && ' ' !in f.name && '=' !in f.name && '|' !in f.name
    && PlainValue(f.value)
    && ' ' !in f.suffix && '|' !in f.suffix
    && (f.suffix == "" || f.suffix[0] == ';')
  }

  function ReadChunk(c: string): Field {
    var i := FirstIndexOf(c, '=');
    var rest := if i < |c| then c[i + 1..] else "";
    var j := FirstIndexOf(rest, ';');
    Field(c[..i], rest[..j], rest[j..])
  }

  function SplitSpaces(s: string): (parts: seq<string>)
    ensures |parts| >= 1
    decreases |s|
  {
    var i := FirstIndexOf(s, ' ');
    if i == |s| then [s] else [s[..i]] + SplitSpaces(s[i + 1..])
  }

  function Chunks(fs: seq<Field>): (cs: seq<string>)
    ensures |cs| == |fs|
  {
    if |fs| == 0 then [] else [Chunk(fs[0])] + Chunks(fs[1..])
  }

  function ReadChunks(cs: seq<string>): (fs: seq<Field>)
    ensures |fs| == |cs|
  {
    if |cs| == 0 then [] else [ReadChunk(cs[0])] + ReadChunks(cs[1..])
  }

  function ReadFields(s: string): seq<Field> {
    ReadChunks(SplitSpaces(s))
  }

  lemma ReadChunkOfChunk(f: Field)
    requires WellFormed(f)
    ensures ReadChunk(Chunk(f)) == f
  {
    var c := Chunk(f);
    FirstIndexOfAt(f.name, "=" + f.value + f.suffix, '=');
    assert c == f.name + ("=" + f.value + f.suffix);
    var rest := c[|f.name| + 1..];
    assert rest == f.value + f.suffix;
    FirstIndexOfAt(f.value, f.suffix, ';');
  }

  lemma SplitSingle(s: string)
    requires ' ' !in s
    ensures SplitSpaces(s) == [s]
  {
    FirstIndexOfAt(s, "", ' ');
    assert s + "" == s;
  }

  lemma SplitCons(head: string, tail: string)
    requires ' ' !in head
    ensures SplitSpaces(head + " " + tail) == [head] + SplitSpaces(tail)
  {
    var s := head + " " + tail;
    FirstIndexOfAt(head, " " + tail, ' ');
    assert s == head + (" " + tail);
    assert s[..|head|] == head;
    assert s[|head| + 1..] == tail;
  }

  lemma {:induction false} RenderHasNoBar(fs: seq<Field>)
    requires forall k | 0 <= k < |fs| :: WellFormed(fs[k])
    ensures '|' !in Render(fs)
  {
    if |fs| > 1 {
      RenderHasNoBar(fs[1..]);
    }
  }

  lemma {:induction false} SplitRender(fs: seq<Field>)
    requires |fs| >= 1
    requires forall k | 0 <= k < |fs| :: WellFormed(fs[k])
    ensures SplitSpaces(Render(fs)) == Chunks(fs)
  {
    var head := Chunk(fs[0]);
    assert ' ' !in head;
    if |fs| == 1 {
      SplitSingle(head);
    } else {
      SplitRender(fs[1..]);
      SplitCons(head, Render(fs[1..]));
    }
  }

  /** Rendering then reading gives back the entries, in order. */
  lemma RenderRoundTrip(fs: seq<Field>)
    requires |fs| >= 1
    requires forall k | 0 <= k < |fs| :: WellFormed(fs[k])
    ensures '|' !in Render(fs)
    ensures ReadFields(Render(fs)) == fs
  {
    RenderHasNoBar(fs);
    SplitRender(fs);
    ReadChunksOfChunks(fs);
  }

  lemma {:induction false} ReadChunksOfChunks(fs: seq<Field>)
    requires forall k | 0 <= k < |fs| :: WellFormed(fs[k])
    ensures ReadChunks(Chunks(fs)) == fs
  {
    if |fs| > 0 {
      ReadChunkOfChunk(fs[0]);
      ReadChunksOfChunks(fs[1..]);
      assert Chunks(fs)[1..] == Chunks(fs[1..]);
    }
  }

  /** `pdata` holds exactly the eight named entries in their fixed order, and no `|`. */
  lemma PerfRoundTrip(s: Sample, show: Formatter)
    requires PlainFormatter(show)
    ensures '|' !in Perf(s, show)
    ensures ReadFields(Perf(s, show)) == Fields(s, show)
    ensures |ReadFields(Perf(s, show))| == 8
    ensures forall i | 0 <= i < 8 :: ReadFields(Perf(s, show))[i].name == FieldNames[i]
  {
    var fs := Fields(s, show);
    FieldNamesPlain();
    forall k | 0 <= k < |fs| ensures WellFormed(fs[k]) {
      assert PlainValue(fs[k].value);
      assert fs[k].suffix in {";;;;", ";;;;;", ""};
    }
    RenderRoundTrip(fs);
  }

  lemma FieldNamesPlain()
    ensures forall i | 0 <= i < |FieldNames| :: ' ' !in FieldNames[i] && '=' !in FieldNames[i] && '|' !in FieldNames[i]
  {
    forall i | 0 <= i < |FieldNames|
      ensures ' ' !in FieldNames[i] && '=' !in FieldNames[i] && '|' !in FieldNames[i]
    {
      var n := FieldNames[i];
      assert forall j | 0 <= j < |n| :: 'a' <= n[j] <= 'z' || n[j] == '_' || '0' <= n[j] <= '9';
    }
  }

  /** Go prints zero as these strings under the three precisions `perf` uses. */
  predicate FormatsZero(show: Formatter) {
    && show(Fixed(0), 0.0) == "0"
    && show(Fixed(6), 0.0) == "0.000000"
    && show(Fixed(10), 0.0) == "0.0000000000"
  }

  /** The entries `perf` produces for the zero sample. */
  lemma ZeroFields(show: Formatter)
    requires FormatsZero(show)
    ensures Fields(ZeroSample, show) ==
      [ Field("time", "0.000000", ";;;;"), Field("total", "0", ";;;;"), Field("sources", "0", ";;;;"),
        Field("throughput", "0", ";;;;"), Field("index_failures", "0", ";;;;"),
        Field("uncommited", "0", ";;;;;"), Field("processbuffertime", "0.0000000000", ";;;;;"),
        Field("inputbufferate_m15", "0.000000", "") ]
  {
  }

  /** The last two entries of the zero sample's perfdata. */
  lemma ZeroLast(show: Formatter)
    requires FormatsZero(show)
    ensures Render(Fields(ZeroSample, show)[6..]) ==
      "processbuffertime=0.0000000000;;;;; " + "inputbufferate_m15=0.000000"
  {
    ZeroFields(show);
    var fs := Fields(ZeroSample, show);
    var r7 := "inputbufferate_m15=0.000000";
    assert Render(fs[7..]) == r7 by { assert fs[7..] == [fs[7]]; }
    assert Chunk(fs[6]) + " " == "processbuffertime=0.0000000000;;;;; ";
    RenderStep(fs, 6);
  }

  /** The last four entries of the zero sample's perfdata. */
  lemma ZeroTail(show: Formatter)
    requires FormatsZero(show)
    ensures Render(Fields(ZeroSample, show)[4..]) ==
      "index_failures=0;;;; " + ("uncommited=0;;;;; " + ("processbuffertime=0.0000000000;;;;; "
      + "inputbufferate_m15=0.000000"))
  {
    ZeroFields(show);
    ZeroLast(show);
    var fs := Fields(ZeroSample, show);
    var r6 := Render(fs[6..]);
    var r5 := "uncommited=0;;;;; " + r6;
    assert Chunk(fs[5]) + " " == "uncommited=0;;;;; ";
    RenderStep(fs, 5);
    assert Render(fs[5..]) == r5;
    assert Chunk(fs[4]) + " " == "index_failures=0;;;; ";
    RenderStep(fs, 4);
  }

  /** The last six entries of the zero sample's perfdata. */
  lemma ZeroMiddle(show: Formatter)
    requires FormatsZero(show)
    ensures Render(Fields(ZeroSample, show)[2..]) ==
      "sources=0;;;; " + ("throughput=0;;;; " + ("index_failures=0;;;; " + ("uncommited=0;;;;; "
      + ("processbuffertime=0.0000000000;;;;; " + "inputbufferate_m15=0.000000"))))
  {
    ZeroFields(show);
    ZeroTail(show);
    var fs := Fields(ZeroSample, show);
    var r4 := Render(fs[4..]);
    var r3 := "throughput=0;;;; " + r4;
    assert Chunk(fs[3]) + " " == "throughput=0;;;; ";
    RenderStep(fs, 3);
    assert Render(fs[3..]) == r3;
    var r2 := "sources=0;;;; " + r3;
    assert Chunk(fs[2]) + " " == "sources=0;;;; ";
    RenderStep(fs, 2);
  }

  /** The perfdata that every exit before sampling prints (main.go:77). */
  lemma InitialPerf(show: Formatter)
    requires FormatsZero(show)
    ensures Perf(ZeroSample, show) ==
      "time=0.000000;;;; " + ("total=0;;;; " + ("sources=0;;;; " + ("throughput=0;;;; "
      + ("index_failures=0;;;; " + ("uncommited=0;;;;; " + ("processbuffertime=0.0000000000;;;;; "
      + "inputbufferate_m15=0.000000"))))))
  {
    ZeroFields(show);
    ZeroMiddle(show);
    var fs := Fields(ZeroSample, show);
    var r2 := Render(fs[2..]);
    var r1 := "total=0;;;; " + r2;
    assert Chunk(fs[1]) + " " == "total=0;;;; ";
    RenderStep(fs, 1);
    assert Render(fs[1..]) == r1;
    assert Chunk(fs[0]) + " " == "time=0.000000;;;; ";
    RenderStep(fs, 0);
    assert fs[0..] == fs;
  }

  lemma RenderStep(fs: seq<Field>, k: nat)
    requires k + 1 < |fs|
    ensures Render(fs[k..]) == Chunk(fs[k]) + " " + Render(fs[k + 1..])
  {
    assert fs[k..][1..] == fs[k + 1..];
  }
}
