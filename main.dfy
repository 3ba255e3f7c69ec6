/** `main.py`: the run against one target, port by port: service detection, the
    known-vulnerability scan, fuzzing at increasing depth, generation of new cases
    by the GAN or DeepSeek, and the generalization test of those cases. The
    collaborators modelled elsewhere are called as they are modelled; the network,
    the prompts and the files `main` does not write itself are parameters. */
module Pipeline {
  import opened Wrappers
  import opened Text
  import opened Transcript
  import GanModel
  import HypothesisFuzz
  import BoofuzzFuzz
  import DeepSeekGenerator
  import Generalization
  import ServiceDetector
  import VulnOrchestrator
  import DepthSelector

  /** What the run meets outside the modelled code. */
  datatype Tools = Tools(
    ip: string,                                              // the target address
    root: string,                                            // the project root default paths hang from
    banner: nat -> ServiceDetector.Attempt,                  // how the exchange of `detect_http_service` ends
    pathTraversal: nat -> bool,                              // `test_path_traversal` on a port
    sqlInjection: nat -> bool,                               // `test_sql_injection` on a port
    probe: nat -> (string -> VulnOrchestrator.ProbeResult),  // the registry probes on a port, by description
    trials: (nat, nat) -> seq<HypothesisFuzz.Trial>,         // what Hypothesis tries on a port at a depth
    fs: string -> LogFile,                                   // files the run reads but does not write
    gan: seq<nat> -> seq<int>,                               // the predictions of a GAN trained on the data
    stamp: nat -> string,                                    // the time stamps of the GAN records
    present: string -> bool,                                 // `os.path.exists`
    net: nat -> ((nat, string) -> Generalization.Reply)      // the replies to the generalization requests
  )

  /** What the collaborators guarantee: Hypothesis stays within its budget and its
      strategies, the GAN is asked for ten cases, and time stamps have their format. */
  ghost predicate WellFormed(tools: Tools)
  {
    && (forall port: nat, depth: nat :: |tools.trials(port, depth)| <= 50 * depth)
    && (forall port: nat, depth: nat, i :: 0 <= i < |tools.trials(port, depth)| ==>
          HypothesisFuzz.InDomain(depth, tools.trials(port, depth)[i].input))
    && (forall data :: |tools.gan(data)| == 10)
    && (forall i: nat :: IsTimestamp(tools.stamp(i)))
  }

  // ------------------------------------------------------------ depth escalation

  /** The directory both fuzzers write into by default. */
  function FuzzOutputDir(root: string): (d: string)
    ensures EndsWith(d, "fuzz_output")
  {
    JoinPath(root, "fuzz_output")
  }

  /** What the fuzzer of the chosen engine returns at a depth: `run_boofuzz` (1)
      its output directory, `run_hypothesis_fuzz` (2) the path of its log. */
  function FuzzLogAt(engine: int, tools: Tools): string
  {
    if engine == 1 then FuzzOutputDir(tools.root) else HypothesisFuzz.LogPath("", FuzzOutputDir(tools.root))
  }

  /** What `load_fuzz_data` then finds at that path: a directory, which cannot be
      opened as a file, or the lines of the log Hypothesis has just written, read
      back with universal newlines. */
  function FuzzFileAt(engine: int, port: nat, depth: nat, tools: Tools): LogFile
  {
    if engine == 1 then Unopenable
    else Readable(SplitLines(Unlines(HypothesisFuzz.LogLines(tools.ip, HypothesisFuzz.LoggedCases(tools.trials(port, depth))))), false)
  }

  /** The anomaly cases `load_fuzz_data` returns at each depth. */
  function Loaded(engine: int, port: nat, tools: Tools): nat -> seq<nat>
  {
    depth => GanModel.LoadSpec(FuzzFileAt(engine, port, depth, tools))
  }

  /** The state of the depth loop: the last value of `fuzz_log`, `anomaly_cases`,
      and the depths tried so far. */
  datatype Escalation = Escalation(fuzzLog: Option<string>, anomalies: seq<nat>, depths: seq<nat>)

  const Initial := Escalation(None, [], [])

  /** Python's truth value of `fuzz_log`. */
  predicate Truthy(log: Option<string>)
  {
    log.Some? && log.value != ""
  }

  /** The depth loop from `depth` on, for a fuzzer that returns `log` and whose log
      parses to `loaded(depth)`: the log is parsed when the path is truthy, and the
      loop stops at the first depth that yields anomalies or after `maxDepth`. */
  function EscalateWith(maxDepth: int, log: string, loaded: nat -> seq<nat>, depth: nat, acc: Escalation): Escalation
    decreases maxDepth - depth
  {
    if depth > maxDepth then acc
    else
      var cases := if log != "" then loaded(depth) else acc.anomalies;
      var next := Escalation(Some(log), cases, acc.depths + [depth]);
      if log != "" && cases != [] then next else EscalateWith(maxDepth, log, loaded, depth + 1, next)
  }

  /** The loop of one port; an engine other than 1 or 2 breaks out at once. */
  function Escalate(engine: int, maxDepth: int, port: nat, tools: Tools): Escalation
  {
    if engine != 1 && engine != 2 then Initial
    else EscalateWith(maxDepth, FuzzLogAt(engine, tools), Loaded(engine, port, tools), 1, Initial)
  }

  /** The `for depth in range(1, max_depth + 1)` loop of one port. */
  method EscalateDepth(engine: int, maxDepth: int, port: nat, tools: Tools) returns (e: Escalation)
    requires WellFormed(tools)
    ensures e == Escalate(engine, maxDepth, port, tools)
  {
    var fuzzLog: Option<string> := None;
    var anomalyCases: seq<nat> := [];
    var depths: seq<nat> := [];
    var depth: nat := 1;
    while depth <= maxDepth
      invariant engine == 1 || engine == 2 ==>
                  EscalateWith(maxDepth, FuzzLogAt(engine, tools), Loaded(engine, port, tools), depth, Escalation(fuzzLog, anomalyCases, depths))
                  == Escalate(engine, maxDepth, port, tools)
      invariant engine != 1 && engine != 2 ==> depth == 1 && Escalation(fuzzLog, anomalyCases, depths) == Initial
      decreases maxDepth - depth
    {
      var log: string;
      var file: LogFile;
      if engine == 1 {
        var dir, _ := BoofuzzFuzz.RunBoofuzz(None, tools.root);
        log, file := dir, Unopenable;
      } else if engine == 2 {
        var trials := tools.trials(port, depth);
        var path, lines, _ := HypothesisFuzz.RunHypothesisFuzz(tools.ip, 50, depth, "", FuzzOutputDir(tools.root), trials);
        log, file := path, Readable(SplitLines(Unlines(lines)), false);
      } else {
        break;
      }
      fuzzLog := Some(log);
      depths := depths + [depth];
      if log != "" {
        anomalyCases := GanModel.LoadFuzzData(file);
        if anomalyCases != [] {
          break;
        }
      }
      depth := depth + 1;
    }
    e := Escalation(fuzzLog, anomalyCases, depths);
  }

  /** The depths tried are 1, 2, ... in order and at most `maxDepth` of them; with
      no anomaly every depth up to `maxDepth` was tried and none yielded cases, and
      with one the loop stopped at the first depth that did, keeping its log and
      cases. */
  lemma {:induction false} EscalationFrom(maxDepth: int, log: string, loaded: nat -> seq<nat>, depth: nat, acc: Escalation)
    requires depth >= 1 && |acc.depths| == depth - 1 && acc.anomalies == []
    requires forall i :: 0 <= i < |acc.depths| ==> acc.depths[i] == i + 1
    requires forall d: nat :: 1 <= d < depth ==> log == "" || loaded(d) == []
    ensures var e := EscalateWith(maxDepth, log, loaded, depth, acc);
            && |acc.depths| <= |e.depths| <= (if maxDepth < depth then depth - 1 else maxDepth)
            && (forall i :: 0 <= i < |e.depths| ==> e.depths[i] == i + 1)
            && (e.anomalies == [] ==> |e.depths| == (if maxDepth < depth then depth - 1 else maxDepth)
                                      && forall d: nat :: 1 <= d <= |e.depths| ==> log == "" || loaded(d) == [])
            && (e.anomalies != [] ==>
                  && e.depths != [] && e.fuzzLog == Some(log) && log != ""
                  && e.anomalies == loaded(|e.depths|)
                  && forall d: nat :: 1 <= d < |e.depths| ==> loaded(d) == [])
    decreases maxDepth - depth
  {
    if depth <= maxDepth {
      var cases := if log != "" then loaded(depth) else acc.anomalies;
      var next := Escalation(Some(log), cases, acc.depths + [depth]);
      if !(log != "" && cases != []) {
        EscalationFrom(maxDepth, log, loaded, depth + 1, next);
      }
    }
  }

  /** A depth at which the parsed log is empty. */
  predicate Quiet(engine: int, port: nat, depth: nat, tools: Tools)
  {
    FuzzLogAt(engine, tools) == "" || Loaded(engine, port, tools)(depth) == []
  }

  /** The loop of a port tries depths 1, 2, ... up to `maxDepth` and stops at the
      first depth whose log yields anomalies; with none, every depth was quiet. */
  lemma {:induction false} EscalationStops(engine: int, maxDepth: int, port: nat, tools: Tools)
    requires engine == 1 || engine == 2
    ensures var e := Escalate(engine, maxDepth, port, tools);
            && |e.depths| <= (if maxDepth < 1 then 0 else maxDepth)
            && (forall i :: 0 <= i < |e.depths| ==> e.depths[i] == i + 1)
            && (e.anomalies == [] ==>
                  && |e.depths| == (if maxDepth < 1 then 0 else maxDepth)
                  && forall d: nat :: 1 <= d <= |e.depths| ==> Quiet(engine, port, d, tools))
            && (e.anomalies != [] ==>
                  && Truthy(e.fuzzLog)
                  && e.anomalies == GanModel.LoadSpec(FuzzFileAt(engine, port, |e.depths|, tools))
                  && forall d: nat :: 1 <= d < |e.depths| ==> Quiet(engine, port, d, tools))
  {
    EscalationFrom(maxDepth, FuzzLogAt(engine, tools), Loaded(engine, port, tools), 1, Initial);
  }

  /** `run_boofuzz` returns its output directory, and reading a directory as a log
      fails, so boofuzz never yields anomalies and every depth is tried. */
  lemma {:induction false} BoofuzzNeverEscalates(maxDepth: int, port: nat, tools: Tools)
    ensures Escalate(1, maxDepth, port, tools).anomalies == []
    ensures |Escalate(1, maxDepth, port, tools).depths| == (if maxDepth < 1 then 0 else maxDepth)
  {
    GanModel.LoadUnreadable([]);
    EscalationStops(1, maxDepth, port, tools);
  }

  // ------------------------------------------------------------ generation

  /** A generated case file: where it was written, what reading it back finds, and
      the lengths and payloads of its cases. */
  datatype Generated = Generated(path: string, file: LogFile, lengths: seq<nat>, payloads: seq<string>)

  function Clock(n: nat, tools: Tools): (c: seq<string>)
    ensures |c| == n
  {
    seq(n, i requires 0 <= i < n => tools.stamp(i))
  }

  /** The file DeepSeek trains from when `train_from_log()` is called bare. */
  function DeepSeekTraining(tools: Tools): LogFile
  {
    tools.fs(DeepSeekGenerator.ResolveLogPath(None, tools.root))
  }

  /** What generation leaves behind whichever generator ran: ten cases written to
      `generated_output/generated_cases.log`, each a request of its length. */
  predicate TenCases(tools: Tools, g: Generated)
  {
    && g.path == GeneratedPath(tools.root)
    && |g.lengths| == 10 && |g.payloads| == 10
    && forall k :: 0 <= k < 10 ==> GanModel.IsPayload(g.payloads[k], g.lengths[k])
  }

  /** The GAN's cases: their lengths come from its predictions on the anomaly
      cases, and the file holds its time-stamped records, read back with
      universal newlines. */
  predicate GanGenerated(anomalies: seq<nat>, tools: Tools, g: Generated)
  {
    && g.lengths == GanModel.SampleLengths(tools.gan(GanModel.TrainingData(anomalies)))
    && g.file == Readable(SplitLines(Unlines(GanModel.GanLog(Clock(|g.payloads|, tools), g.payloads))), false)
  }

  /** DeepSeek's cases: their lengths come from what it learned from the boofuzz
      log (5 to 100 when it learned nothing), and the file holds its requests. */
  predicate DeepSeekGenerated(tools: Tools, g: Generated)
  {
    var learned := DeepSeekGenerator.Learned(DeepSeekTraining(tools));
    && |g.lengths| == |g.payloads|
    && (learned == [] ==> forall k :: 0 <= k < |g.lengths| ==> 5 <= g.lengths[k] <= 100)
    && (learned != [] ==> forall k :: 0 <= k < |g.lengths| ==> DeepSeekGenerator.Jittered(g.lengths[k], learned))
    && g.file == Readable(SplitLines(DeepSeekGenerator.SavedText(g.lengths, g.payloads)), false)
  }

  /** What generation with choice 2 (GAN) or 3 (DeepSeek) leaves behind. */
  predicate GeneratedBy(generation: int, anomalies: seq<nat>, tools: Tools, g: Generated)
  {
    && TenCases(tools, g)
    && (generation == 2 ==> GanGenerated(anomalies, tools, g))
    && (generation == 3 ==> DeepSeekGenerated(tools, g))
  }

  /** `train_gan(anomaly_cases)` and `generate_test_cases(generator, num_cases=10)`. */
  method GenerateWithGan(anomalies: seq<nat>, tools: Tools) returns (g: Generated)
    requires |tools.gan(GanModel.TrainingData(anomalies))| == 10
    ensures TenCases(tools, g) && GanGenerated(anomalies, tools, g)
  {
    var samples := tools.gan(GanModel.TrainingData(anomalies));
    var written, payloads := GanModel.GenerateTestCases(Some(samples), Clock(|samples|, tools));
    var lengths := GanModel.SampleLengths(samples);
    g := Generated(GeneratedPath(tools.root), Readable(SplitLines(Unlines(written.value)), false), lengths, payloads);
  }

  /** What `save_generated_cases(num_cases=10)` leaves, after training on the
      default log, is DeepSeek's generation step. */
  lemma {:induction false} DeepSeekSaved(tools: Tools, learned: seq<nat>, g: Generated, content: string)
    requires learned == DeepSeekGenerator.Learned(DeepSeekTraining(tools))
    requires g.path == GeneratedPath(tools.root)
    requires |g.lengths| == 10 && |g.payloads| == 10
    requires learned == [] ==> forall k :: 0 <= k < 10 ==> 5 <= g.lengths[k] <= 100
    requires learned != [] ==> forall k :: 0 <= k < 10 ==> DeepSeekGenerator.Jittered(g.lengths[k], learned)
    requires forall k :: 0 <= k < 10 ==> GanModel.IsPayload(g.payloads[k], g.lengths[k])
    requires content == DeepSeekGenerator.SavedText(g.lengths, g.payloads)
    requires g.file == Readable(SplitLines(content), false)
    ensures TenCases(tools, g) && DeepSeekGenerated(tools, g)
  {
  }

  /** Whether `train_from_log()` raises on its default log: the file exists but
      cannot be opened, or reading it fails. Nothing in `main` catches that. */
  predicate TrainingRaises(tools: Tools)
  {
    var f := DeepSeekTraining(tools);
    f.Unopenable? || (f.Readable? && f.fails)
  }

  /** A fresh `DeepSeekGenerator()`, `train_from_log()` on its default log, and
      `save_generated_cases(num_cases=10)`; no cases when training raises. */
  method GenerateWithDeepSeek(tools: Tools) returns (g: Option<Generated>)
    ensures g.None? <==> TrainingRaises(tools)
    ensures g.Some? ==> TenCases(tools, g.value) && DeepSeekGenerated(tools, g.value)
  {
    var generator := new DeepSeekGenerator.Generator(DeepSeekGenerator.DefaultModel);
    var raised := generator.TrainFromLog(DeepSeekTraining(tools));
    if raised {
      return None;
    }
    var path, lengths, payloads, content := generator.SaveGeneratedCases(10, tools.root);
    var cases := Generated(path, Readable(SplitLines(content), false), lengths, payloads);
    DeepSeekSaved(tools, generator.learnedLengths, cases, content);
    g := Some(cases);
  }

  /** The generation step: the GAN for choice 2, DeepSeek for choice 3, nothing
      otherwise. DeepSeek's training can raise, which ends the run. */
  method GenerateCases(generation: int, anomalies: seq<nat>, tools: Tools) returns (g: Option<Generated>, raised: bool)
    requires WellFormed(tools)
    ensures raised <==> generation == 3 && TrainingRaises(tools)
    ensures g.Some? <==> (generation == 2 || generation == 3) && !raised
    ensures g.Some? ==> GeneratedBy(generation, anomalies, tools, g.value)
  {
    raised := false;
    if generation == 2 {
      var cases := GenerateWithGan(anomalies, tools);
      g := Some(cases);
    } else if generation == 3 {
      g := GenerateWithDeepSeek(tools);
      raised := g.None?;
    } else {
      g := None;
    }
  }

  // ------------------------------------------------------------ generalization

  /** The index just past the last '/' of `p`, or 0. */
  function AfterLastSlash(p: string): (i: nat)
    ensures i <= |p|
    ensures i > 0 ==> p[i - 1] == '/'
    ensures forall j :: i <= j < |p| ==> p[j] != '/'
  {
    if p == [] then 0 else if p[|p| - 1] == '/' then |p| else AfterLastSlash(p[..|p| - 1])
  }

  /** `s.rstrip("/")`. */
  function StripSlashes(s: string): (r: string)
    ensures |r| <= |s| && r == s[..|r|]
    ensures r == [] || r[|r| - 1] != '/'
  {
    if s != [] && s[|s| - 1] == '/' then StripSlashes(s[..|s| - 1]) else s
  }

  /** `os.path.dirname(p)`: everything up to the last slash, with trailing slashes
      removed unless only slashes are left. */
  function Dirname(p: string): (d: string)
    ensures |d| <= |p|
  {
    var head := p[..AfterLastSlash(p)];
    if head != [] && exists k | 0 <= k < |head| :: head[k] != '/' then StripSlashes(head) else head
  }

  /** The name of a file in a directory that does not end in a slash has that
      directory as its dirname. */
  lemma {:induction false} DirnameOfJoin(dir: string, name: string)
    requires dir != [] && dir[|dir| - 1] != '/'
    requires name != [] && '/' !in name
    ensures Dirname(JoinPath(dir, name)) == dir
  {
    var p := JoinPath(dir, name);
    assert p == dir + "/" + name;
    forall j | |dir| + 1 <= j < |p|
      ensures p[j] != '/'
    {
      assert p[j] == name[j - |dir| - 1];
    }
    assert AfterLastSlash(p) == |dir| + 1 by {
      var i := AfterLastSlash(p);
      assert p[|dir|] == '/';
    }
    var head := p[..|dir| + 1];
    assert head == dir + "/";
    assert head[|dir| - 1] != '/';
    assert StripSlashes(head) == dir by {
      assert head[..|head| - 1] == dir;
    }
  }

  /** Where the generalization results are saved: beside the case file. */
  function ResultsPath(casePath: string): string
  {
    JoinPath(Dirname(casePath), "generalization_results.json")
  }

  /** The results of both generators land in `generated_output`, so every port
      writes the same results file. */
  lemma {:induction false} ResultsBesideCases(root: string)
    ensures ResultsPath(GeneratedPath(root)) == JoinPath(JoinPath(root, "generated_output"), "generalization_results.json")
  {
    var dir := JoinPath(root, "generated_output");
    assert EndsWith(dir, "generated_output");
    assert dir[|dir| - 1] == "generated_output"[15];
    DirnameOfJoin(dir, "generated_cases.log");
  }

  /** `results` is what `test_generated_cases` returns on `file`: one classified
      result per extracted payload, in order. */
  predicate ResultsFor(results: seq<Generalization.CaseResult>, file: LogFile, net: (nat, string) -> Generalization.Reply)
  {
    && Generalization.ExtractSpec(file).Some?
    && |results| == |Generalization.ExtractSpec(file).value|
    && forall k :: 0 <= k < |results| ==>
         var p := Generalization.ExtractSpec(file).value[k];
         Generalization.Classified(results[k], k, p, net(k, p))
  }

  /** The generalization step: run only if the case file exists, its results saved
      beside it. */
  method Generalize(port: nat, g: Generated, tools: Tools)
    returns (saved: Option<(string, seq<Generalization.CaseResult>)>)
    requires g.file.Readable? && !g.file.fails
    ensures saved.Some? <==> tools.present(g.path)
    ensures saved.Some? ==> saved.value.0 == ResultsPath(g.path) && ResultsFor(saved.value.1, g.file, tools.net(port))
  {
    var filepath := g.path;
    if tools.present(filepath) {
      var results, _ := Generalization.TestGeneratedCases(g.file, tools.net(port));
      saved := Some((ResultsPath(filepath), results.value));
    } else {
      saved := None;
    }
  }

  // ------------------------------------------------------------ one port

  /** What `main` does for a port whose service is known; `aborted` when the
      exception that ends `main` was raised on this port. */
  datatype PortOutcome = PortOutcome(
    port: nat,
    service: string,
    findings: seq<VulnOrchestrator.Finding>,
    escalation: Option<Escalation>,
    generated: Option<Generated>,
    generalization: Option<(string, seq<Generalization.CaseResult>)>,
    aborted: bool
  )

  /** The service `detect_http_service` reports on a port. */
  function Service(port: nat, tools: Tools): string
  {
    ServiceDetector.DetectHttpService(tools.banner(port))
  }

  /** The scan's findings on a port: the generic checks, then the registry's. */
  predicate Scanned(tools: Tools, o: PortOutcome)
  {
    VulnOrchestrator.Descriptions(o.findings)
    == VulnOrchestrator.GenericFindings(tools.pathTraversal(o.port), tools.sqlInjection(o.port))
       + VulnOrchestrator.RegistryFindings(VulnOrchestrator.Registry, o.service, tools.probe(o.port))
  }

  /** Fuzzing runs exactly when the scan found nothing, and escalates as
      `Escalate` says. */
  predicate Fuzzed(engine: int, maxDepth: int, tools: Tools, o: PortOutcome)
  {
    && (o.escalation.Some? <==> o.findings == [])
    && (o.escalation.Some? ==> o.escalation.value == Escalate(engine, maxDepth, o.port, tools))
  }

  /** Fuzzing ran, left a log and found anomalies. */
  predicate Anomalous(o: PortOutcome)
  {
    o.escalation.Some? && Truthy(o.escalation.value.fuzzLog) && o.escalation.value.anomalies != []
  }

  /** Generation runs exactly after a fuzzing run with a log and anomalies, with
      choice 2 or 3; with choice 3 a training that raises aborts the run instead. */
  predicate GenerationRan(generation: int, tools: Tools, o: PortOutcome)
  {
    && (o.aborted <==> Anomalous(o) && generation == 3 && TrainingRaises(tools))
    && (o.generated.Some? <==> Anomalous(o) && (generation == 2 || generation == 3) && !o.aborted)
    && (o.generated.Some? ==> GeneratedBy(generation, o.escalation.value.anomalies, tools, o.generated.value))
  }

  /** The generalization test runs exactly when the case file exists, and
      classifies every request read back from it. */
  predicate Generalized(tools: Tools, o: PortOutcome)
  {
    && (o.generalization.Some? <==> o.generated.Some? && tools.present(o.generated.value.path))
    && (o.generalization.Some? ==>
          && o.generalization.value.0 == ResultsPath(o.generated.value.path)
          && ResultsFor(o.generalization.value.1, o.generated.value.file, tools.net(o.port)))
  }

  /** The body of the port loop, after the service check: fuzzing only when the
      scan found nothing, generation only after anomalies, with choice 2 or 3, and
      the generalization test only when the case file exists. */
  predicate Handled(engine: int, generation: int, maxDepth: int, tools: Tools, o: PortOutcome)
  {
    && o.service == Service(o.port, tools) && o.service != ServiceDetector.Unknown
    && Scanned(tools, o)
    && Fuzzed(engine, maxDepth, tools, o)
    && GenerationRan(generation, tools, o)
    && Generalized(tools, o)
  }

  /** The port loop's body once the service is known: the scan, then fuzzing,
      generation and the generalization test as the scan and the fuzzer allow. */
  method HandlePort(engine: int, generation: int, maxDepth: int, port: nat, service: string, tools: Tools)
    returns (outcome: PortOutcome)
    requires WellFormed(tools)
    requires service == Service(port, tools) && service != ServiceDetector.Unknown
    ensures outcome.port == port && Handled(engine, generation, maxDepth, tools, outcome)
  {
    var cveList, vulnerabilityFound, _ :=
      VulnOrchestrator.PerformVulnerabilityScan(service, tools.pathTraversal(port), tools.sqlInjection(port), tools.probe(port));
    var escalation: Option<Escalation> := None;
    var generated: Option<Generated> := None;
    var generalization: Option<(string, seq<Generalization.CaseResult>)> := None;
    var aborted := false;
    if !vulnerabilityFound {
      var e := EscalateDepth(engine, maxDepth, port, tools);
      escalation := Some(e);
      if Truthy(e.fuzzLog) && e.anomalies != [] {
        generated, aborted := GenerateCases(generation, e.anomalies, tools);
        if generated.Some? {
          generalization := Generalize(port, generated.value, tools);
        }
      }
    }
    outcome := PortOutcome(port, service, cveList, escalation, generated, generalization, aborted);
  }

  // ------------------------------------------------------------ what comes out

  /** Generation never follows boofuzz fuzzing, so a boofuzz run is never aborted. */
  lemma {:induction false} BoofuzzNeverGenerates(generation: int, maxDepth: int, tools: Tools, o: PortOutcome)
    requires Handled(1, generation, maxDepth, tools, o)
    ensures o.generated.None? && o.generalization.None? && !o.aborted
  {
    BoofuzzNeverEscalates(maxDepth, o.port, tools);
  }

  /** The DeepSeek case file holds no Transmitted lines, so its generalization test
      sends nothing and reports nothing. */
  lemma {:induction false} DeepSeekGeneralizesNothing(engine: int, maxDepth: int, tools: Tools, o: PortOutcome)
    requires Handled(engine, 3, maxDepth, tools, o)
    requires o.generalization.Some?
    ensures o.generalization.value.1 == []
  {
    var g := o.generated.value;
    Generalization.DeepSeekOutputYieldsNothing(g.lengths, g.payloads);
  }

  /** Results for the GAN case file: one per GAN request, in order. */
  lemma {:induction false} GanResults(clock: seq<string>, payloads: seq<string>, file: LogFile,
                                      results: seq<Generalization.CaseResult>, net: (nat, string) -> Generalization.Reply)
    requires |clock| == |payloads| == 10
    requires forall k :: 0 <= k < |clock| ==> IsTimestamp(clock[k])
    requires file == Readable(SplitLines(Unlines(GanModel.GanLog(clock, payloads))), false)
    requires ResultsFor(results, file, net)
    ensures |results| == 10
    ensures forall k :: 0 <= k < 10 ==> results[k].index == k && results[k].payload == GanModel.GanRequest(payloads[k])
  {
    Generalization.GanOutputReplay(clock, payloads);
  }

  /** Results for the ten GAN cases of a run, whose records carry the run's
      time stamps. */
  lemma {:induction false} GanCaseResults(tools: Tools, payloads: seq<string>, file: LogFile,
                                          results: seq<Generalization.CaseResult>, net: (nat, string) -> Generalization.Reply)
    requires forall i: nat :: IsTimestamp(tools.stamp(i))
    requires |payloads| == 10 && file == Readable(SplitLines(Unlines(GanModel.GanLog(Clock(10, tools), payloads))), false)
    requires ResultsFor(results, file, net)
    ensures |results| == 10
    ensures forall k :: 0 <= k < 10 ==> results[k].index == k && results[k].payload == GanModel.GanRequest(payloads[k])
  {
    var clock := Clock(10, tools);
    assert forall k :: 0 <= k < |clock| ==> IsTimestamp(clock[k]);
    GanResults(clock, payloads, file, results, net);
  }

  /** The GAN generation step followed by the generalization test: every GAN
      request is sent, once and in order, as the body of a GET to `/`. */
  lemma {:induction false} GanThenGeneralize(tools: Tools, o: PortOutcome)
    requires forall i: nat :: IsTimestamp(tools.stamp(i))
    requires GenerationRan(2, tools, o) && Generalized(tools, o)
    requires o.generalization.Some?
    ensures |o.generalization.value.1| == 10
    ensures forall k :: 0 <= k < 10 ==>
              o.generalization.value.1[k].index == k
              && o.generalization.value.1[k].payload == GanModel.GanRequest(o.generated.value.payloads[k])
  {
    var g := o.generated.value;
    GanCaseResults(tools, g.payloads, g.file, o.generalization.value.1, tools.net(o.port));
  }

  /** The GAN case file is read back whole: the generalization test sends each of
      the ten GAN requests once, in order. */
  lemma {:induction false} GanGeneralizesEveryCase(engine: int, maxDepth: int, tools: Tools, o: PortOutcome)
    requires WellFormed(tools)
    requires Handled(engine, 2, maxDepth, tools, o)
    requires o.generalization.Some?
    ensures |o.generalization.value.1| == 10
    ensures forall k :: 0 <= k < 10 ==>
              o.generalization.value.1[k].index == k
              && o.generalization.value.1[k].payload == GanModel.GanRequest(o.generated.value.payloads[k])
  {
    GanThenGeneralize(tools, o);
  }

  // ------------------------------------------------------------ the run

  /** A report as `generate_report` receives it. */
  datatype Report = Report(openPorts: seq<nat>, service: string, cves: seq<VulnOrchestrator.Finding>, fuzzCases: seq<string>)

  /** The open ports whose service is known, in order. */
  function KnownPorts(ports: seq<nat>, tools: Tools): (r: seq<nat>)
    ensures |r| <= |ports|
  {
    if ports == [] then []
    else
      var last := ports[|ports| - 1];
      KnownPorts(ports[..|ports| - 1], tools) + (if Service(last, tools) != ServiceDetector.Unknown then [last] else [])
  }

  /** One more port in the scan order: it joins the known ports when its service
      is known. */
  lemma {:induction false} KnownPortsStep(ports: seq<nat>, i: nat, tools: Tools)
    requires i < |ports|
    ensures KnownPorts(ports[..i + 1], tools)
            == KnownPorts(ports[..i], tools) + (if Service(ports[i], tools) != ServiceDetector.Unknown then [ports[i]] else [])
  {
    assert ports[..i + 1][..i] == ports[..i];
  }

  /** The known ports of two runs of ports, one after the other. */
  lemma {:induction false} KnownPortsAppend(a: seq<nat>, b: seq<nat>, tools: Tools)
    ensures KnownPorts(a + b, tools) == KnownPorts(a, tools) + KnownPorts(b, tools)
    decreases |b|
  {
    if b == [] {
      assert a + b == a;
    } else {
      var init := b[..|b| - 1];
      var last := b[|b| - 1];
      var x := if Service(last, tools) != ServiceDetector.Unknown then [last] else [];
      assert (a + b)[..|a + b| - 1] == a + init;
      KnownPortsAppend(a, init, tools);
      assert KnownPorts(a + b, tools) == KnownPorts(a + init, tools) + x;
      assert KnownPorts(b, tools) == KnownPorts(init, tools) + x;
      AppendAssoc(KnownPorts(a, tools), KnownPorts(init, tools), x);
    }
  }

  /** The known ports among the first `i` come first among all known ports. */
  lemma {:induction false} KnownPortsPrefix(ports: seq<nat>, i: nat, tools: Tools)
    requires i <= |ports|
    ensures |KnownPorts(ports[..i], tools)| <= |KnownPorts(ports, tools)|
    ensures KnownPorts(ports[..i], tools) == KnownPorts(ports, tools)[..|KnownPorts(ports[..i], tools)|]
  {
    assert ports == ports[..i] + ports[i..];
    KnownPortsAppend(ports[..i], ports[i..], tools);
    SliceLeft(KnownPorts(ports[..i], tools), KnownPorts(ports[i..], tools), 0, |KnownPorts(ports[..i], tools)|);
  }

  /** The outcomes are those of the known ports among the first `i`, in order. Each
      comes with its report, except one that aborted the run: that one is the
      last, and the run stopped there. */
  predicate InScanOrder(tools: Tools, openPorts: seq<nat>, i: nat, outcomes: seq<PortOutcome>, reports: seq<Report>, stopped: bool)
    requires i <= |openPorts|
  {
    && |outcomes| == |KnownPorts(openPorts[..i], tools)|
    && (forall k :: 0 <= k < |outcomes| ==> outcomes[k].port == KnownPorts(openPorts[..i], tools)[k])
    && (forall k :: 0 <= k < |outcomes| ==> (outcomes[k].aborted <==> stopped && k == |outcomes| - 1))
    && (stopped ==> outcomes != [])
    && |reports| == (if stopped then |outcomes| - 1 else |outcomes|)
    && (forall k :: 0 <= k < |reports| ==> reports[k] == Report(openPorts, outcomes[k].service, outcomes[k].findings, []))
  }

  /** Every outcome was handled. */
  predicate AllHandled(engine: int, generation: int, maxDepth: int, tools: Tools, outcomes: seq<PortOutcome>)
  {
    forall k :: 0 <= k < |outcomes| ==> Handled(engine, generation, maxDepth, tools, outcomes[k])
  }

  /** A port whose service is unknown adds nothing. */
  lemma {:induction false} SkipPort(tools: Tools, openPorts: seq<nat>, i: nat, outcomes: seq<PortOutcome>, reports: seq<Report>)
    requires i < |openPorts| && Service(openPorts[i], tools) == ServiceDetector.Unknown
    requires InScanOrder(tools, openPorts, i, outcomes, reports, false)
    ensures InScanOrder(tools, openPorts, i + 1, outcomes, reports, false)
  {
    KnownPortsStep(openPorts, i, tools);
  }

  /** A port whose service is known adds its outcome, and its report unless it
      aborted the run. */
  lemma {:induction false} AddPort(tools: Tools, openPorts: seq<nat>, i: nat, outcomes: seq<PortOutcome>, reports: seq<Report>, o: PortOutcome)
    requires i < |openPorts| && o.port == openPorts[i] && Service(openPorts[i], tools) != ServiceDetector.Unknown
    requires InScanOrder(tools, openPorts, i, outcomes, reports, false)
    ensures InScanOrder(tools, openPorts, i + 1, outcomes + [o],
                        if o.aborted then reports else reports + [Report(openPorts, o.service, o.findings, [])], o.aborted)
  {
    KnownPortsStep(openPorts, i, tools);
  }

  /** Appending a handled outcome keeps every outcome handled. */
  lemma {:induction false} AddHandled(engine: int, generation: int, maxDepth: int, tools: Tools, outcomes: seq<PortOutcome>, o: PortOutcome)
    requires AllHandled(engine, generation, maxDepth, tools, outcomes) && Handled(engine, generation, maxDepth, tools, o)
    ensures AllHandled(engine, generation, maxDepth, tools, outcomes + [o])
  {
    var os := outcomes + [o];
    forall k | 0 <= k < |os|
      ensures Handled(engine, generation, maxDepth, tools, os[k])
    {
      if k < |outcomes| {
        assert os[k] == outcomes[k];
      }
    }
  }

  /** Where the port loop ended: after every port, or at the port that aborted the
      run. The known ports among those visited come first among all known ports,
      and only a run stopped by DeepSeek's training ends early. */
  lemma {:induction false} LoopEnd(engine: int, generation: int, maxDepth: int, tools: Tools, openPorts: seq<nat>, i: nat,
                                   outcomes: seq<PortOutcome>, reports: seq<Report>, stopped: bool)
    requires i <= |openPorts| && (!stopped ==> i == |openPorts|)
    requires InScanOrder(tools, openPorts, i, outcomes, reports, stopped)
    requires AllHandled(engine, generation, maxDepth, tools, outcomes)
    ensures |outcomes| <= |KnownPorts(openPorts, tools)|
    ensures forall k :: 0 <= k < |outcomes| ==> outcomes[k].port == KnownPorts(openPorts, tools)[k]
    ensures !stopped ==> |outcomes| == |KnownPorts(openPorts, tools)|
    ensures stopped ==> outcomes != [] && generation == 3 && TrainingRaises(tools)
  {
    KnownPortsPrefix(openPorts, i, tools);
    assert openPorts[..|openPorts|] == openPorts;
    if stopped {
      StoppedByTraining(engine, generation, maxDepth, tools, outcomes);
    }
  }

  /** A run that stopped did so on a port whose DeepSeek training raised. */
  lemma {:induction false} StoppedByTraining(engine: int, generation: int, maxDepth: int, tools: Tools, outcomes: seq<PortOutcome>)
    requires AllHandled(engine, generation, maxDepth, tools, outcomes)
    requires outcomes != [] && outcomes[|outcomes| - 1].aborted
    ensures generation == 3 && TrainingRaises(tools)
  {
    assert Handled(engine, generation, maxDepth, tools, outcomes[|outcomes| - 1]);
  }

  /** One pass of the port loop: a port whose service is unknown is skipped; any
      other is handled, and reported unless it aborted the run. */
  method VisitPort(engine: int, generation: int, maxDepth: int, openPorts: seq<nat>, i: nat, tools: Tools,
                   outcomes: seq<PortOutcome>, reports: seq<Report>)
    returns (outcomes': seq<PortOutcome>, reports': seq<Report>, raised: bool)
    requires WellFormed(tools) && i < |openPorts|
    requires InScanOrder(tools, openPorts, i, outcomes, reports, false)
    requires AllHandled(engine, generation, maxDepth, tools, outcomes)
    ensures InScanOrder(tools, openPorts, i + 1, outcomes', reports', raised)
    ensures AllHandled(engine, generation, maxDepth, tools, outcomes')
  {
    var port := openPorts[i];
    var service := ServiceDetector.DetectHttpService(tools.banner(port));
    if service == ServiceDetector.Unknown {
      SkipPort(tools, openPorts, i, outcomes, reports);
      return outcomes, reports, false;
    }
    var outcome := HandlePort(engine, generation, maxDepth, port, service, tools);
    var newCases: seq<string> := [];
    AddPort(tools, openPorts, i, outcomes, reports, outcome);
    AddHandled(engine, generation, maxDepth, tools, outcomes, outcome);
    outcomes' := outcomes + [outcome];
    raised := outcome.aborted;
    reports' := if raised then reports else reports + [Report(openPorts, service, outcome.findings, newCases)];
  }

  /** `main(target_ip)` after the prompts: the engine and generation choices, the
      answer to the depth prompt, and the open ports found by the scan. Each port
      whose service is known is handled in scan order and reported with an empty
      list of fuzz cases, until DeepSeek's training raises: `main` then ends on
      that port, without its report and without the ports after it. */
  method RunMain(engine: int, generation: int, depthInput: Option<string>, openPorts: seq<nat>, tools: Tools)
    returns (outcomes: seq<PortOutcome>, reports: seq<Report>, raised: bool)
    requires WellFormed(tools)
    ensures openPorts == [] ==> outcomes == [] && reports == [] && !raised
    ensures |outcomes| <= |KnownPorts(openPorts, tools)|
    ensures forall k :: 0 <= k < |outcomes| ==> outcomes[k].port == KnownPorts(openPorts, tools)[k]
    ensures !raised ==> |outcomes| == |KnownPorts(openPorts, tools)|
    ensures raised ==> outcomes != [] && generation == 3 && TrainingRaises(tools)
    ensures forall k :: 0 <= k < |outcomes| ==> (outcomes[k].aborted <==> raised && k == |outcomes| - 1)
    ensures forall k :: 0 <= k < |outcomes| ==>
              Handled(engine, generation, DepthSelector.SelectMaxDepth(depthInput), tools, outcomes[k])
    ensures |reports| == (if raised then |outcomes| - 1 else |outcomes|)
    ensures forall k :: 0 <= k < |reports| ==>
              reports[k] == Report(openPorts, outcomes[k].service, outcomes[k].findings, [])
  {
    var maxDepth := DepthSelector.SelectMaxDepth(depthInput);
    outcomes, reports, raised := [], [], false;
    if openPorts == [] {
      return;
    }
    var i := 0;
    while i < |openPorts| && !raised
      invariant i <= |openPorts|
      invariant InScanOrder(tools, openPorts, i, outcomes, reports, raised)
      invariant AllHandled(engine, generation, maxDepth, tools, outcomes)
      decreases |openPorts| - i
    {
      outcomes, reports, raised := VisitPort(engine, generation, maxDepth, openPorts, i, tools, outcomes, reports);
      i := i + 1;
    }
    LoopEnd(engine, generation, maxDepth, tools, openPorts, i, outcomes, reports, raised);
  }
}
