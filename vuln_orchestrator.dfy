/** `modules/vuln_orchestrator.py`: the known-vulnerability scan of one port, with
    each probe of `modules/exp_tester.py` reduced to its verdict. */
module VulnOrchestrator {
  import opened Text

  const PathTraversal := "Path Traversal"
  const SqlInjection := "SQL Injection"

  /** How a registry probe ended: a vulnerability found, none found, or an
      exception. */
  datatype ProbeResult = Vulnerable | NotVulnerable | Raised(message: string)

  /** A registry entry: the version its condition looks for after "nginx", and the
      descriptions of its probes, in order. */
  datatype Entry = Entry(version: string, tests: seq<string>)

  /** `VULN_TEST_REGISTRY`. */
  const Registry: seq<Entry> := [
    Entry("1.8", ["HTTP request smuggling", "Buffer overflow", "CVE-2016-0747"]),
    Entry("1.18", ["CVE-2021-23017", "CVE-2021-3618", "CVE-2020-12440"])
  ]

  /** `re.search(r"nginx.*" + version, s, re.IGNORECASE)` for a version made of
      digits and dots: "nginx" in any case, then the version later on the same line. */
  predicate NginxThen(s: string, version: string)
  {
    exists i, j | 0 <= i && i + 5 <= j <= |s| ::
      FoldedAt(s, "nginx", i) && OccursAt(s, version, j) && j + |version| <= DotEnd(s, i + 5)
  }

  /** A finding as the scan reports it: `(description, True)`. */
  type Finding = (string, bool)

  function Descriptions(results: seq<Finding>): (ds: seq<string>)
    ensures |ds| == |results|
    ensures forall k :: 0 <= k < |results| ==> ds[k] == results[k].0
  {
    seq(|results|, k requires 0 <= k < |results| => results[k].0)
  }

  /** The generic finding: path traversal if that probe succeeds, else SQL injection
      if that one does. */
  function GenericFindings(pathTraversal: bool, sqlInjection: bool): seq<string>
  {
    if pathTraversal then [PathTraversal] else if sqlInjection then [SqlInjection] else []
  }

  /** The generic probes run: the SQL-injection probe only after the path-traversal
      probe found nothing. */
  function GenericCalls(pathTraversal: bool): seq<string>
  {
    if pathTraversal then [PathTraversal] else [PathTraversal, SqlInjection]
  }

  /** The descriptions, in order, of the probes that found their vulnerability. */
  function TestFindings(tests: seq<string>, probe: string -> ProbeResult): (r: seq<string>)
    ensures forall d :: d in r ==> d in tests && probe(d).Vulnerable?
    ensures forall d :: d in tests && probe(d).Vulnerable? ==> d in r
  {
    if tests == [] then []
    else
      var init := TestFindings(tests[..|tests| - 1], probe);
      assert tests == tests[..|tests| - 1] + [tests[|tests| - 1]];
      if probe(tests[|tests| - 1]).Vulnerable? then init + [tests[|tests| - 1]] else init
  }

  /** The findings of the registry entries whose condition holds, entry by entry. */
  function RegistryFindings(entries: seq<Entry>, service: string, probe: string -> ProbeResult): seq<string>
  {
    if entries == [] then []
    else
      var last := entries[|entries| - 1];
      RegistryFindings(entries[..|entries| - 1], service, probe)
      + (if NginxThen(service, last.version) then TestFindings(last.tests, probe) else [])
  }

  /** The registry probes run: every probe of every entry whose condition holds,
      whatever the earlier probes returned. */
  function RegistryCalls(entries: seq<Entry>, service: string): seq<string>
  {
    if entries == [] then []
    else
      var last := entries[|entries| - 1];
      RegistryCalls(entries[..|entries| - 1], service)
      + (if NginxThen(service, last.version) then last.tests else [])
  }

  /** One more registry entry adds its findings and its probes, or nothing. */
  lemma {:induction false} RegistryStep(entries: seq<Entry>, e: nat, service: string, probe: string -> ProbeResult)
    requires e < |entries|
    ensures RegistryFindings(entries[..e + 1], service, probe)
            == RegistryFindings(entries[..e], service, probe)
               + (if NginxThen(service, entries[e].version) then TestFindings(entries[e].tests, probe) else [])
    ensures RegistryCalls(entries[..e + 1], service)
            == RegistryCalls(entries[..e], service) + (if NginxThen(service, entries[e].version) then entries[e].tests else [])
  {
    assert entries[..e + 1][..e] == entries[..e];
  }

  lemma {:induction false} DescriptionsAppend(a: seq<Finding>, b: seq<Finding>)
    ensures Descriptions(a + b) == Descriptions(a) + Descriptions(b)
  {
  }

  /** The inner loop over one entry's probes: each is called in turn, a success is
      appended as a finding, and a probe that raises is skipped. */
  method RunEntryTests(tests: seq<string>, probe: string -> ProbeResult)
    returns (findings: seq<Finding>, called: seq<string>)
    ensures Descriptions(findings) == TestFindings(tests, probe)
    ensures forall k :: 0 <= k < |findings| ==> findings[k].1
    ensures called == tests
  {
    findings := [];
    called := [];
    for t := 0 to |tests|
      invariant Descriptions(findings) == TestFindings(tests[..t], probe)
      invariant forall k :: 0 <= k < |findings| ==> findings[k].1
      invariant called == tests[..t]
    {
      var description := tests[t];
      assert tests[..t + 1][..t] == tests[..t];
      called := called + [description];
      var outcome := probe(description);
      if outcome.Vulnerable? {
        assert Descriptions(findings + [(description, true)]) == Descriptions(findings) + [description];
        findings := findings + [(description, true)];
      }
    }
    assert tests[..|tests|] == tests;
  }

  /** The outer loop over the registry entries, in order. */
  method ScanRegistry(entries: seq<Entry>, service: string, probe: string -> ProbeResult)
    returns (findings: seq<Finding>, called: seq<string>)
    ensures Descriptions(findings) == RegistryFindings(entries, service, probe)
    ensures forall k :: 0 <= k < |findings| ==> findings[k].1
    ensures called == RegistryCalls(entries, service)
  {
    findings := [];
    called := [];
    for e := 0 to |entries|
      invariant Descriptions(findings) == RegistryFindings(entries[..e], service, probe)
      invariant forall k :: 0 <= k < |findings| ==> findings[k].1
      invariant called == RegistryCalls(entries[..e], service)
    {
      var entry := entries[e];
      RegistryStep(entries, e, service, probe);
      if NginxThen(service, entry.version) {
        var more, tried := RunEntryTests(entry.tests, probe);
        DescriptionsAppend(findings, more);
        findings := findings + more;
        called := called + tried;
      }
    }
    assert entries[..|entries|] == entries;
  }

  /** `perform_vulnerability_scan(target_ip, port, service_string)`, given the
      verdicts of the two generic probes and of the registry probes. `called` lists
      the probes invoked, in order. */
  method PerformVulnerabilityScan(service: string, pathTraversal: bool, sqlInjection: bool,
                                  probe: string -> ProbeResult)
    returns (results: seq<Finding>, found: bool, called: seq<string>)
    ensures Descriptions(results) == GenericFindings(pathTraversal, sqlInjection)
                                     + RegistryFindings(Registry, service, probe)
    ensures forall k :: 0 <= k < |results| ==> results[k].1
    ensures found <==> results != []
    ensures called == GenericCalls(pathTraversal) + RegistryCalls(Registry, service)
  {
    results := [];
    called := [PathTraversal];
    if pathTraversal {
      results := results + [(PathTraversal, true)];
    } else {
      called := called + [SqlInjection];
      if sqlInjection {
        results := results + [(SqlInjection, true)];
      }
    }
    var more, tried := ScanRegistry(Registry, service, probe);
    assert Descriptions(results + more) == Descriptions(results) + Descriptions(more);
    results := results + more;
    called := called + tried;
    found := results != [];
  }

  // ------------------------------------------------------------ properties

  /** The registry as seen by one service string: the probes of the "1.8" entry if
      its condition holds, then those of the "1.18" entry if its condition holds. */
  lemma {:induction false} RegistryCallsShape(service: string)
    ensures RegistryCalls(Registry, service)
            == (if NginxThen(service, "1.8") then Registry[0].tests else [])
               + (if NginxThen(service, "1.18") then Registry[1].tests else [])
  {
    var first := Registry[..1];
    assert Registry[..|Registry| - 1] == first && first[..0] == [] && first[0] == Registry[0];
    assert RegistryCalls(Registry, service)
           == RegistryCalls(first, service) + (if NginxThen(service, Registry[1].version) then Registry[1].tests else []);
    assert RegistryCalls(first, service)
           == RegistryCalls([], service) + (if NginxThen(service, Registry[0].version) then Registry[0].tests else []);
    assert Registry[0].version == "1.8" && Registry[1].version == "1.18";
  }

  /** Every registry finding comes from a probe that was run and succeeded. */
  lemma {:induction false} FindingsWereCalled(entries: seq<Entry>, service: string, probe: string -> ProbeResult)
    ensures forall d :: d in RegistryFindings(entries, service, probe) ==>
                          d in RegistryCalls(entries, service) && probe(d).Vulnerable?
  {
    if entries != [] {
      FindingsWereCalled(entries[..|entries| - 1], service, probe);
    }
  }

  /** The registry's descriptions are distinct from the generic ones and from each
      other's. */
  lemma {:induction false} RegistryNamesApart()
    ensures forall d :: d in Registry[0].tests || d in Registry[1].tests ==> d != PathTraversal && d != SqlInjection
    ensures forall d :: d in Registry[0].tests ==> d !in Registry[1].tests
  {
  }

  /** The SQL-injection probe runs exactly when the path-traversal probe found
      nothing. */
  lemma {:induction false} SqlProbeAfterPathTraversal(service: string, pathTraversal: bool)
    ensures SqlInjection in GenericCalls(pathTraversal) + RegistryCalls(Registry, service) <==> !pathTraversal
  {
    RegistryCallsShape(service);
    RegistryNamesApart();
  }

  /** Path traversal is reported exactly when its probe succeeds, SQL injection
      exactly when that probe alone succeeds; so never both. */
  lemma {:induction false} OneGenericFinding(service: string, pathTraversal: bool, sqlInjection: bool,
                                             probe: string -> ProbeResult)
    ensures var f := GenericFindings(pathTraversal, sqlInjection) + RegistryFindings(Registry, service, probe);
            && (PathTraversal in f <==> pathTraversal)
            && (SqlInjection in f <==> !pathTraversal && sqlInjection)
            && !(PathTraversal in f && SqlInjection in f)
  {
    RegistryCallsShape(service);
    RegistryNamesApart();
    FindingsWereCalled(Registry, service, probe);
  }

  /** An entry's probes run exactly when its condition holds, all of them, whatever
      the earlier probes returned or raised. */
  lemma {:induction false} EntryProbesRun(service: string, e: nat)
    requires e < |Registry|
    ensures forall d :: d in Registry[e].tests ==>
                          (d in RegistryCalls(Registry, service) <==> NginxThen(service, Registry[e].version))
  {
    RegistryCallsShape(service);
    RegistryNamesApart();
  }

  /** A probe that raises contributes no finding. */
  lemma {:induction false} RaisedNotReported(service: string, probe: string -> ProbeResult, d: string)
    requires probe(d).Raised?
    ensures d !in RegistryFindings(Registry, service, probe)
  {
    FindingsWereCalled(Registry, service, probe);
  }

  const Nginx118 := "nginx/1.18.0"

  /** "1.8" does not occur in "nginx/1.18.0". */
  lemma {:induction false} NoOneDotEight()
    ensures forall j :: !OccursAt(Nginx118, "1.8", j)
  {
    forall j | 0 <= j && j + 3 <= |Nginx118|
      ensures !OccursAt(Nginx118, "1.8", j)
    {
      var w := Nginx118[j..j + 3];
      assert w[0] == Nginx118[j] && w[1] == Nginx118[j + 1] && w[2] == Nginx118[j + 2];
      if j == 0 {
      } else if j == 1 {
      } else if j == 2 {
      } else if j == 3 {
      } else if j == 4 {
      } else if j == 5 {
      } else if j == 6 {
      } else if j == 7 {
      } else if j == 8 {
      } else {
        assert j == 9;
      }
    }
  }

  /** The service string "nginx/1.18.0" satisfies the condition of the "1.18" entry
      and not that of the "1.8" entry, so only the former's probes run. */
  lemma {:induction false} Nginx118MatchesSecondOnly()
    ensures !NginxThen(Nginx118, "1.8")
    ensures NginxThen(Nginx118, "1.18")
    ensures RegistryCalls(Registry, Nginx118) == Registry[1].tests
  {
    NoOneDotEight();
    assert FoldEq(Nginx118[0..5], "nginx");
    assert Nginx118[6..10] == "1.18";
    assert DotEnd(Nginx118, 5) == |Nginx118| by {
      assert '\n' !in Nginx118;
    }
    assert FoldedAt(Nginx118, "nginx", 0) && OccursAt(Nginx118, "1.18", 6);
    RegistryCallsShape(Nginx118);
  }
}
