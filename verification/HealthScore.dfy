/** The health score (patchi/core/health.py), with reals for floats. */
module HealthScore {
  import opened Common
  import opened Rounding

  /** A finding's severity; anything but these three deducts nothing. */
  datatype Severity = Critical | High | Medium | Other

  datatype AgentScan = AgentScan(toolMissing: bool, findings: seq<Severity>)

  /** What the score reads from brain memory and scan results. `coverage` is the
      test scanner's coverage_pct or, failing that, the counted percentage. */
  datatype Scans = Scans(
    secrets: nat, unprotected: nat, circular: nat, agents: map<string, AgentScan>,
    confirmedDead: nat, brokenImports: nat, fileCount: nat,
    totalDeps: nat, vulnerable: nat, coverage: real, inferred: nat, confirmed: nat)

  const SECURITY_AGENTS: seq<string> := [
    "TaintAnalyzer", "SecretScanner", "ConfigAuditAgent", "HeaderAuditAgent", "RateLimitAuditor", "CORSAuditor",
    "DependencyCVEChecker", "MisconfigAgent", "JWTSecurityAgent", "SensitiveDataAgent", "AuthenticationAuditAgent",
    "SSRFProtectionAgent", "InjectionAgent", "AuthZAgent", "CryptoAgent", "NetworkAgent", "PrivacyAgent",
    "DependencyVulnerabilityAgent", "ComplianceAgent"]

  /** scans.get(name, {}) */
  function ScanOf(agents: map<string, AgentScan>, name: string): AgentScan {
    if name in agents then agents[name] else AgentScan(false, [])
  }

  function Count(findings: seq<Severity>, s: Severity): nat {
    if findings == [] then 0
    else Count(findings[..|findings| - 1], s) + if findings[|findings| - 1] == s then 1 else 0
  }

  function Findings(agents: map<string, AgentScan>, names: seq<string>, s: Severity): nat {
    if names == [] then 0
    else Findings(agents, names[..|names| - 1], s) + Count(ScanOf(agents, names[|names| - 1]).findings, s)
  }

  function ToolsMissing(agents: map<string, AgentScan>, names: seq<string>): nat {
    if names == [] then 0
    else ToolsMissing(agents, names[..|names| - 1]) + if ScanOf(agents, names[|names| - 1]).toolMissing then 1 else 0
  }

  function Max0(x: real): real { if x > 0.0 then x else 0.0 }
  function MinReal(x: real, y: real): real { if x <= y then x else y }
  function Clamp100(x: real): real { Max0(MinReal(100.0, x)) }

  /** Deduction of `each` points per case, at most `cap` in all. */
  function Capped(cases: nat, each: nat, cap: nat): nat { if cases * each <= cap then cases * each else cap }

  function SecurityDeduction(s: Scans): nat {
    Capped(s.secrets, 25, 60) + Capped(s.unprotected, 8, 32) + Capped(s.circular, 2, 10)
    + Capped(ToolsMissing(s.agents, SECURITY_AGENTS), 2, 15)
    + Capped(Findings(s.agents, SECURITY_AGENTS, Critical), 20, 60)
    + Capped(Findings(s.agents, SECURITY_AGENTS, High), 10, 30)
    + 3 * Findings(s.agents, SECURITY_AGENTS, Medium)
  }

  function Security(s: Scans): real { Max0(100.0 - SecurityDeduction(s) as real) }

  /** _compute_security: its loops over the agents, then over their findings. */
  method ComputeSecurity(s: Scans) returns (score: real)
    ensures score == Security(s)
  {
    var deduction := Capped(s.secrets, 25, 60) + Capped(s.unprotected, 8, 32) + Capped(s.circular, 2, 10);
    var toolsMissing := CountToolsMissing(s.agents, SECURITY_AGENTS);
    deduction := deduction + Capped(toolsMissing, 2, 15);
    var crit, high, med := SumDeductions(s.agents, SECURITY_AGENTS);
    deduction := deduction + Min(crit, 60) + Min(high, 30) + med;
    return Max0(100.0 - deduction as real);
  }

  method CountToolsMissing(agents: map<string, AgentScan>, names: seq<string>) returns (n: nat)
    ensures n == ToolsMissing(agents, names)
  {
    n := 0;
    var i := 0;
    while i < |names|
      invariant 0 <= i <= |names|
      invariant n == ToolsMissing(agents, names[..i])
    {
      if ScanOf(agents, names[i]).toolMissing {
        n := n + 1;
      }
      assert names[..i + 1][..i] == names[..i];
      i := i + 1;
    }
    assert names[..i] == names;
  }

  method SumDeductions(agents: map<string, AgentScan>, names: seq<string>) returns (crit: nat, high: nat, med: nat)
    ensures crit == 20 * Findings(agents, names, Critical)
    ensures high == 10 * Findings(agents, names, High)
    ensures med == 3 * Findings(agents, names, Medium)
  {
    crit, high, med := 0, 0, 0;
    var i := 0;
    while i < |names|
      invariant 0 <= i <= |names|
      invariant crit == 20 * Findings(agents, names[..i], Critical)
      invariant high == 10 * Findings(agents, names[..i], High)
      invariant med == 3 * Findings(agents, names[..i], Medium)
    {
      var c, h, m := Deductions(ScanOf(agents, names[i]).findings);
      crit, high, med := crit + c, high + h, med + m;
      assert names[..i + 1][..i] == names[..i];
      i := i + 1;
    }
    assert names[..i] == names;
  }

  method Deductions(findings: seq<Severity>) returns (crit: nat, high: nat, med: nat)
    ensures crit == 20 * Count(findings, Critical)
    ensures high == 10 * Count(findings, High)
    ensures med == 3 * Count(findings, Medium)
  {
    crit, high, med := 0, 0, 0;
    var i := 0;
    while i < |findings|
      invariant 0 <= i <= |findings|
      invariant crit == 20 * Count(findings[..i], Critical)
      invariant high == 10 * Count(findings[..i], High)
      invariant med == 3 * Count(findings[..i], Medium)
    {
      match findings[i] {
        case Critical => crit := crit + 20;
        case High => high := high + 10;
        case Medium => med := med + 3;
        case Other =>
      }
      assert findings[..i + 1][..i] == findings[..i];
      i := i + 1;
    }
    assert findings[..i] == findings;
  }

  function DeadCode(s: Scans): real {
    var files := if s.fileCount == 0 then 1 else s.fileCount;
    var dead := s.confirmedDead as real + s.brokenImports as real * 0.5;
    Clamp100(100.0 - MinReal(dead / files as real, 1.0) * 100.0)
  }

  function Dependency(s: Scans): real {
    if s.totalDeps == 0 then 80.0
    else Clamp100(100.0 - s.vulnerable as real / s.totalDeps as real * 150.0)
  }

  function Contract(s: Scans): real {
    if s.inferred == 0 then 50.0
    else if s.confirmed == 0 then 20.0
    else MinReal(100.0, s.confirmed as real / s.inferred as real * 100.0)
  }

  function Raw(s: Scans): real {
    Security(s) * 0.35 + s.coverage * 0.25 + DeadCode(s) * 0.20 + Dependency(s) * 0.10 + Contract(s) * 0.10
  }

  function Total(s: Scans): int {
    var n := RoundHalfEven(Raw(s));
    if n < 0 then 0 else if n > 100 then 100 else n
  }

  datatype Grade = A | B | C | D | F

  function GradeOf(score: int): Grade {
    if score >= 90 then A else if score >= 70 then B else if score >= 50 then C else if score >= 30 then D else F
  }

  function Points(g: Grade): nat { match g case A => 4 case B => 3 case C => 2 case D => 1 case F => 0 }

  // ---- More problems, lower score ----

  ghost predicate AgentNoBetter(a: AgentScan, b: AgentScan) {
    && (a.toolMissing ==> b.toolMissing)
    && forall s :: Count(a.findings, s) <= Count(b.findings, s)
  }

  /** b has every problem a has, and perhaps more of any kind; file, dependency,
      coverage and contract figures are the same. */
  ghost predicate NoBetter(a: Scans, b: Scans) {
    && a.secrets <= b.secrets && a.unprotected <= b.unprotected && a.circular <= b.circular
    && (forall name :: AgentNoBetter(ScanOf(a.agents, name), ScanOf(b.agents, name)))
    && a.confirmedDead <= b.confirmedDead && a.brokenImports <= b.brokenImports && a.vulnerable <= b.vulnerable
    && a.fileCount == b.fileCount && a.totalDeps == b.totalDeps && a.coverage == b.coverage
    && a.inferred == b.inferred && a.confirmed == b.confirmed
  }

  lemma {:induction false} MoreFindings(
      a: map<string, AgentScan>, b: map<string, AgentScan>, names: seq<string>, s: Severity)
    requires forall name :: AgentNoBetter(ScanOf(a, name), ScanOf(b, name))
    ensures Findings(a, names, s) <= Findings(b, names, s)
    ensures ToolsMissing(a, names) <= ToolsMissing(b, names)
  {
    if names != [] {
      MoreFindings(a, b, names[..|names| - 1], s);
      assert AgentNoBetter(ScanOf(a, names[|names| - 1]), ScanOf(b, names[|names| - 1]));
    }
  }

  lemma CappedMonotone(m: nat, n: nat, each: nat, cap: nat)
    requires m <= n
    ensures Capped(m, each, cap) <= Capped(n, each, cap)
  {
    assert m * each <= n * each;
  }

  lemma SecurityMonotone(a: Scans, b: Scans)
    requires NoBetter(a, b)
    ensures Security(b) <= Security(a)
  {
    MoreFindings(a.agents, b.agents, SECURITY_AGENTS, Critical);
    MoreFindings(a.agents, b.agents, SECURITY_AGENTS, High);
    MoreFindings(a.agents, b.agents, SECURITY_AGENTS, Medium);
    CappedMonotone(a.secrets, b.secrets, 25, 60);
    CappedMonotone(a.unprotected, b.unprotected, 8, 32);
    CappedMonotone(a.circular, b.circular, 2, 10);
    CappedMonotone(ToolsMissing(a.agents, SECURITY_AGENTS), ToolsMissing(b.agents, SECURITY_AGENTS), 2, 15);
    var agents := SECURITY_AGENTS;
    CappedMonotone(Findings(a.agents, agents, Critical), Findings(b.agents, agents, Critical), 20, 60);
    CappedMonotone(Findings(a.agents, agents, High), Findings(b.agents, agents, High), 10, 30);
  }

  lemma DivMonotone(x: real, y: real, n: real)
    requires x <= y && n > 0.0
    ensures x / n <= y / n
  {
  }

  lemma RestMonotone(a: Scans, b: Scans)
    requires NoBetter(a, b)
    ensures DeadCode(b) <= DeadCode(a) && Dependency(b) <= Dependency(a)
  {
    var files := if a.fileCount == 0 then 1 else a.fileCount;
    DivMonotone(a.confirmedDead as real + a.brokenImports as real * 0.5,
                b.confirmedDead as real + b.brokenImports as real * 0.5, files as real);
    if a.totalDeps > 0 {
      DivMonotone(a.vulnerable as real, b.vulnerable as real, a.totalDeps as real);
    }
  }

  /** Any additional finding, secret, unprotected route, circular dependency,
      missing tool, dead file or vulnerable dependency - or any number of them
      at once - never raises the total and never improves the grade. */
  lemma MoreProblemsNeverHelp(a: Scans, b: Scans)
    requires NoBetter(a, b)
    ensures Total(b) <= Total(a)
    ensures Points(GradeOf(Total(b))) <= Points(GradeOf(Total(a)))
    ensures var before, after := GradeOf(Total(a)), GradeOf(Total(b));
            && (after == A ==> before == A)
            && (after == B ==> before == A || before == B)
            && (after == C ==> before != D && before != F)
            && (after == D ==> before != F)
  {
    SecurityMonotone(a, b);
    RestMonotone(a, b);
    RoundMonotone(Raw(b), Raw(a));
  }

  /** One more finding in one agent's list is such a change. */
  lemma OneMoreFinding(s: Scans, name: string, finding: Severity)
    ensures var scan := ScanOf(s.agents, name);
            NoBetter(s, s.(agents := s.agents[name := scan.(findings := scan.findings + [finding])]))
  {
    var scan := ScanOf(s.agents, name);
    var more := scan.findings + [finding];
    assert more[..|scan.findings|] == scan.findings;
    assert forall v :: Count(scan.findings, v) <= Count(more, v);
    var agents := s.agents[name := scan.(findings := more)];
    forall other ensures AgentNoBetter(ScanOf(s.agents, other), ScanOf(agents, other)) {
    }
  }

  lemma ComponentsInRange(s: Scans)
    ensures 0.0 <= Security(s) <= 100.0 && 0.0 <= DeadCode(s) <= 100.0
    ensures 0.0 <= Dependency(s) <= 100.0 && 0.0 <= Contract(s) <= 100.0
  {
    if s.inferred > 0 {
      DivMonotone(0.0, s.confirmed as real, s.inferred as real);
      assert 0.0 / s.inferred as real == 0.0;
    }
  }

  /** The total is always in 0..100; when the coverage figure is in 0..100 the
      outer clamp never acts. */
  lemma TotalInRange(s: Scans)
    ensures 0 <= Total(s) <= 100
    ensures 0.0 <= s.coverage <= 100.0 ==> Total(s) == RoundHalfEven(Raw(s))
  {
    ComponentsInRange(s);
    if 0.0 <= s.coverage <= 100.0 {
      assert 0.0 <= Raw(s) <= 100.0;
      RoundMonotone(0.0, Raw(s));
      RoundMonotone(Raw(s), 100.0);
      assert RoundHalfEven(0.0) == 0 && RoundHalfEven(100.0) == 100;
    }
  }

  /** The five weights, 35, 25, 20, 10 and 10 percent; and no component can make
      up for another: with coverage in 0..100, the weighted score is 100 exactly
      when all five are. */
  lemma PerfectIffAllPerfect(s: Scans)
    ensures Raw(s) * 100.0 ==
              35.0 * Security(s) + 25.0 * s.coverage + 20.0 * DeadCode(s) + 10.0 * Dependency(s) + 10.0 * Contract(s)
    ensures 0.0 <= s.coverage <= 100.0 ==>
              (Raw(s) == 100.0 <==>
                 && Security(s) == 100.0 && s.coverage == 100.0 && DeadCode(s) == 100.0
                 && Dependency(s) == 100.0 && Contract(s) == 100.0)
  {
    ComponentsInRange(s);
  }

  /** What a component is worth: of two scans that differ in one component only,
      the scores differ by its weight times that difference. */
  lemma ComponentWorth(a: Scans, b: Scans)
    ensures var security, coverage := Security(a) - Security(b), a.coverage - b.coverage;
            var deadCode, dependency := DeadCode(a) - DeadCode(b), Dependency(a) - Dependency(b);
            var contract, raw := Contract(a) - Contract(b), Raw(a) - Raw(b);
            && (coverage == deadCode == dependency == contract == 0.0 ==> raw == 0.35 * security)
            && (security == deadCode == dependency == contract == 0.0 ==> raw == 0.25 * coverage)
            && (security == coverage == dependency == contract == 0.0 ==> raw == 0.20 * deadCode)
            && (security == coverage == deadCode == contract == 0.0 ==> raw == 0.10 * dependency)
            && (security == coverage == deadCode == dependency == 0.0 ==> raw == 0.10 * contract)
  {
    PerfectIffAllPerfect(a);
    PerfectIffAllPerfect(b);
  }

  /** The total is the integer nearest to the weighted sum, the even one of two;
      and the grades begin at 90, 70, 50 and 30. */
  lemma TotalAndGrade(s: Scans)
    requires 0.0 <= s.coverage <= 100.0
    ensures var sum :=
              0.35 * Security(s) + 0.25 * s.coverage + 0.20 * DeadCode(s) + 0.10 * Dependency(s) + 0.10 * Contract(s);
            && sum - 0.5 <= Total(s) as real <= sum + 0.5
            && (Total(s) as real == sum - 0.5 || Total(s) as real == sum + 0.5 ==> Total(s) % 2 == 0)
    ensures GradeOf(Total(s)) == A <==> Total(s) >= 90
    ensures GradeOf(Total(s)) == B <==> 70 <= Total(s) < 90
    ensures GradeOf(Total(s)) == C <==> 50 <= Total(s) < 70
    ensures GradeOf(Total(s)) == D <==> 30 <= Total(s) < 50
    ensures GradeOf(Total(s)) == F <==> Total(s) < 30
  {
    TotalInRange(s);
    PerfectIffAllPerfect(s);
  }

  // ---- What the components are ----

  /** The findings of one severity in a list. */
  function Places(findings: seq<Severity>, s: Severity): set<int> {
    set k | 0 <= k < |findings| && findings[k] == s
  }

  lemma {:induction false} CountIsSize(findings: seq<Severity>, s: Severity)
    ensures Count(findings, s) == |Places(findings, s)|
  {
    if findings != [] {
      var n := |findings| - 1;
      CountIsSize(findings[..n], s);
      PlacesSnoc(findings[..n], findings[n], s);
      assert findings[..n] + [findings[n]] == findings;
    }
  }

  lemma PlacesSnoc(findings: seq<Severity>, last: Severity, s: Severity)
    ensures Places(findings + [last], s) == Places(findings, s) + if last == s then {|findings|} else {}
  {
    var all := findings + [last];
    assert forall k :: 0 <= k < |findings| ==> all[k] == findings[k];
  }

  /** Position of an agent in the list, and of a finding in what it reported. */
  function FindingPlaces(agents: map<string, AgentScan>, names: seq<string>, s: Severity): set<(int, int)> {
    set i, k | 0 <= i < |names| && names[i] in agents && 0 <= k < |agents[names[i]].findings|
               && agents[names[i]].findings[k] == s :: (i, k)
  }

  lemma {:induction false} FindingsIsSize(agents: map<string, AgentScan>, names: seq<string>, s: Severity)
    ensures Findings(agents, names, s) == |FindingPlaces(agents, names, s)|
  {
    if names == [] {
      assert FindingPlaces(agents, names, s) == {};
    } else {
      var n := |names| - 1;
      FindingsIsSize(agents, names[..n], s);
      CountIsSize(ScanOf(agents, names[n]).findings, s);
      OneMoreAgent(agents, names, n, s);
    }
  }

  lemma OneMoreAgent(agents: map<string, AgentScan>, names: seq<string>, n: nat, s: Severity)
    requires n + 1 == |names|
    ensures |FindingPlaces(agents, names, s)| ==
              |FindingPlaces(agents, names[..n], s)| + |Places(ScanOf(agents, names[n]).findings, s)|
  {
    var places := Places(ScanOf(agents, names[n]).findings, s);
    FindingPlacesSplit(agents, names, n, s);
    PairSize(n, places);
    SumSize(FindingPlaces(agents, names[..n], s), At(n, places));
  }

  lemma SumSize<T>(a: set<T>, b: set<T>)
    requires a !! b
    ensures |a + b| == |a| + |b|
  {
  }

  lemma FindingPlacesSplit(agents: map<string, AgentScan>, names: seq<string>, n: nat, s: Severity)
    requires n + 1 == |names|
    ensures FindingPlaces(agents, names, s) ==
              FindingPlaces(agents, names[..n], s) + At(n, Places(ScanOf(agents, names[n]).findings, s))
  {
    var all := FindingPlaces(agents, names, s);
    var before := FindingPlaces(agents, names[..n], s);
    forall i, k | (i, k) in before ensures (i, k) in all { assert names[..n][i] == names[i]; }
    forall i, k | (i, k) in all && i < n ensures (i, k) in before { assert names[..n][i] == names[i]; }
  }

  function At<T>(n: int, ks: set<T>): set<(int, T)> { set k | k in ks :: (n, k) }

  lemma {:induction false} PairSize<T>(n: int, ks: set<T>)
    ensures |At(n, ks)| == |ks|
    decreases |ks|
  {
    if ks != {} {
      var x :| x in ks;
      PairSize(n, ks - {x});
      assert At(n, ks) == At(n, ks - {x}) + {(n, x)};
    } else {
      assert At(n, ks) == {};
    }
  }

  function Untooled(agents: map<string, AgentScan>, names: seq<string>): set<int> {
    set i | 0 <= i < |names| && names[i] in agents && agents[names[i]].toolMissing
  }

  lemma {:induction false} ToolsMissingIsSize(agents: map<string, AgentScan>, names: seq<string>)
    ensures ToolsMissing(agents, names) == |Untooled(agents, names)|
  {
    if names != [] {
      var n := |names| - 1;
      ToolsMissingIsSize(agents, names[..n]);
      assert Untooled(agents, names) ==
             Untooled(agents, names[..n]) + if names[n] in agents && agents[names[n]].toolMissing then {n} else {};
    }
  }

  /** The security score: 100 less 25 for each secret up to 60, 8 for each
      unprotected route up to 32, 2 for each circular dependency up to 10, 2 for
      each security agent without its tool up to 15, and for the findings of the
      security agents 20, 10 and 3 each, up to 60, up to 30 and without limit. */
  lemma SecurityScore(s: Scans)
    ensures var agents, names := s.agents, SECURITY_AGENTS;
            var tools := |set i | 0 <= i < |names| && names[i] in agents && agents[names[i]].toolMissing|;
            var critical, high, medium :=
              |FindingPlaces(agents, names, Critical)|, |FindingPlaces(agents, names, High)|,
              |FindingPlaces(agents, names, Medium)|;
            var left := 100 - Min(25 * s.secrets, 60) - Min(8 * s.unprotected, 32) - Min(2 * s.circular, 10)
                        - Min(2 * tools, 15) - Min(20 * critical, 60) - Min(10 * high, 30) - 3 * medium;
            Security(s) == if left > 0 then left as real else 0.0
  {
    var names := SECURITY_AGENTS;
    ToolsMissingIsSize(s.agents, names);
    FindingsIsSize(s.agents, names, Critical);
    FindingsIsSize(s.agents, names, High);
    FindingsIsSize(s.agents, names, Medium);
    assert Untooled(s.agents, names) ==
           set i | 0 <= i < |names| && names[i] in s.agents && s.agents[names[i]].toolMissing;
    DeductionFrom(s, |Untooled(s.agents, names)|);
  }

  lemma DeductionFrom(s: Scans, tools: nat)
    requires tools == ToolsMissing(s.agents, SECURITY_AGENTS)
    ensures SecurityDeduction(s) ==
              Min(25 * s.secrets, 60) + Min(8 * s.unprotected, 32) + Min(2 * s.circular, 10) + Min(2 * tools, 15)
              + Min(20 * Findings(s.agents, SECURITY_AGENTS, Critical), 60)
              + Min(10 * Findings(s.agents, SECURITY_AGENTS, High), 30)
              + 3 * Findings(s.agents, SECURITY_AGENTS, Medium)
  {
  }

  /** The other scores. Dead code: 100 less the percentage of dead files, a
      broken import counting half. Dependencies: 80 if there are none, else 100
      less one and a half times the percentage of vulnerable ones. Contract: 50
      without inferred flows, 20 without confirmed ones, else the percentage
      confirmed. All of them stay in 0..100. */
  lemma OtherScores(s: Scans)
    ensures var files := if s.fileCount == 0 then 1.0 else s.fileCount as real;
            var dead := s.confirmedDead as real + s.brokenImports as real / 2.0;
            DeadCode(s) * files == if dead < files then 100.0 * (files - dead) else 0.0
    ensures s.totalDeps == 0 ==> Dependency(s) == 80.0
    ensures s.totalDeps > 0 ==>
              Dependency(s) * s.totalDeps as real ==
                if 3 * s.vulnerable < 2 * s.totalDeps then (100 * s.totalDeps - 150 * s.vulnerable) as real else 0.0
    ensures s.inferred == 0 ==> Contract(s) == 50.0
    ensures s.inferred > 0 && s.confirmed == 0 ==> Contract(s) == 20.0
    ensures s.inferred > 0 && s.confirmed > 0 ==>
              Contract(s) * s.inferred as real == 100.0 * Min(s.confirmed, s.inferred) as real
  {
    DeadCodeScore(s);
    DependencyScore(s);
    ContractScore(s);
  }

  /** A quotient x of p by q: below 1 exactly if p is below q. */
  lemma Quotient(p: real, q: real)
    requires q > 0.0 && p >= 0.0
    ensures p / q * q == p && p / q >= 0.0
    ensures p / q < 1.0 <==> p < q
  {
  }

  lemma DeadCodeScore(s: Scans)
    ensures var files := if s.fileCount == 0 then 1.0 else s.fileCount as real;
            var dead := s.confirmedDead as real + s.brokenImports as real / 2.0;
            DeadCode(s) * files == if dead < files then 100.0 * (files - dead) else 0.0
  {
    var files := if s.fileCount == 0 then 1.0 else s.fileCount as real;
    var dead := s.confirmedDead as real + s.brokenImports as real / 2.0;
    var x := dead / files;
    Quotient(dead, files);
    assert DeadCode(s) == if x < 1.0 then 100.0 - x * 100.0 else 0.0;
    assert (100.0 - x * 100.0) * files == 100.0 * files - 100.0 * (x * files);
  }

  /** Clamping a score t that is r over q. */
  lemma ClampScaled(t: real, q: real, r: real)
    requires q > 0.0 && t * q == r && t <= 100.0
    ensures Clamp100(t) * q == if r > 0.0 then r else 0.0
  {
    if t > 0.0 {
      assert t * q > 0.0;
    } else {
      assert t * q <= 0.0;
    }
  }

  lemma DependencyScore(s: Scans)
    ensures s.totalDeps == 0 ==> Dependency(s) == 80.0
    ensures s.totalDeps > 0 ==>
              Dependency(s) * s.totalDeps as real ==
                if 3 * s.vulnerable < 2 * s.totalDeps then (100 * s.totalDeps - 150 * s.vulnerable) as real else 0.0
  {
    if s.totalDeps > 0 {
      var total, vulnerable := s.totalDeps as real, s.vulnerable as real;
      var x := vulnerable / total;
      Quotient(vulnerable, total);
      assert (100.0 - x * 150.0) * total == 100.0 * total - 150.0 * (x * total) == 100.0 * total - 150.0 * vulnerable;
      ClampScaled(100.0 - x * 150.0, total, 100.0 * total - 150.0 * vulnerable);
    }
  }

  lemma ContractScore(s: Scans)
    ensures s.inferred == 0 ==> Contract(s) == 50.0
    ensures s.inferred > 0 && s.confirmed == 0 ==> Contract(s) == 20.0
    ensures s.inferred > 0 && s.confirmed > 0 ==>
              Contract(s) * s.inferred as real == 100.0 * Min(s.confirmed, s.inferred) as real
  {
    if s.inferred > 0 && s.confirmed > 0 {
      var inferred, confirmed := s.inferred as real, s.confirmed as real;
      var x := confirmed / inferred;
      Quotient(confirmed, inferred);
      assert (x * 100.0) * inferred == 100.0 * (x * inferred);
      assert Contract(s) == if x < 1.0 then x * 100.0 else 100.0;
    }
  }

  /** What one more of each problem deducts: secrets 25, 25, 10 and then nothing
      (the documented "-25 per secret" stops at 60), routes 8 up to four times,
      circular dependencies 2 up to five times. */
  lemma MarginalCosts(s: Scans)
    ensures SecurityDeduction(s.(secrets := s.secrets + 1)) - SecurityDeduction(s) ==
              if s.secrets < 2 then 25 else if s.secrets == 2 then 10 else 0
    ensures SecurityDeduction(s.(unprotected := s.unprotected + 1)) - SecurityDeduction(s) ==
              if s.unprotected < 4 then 8 else 0
    ensures SecurityDeduction(s.(circular := s.circular + 1)) - SecurityDeduction(s) == if s.circular < 5 then 2 else 0
  {
  }
}
