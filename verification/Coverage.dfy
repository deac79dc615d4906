/** Test coverage by file counterparts (_compute_test_coverage_pct in
    patchi/core/health.py): the two-pass index against the direct definition.
    File names are compared after ASCII lower-casing. */
module Coverage {
  import opened Common
  import opened Rounding
  import opened Texts

  type Dir = seq<string>

  datatype File = File(dir: Dir, name: string)

  const SOURCE_EXTENSIONS: set<string> := {".py", ".js", ".ts", ".jsx", ".tsx", ".rb", ".go", ".rs", ".java"}
  const TEST_PATTERNS: set<string> := {"test_", "_test.", ".test.", ".spec.", "_spec."}
  const TEST_DIRS: set<string> := {"tests", "test", "__tests__", "spec"}

  function LowerChar(c: char): char { if 'A' <= c <= 'Z' then c + ' ' else c }

  function Lower(s: string): (r: string)
    ensures |r| == |s| && forall i :: 0 <= i < |s| ==> r[i] == LowerChar(s[i])
  {
    seq(|s|, i requires 0 <= i < |s| => LowerChar(s[i]))
  }

  /** Capital letters become small ones, and nothing else changes. */
  lemma LowerMeans(s: string, i: nat)
    requires i < |s|
    ensures Lower(s)[i] as int == s[i] as int + if 'A' <= s[i] <= 'Z' then 32 else 0
  {
  }

  /** Path.stem: the name without its last suffix; a leading dot opens none. */
  function Stem(name: string): string {
    var i := LastDot(name);
    if 0 < i < |name| - 1 then name[..i] else name
  }

  function LastDot(name: string): (i: int)
    ensures -1 <= i < |name|
    ensures i >= 0 ==> name[i] == '.'
    ensures forall k :: 0 <= k < |name| && k > i ==> name[k] != '.'
  {
    if name == "" then -1
    else if name[|name| - 1] == '.' then |name| - 1
    else LastDot(name[..|name| - 1])
  }

  predicate IsTest(f: File) {
    || (exists part :: part in f.dir + [f.name] && Lower(part) in TEST_DIRS)
    || (exists pat :: pat in TEST_PATTERNS && Contains(Lower(f.name), pat))
  }

  predicate IsSource(f: File) { !IsTest(f) }

  function Prefixed(stem: string): set<string> {
    set ext | ext in SOURCE_EXTENSIONS :: Lower("test_" + stem + ext)
  }

  function Infixed(stem: string, infix: string): set<string> {
    set ext | ext in SOURCE_EXTENSIONS :: Lower(stem + infix + ext)
  }

  /** The names a test of a source file with this stem may have. */
  function Candidates(stem: string): set<string> {
    Prefixed(stem) + Infixed(stem, "_test") + Infixed(stem, ".test") + Infixed(stem, ".spec")
  }

  predicate InReach(source: Dir, d: Dir) {
    d == source || exists td :: td in TEST_DIRS && d == source + [td]
  }

  /** The direct definition: some walked file, of whatever kind, in the file's
      directory or in a test child of it has a candidate name. */
  predicate Covered(files: seq<File>, f: File) {
    exists g :: g in files && InReach(f.dir, g.dir) && Lower(g.name) in Candidates(Stem(f.name))
  }

  lemma LowerContains(front: string, pat: string, back: string)
    requires Lower(pat) == pat
    ensures Contains(Lower(front + pat + back), pat)
  {
    var s := Lower(front + pat + back);
    forall i | 0 <= i < |pat| ensures s[|front| + i] == pat[i] {
      assert (front + pat + back)[|front| + i] == pat[i];
      assert Lower(pat)[i] == LowerChar(pat[i]);
    }
    assert s[|front|..|front| + |pat|] == pat;
    assert OccursAt(s, pat, |front|);
  }

  lemma PatternsAreLower()
    ensures forall pat :: pat in TEST_PATTERNS ==> Lower(pat) == pat
    ensures forall ext :: ext in SOURCE_EXTENSIONS ==> ext != "" && ext[0] == '.'
  {
    assert Lower("test_") == "test_";
    assert Lower("_test.") == "_test.";
    assert Lower(".test.") == ".test.";
    assert Lower(".spec.") == ".spec.";
    assert Lower("_spec.") == "_spec.";
  }

  lemma PatternInside(g: File, name: string, front: string, pat: string, back: string)
    requires Lower(g.name) == Lower(name) && name == front + pat + back
    requires pat in TEST_PATTERNS
    ensures IsTest(g)
  {
    PatternsAreLower();
    LowerContains(front, pat, back);
  }

  lemma DotMoves(stem: string, infix: string, ext: string)
    requires ext != "" && ext[0] == '.'
    ensures stem + infix + ext == stem + (infix + ".") + ext[1..]
  {
    assert ext == "." + ext[1..];
  }

  lemma InfixedIsTest(g: File, stem: string, infix: string)
    requires infix + "." in TEST_PATTERNS && Lower(g.name) in Infixed(stem, infix)
    ensures IsTest(g)
  {
    var ext :| ext in SOURCE_EXTENSIONS && Lower(g.name) == Lower(stem + infix + ext);
    PatternsAreLower();
    DotMoves(stem, infix, ext);
    PatternInside(g, stem + infix + ext, stem, infix + ".", ext[1..]);
  }

  lemma PrefixedIsTest(g: File, stem: string)
    requires Lower(g.name) in Prefixed(stem)
    ensures IsTest(g)
  {
    var ext :| ext in SOURCE_EXTENSIONS && Lower(g.name) == Lower("test_" + stem + ext);
    PatternInside(g, "test_" + stem + ext, "", "test_", stem + ext);
  }

  lemma InfixPatterns()
    ensures "_test" + "." in TEST_PATTERNS && ".test" + "." in TEST_PATTERNS && ".spec" + "." in TEST_PATTERNS
  {
    assert "_test" + "." == "_test." && ".test" + "." == ".test." && ".spec" + "." == ".spec.";
  }

  /** Every candidate name carries a test pattern. This is why an index that
      keeps only test-classified names misses nothing. */
  lemma CandidateIsTest(g: File, stem: string)
    requires Lower(g.name) in Candidates(stem)
    ensures IsTest(g)
  {
    InfixPatterns();
    if Lower(g.name) in Prefixed(stem) {
      PrefixedIsTest(g, stem);
    } else if Lower(g.name) in Infixed(stem, "_test") {
      InfixedIsTest(g, stem, "_test");
    } else if Lower(g.name) in Infixed(stem, ".test") {
      InfixedIsTest(g, stem, ".test");
    } else {
      InfixedIsTest(g, stem, ".spec");
    }
  }

  // ---- What counts as a source, and what covers it ----

  /** A source file: neither itself nor a directory on its path has a test name,
      and its name has none of the test patterns - in whatever case. */
  lemma SourceMeans(f: File)
    ensures IsSource(f) <==>
              && (forall part :: part in f.dir + [f.name] ==>
                    Lower(part) !in {"tests", "test", "__tests__", "spec"})
              && (forall pat :: pat in {"test_", "_test.", ".test.", ".spec.", "_spec."} ==>
                    !Contains(Lower(f.name), pat))
  {
  }

  lemma {:induction false} LastDotAt(base: string, suffix: string)
    requires '.' !in suffix
    ensures LastDot(base + "." + suffix) == |base|
  {
    var name := base + "." + suffix;
    assert name[|base|] == '.';
    forall k | |base| < k < |name| ensures name[k] != '.' { assert name[k] == suffix[k - |base| - 1]; }
  }

  /** The stem is the name up to its last dot, unless that comes first or last. */
  lemma StemMeans(base: string, suffix: string)
    requires '.' !in suffix
    ensures Stem(base + "." + suffix) == if base != "" && suffix != "" then base else base + "." + suffix
    ensures Stem(suffix) == suffix
  {
    LastDotAt(base, suffix);
    assert (base + "." + suffix)[..|base|] == base;
  }

  /** The name is that of a test of `stem`, with this extension, in any case. */
  predicate NamedForTest(name: string, stem: string, ext: string) {
    || name == Lower("test_" + stem + ext)
    || name == Lower(stem + "_test" + ext)
    || name == Lower(stem + ".test" + ext)
    || name == Lower(stem + ".spec" + ext)
  }

  lemma FormsMean(stem: string, n: string)
    ensures n in Prefixed(stem) <==> exists ext :: ext in SOURCE_EXTENSIONS && n == Lower("test_" + stem + ext)
    ensures forall infix :: n in Infixed(stem, infix) <==>
                              exists ext :: ext in SOURCE_EXTENSIONS && n == Lower(stem + infix + ext)
  {
  }

  /** The candidates are the four forms with each of the nine extensions. */
  lemma CandidatesMean(stem: string, n: string)
    ensures n in Candidates(stem) <==>
              exists ext ::
                && ext in {".py", ".js", ".ts", ".jsx", ".tsx", ".rb", ".go", ".rs", ".java"}
                && NamedForTest(n, stem, ext)
  {
    if n in Candidates(stem) {
      var ext := SomeExtension(stem, n);
      assert NamedForTest(n, stem, ext);
    }
    forall ext | ext in SOURCE_EXTENSIONS && NamedForTest(n, stem, ext) ensures n in Candidates(stem) {
      IsCandidate(stem, n, ext);
    }
  }

  lemma IsCandidate(stem: string, n: string, ext: string)
    requires ext in SOURCE_EXTENSIONS && NamedForTest(n, stem, ext)
    ensures n in Candidates(stem)
  {
    FormsMean(stem, n);
  }

  lemma SomeExtension(stem: string, n: string) returns (ext: string)
    requires n in Candidates(stem)
    ensures ext in SOURCE_EXTENSIONS && NamedForTest(n, stem, ext)
  {
    if n in Prefixed(stem) {
      ext :| ext in SOURCE_EXTENSIONS && n == Lower("test_" + stem + ext);
    } else if n in Infixed(stem, "_test") {
      ext :| ext in SOURCE_EXTENSIONS && n == Lower(stem + "_test" + ext);
    } else if n in Infixed(stem, ".test") {
      ext :| ext in SOURCE_EXTENSIONS && n == Lower(stem + ".test" + ext);
    } else {
      ext :| ext in SOURCE_EXTENSIONS && n == Lower(stem + ".spec" + ext);
    }
  }

  /** A file `base.suffix` is covered exactly if there is a file named test_base,
      base_test, base.test or base.spec, with the extension of any of the nine
      languages and in any case, beside it or in a directory tests, test,
      __tests__ or spec beside it. */
  lemma CoveredMeans(files: seq<File>, f: File, base: string, suffix: string)
    requires f.name == base + "." + suffix && base != "" && suffix != "" && '.' !in suffix
    ensures Covered(files, f) <==>
              exists g, ext ::
                && g in files
                && (|| g.dir == f.dir
                    || exists td :: td in {"tests", "test", "__tests__", "spec"} && g.dir == f.dir + [td])
                && ext in {".py", ".js", ".ts", ".jsx", ".tsx", ".rb", ".go", ".rs", ".java"}
                && NamedForTest(Lower(g.name), base, ext)
  {
    StemMeans(base, suffix);
    forall g: File { CandidatesMean(base, Lower(g.name)); }
  }

  // ---- What the index holds ----

  /** test_names_by_dir.get(d, set()) */
  function NamesAt(index: map<Dir, set<string>>, d: Dir): set<string> { if d in index then index[d] else {} }

  /** src_by_dir.get(d, []) */
  function SourcesAt(index: map<Dir, seq<File>>, d: Dir): seq<File> { if d in index then index[d] else [] }

  function TestNames(files: seq<File>, d: Dir): set<string> {
    set g | g in files && IsTest(g) && g.dir == d :: Lower(g.name)
  }

  function SourcesOf(files: seq<File>, d: Dir): seq<File> {
    if files == [] then []
    else
      var last := files[|files| - 1];
      SourcesOf(files[..|files| - 1], d) + (if IsSource(last) && last.dir == d then [last] else [])
  }

  ghost predicate Indexes(files: seq<File>, sources: map<Dir, seq<File>>, tests: map<Dir, set<string>>) {
    && (forall d :: SourcesAt(sources, d) == SourcesOf(files, d))
    && (forall d :: NamesAt(tests, d) == TestNames(files, d))
  }

  /** The index lookup of the second pass. */
  function IndexCovers(tests: map<Dir, set<string>>, f: File): bool {
    var candidates := Candidates(Stem(f.name));
    candidates * NamesAt(tests, f.dir) != {}
    || exists td :: td in TEST_DIRS && candidates * NamesAt(tests, f.dir + [td]) != {}
  }

  lemma HitMeansTest(files: seq<File>, tests: map<Dir, set<string>>, f: File, d: Dir)
    requires NamesAt(tests, d) == TestNames(files, d)
    ensures Candidates(Stem(f.name)) * NamesAt(tests, d) != {} <==>
              exists g :: g in files && g.dir == d && Lower(g.name) in Candidates(Stem(f.name))
  {
    if g :| g in files && g.dir == d && Lower(g.name) in Candidates(Stem(f.name)) {
      CandidateIsTest(g, Stem(f.name));
      assert Lower(g.name) in Candidates(Stem(f.name)) * NamesAt(tests, d);
    }
    if Candidates(Stem(f.name)) * NamesAt(tests, d) != {} {
      var n :| n in Candidates(Stem(f.name)) * NamesAt(tests, d);
      var g :| g in files && IsTest(g) && g.dir == d && Lower(g.name) == n;
    }
  }

  /** The set lookups and the direct probing agree on every source file. */
  lemma IndexAgrees(files: seq<File>, sources: map<Dir, seq<File>>, tests: map<Dir, set<string>>, f: File)
    requires Indexes(files, sources, tests)
    ensures IndexCovers(tests, f) <==> Covered(files, f)
  {
    HitMeansTest(files, tests, f, f.dir);
    forall td | td in TEST_DIRS
      ensures Candidates(Stem(f.name)) * NamesAt(tests, f.dir + [td]) != {} <==>
                exists g :: g in files && g.dir == f.dir + [td] && Lower(g.name) in Candidates(Stem(f.name))
    {
      HitMeansTest(files, tests, f, f.dir + [td]);
    }
  }

  // ---- Counting ----

  function CountCovered(all: seq<File>, files: seq<File>): nat {
    if files == [] then 0
    else
      var last := files[|files| - 1];
      CountCovered(all, files[..|files| - 1]) + if Covered(all, last) then 1 else 0
  }

  lemma {:induction false} CountCoveredConcat(all: seq<File>, xs: seq<File>, ys: seq<File>)
    ensures CountCovered(all, xs + ys) == CountCovered(all, xs) + CountCovered(all, ys)
  {
    if ys == [] {
      assert xs + ys == xs;
    } else {
      assert (xs + ys)[..|xs + ys| - 1] == xs + ys[..|ys| - 1];
      CountCoveredConcat(all, xs, ys[..|ys| - 1]);
    }
  }

  lemma {:induction false} CoveredAtMostAll(all: seq<File>, files: seq<File>)
    ensures CountCovered(all, files) <= |files|
  {
    if files != [] { CoveredAtMostAll(all, files[..|files| - 1]); }
  }

  /** The source files whose directory is in ds. */
  function SourcesIn(files: seq<File>, ds: set<Dir>): seq<File> {
    if files == [] then []
    else
      var last := files[|files| - 1];
      SourcesIn(files[..|files| - 1], ds) + (if IsSource(last) && last.dir in ds then [last] else [])
  }

  lemma {:induction false} OneMoreDir(all: seq<File>, files: seq<File>, ds: set<Dir>, d: Dir)
    requires d !in ds
    ensures |SourcesIn(files, ds + {d})| == |SourcesIn(files, ds)| + |SourcesOf(files, d)|
    ensures CountCovered(all, SourcesIn(files, ds + {d})) ==
              CountCovered(all, SourcesIn(files, ds)) + CountCovered(all, SourcesOf(files, d))
  {
    if files != [] {
      var front, last := files[..|files| - 1], files[|files| - 1];
      OneMoreDir(all, front, ds, d);
      var here: seq<File> := if IsSource(last) && last.dir in ds + {d} then [last] else [];
      var before: seq<File> := if IsSource(last) && last.dir in ds then [last] else [];
      var added: seq<File> := if IsSource(last) && last.dir == d then [last] else [];
      CountCoveredConcat(all, SourcesIn(front, ds + {d}), here);
      CountCoveredConcat(all, SourcesIn(front, ds), before);
      CountCoveredConcat(all, SourcesOf(front, d), added);
    }
  }

  lemma {:induction false} NoDirs(files: seq<File>)
    ensures SourcesIn(files, {}) == []
  {
    if files != [] { NoDirs(files[..|files| - 1]); }
  }

  function AllSources(files: seq<File>): seq<File> {
    if files == [] then []
    else
      var last := files[|files| - 1];
      AllSources(files[..|files| - 1]) + (if IsSource(last) then [last] else [])
  }

  lemma {:induction false} AllDirs(files: seq<File>, ds: set<Dir>)
    requires forall f :: f in files && IsSource(f) ==> f.dir in ds
    ensures SourcesIn(files, ds) == AllSources(files)
  {
    if files != [] { AllDirs(files[..|files| - 1], ds); }
  }

  lemma {:induction false} SourcesAreListed(files: seq<File>, f: File)
    requires f in files && IsSource(f)
    ensures f in SourcesOf(files, f.dir)
  {
    if f != files[|files| - 1] { SourcesAreListed(files[..|files| - 1], f); }
  }

  ghost function PartPct(part: nat, whole: nat): real {
    if whole == 0 then 0.0 else RoundToTenth(part as real / whole as real * 100.0)
  }

  /** Percentage of covered files among source files, directly defined. */
  ghost function CoveragePct(files: seq<File>): real {
    PartPct(CountCovered(files, AllSources(files)), |AllSources(files)|)
  }

  lemma PartInRange(part: nat, whole: nat)
    requires part <= whole
    ensures 0.0 <= PartPct(part, whole) <= 100.0
  {
    if whole > 0 {
      var c, n := part as real, whole as real;
      RatioInRange(c, n);
      RoundToTenthInRange(c / n * 100.0);
    }
  }

  lemma {:induction false} SourcesAreFiltered(files: seq<File>)
    ensures AllSources(files) == Filter(files, IsSource)
  {
    if files != [] {
      var n := |files| - 1;
      SourcesAreFiltered(files[..n]);
      assert files[..n] + [files[n]] == files;
      FilterConcat(files[..n], [files[n]], IsSource);
      FilterOne(files[n], IsSource);
    }
  }

  function CoveredBy(all: seq<File>): File -> bool { (f: File) => Covered(all, f) }

  function CoveredSource(all: seq<File>): File -> bool { (f: File) => IsSource(f) && Covered(all, f) }

  lemma {:induction false} CoveredAreFiltered(all: seq<File>, files: seq<File>)
    ensures CountCovered(all, files) == |Filter(files, CoveredBy(all))|
  {
    if files != [] {
      var n := |files| - 1;
      CoveredAreFiltered(all, files[..n]);
      assert files[..n] + [files[n]] == files;
      FilterConcat(files[..n], [files[n]], CoveredBy(all));
      FilterOne(files[n], CoveredBy(all));
    }
  }

  lemma CoveredSources(all: seq<File>, files: seq<File>)
    ensures Filter(Filter(files, IsSource), CoveredBy(all)) == Filter(files, CoveredSource(all))
  {
    FilterTwice(files, IsSource, CoveredBy(all));
    SameFilter(files, Both(IsSource, CoveredBy(all)), CoveredSource(all));
  }

  lemma CountsAre(files: seq<File>)
    ensures |AllSources(files)| == |Places(files, IsSource)|
    ensures CountCovered(files, AllSources(files)) == |Places(files, CoveredSource(files))|
  {
    SourcesAreFiltered(files);
    FilterSize(files, IsSource);
    CoveredAreFiltered(files, AllSources(files));
    CoveredSources(files, files);
    FilterSize(files, CoveredSource(files));
  }

  /** tenths is 1000 * part / whole, rounded to the nearest integer. */
  ghost predicate NearestTenths(tenths: int, part: nat, whole: nat) {
    if whole == 0 then tenths == 0
    else
      var exact := 1000.0 * (part as real / whole as real);
      exact - 0.5 <= tenths as real <= exact + 0.5
  }

  lemma TenthsOf(part: nat, whole: nat) returns (tenths: int)
    ensures PartPct(part, whole) == tenths as real / 10.0 && NearestTenths(tenths, part, whole)
  {
    tenths := 0;
    if whole > 0 {
      var x := part as real / whole as real;
      tenths := RoundHalfEven(x * 100.0 * 10.0);
    }
  }

  /** The figure: the number of covered source files per source file, in percent
      and rounded to the nearest tenth; 0 if there are none. */
  lemma CoverageMeans(files: seq<File>) returns (tenths: int)
    ensures CoveragePct(files) == tenths as real / 10.0
    ensures NearestTenths(tenths, |Places(files, CoveredSource(files))|, |Places(files, IsSource)|)
  {
    CountsAre(files);
    tenths := TenthsOf(|Places(files, CoveredSource(files))|, |Places(files, IsSource)|);
  }

  lemma PctInRange(files: seq<File>)
    ensures 0.0 <= CoveragePct(files) <= 100.0
  {
    CoveredAtMostAll(files, AllSources(files));
    PartInRange(CountCovered(files, AllSources(files)), |AllSources(files)|);
  }

  /** The two-pass computation over the walked files. */
  method ComputeCoveragePct(files: seq<File>, fileCount: nat) returns (pct: real)
    ensures fileCount == 0 ==> pct == 0.0
    ensures fileCount > 0 ==> pct == CoveragePct(files)
    ensures 0.0 <= pct <= 100.0
  {
    PctInRange(files);
    if fileCount == 0 {
      return 0.0;
    }
    var sources, tests := BuildIndex(files);
    var sourceFiles, filesWithTests := 0, 0;
    var todo := sources.Keys;
    ghost var done: set<Dir> := {};
    NoDirs(files);
    while todo != {}
      invariant todo + done == sources.Keys && todo !! done
      invariant sourceFiles == |SourcesIn(files, done)|
      invariant filesWithTests == CountCovered(files, SourcesIn(files, done))
    {
      var d :| d in todo;
      todo := todo - {d};
      var here := sources[d];
      assert here == SourcesAt(sources, d);
      OneMoreDir(files, files, done, d);
      IndexIsRight(files, sources, tests, here);
      var n := CountIndexed(files, tests, here);
      sourceFiles := sourceFiles + |here|;
      filesWithTests := filesWithTests + n;
      done := done + {d};
    }
    forall f | f in files && IsSource(f) ensures f.dir in done {
      SourcesAreListed(files, f);
      assert f in SourcesAt(sources, f.dir);
    }
    AllDirs(files, done);
    if sourceFiles == 0 {
      return 0.0;
    }
    return RoundToTenth(filesWithTests as real / sourceFiles as real * 100.0);
  }

  /** The index answers as direct probing does for these files. */
  ghost predicate IndexRight(files: seq<File>, tests: map<Dir, set<string>>, here: seq<File>) {
    forall i :: 0 <= i < |here| ==> (IndexCovers(tests, here[i]) <==> Covered(files, here[i]))
  }

  lemma IndexIsRight(files: seq<File>, sources: map<Dir, seq<File>>, tests: map<Dir, set<string>>, here: seq<File>)
    requires Indexes(files, sources, tests)
    ensures IndexRight(files, tests, here)
  {
    forall i | 0 <= i < |here| ensures IndexCovers(tests, here[i]) <==> Covered(files, here[i]) {
      IndexAgrees(files, sources, tests, here[i]);
    }
  }

  lemma CountOneMore(files: seq<File>, tests: map<Dir, set<string>>, here: seq<File>, i: nat)
    requires i < |here| && IndexRight(files, tests, here)
    ensures CountCovered(files, here[..i + 1]) ==
              CountCovered(files, here[..i]) + if IndexCovers(tests, here[i]) then 1 else 0
  {
    CountSnoc(files, here, i);
  }

  lemma CountSnoc(all: seq<File>, files: seq<File>, i: nat)
    requires i < |files|
    ensures CountCovered(all, files[..i + 1]) == CountCovered(all, files[..i]) + if Covered(all, files[i]) then 1 else 0
  {
    assert files[..i + 1][..i] == files[..i];
  }

  method CountIndexed(ghost files: seq<File>, tests: map<Dir, set<string>>, here: seq<File>) returns (n: nat)
    requires IndexRight(files, tests, here)
    ensures n == CountCovered(files, here)
  {
    n := 0;
    var i := 0;
    assert here[..0] == [];
    while i < |here|
      invariant 0 <= i <= |here|
      invariant n == CountCovered(files, here[..i])
    {
      CountOneMore(files, tests, here, i);
      if IndexCovers(tests, here[i]) {
        n := n + 1;
      }
      i := i + 1;
    }
    assert here[..i] == here;
  }

  method BuildIndex(files: seq<File>) returns (sources: map<Dir, seq<File>>, tests: map<Dir, set<string>>)
    ensures Indexes(files, sources, tests)
  {
    sources, tests := map[], map[];
    var i := 0;
    while i < |files|
      invariant 0 <= i <= |files|
      invariant Indexes(files[..i], sources, tests)
    {
      var f := files[i];
      if IsTest(f) {
        IndexTest(files, i, sources, tests);
        tests := tests[f.dir := NamesAt(tests, f.dir) + {Lower(f.name)}];
      } else {
        IndexSource(files, i, sources, tests);
        sources := sources[f.dir := SourcesAt(sources, f.dir) + [f]];
      }
      i := i + 1;
    }
    assert files[..i] == files;
  }

  /** One more file adds its name to its own directory, and to no other. */
  lemma NamesOneMore(files: seq<File>, i: nat, d: Dir)
    requires i < |files|
    ensures TestNames(files[..i + 1], d) ==
              TestNames(files[..i], d) + if IsTest(files[i]) && files[i].dir == d then {Lower(files[i].name)} else {}
  {
    assert files[..i + 1] == files[..i] + [files[i]];
  }

  lemma SourcesOneMore(files: seq<File>, i: nat, d: Dir)
    requires i < |files|
    ensures SourcesOf(files[..i + 1], d) ==
              SourcesOf(files[..i], d) + if IsSource(files[i]) && files[i].dir == d then [files[i]] else []
  {
    assert files[..i + 1][..i] == files[..i];
  }

  lemma IndexTest(files: seq<File>, i: nat, sources: map<Dir, seq<File>>, tests: map<Dir, set<string>>)
    requires i < |files| && Indexes(files[..i], sources, tests) && IsTest(files[i])
    ensures var f := files[i];
            Indexes(files[..i + 1], sources, tests[f.dir := NamesAt(tests, f.dir) + {Lower(f.name)}])
  {
    var f := files[i];
    var more := tests[f.dir := NamesAt(tests, f.dir) + {Lower(f.name)}];
    forall d ensures NamesAt(more, d) == TestNames(files[..i + 1], d) { NamesOneMore(files, i, d); }
    forall d ensures SourcesAt(sources, d) == SourcesOf(files[..i + 1], d) { SourcesOneMore(files, i, d); }
  }

  lemma IndexSource(files: seq<File>, i: nat, sources: map<Dir, seq<File>>, tests: map<Dir, set<string>>)
    requires i < |files| && Indexes(files[..i], sources, tests) && IsSource(files[i])
    ensures var f := files[i];
            Indexes(files[..i + 1], sources[f.dir := SourcesAt(sources, f.dir) + [f]], tests)
  {
    var f := files[i];
    var more := sources[f.dir := SourcesAt(sources, f.dir) + [f]];
    forall d ensures NamesAt(tests, d) == TestNames(files[..i + 1], d) { NamesOneMore(files, i, d); }
    forall d ensures SourcesAt(more, d) == SourcesOf(files[..i + 1], d) { SourcesOneMore(files, i, d); }
  }
}
