/** Concurrent writers of one memory file (patchi/core/memory.py).

    Writers are threads of any number of processes. `_update` and `_write` hold
    the lock of their own process; other processes do not see it. A write goes
    to a tmp file with a fresh name and then over the target by a POSIX rename.
    A thread may fail between any two steps (leaving its tmp file behind) and a
    process may be killed at any time. */
module Memory {
  import opened Common

  type Path = string
  type Value = map<string, string>   // scanner name -> result with its timestamp

  datatype Content = Json(value: Value) | Torn

  datatype Thread = Thread(process: nat, id: nat)

  datatype Request =
    | SaveScan(scanner: string, result: string)   // read-modify-write under the lock
    | Overwrite(value: Value)                     // delete(category), save_brain, ...

  datatype Phase =
    | Idle
    | Locked(req: Request)
    | Computed(req: Request, data: Value)
    | Writing(req: Request, data: Value, tmp: Path)
    | Ready(req: Request, data: Value, tmp: Path)
    | Done(req: Request)

  datatype Entry = Entry(req: Request, data: Value)

  /** `computed` (every value a writer set out to write) and `log` (requests in
      the order of their renames) are history. */
  datatype System = System(
    disk: map<Path, Content>, target: Path, holder: map<nat, Thread>, phases: map<Thread, Phase>,
    usedNames: set<Path>, computed: set<Value>, log: seq<Entry>)
  {
    function PhaseOf(t: Thread): Phase { if t in phases then phases[t] else Idle }

    function OnDisk(): Option<Content> { if target in disk then Some(disk[target]) else None }

    /** What `_read` returns; None where it raises. */
    function Stored(): Option<Value> { ReadContent(OnDisk()) }
  }

  /** An absent file reads as the empty dict; json.load raises on a torn one. */
  function ReadContent(c: Option<Content>): Option<Value> {
    match c
    case None => Some(map[])
    case Some(Json(value)) => Some(value)
    case Some(Torn) => None
  }

  datatype Event =
    | Acquire(t: Thread, req: Request)
    | Compute(t: Thread)
    | OpenTmp(t: Thread, tmp: Path)
    | FinishTmp(t: Thread)
    | Rename(t: Thread)
    | Unlock(t: Thread)
    | Fail(t: Thread)
    | Kill(process: nat)

  /** The value a request sets out to write, from what `_read` returned. An
      overwrite does not read; a save that cannot read raises. */
  function Mutate(req: Request, data: Option<Value>): Option<Value> {
    match req
    case SaveScan(scanner, result) => if data.Some? then Some(data.value[scanner := result]) else None
    case Overwrite(value) => Some(value)
  }

  predicate Enabled(s: System, e: Event) {
    match e
    case Acquire(t, req) => s.PhaseOf(t).Idle? && t.process !in s.holder
    case Compute(t) => s.PhaseOf(t).Locked? && Mutate(s.PhaseOf(t).req, s.Stored()).Some?
    case OpenTmp(t, tmp) => s.PhaseOf(t).Computed? && tmp !in s.usedNames && tmp !in s.disk && tmp != s.target
    case FinishTmp(t) => s.PhaseOf(t).Writing?
    case Rename(t) => s.PhaseOf(t).Ready? && s.PhaseOf(t).tmp in s.disk
    case Unlock(t) => s.PhaseOf(t).Done?
    case Fail(t) => !s.PhaseOf(t).Idle?
    case Kill(process) => true
  }

  function Step(s: System, e: Event): System
    requires Enabled(s, e)
  {
    match e
    case Acquire(t, req) =>
      s.(phases := s.phases[t := Locked(req)], holder := s.holder[t.process := t])
    case Compute(t) =>
      var req := s.phases[t].req;
      var data := Mutate(req, s.Stored()).value;
      s.(phases := s.phases[t := Computed(req, data)], computed := s.computed + {data})
    case OpenTmp(t, tmp) =>
      s.(phases := s.phases[t := Writing(s.phases[t].req, s.phases[t].data, tmp)],
         disk := s.disk[tmp := Torn], usedNames := s.usedNames + {tmp})
    case FinishTmp(t) =>
      var ph := s.phases[t];
      s.(phases := s.phases[t := Ready(ph.req, ph.data, ph.tmp)], disk := s.disk[ph.tmp := Json(ph.data)])
    case Rename(t) =>
      var ph := s.phases[t];
      s.(phases := s.phases[t := Done(ph.req)],
         disk := (s.disk - {ph.tmp})[s.target := s.disk[ph.tmp]],
         log := s.log + [Entry(ph.req, ph.data)])
    case Unlock(t) => Drop(s, t)
    case Fail(t) => Drop(s, t)
    case Kill(process) =>
      s.(phases := map t | t in s.phases && t.process != process :: s.phases[t], holder := s.holder - {process})
  }

  function Drop(s: System, t: Thread): System {
    s.(phases := s.phases[t := Idle],
       holder := if t.process in s.holder && s.holder[t.process] == t then s.holder - {t.process} else s.holder)
  }

  predicate Runs(s: System, es: seq<Event>)
    decreases es
  {
    es == [] || (Enabled(s, es[0]) && Runs(Step(s, es[0]), es[1..]))
  }

  function After(s: System, es: seq<Event>): System
    requires Runs(s, es)
    decreases es
  {
    if es == [] then s else After(Step(s, es[0]), es[1..])
  }

  /** One memory file as a single thread sees it. */
  class MemoryFile {
    const target: Path
    var disk: map<Path, Content>

    constructor (target: Path, disk: map<Path, Content>)
      ensures this.target == target && this.disk == disk
    {
      this.target, this.disk := target, disk;
    }

    function Stored(): Option<Value>
      reads this
    {
      ReadContent(if target in disk then Some(disk[target]) else None)
    }

    /** `_write`: a fresh tmp file, then a rename over the target. */
    method Write(data: Value, tmp: Path)
      requires tmp != target && tmp !in disk
      modifies this
      ensures disk == old(disk)[target := Json(data)]
    {
      disk := disk[tmp := Torn];
      disk := disk[tmp := Json(data)];
      disk := (disk - {tmp})[target := disk[tmp]];
      assert disk == old(disk)[target := Json(data)];
    }

    /** `save_scan_result`: this scanner's entry is replaced and all else is
        kept; or the file cannot be read, and the call raises and writes nothing. */
    method SaveScanResult(scanner: string, result: string, tmp: Path) returns (ok: bool)
      requires tmp != target && tmp !in disk
      modifies this
      ensures ok <==> old(Stored()).Some?
      ensures ok <==> (target in old(disk) ==> old(disk)[target] != Torn)
      ensures target !in old(disk) ==> Stored() == Some(map[scanner := result])
      ensures target in old(disk) && old(disk)[target].Json? ==>
                Stored() == Some(old(disk)[target].value[scanner := result])
      ensures !ok ==> disk == old(disk)
      ensures ok ==> Stored() == Some(old(Stored()).value[scanner := result])
      ensures ok ==> disk == old(disk)[target := Json(Stored().value)]
    {
      var scans := Stored();
      if scans.None? {
        return false;
      }
      Write(scans.value[scanner := result], tmp);
      return true;
    }
  }

  // ---- Always one complete value ----

  ghost predicate PhaseSound(s: System, t: Thread) {
    var ph := s.PhaseOf(t);
    && (!ph.Idle? ==> t.process in s.holder && s.holder[t.process] == t)
    && (ph.Computed? || ph.Writing? || ph.Ready? ==> ph.data in s.computed)
    && (ph.Writing? || ph.Ready? ==> ph.tmp in s.usedNames && ph.tmp in s.disk && ph.tmp != s.target)
    && (ph.Writing? ==> s.disk[ph.tmp] == Torn)
    && (ph.Ready? ==> s.disk[ph.tmp] == Json(ph.data))
  }

  predicate HasTmp(s: System, t: Thread) { s.PhaseOf(t).Writing? || s.PhaseOf(t).Ready? }

  ghost predicate OwnTmps(s: System) {
    forall t, u: Thread :: t != u && HasTmp(s, t) && HasTmp(s, u) ==> s.PhaseOf(t).tmp != s.PhaseOf(u).tmp
  }

  /** The target holds `before` if nothing was renamed yet, and otherwise the
      whole value of the last rename. */
  ghost predicate Complete(s: System, before: Option<Content>) {
    if s.log == [] then s.OnDisk() == before
    else s.OnDisk() == Some(Json(s.log[|s.log| - 1].data)) && s.log[|s.log| - 1].data in s.computed
  }

  ghost predicate Inv(s: System, before: Option<Content>) {
    && (forall t: Thread :: PhaseSound(s, t))
    && OwnTmps(s)
    && Complete(s, before)
  }

  ghost predicate Initial(s: System) {
    s.phases == map[] && s.holder == map[] && s.usedNames == {} && s.computed == {} && s.log == []
  }

  lemma StaysSound(s: System, e: Event, t: Thread)
    requires PhaseSound(s, t) && OwnTmps(s) && Enabled(s, e)
    requires !e.Kill? ==> PhaseSound(s, e.t)
    ensures PhaseSound(Step(s, e), t)
  {
    if !e.Kill? && t != e.t {
      assert Step(s, e).PhaseOf(t) == s.PhaseOf(t);
      assert HasTmp(s, t) && HasTmp(s, e.t) ==> s.PhaseOf(t).tmp != s.PhaseOf(e.t).tmp;
    }
  }

  lemma TmpsStayOwn(s: System, e: Event, t: Thread, u: Thread)
    requires OwnTmps(s) && Enabled(s, e) && PhaseSound(s, t) && PhaseSound(s, u)
    requires t != u && HasTmp(Step(s, e), t) && HasTmp(Step(s, e), u)
    ensures Step(s, e).PhaseOf(t).tmp != Step(s, e).PhaseOf(u).tmp
  {
    assert HasTmp(s, t) || e.OpenTmp?;
    assert HasTmp(s, u) || e.OpenTmp?;
  }

  lemma StaysComplete(s: System, e: Event, before: Option<Content>)
    requires Complete(s, before) && Enabled(s, e)
    requires !e.Kill? ==> PhaseSound(s, e.t)
    ensures Complete(Step(s, e), before)
  {
    if e.Rename? {
      assert Step(s, e).OnDisk() == Some(Json(s.PhaseOf(e.t).data));
    } else {
      assert Step(s, e).OnDisk() == s.OnDisk();
    }
  }

  lemma StepKeepsInv(s: System, e: Event, before: Option<Content>)
    requires Inv(s, before) && Enabled(s, e)
    ensures Inv(Step(s, e), before)
  {
    var s' := Step(s, e);
    assert !e.Kill? ==> PhaseSound(s, e.t);
    forall t: Thread ensures PhaseSound(s', t) { StaysSound(s, e, t); }
    forall t, u: Thread | t != u && HasTmp(s', t) && HasTmp(s', u)
      ensures s'.PhaseOf(t).tmp != s'.PhaseOf(u).tmp
    {
      TmpsStayOwn(s, e, t, u);
    }
    StaysComplete(s, e, before);
  }

  lemma {:induction false} RunKeepsInv(s: System, es: seq<Event>, before: Option<Content>)
    requires Inv(s, before) && Runs(s, es)
    ensures Inv(After(s, es), before) && After(s, es).target == s.target
    decreases es
  {
    if es != [] {
      StepKeepsInv(s, es[0], before);
      RunKeepsInv(Step(s, es[0]), es[1..], before);
    }
  }

  /** However an operation ends - done, failed or killed - its thread is idle and
      the lock of its process is free; other processes are not affected. */
  lemma LockIsReleased(s: System, e: Event, before: Option<Content>, t: Thread)
    requires Inv(s, before) && Enabled(s, e)
    requires if e.Kill? then e.process == t.process else (e.Unlock? || e.Fail?) && e.t == t
    ensures Step(s, e).PhaseOf(t).Idle? && t.process !in Step(s, e).holder
    ensures forall u: Thread :: u.process != t.process ==> Step(s, e).PhaseOf(u) == s.PhaseOf(u)
    ensures forall p :: p != t.process ==>
              (p in Step(s, e).holder <==> p in s.holder) && (p in s.holder ==> Step(s, e).holder[p] == s.holder[p])
    ensures Step(s, e).disk == s.disk && Step(s, e).log == s.log
  {
    assert PhaseSound(s, t);
  }

  /** In every interleaving of writers of any number of processes, failures and
      kills included, the memory file is as it was at the start or exactly the
      complete value of one writer - the last to rename - and never torn. */
  lemma AlwaysOneCompleteValue(s: System, es: seq<Event>)
    requires Initial(s) && Runs(s, es)
    ensures Complete(After(s, es), s.OnDisk())
    ensures s.OnDisk() != Some(Torn) ==> After(s, es).OnDisk() != Some(Torn)
  {
    RunKeepsInv(s, es, s.OnDisk());
  }

  // ---- No lost update inside one process ----

  /** The event is a step of one of these threads, or kills one of their processes. */
  predicate By(e: Event, ts: set<Thread>) {
    if e.Kill? then exists t :: t in ts && t.process == e.process else e.t in ts
  }

  predicate AllBy(es: seq<Event>, ts: set<Thread>) { forall i :: 0 <= i < |es| ==> By(es[i], ts) }

  predicate OneProcess(ts: set<Thread>, process: nat) { forall t :: t in ts ==> t.process == process }

  function Replay(v: Option<Value>, log: seq<Entry>): Option<Value> {
    if log == [] then v else Mutate(log[|log| - 1].req, Replay(v, log[..|log| - 1]))
  }

  /** A thread about to write computed its value from the current file. */
  ghost predicate UpToDate(s: System, t: Thread, process: nat) {
    var ph := s.PhaseOf(t);
    && (!ph.Idle? ==> t.process == process)
    && (ph.Computed? || ph.Writing? || ph.Ready? ==> Some(ph.data) == Mutate(ph.req, s.Stored()))
  }

  ghost predicate Current(s: System, v: Option<Value>, process: nat) {
    && s.Stored() == Replay(v, s.log)
    && forall t: Thread :: UpToDate(s, t, process)
  }

  /** Only a rename changes what the file reads as. */
  lemma StoredAfter(s: System, e: Event)
    requires Enabled(s, e) && (!e.Kill? ==> PhaseSound(s, e.t))
    ensures Step(s, e).Stored() == if e.Rename? then Some(s.PhaseOf(e.t).data) else s.Stored()
  {
  }

  lemma StaysUpToDate(s: System, e: Event, t: Thread, process: nat)
    requires UpToDate(s, t, process) && PhaseSound(s, t) && Enabled(s, e)
    requires if e.Kill? then e.process == process else e.t.process == process && PhaseSound(s, e.t)
    ensures UpToDate(Step(s, e), t, process)
  {
    StoredAfter(s, e);
  }

  lemma ReplayFollows(s: System, e: Event, v: Option<Value>, process: nat)
    requires Enabled(s, e) && s.Stored() == Replay(v, s.log)
    requires !e.Kill? ==> PhaseSound(s, e.t) && UpToDate(s, e.t, process)
    ensures Step(s, e).Stored() == Replay(v, Step(s, e).log)
  {
    StoredAfter(s, e);
    if e.Rename? {
      assert Step(s, e).log[..|s.log|] == s.log;
    }
  }

  lemma StepKeepsCurrent(s: System, e: Event, before: Option<Content>, v: Option<Value>, process: nat)
    requires Inv(s, before) && Current(s, v, process) && Enabled(s, e)
    requires if e.Kill? then e.process == process else e.t.process == process
    ensures Current(Step(s, e), v, process)
  {
    assert !e.Kill? ==> PhaseSound(s, e.t) && UpToDate(s, e.t, process);
    ReplayFollows(s, e, v, process);
    forall t: Thread ensures UpToDate(Step(s, e), t, process) {
      assert PhaseSound(s, t);
      StaysUpToDate(s, e, t, process);
    }
  }

  lemma {:induction false} RunKeepsCurrent(
    s: System, es: seq<Event>, before: Option<Content>, v: Option<Value>, ts: set<Thread>, process: nat)
    requires Inv(s, before) && Current(s, v, process) && Runs(s, es) && AllBy(es, ts) && OneProcess(ts, process)
    ensures Current(After(s, es), v, process)
    decreases es
  {
    if es != [] {
      assert By(es[0], ts);
      StepKeepsInv(s, es[0], before);
      StepKeepsCurrent(s, es[0], before, v, process);
      RunKeepsCurrent(Step(s, es[0]), es[1..], before, v, ts, process);
    }
  }

  /** The result a scanner saved last in a log, if no later request overwrote
      the whole category; `before` is what it had before the log. */
  function LastResult(before: Option<string>, log: seq<Entry>, scanner: string): Option<string> {
    if log == [] then before
    else
      match log[|log| - 1].req
      case SaveScan(name, result) =>
        if name == scanner then Some(result) else LastResult(before, log[..|log| - 1], scanner)
      case Overwrite(value) => Lookup(Some(value), scanner)
  }

  function Lookup(v: Option<Value>, scanner: string): Option<string> {
    if v.Some? && scanner in v.value then Some(v.value[scanner]) else None
  }

  lemma {:induction false} ReplayGivesLastResult(v: Option<Value>, log: seq<Entry>, scanner: string)
    requires Replay(v, log).Some?
    ensures Lookup(Replay(v, log), scanner) == LastResult(Lookup(v, scanner), log, scanner)
  {
    if log != [] && log[|log| - 1].req.SaveScan? { ReplayGivesLastResult(v, log[..|log| - 1], scanner); }
  }

  /** The file is the replay, in the order of the renames, of the requests that
      were carried out. */
  ghost predicate NothingLost(s: System, es: seq<Event>) {
    Runs(s, es) ==> After(s, es).Stored() == Replay(s.Stored(), After(s, es).log)
  }

  /** Within one process no concurrent save_scan_result is lost: the file is
      the replay of all requests in lock order, so each scanner has its last
      saved result. A file that cannot be read stays so until an overwrite. */
  lemma OneProcessLosesNothing(s: System, es: seq<Event>, ts: set<Thread>, process: nat)
    requires Initial(s) && Runs(s, es) && AllBy(es, ts) && OneProcess(ts, process)
    ensures NothingLost(s, es)
    ensures After(s, es).Stored().Some? <==> s.Stored().Some? || After(s, es).log != []
    ensures After(s, es).Stored().Some? ==>
              forall scanner ::
                Lookup(After(s, es).Stored(), scanner) ==
                LastResult(Lookup(s.Stored(), scanner), After(s, es).log, scanner)
  {
    RunKeepsInv(s, es, s.OnDisk());
    RunKeepsCurrent(s, es, s.OnDisk(), s.Stored(), ts, process);
    if After(s, es).Stored().Some? {
      forall scanner
        ensures Lookup(After(s, es).Stored(), scanner) ==
                  LastResult(Lookup(s.Stored(), scanner), After(s, es).log, scanner)
      {
        ReplayGivesLastResult(s.Stored(), After(s, es).log, scanner);
      }
    }
  }

  // ---- ... but not across processes ----

  lemma {:induction false} RunsSnoc(s: System, es: seq<Event>, e: Event)
    requires Runs(s, es) && Enabled(After(s, es), e)
    ensures Runs(s, es + [e]) && After(s, es + [e]) == Step(After(s, es), e)
    decreases es
  {
    if es == [] {
      assert [e][1..] == [];
    } else {
      assert (es + [e])[1..] == es[1..] + [e];
      RunsSnoc(Step(s, es[0]), es[1..], e);
    }
  }

  /** An operation that runs alone does to the disk what the sequential methods
      of MemoryFile do. */
  lemma WholeOperation(s: System, t: Thread, req: Request, tmp: Path)
    requires s.PhaseOf(t).Idle? && t.process !in s.holder
    requires tmp !in s.usedNames && tmp !in s.disk && tmp != s.target
    requires Mutate(req, s.Stored()).Some?
    ensures var es := [Acquire(t, req)] + [Compute(t)] + WriteBack(t, tmp);
            && Runs(s, es)
            && After(s, es).PhaseOf(t) == Done(req)
            && After(s, es).disk == s.disk[s.target := Json(Mutate(req, s.Stored()).value)]
            && After(s, es).log == s.log + [Entry(req, Mutate(req, s.Stored()).value)]
  {
    RunsSnoc(s, [], Acquire(t, req));
    assert [] + [Acquire(t, req)] == [Acquire(t, req)];
    RunsSnoc(s, [Acquire(t, req)], Compute(t));
    WriteBackRuns(s, [Acquire(t, req)] + [Compute(t)], t, tmp);
  }

  const SAVE_A := SaveScan("A", "1")
  const SAVE_B := SaveScan("B", "2")
  const ONLY_A: Value := map["A" := "1"]
  const ONLY_B: Value := map["B" := "2"]

  /** Threads a and b of two processes compute from the same empty file. */
  function BothCompute(a: Thread, b: Thread): seq<Event> {
    [Acquire(a, SAVE_A)] + [Acquire(b, SAVE_B)] + [Compute(a)] + [Compute(b)]
  }

  function WriteBack(t: Thread, tmp: Path): seq<Event> {
    [OpenTmp(t, tmp)] + [FinishTmp(t)] + [Rename(t)]
  }

  /** Both compute, then a writes, then b. */
  function LostUpdate(a: Thread, b: Thread, tmpA: Path, tmpB: Path): seq<Event> {
    BothCompute(a, b) + WriteBack(a, tmpA) + WriteBack(b, tmpB)
  }

  lemma BothComputeRuns(s: System, a: Thread, b: Thread)
    requires Initial(s) && s.disk == map[] && a.process != b.process
    ensures Runs(s, BothCompute(a, b))
    ensures var s' := After(s, BothCompute(a, b));
            && s'.PhaseOf(a) == Computed(SAVE_A, ONLY_A) && s'.PhaseOf(b) == Computed(SAVE_B, ONLY_B)
            && s'.disk == map[] && s'.usedNames == {} && s'.log == [] && s'.target == s.target
  {
    RunsSnoc(s, [], Acquire(a, SAVE_A));
    var es := [Acquire(a, SAVE_A)];
    assert [] + es == es;
    RunsSnoc(s, es, Acquire(b, SAVE_B));
    RunsSnoc(s, es + [Acquire(b, SAVE_B)], Compute(a));
    RunsSnoc(s, es + [Acquire(b, SAVE_B)] + [Compute(a)], Compute(b));
  }

  lemma WriteBackRuns(s: System, es: seq<Event>, t: Thread, tmp: Path)
    requires Runs(s, es)
    requires var m := After(s, es);
             m.PhaseOf(t).Computed? && tmp !in m.usedNames && tmp !in m.disk && tmp != m.target
    ensures Runs(s, es + WriteBack(t, tmp))
    ensures var m, n := After(s, es), After(s, es + WriteBack(t, tmp));
            && n.disk == m.disk[m.target := Json(m.PhaseOf(t).data)]
            && n.log == m.log + [Entry(m.PhaseOf(t).req, m.PhaseOf(t).data)]
            && n.usedNames == m.usedNames + {tmp} && n.target == m.target
            && n.PhaseOf(t) == Done(m.PhaseOf(t).req)
            && forall u: Thread :: u != t ==> n.PhaseOf(u) == m.PhaseOf(u)
  {
    RunsSnoc(s, es, OpenTmp(t, tmp));
    RunsSnoc(s, es + [OpenTmp(t, tmp)], FinishTmp(t));
    RunsSnoc(s, es + [OpenTmp(t, tmp)] + [FinishTmp(t)], Rename(t));
    assert es + WriteBack(t, tmp) == es + [OpenTmp(t, tmp)] + [FinishTmp(t)] + [Rename(t)];
  }

  /** The process-local lock does not reach other processes: an update of one
      process can vanish under the write of another. */
  lemma TwoProcessesLoseAnUpdate(s: System, a: Thread, b: Thread, tmpA: Path, tmpB: Path)
    requires Initial(s) && s.disk == map[] && a.process != b.process
    requires tmpA != tmpB && tmpA != s.target && tmpB != s.target
    ensures var es := LostUpdate(a, b, tmpA, tmpB);
            && Runs(s, es)
            && After(s, es).Stored() == Some(ONLY_B)
            && Replay(s.Stored(), After(s, es).log) == Some(map["A" := "1", "B" := "2"])
  {
    BothComputeRuns(s, a, b);
    WriteBackRuns(s, BothCompute(a, b), a, tmpA);
    WriteBackRuns(s, BothCompute(a, b) + WriteBack(a, tmpA), b, tmpB);
    var log := [Entry(SAVE_A, ONLY_A), Entry(SAVE_B, ONLY_B)];
    assert log[..1] == [Entry(SAVE_A, ONLY_A)] && log[..1][..0] == [];
    assert Replay(s.Stored(), log[..1]) == Some(ONLY_A);
  }

  /** The exact condition: a set of threads, whatever their schedule and their
      failures, never loses an update if and only if they are all threads of one
      process. */
  lemma NothingLostIffOneProcess(ts: set<Thread>, t0: Thread)
    requires t0 in ts
    ensures (forall s, es :: Initial(s) && AllBy(es, ts) ==> NothingLost(s, es)) <==> OneProcess(ts, t0.process)
  {
    if OneProcess(ts, t0.process) {
      forall s, es | Initial(s) && AllBy(es, ts) ensures NothingLost(s, es) {
        if Runs(s, es) { OneProcessLosesNothing(s, es, ts, t0.process); }
      }
    } else {
      var t :| t in ts && t.process != t0.process;
      var s := System(map[], "scans.json", map[], map[], {}, {}, []);
      var es := LostUpdate(t0, t, "scans.tmp-a", "scans.tmp-b");
      TwoProcessesLoseAnUpdate(s, t0, t, "scans.tmp-a", "scans.tmp-b");
      assert "B" in Replay(s.Stored(), After(s, es).log).value && "A" in Replay(s.Stored(), After(s, es).log).value;
      assert "A" !in ONLY_B;
      assert AllBy(es, ts);
      assert !NothingLost(s, es);
    }
  }
}
