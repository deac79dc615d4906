/** Collecting findings from parallel agents (patchi/core/scan_bus.py): the
    finding bus, shared by publishers and drainers, and the queue runner. */
module ScanBus {
  import opened Common

  type Finding = string

  function Flatten<T>(xss: seq<seq<T>>): seq<T> {
    if xss == [] then [] else xss[0] + Flatten(xss[1..])
  }

  lemma {:induction false} FlattenAppendOne<T>(xss: seq<seq<T>>, i: nat, x: T)
    requires i < |xss|
    ensures multiset(Flatten(xss[i := xss[i] + [x]])) == multiset(Flatten(xss)) + multiset{x}
    ensures |Flatten(xss[i := xss[i] + [x]])| == |Flatten(xss)| + 1
  {
    var yss := xss[i := xss[i] + [x]];
    if i == 0 {
      assert yss[1..] == xss[1..];
      assert multiset(xss[0] + [x]) == multiset(xss[0]) + multiset{x};
    } else {
      assert yss[1..] == xss[1..][i - 1 := xss[1..][i - 1] + [x]];
      FlattenAppendOne(xss[1..], i - 1, x);
    }
  }

  lemma {:induction false} FlattenSnoc<T>(xss: seq<seq<T>>, ys: seq<T>)
    ensures Flatten(xss + [ys]) == Flatten(xss) + ys
  {
    if xss == [] {
      assert xss + [ys] == [ys] && [ys][1..] == [];
    } else {
      assert (xss + [ys])[1..] == xss[1..] + [ys];
      FlattenSnoc(xss[1..], ys);
    }
  }

  // ---- Shards ----

  /** shard_id of a path: the first four bytes of its MD5, modulo the count. */
  function ShardId(digest: string -> nat, path: string, n: nat): (k: nat)
    requires n > 0
    ensures k < n
  {
    digest(path) % n
  }

  /** The files of shard k, in input order. */
  function ShardOf(digest: string -> nat, paths: seq<string>, n: nat, k: nat): seq<string>
    requires n > 0
  {
    if paths == [] then []
    else
      var front := ShardOf(digest, paths[..|paths| - 1], n, k);
      if ShardId(digest, paths[|paths| - 1], n) == k then front + [paths[|paths| - 1]] else front
  }

  /** The buckets after the first files have been dealt out. */
  ghost predicate Dealt(digest: string -> nat, paths: seq<string>, n: nat, buckets: seq<seq<string>>)
    requires n > 0
  {
    && |buckets| == n
    && (forall k :: 0 <= k < n ==> buckets[k] == ShardOf(digest, paths, n, k))
    && multiset(Flatten(buckets)) == multiset(paths)
  }

  lemma DealNone(digest: string -> nat, paths: seq<string>, n: nat)
    requires n > 0
    ensures Dealt(digest, paths[..0], n, seq(n, _ => []))
  {
    FlattenEmpty<string>(n);
    assert paths[..0] == [];
  }

  lemma DealOne(digest: string -> nat, paths: seq<string>, i: nat, n: nat, buckets: seq<seq<string>>)
    requires n > 0 && i < |paths| && Dealt(digest, paths[..i], n, buckets)
    ensures var k := ShardId(digest, paths[i], n);
            Dealt(digest, paths[..i + 1], n, buckets[k := buckets[k] + [paths[i]]])
  {
    forall k | 0 <= k < n { ShardOneMore(digest, paths, i, n, k); }
    FlattenAppendOne(buckets, ShardId(digest, paths[i], n), paths[i]);
    TakeOneMore(paths, i);
  }

  lemma ShardOneMore(digest: string -> nat, paths: seq<string>, i: nat, n: nat, k: nat)
    requires n > 0 && i < |paths|
    ensures ShardOf(digest, paths[..i + 1], n, k) ==
              ShardOf(digest, paths[..i], n, k) + if ShardId(digest, paths[i], n) == k then [paths[i]] else []
  {
    assert paths[..i + 1][..i] == paths[..i];
  }

  lemma TakeOneMore(paths: seq<string>, i: nat)
    requires i < |paths|
    ensures multiset(paths[..i + 1]) == multiset(paths[..i]) + multiset{paths[i]}
  {
    assert paths[..i + 1] == paths[..i] + [paths[i]];
  }

  lemma DealAll(digest: string -> nat, paths: seq<string>, n: nat, buckets: seq<seq<string>>)
    requires n > 0 && Dealt(digest, paths[..|paths|], n, buckets)
    ensures Dealt(digest, paths, n, buckets)
  {
    assert paths[..|paths|] == paths;
  }

  lemma {:induction false} ShardIsFilter(digest: string -> nat, paths: seq<string>, n: nat, k: nat)
    requires n > 0
    ensures ShardOf(digest, paths, n, k) == Filter(paths, (p: string) => digest(p) % n == k)
  {
    if paths != [] {
      var front, last := paths[..|paths| - 1], paths[|paths| - 1];
      ShardIsFilter(digest, front, n, k);
      assert paths == front + [last] && [last][1..] == [];
      FilterConcat(front, [last], (p: string) => digest(p) % n == k);
    }
  }

  /** Sharding loses and duplicates no file: each shard holds, in order, the
      files that hash to it, and together they hold every file once. */
  method Shards(digest: string -> nat, paths: seq<string>, shardCount: int) returns (buckets: seq<seq<string>>)
    ensures |buckets| == if shardCount > 1 then shardCount else 1
    ensures forall k :: 0 <= k < |buckets| ==>
              buckets[k] == Filter(paths, (p: string) => digest(p) % |buckets| == k)
    ensures multiset(Flatten(buckets)) == multiset(paths)
  {
    var n: nat := if shardCount > 1 then shardCount else 1;
    buckets := seq(n, _ => []);
    DealNone(digest, paths, n);
    var i := 0;
    while i < |paths|
      invariant 0 <= i <= |paths|
      invariant Dealt(digest, paths[..i], n, buckets)
    {
      var k := ShardId(digest, paths[i], n);
      DealOne(digest, paths, i, n, buckets);
      buckets := buckets[k := buckets[k] + [paths[i]]];
      i := i + 1;
    }
    DealAll(digest, paths, n, buckets);
    forall k | 0 <= k < n ensures buckets[k] == Filter(paths, (p: string) => digest(p) % n == k) {
      ShardIsFilter(digest, paths, n, k);
    }
  }

  lemma {:induction false} FlattenEmpty<T>(n: nat)
    ensures Flatten<T>(seq(n, _ => [])) == []
  {
    if n > 0 {
      assert seq<seq<T>>(n, _ => [])[1..] == seq<seq<T>>(n - 1, _ => []);
      FlattenEmpty<T>(n - 1);
    }
  }

  // ---- The bus, one client ----

  class FindingBus {
    var q: seq<Finding>
    var count: nat

    constructor ()
      ensures q == [] && count == 0
    {
      q, count := [], 0;
    }

    method Publish(finding: Finding)
      modifies this
      ensures q == old(q) + [finding] && count == old(count) + 1
    {
      q := q + [finding];
      count := count + 1;
    }

    method Drain() returns (out: seq<Finding>)
      modifies this`q
      ensures out == old(q) && q == []
    {
      out := [];
      while q != []
        invariant out + q == old(q)
        decreases |q|
      {
        out := out + [q[0]];
        q := q[1..];
      }
    }
  }
}

/** Any number of publishers and drainers on one bus. `publish` is two steps, a
    put and a locked increment; a drain checks for emptiness and then takes, and
    another drainer may take in between. */
module BusProtocol {
  import opened ScanBus

  type Pid = nat

  datatype Client =
    | Idle
    | HasPut            // put done, count not yet incremented
    | Draining(d: nat)  // at the loop test of drain number d
    | Taking(d: nat)    // saw a non-empty queue, about to get_nowait

  /** `outs[d]` is the list drain number d has collected; `puts` and `taken` are
      the history of everything put into and taken out of the queue. */
  datatype System = System(
    q: seq<Finding>, count: int, clients: map<Pid, Client>, outs: seq<seq<Finding>>,
    puts: seq<Finding>, taken: seq<Finding>)
  {
    function ClientOf(p: Pid): Client { if p in clients then clients[p] else Idle }
    function Between(): set<Pid> { set p | p in clients && clients[p].HasPut? }
  }

  datatype Event =
    | Put(p: Pid, f: Finding)
    | Increment(p: Pid)
    | StartDrain(p: Pid)
    | Test(p: Pid)
    | Take(p: Pid)

  predicate Enabled(s: System, e: Event) {
    match e
    case Put(p, f) => s.ClientOf(p).Idle?
    case Increment(p) => s.ClientOf(p).HasPut?
    case StartDrain(p) => s.ClientOf(p).Idle?
    case Test(p) => s.ClientOf(p).Draining?
    case Take(p) => s.ClientOf(p).Taking? && s.ClientOf(p).d < |s.outs|
  }

  function Step(s: System, e: Event): System
    requires Enabled(s, e)
  {
    match e
    case Put(p, f) => s.(q := s.q + [f], puts := s.puts + [f], clients := s.clients[p := HasPut])
    case Increment(p) => s.(count := s.count + 1, clients := s.clients[p := Idle])
    case StartDrain(p) => s.(outs := s.outs + [[]], clients := s.clients[p := Draining(|s.outs|)])
    case Test(p) => s.(clients := s.clients[p := if s.q == [] then Idle else Taking(s.clients[p].d)])
    case Take(p) =>
      var d := s.clients[p].d;
      if s.q == [] then s.(clients := s.clients[p := Idle])   // queue.Empty: break
      else
        s.(q := s.q[1..], taken := s.taken + [s.q[0]], outs := s.outs[d := s.outs[d] + [s.q[0]]],
           clients := s.clients[p := Draining(d)])
  }

  predicate Runs(s: System, es: seq<Event>)
    decreases es
  {
    es == [] || (Enabled(s, es[0]) && Runs(Step(s, es[0]), es[1..]))
  }

  function After(s: System, es: seq<Event>): System
    requires Runs(s, es)
    decreases es
  {
    if es == [] then s else After(Step(s, es[0]), es[1..])
  }

  /** Findings put are those drained, in put order, and those still queued; and
      `count` lags the puts by the publishers between their two steps. */
  ghost predicate Conserved(s: System) {
    && s.puts == s.taken + s.q
    && multiset(s.taken) == multiset(Flatten(s.outs))
    && s.count == |s.puts| - |s.Between()|
    && DrainsKnown(s)
  }

  /** Every running drain has its list, so the bound in Enabled excludes nothing. */
  ghost predicate DrainsKnown(s: System) {
    forall p: Pid :: s.ClientOf(p).Draining? || s.ClientOf(p).Taking? ==> s.ClientOf(p).d < |s.outs|
  }

  lemma BetweenAfter(s: System, e: Event)
    requires Enabled(s, e)
    ensures Step(s, e).Between() ==
              if e.Put? then s.Between() + {e.p} else if e.Increment? then s.Between() - {e.p} else s.Between()
    ensures e.Put? ==> e.p !in s.Between()
    ensures e.Increment? ==> e.p in s.Between()
  {
  }

  lemma TakeConserves(s: System, e: Event)
    requires s.puts == s.taken + s.q && multiset(s.taken) == multiset(Flatten(s.outs))
    requires e.Take? && Enabled(s, e)
    ensures var s' := Step(s, e);
            s'.puts == s'.taken + s'.q && multiset(s'.taken) == multiset(Flatten(s'.outs))
  {
    if s.q != [] {
      assert s.q == [s.q[0]] + s.q[1..];
      assert s.taken + s.q == s.taken + [s.q[0]] + s.q[1..];
      FlattenAppendOne(s.outs, s.clients[e.p].d, s.q[0]);
    }
  }

  lemma DrainsStayKnown(s: System, e: Event)
    requires DrainsKnown(s) && Enabled(s, e)
    ensures DrainsKnown(Step(s, e))
  {
    forall p: Pid | Step(s, e).ClientOf(p).Draining? || Step(s, e).ClientOf(p).Taking?
      ensures Step(s, e).ClientOf(p).d < |Step(s, e).outs|
    {
      assert p != e.p ==> Step(s, e).ClientOf(p) == s.ClientOf(p);
    }
  }

  lemma CountFollows(s: System, e: Event)
    requires s.count == |s.puts| - |s.Between()| && Enabled(s, e)
    ensures Step(s, e).count == |Step(s, e).puts| - |Step(s, e).Between()|
  {
    BetweenAfter(s, e);
  }

  lemma StepConserves(s: System, e: Event)
    requires Conserved(s) && Enabled(s, e)
    ensures Conserved(Step(s, e))
  {
    CountFollows(s, e);
    DrainsStayKnown(s, e);
    if e.Take? {
      TakeConserves(s, e);
    } else if e.StartDrain? {
      FlattenSnoc(s.outs, []);
      assert Flatten(s.outs) + [] == Flatten(s.outs);
    } else if e.Put? {
      assert s.puts + [e.f] == s.taken + (s.q + [e.f]);
    }
  }

  /** Conservation in every interleaving of publishers and drainers. */
  lemma {:induction false} FindingsConserved(s: System, es: seq<Event>)
    requires Conserved(s) && Runs(s, es)
    ensures Conserved(After(s, es))
    ensures multiset(After(s, es).puts) == multiset(Flatten(After(s, es).outs)) + multiset(After(s, es).q)
    decreases es
  {
    if es != [] {
      StepConserves(s, es[0]);
      FindingsConserved(Step(s, es[0]), es[1..]);
    }
  }

  /** A publish that runs alone does what the method does. */
  lemma WholePublish(s: System, p: Pid, f: Finding)
    requires s.ClientOf(p).Idle?
    ensures Runs(s, [Put(p, f), Increment(p)])
    ensures var s' := After(s, [Put(p, f), Increment(p)]);
            s'.q == s.q + [f] && s'.count == s.count + 1 && s'.ClientOf(p).Idle? && s'.outs == s.outs
  {
    assert [Put(p, f), Increment(p)][1..] == [Increment(p)];
    OneStep(Step(s, Put(p, f)), Increment(p));
  }

  lemma OneStep(s: System, e: Event)
    requires Enabled(s, e)
    ensures Runs(s, [e]) && After(s, [e]) == Step(s, e)
  {
    var rest := [e][1..];
    assert rest == [];
    assert Runs(Step(s, e), rest) && After(Step(s, e), rest) == Step(s, e);
  }

  /** The loop of a drain that takes n findings. */
  function Takes(p: Pid, n: nat): seq<Event> {
    if n == 0 then [Test(p)] else [Test(p)] + ([Take(p)] + Takes(p, n - 1))
  }

  lemma {:induction false} DrainLoop(s: System, p: Pid, d: nat)
    requires s.ClientOf(p) == Draining(d) && d < |s.outs|
    ensures Runs(s, Takes(p, |s.q|))
    ensures var s' := After(s, Takes(p, |s.q|));
            && s'.q == [] && s'.outs == s.outs[d := s.outs[d] + s.q]
            && s'.count == s.count && s'.ClientOf(p).Idle?
    decreases |s.q|
  {
    var es := Takes(p, |s.q|);
    if s.q == [] {
      assert es[1..] == [];
      assert s.outs[d] + s.q == s.outs[d];
    } else {
      assert es[1..] == [Take(p)] + Takes(p, |s.q| - 1) && es[1..][1..] == Takes(p, |s.q| - 1);
      var next := Step(Step(s, es[0]), es[1]);
      DrainLoop(next, p, d);
      assert s.outs[d] + [s.q[0]] + s.q[1..] == s.outs[d] + s.q;
      assert Runs(Step(s, es[0]), es[1..]);
    }
  }

  /** A drain that runs alone takes everything queued, in order, as the method does. */
  lemma WholeDrain(s: System, p: Pid)
    requires s.ClientOf(p).Idle?
    ensures var es := [StartDrain(p)] + Takes(p, |s.q|);
            && Runs(s, es)
            && After(s, es).q == [] && After(s, es).outs == s.outs + [s.q]
            && After(s, es).count == s.count && After(s, es).ClientOf(p).Idle?
  {
    var es := [StartDrain(p)] + Takes(p, |s.q|);
    var begun := Step(s, es[0]);
    assert es[1..] == Takes(p, |s.q|);
    DrainLoop(begun, p, |s.outs|);
    assert begun.outs[|s.outs|] + s.q == s.q;
    assert begun.outs[|s.outs| := s.q] == s.outs + [s.q];
  }

  const FRESH_BUS := System([], 0, map[], [], [], [])

  /** ... and so from a fresh bus on: nothing put is lost or handed out twice,
      and the count is exact whenever no publisher is between its two steps. */
  lemma FreshBusConserves(es: seq<Event>)
    requires Runs(FRESH_BUS, es)
    ensures var s := After(FRESH_BUS, es);
            && s.puts == s.taken + s.q
            && multiset(s.puts) == multiset(Flatten(s.outs)) + multiset(s.q)
            && s.count <= |s.puts| && (s.count == |s.puts| <==> s.Between() == {})
  {
    FindingsConserved(FRESH_BUS, es);
  }
}

/** QueueRunner.run: agent classes fanned out over a thread pool. Each worker
    publishes the findings of its result one by one; the main thread collects
    the finished futures in any order. on_done is taken not to raise. */
module QueueRunner {
  import opened ScanBus

  /** What run_one does for an agent class. */
  datatype Behaviour = Returns(summary: string, findings: seq<Finding>) | Raises(error: string)

  datatype AgentClass = AgentClass(name: string, behaviour: Behaviour)

  /** A result as collected: the agent's own, or a FAILED one with its error. */
  datatype Result = Own(summary: string, findings: seq<Finding>) | FailedRun(agent: string, error: string)

  function ResultOf(c: AgentClass): Result {
    match c.behaviour
    case Returns(summary, findings) => Own(summary, findings)
    case Raises(error) => FailedRun(c.name, "QueueRunner caught: " + error)
  }

  /** The findings of a run that did not raise. */
  function FindingsOf(c: AgentClass): seq<Finding> {
    match c.behaviour
    case Returns(summary, findings) => findings
    case Raises(error) => []
  }

  datatype Task =
    | Waiting                              // not submitted, or queued in the pool
    | Running(done: nat, between: bool)    // `done` findings put; the last not yet counted if `between`
    | Finished
    | Collected

  datatype System = System(
    classes: seq<AgentClass>, workers: nat, submitted: nat, tasks: seq<Task>,
    q: seq<Finding>, count: int, collected: seq<nat>, results: seq<Result>, notified: seq<Result>)

  datatype Event =
    | Submit
    | Start(i: nat)
    | Put(i: nat)
    | Count(i: nat)
    | Finish(i: nat)
    | Collect(i: nat)

  function RunningOnes(tasks: seq<Task>): set<int> { set i | 0 <= i < |tasks| && tasks[i].Running? }

  /** How many tasks occupy a worker. */
  function Busy(tasks: seq<Task>): nat { |RunningOnes(tasks)| }

  predicate Enabled(s: System, e: Event)
    requires |s.tasks| == |s.classes|
  {
    match e
    case Submit => s.submitted < |s.classes|
    case Start(i) => i < s.submitted && i < |s.tasks| && s.tasks[i].Waiting? && Busy(s.tasks) < s.workers
    case Put(i) =>
      i < |s.tasks| && s.tasks[i].Running? && !s.tasks[i].between && s.tasks[i].done < |FindingsOf(s.classes[i])|
    case Count(i) => i < |s.tasks| && s.tasks[i].Running? && s.tasks[i].between
    case Finish(i) =>
      i < |s.tasks| && s.tasks[i].Running? && !s.tasks[i].between && s.tasks[i].done == |FindingsOf(s.classes[i])|
    case Collect(i) => s.submitted == |s.classes| && i < |s.tasks| && s.tasks[i].Finished?
  }

  function Step(s: System, e: Event): (s': System)
    requires |s.tasks| == |s.classes| && Enabled(s, e)
    ensures |s'.tasks| == |s'.classes| && s'.classes == s.classes
  {
    match e
    case Submit => s.(submitted := s.submitted + 1)
    case Start(i) => s.(tasks := s.tasks[i := Running(0, false)])
    case Put(i) =>
      var k := s.tasks[i].done;
      s.(q := s.q + [FindingsOf(s.classes[i])[k]], tasks := s.tasks[i := Running(k + 1, true)])
    case Count(i) => s.(count := s.count + 1, tasks := s.tasks[i := Running(s.tasks[i].done, false)])
    case Finish(i) => s.(tasks := s.tasks[i := Finished])
    case Collect(i) =>
      var r := ResultOf(s.classes[i]);
      s.(tasks := s.tasks[i := Collected], collected := s.collected + [i],
         notified := s.notified + [r], results := s.results + [r])
  }

  predicate Runs(s: System, es: seq<Event>)
    requires |s.tasks| == |s.classes|
    decreases es
  {
    es == [] || (Enabled(s, es[0]) && Runs(Step(s, es[0]), es[1..]))
  }

  function After(s: System, es: seq<Event>): (s': System)
    requires |s.tasks| == |s.classes| && Runs(s, es)
    ensures |s'.tasks| == |s'.classes| && s'.classes == s.classes
    decreases es
  {
    if es == [] then s else After(Step(s, es[0]), es[1..])
  }

  /** run() has returned: every future is collected. */
  predicate Returned(s: System) {
    s.submitted == |s.classes| && forall i :: 0 <= i < |s.tasks| ==> s.tasks[i].Collected?
  }

  // ---- Conservation ----

  /** How many findings of class c its task has put. */
  function PutBy(c: AgentClass, t: Task): nat {
    match t
    case Waiting => 0
    case Running(done, between) => done
    case _ => |FindingsOf(c)|
  }

  function PrefixPut(c: AgentClass, t: Task): seq<Finding> {
    if PutBy(c, t) <= |FindingsOf(c)| then FindingsOf(c)[..PutBy(c, t)] else FindingsOf(c)
  }

  function AllPut(classes: seq<AgentClass>, tasks: seq<Task>): seq<seq<Finding>>
    requires |classes| == |tasks|
  {
    seq(|tasks|, i requires 0 <= i < |tasks| => PrefixPut(classes[i], tasks[i]))
  }

  function BetweenSteps(tasks: seq<Task>): nat {
    if tasks == [] then 0
    else (if tasks[0].Running? && tasks[0].between then 1 else 0) + BetweenSteps(tasks[1..])
  }

  lemma {:induction false} BetweenUpdate(tasks: seq<Task>, i: nat, t: Task)
    requires i < |tasks|
    ensures BetweenSteps(tasks[i := t]) == BetweenSteps(tasks)
              - (if tasks[i].Running? && tasks[i].between then 1 else 0)
              + (if t.Running? && t.between then 1 else 0)
  {
    if i == 0 {
      assert tasks[i := t][1..] == tasks[1..];
    } else {
      assert tasks[i := t][1..] == tasks[1..][i - 1 := t];
      BetweenUpdate(tasks[1..], i - 1, t);
    }
  }

  /** Everything about a run in progress on a bus that held q0 and counted c0. */
  ghost predicate Inv(s: System, q0: seq<Finding>, c0: int) {
    && |s.tasks| == |s.classes|
    && InBounds(s)
    && FindingsKept(s, q0, c0)
    && CollectedOnce(s)
    && ResultsMatch(s)
  }

  ghost predicate InBounds(s: System)
    requires |s.tasks| == |s.classes|
  {
    && s.submitted <= |s.classes|
    && (forall i :: 0 <= i < |s.tasks| ==> PutBy(s.classes[i], s.tasks[i]) <= |FindingsOf(s.classes[i])|)
    && (forall i :: s.submitted <= i < |s.tasks| ==> s.tasks[i].Waiting?)
    && (forall i :: 0 <= i < |s.tasks| && s.tasks[i].Collected? ==> s.submitted == |s.classes|)
  }

  ghost predicate FindingsKept(s: System, q0: seq<Finding>, c0: int)
    requires |s.tasks| == |s.classes|
  {
    && multiset(s.q) == multiset(q0) + multiset(Flatten(AllPut(s.classes, s.tasks)))
    && s.count + BetweenSteps(s.tasks) == c0 + |Flatten(AllPut(s.classes, s.tasks))|
  }

  ghost predicate ResultsMatch(s: System) {
    && s.notified == s.results && |s.results| == |s.collected|
    && (forall j :: 0 <= j < |s.collected| ==>
          s.collected[j] < |s.classes| && s.results[j] == ResultOf(s.classes[s.collected[j]]))
  }

  /** The collected list holds exactly the collected tasks, each once. */
  ghost predicate CollectedOnce(s: System) {
    && (forall j :: 0 <= j < |s.collected| ==> s.collected[j] < |s.tasks| && |s.tasks| == |s.classes|)
    && (forall i :: 0 <= i < |s.tasks| ==> (s.tasks[i].Collected? <==> i in s.collected))
    && (forall j, k :: 0 <= j < k < |s.collected| ==> s.collected[j] != s.collected[k])
  }

  lemma SamePut(s: System, s': System)
    requires s'.classes == s.classes && |s.tasks| == |s.classes| && |s'.tasks| == |s.tasks|
    requires forall i :: 0 <= i < |s.tasks| ==> PutBy(s.classes[i], s'.tasks[i]) == PutBy(s.classes[i], s.tasks[i])
    ensures AllPut(s'.classes, s'.tasks) == AllPut(s.classes, s.tasks)
  {
  }

  lemma StepKeepsFindings(s: System, e: Event, q0: seq<Finding>, c0: int)
    requires |s.tasks| == |s.classes| && InBounds(s) && FindingsKept(s, q0, c0) && Enabled(s, e)
    ensures FindingsKept(Step(s, e), q0, c0)
  {
    if e.Put? {
      OneMorePut(s, e);
      BetweenUpdate(s.tasks, e.i, Step(s, e).tasks[e.i]);
    } else {
      NoMorePut(s, e);
    }
  }

  lemma NoMorePut(s: System, e: Event)
    requires |s.tasks| == |s.classes| && InBounds(s) && Enabled(s, e) && !e.Put?
    ensures AllPut(Step(s, e).classes, Step(s, e).tasks) == AllPut(s.classes, s.tasks)
    ensures Step(s, e).q == s.q
    ensures Step(s, e).count + BetweenSteps(Step(s, e).tasks) == s.count + BetweenSteps(s.tasks)
  {
    if !e.Submit? { BetweenUpdate(s.tasks, e.i, Step(s, e).tasks[e.i]); }
    SamePut(s, Step(s, e));
  }

  /** A put adds one finding to the queue and to what its task has put. */
  lemma OneMorePut(s: System, e: Event)
    requires |s.tasks| == |s.classes| && InBounds(s) && Enabled(s, e) && e.Put?
    ensures var f, s' := FindingsOf(s.classes[e.i])[s.tasks[e.i].done], Step(s, e);
            var before, after := AllPut(s.classes, s.tasks), AllPut(s'.classes, s'.tasks);
            && multiset(s'.q) == multiset(s.q) + multiset{f}
            && multiset(Flatten(after)) == multiset(Flatten(before)) + multiset{f}
            && |Flatten(after)| == |Flatten(before)| + 1
  {
    var f, k, s' := FindingsOf(s.classes[e.i]), s.tasks[e.i].done, Step(s, e);
    var before := AllPut(s.classes, s.tasks);
    assert f[..k + 1] == f[..k] + [f[k]];
    assert AllPut(s'.classes, s'.tasks) == before[e.i := before[e.i] + [f[k]]];
    FlattenAppendOne(before, e.i, f[k]);
  }

  lemma StepKeepsCollected(s: System, e: Event)
    requires |s.tasks| == |s.classes| && CollectedOnce(s) && ResultsMatch(s) && Enabled(s, e)
    ensures CollectedOnce(Step(s, e)) && ResultsMatch(Step(s, e))
  {
    var s' := Step(s, e);
    if e.Collect? {
      assert e.i !in s.collected;
      assert forall i :: i in s'.collected <==> i in s.collected || i == e.i;
    }
  }

  lemma StepKeepsBounds(s: System, e: Event)
    requires |s.tasks| == |s.classes| && InBounds(s) && Enabled(s, e)
    ensures InBounds(Step(s, e))
  {
  }

  lemma StepKeepsInv(s: System, e: Event, q0: seq<Finding>, c0: int)
    requires Inv(s, q0, c0) && Enabled(s, e)
    ensures Inv(Step(s, e), q0, c0)
  {
    StepKeepsBounds(s, e);
    StepKeepsFindings(s, e, q0, c0);
    StepKeepsCollected(s, e);
  }

  lemma {:induction false} RunKeepsInv(s: System, es: seq<Event>, q0: seq<Finding>, c0: int)
    requires Inv(s, q0, c0) && Runs(s, es)
    ensures Inv(After(s, es), q0, c0)
    decreases es
  {
    if es != [] {
      StepKeepsInv(s, es[0], q0, c0);
      RunKeepsInv(Step(s, es[0]), es[1..], q0, c0);
    }
  }

  /** run() about to start on a bus holding q0. */
  function Ready(classes: seq<AgentClass>, workers: nat, q0: seq<Finding>, c0: int): System {
    System(classes, workers, 0, seq(|classes|, _ => Waiting), q0, c0, [], [], [])
  }

  lemma {:induction false} NothingPut(classes: seq<AgentClass>, n: nat)
    requires n == |classes|
    ensures Flatten(AllPut(classes, seq(n, _ => Waiting))) == []
    ensures BetweenSteps(seq(n, _ => Waiting)) == 0
  {
    if n > 0 {
      var tasks: seq<Task> := seq(n, _ => Waiting);
      assert tasks[1..] == seq(n - 1, _ => Waiting);
      assert AllPut(classes, tasks)[1..] == AllPut(classes[1..], tasks[1..]);
      NothingPut(classes[1..], n - 1);
    }
  }

  lemma {:induction false} NoneBetween(tasks: seq<Task>)
    requires forall i :: 0 <= i < |tasks| ==> tasks[i].Collected?
    ensures BetweenSteps(tasks) == 0
  {
    if tasks != [] { NoneBetween(tasks[1..]); }
  }

  function AllFindings(classes: seq<AgentClass>): seq<seq<Finding>> {
    seq(|classes|, i requires 0 <= i < |classes| => FindingsOf(classes[i]))
  }

  /** Once run() has returned, whatever the schedule: every class was collected
      exactly once, its own result (or its failure) was passed to on_done and
      returned, and the bus gained exactly the findings of the runs that did not
      raise - which is what the next drain returns. `found` lists what each
      class found: all it returned, or nothing if it raised. */
  lemma RunCollectsEverything(classes: seq<AgentClass>, workers: nat, q0: seq<Finding>, c0: int, es: seq<Event>)
    returns (found: seq<seq<Finding>>)
    requires Runs(Ready(classes, workers, q0, c0), es)
    requires Returned(After(Ready(classes, workers, q0, c0), es))
    ensures var s := After(Ready(classes, workers, q0, c0), es);
            && |s.results| == |s.collected| && s.notified == s.results
            && (forall i :: 0 <= i < |classes| ==> i in s.collected)
            && (forall j, k :: 0 <= j < k < |s.collected| ==> s.collected[j] != s.collected[k])
            && (forall j :: 0 <= j < |s.collected| ==> s.collected[j] < |classes|)
            && (forall j :: 0 <= j < |s.collected| ==>
                  var c := classes[s.collected[j]];
                  s.results[j] == match c.behaviour
                                  case Returns(summary, findings) => Own(summary, findings)
                                  case Raises(error) => FailedRun(c.name, "QueueRunner caught: " + error))
            && multiset(s.q) == multiset(q0) + multiset(Flatten(found))
            && s.count == c0 + |Flatten(found)|
    ensures |found| == |classes|
    ensures forall i :: 0 <= i < |classes| ==>
              && (classes[i].behaviour.Returns? ==> found[i] == classes[i].behaviour.findings)
              && (classes[i].behaviour.Raises? ==> found[i] == [])
  {
    found := AllFindings(classes);
    var s0 := Ready(classes, workers, q0, c0);
    ReadyInv(classes, workers, q0, c0);
    RunKeepsInv(s0, es, q0, c0);
    AllCollected(After(s0, es), q0, c0);
  }

  lemma ReadyInv(classes: seq<AgentClass>, workers: nat, q0: seq<Finding>, c0: int)
    ensures Inv(Ready(classes, workers, q0, c0), q0, c0)
  {
    NothingPut(classes, |classes|);
  }

  lemma AllCollected(s: System, q0: seq<Finding>, c0: int)
    requires Inv(s, q0, c0) && Returned(s)
    ensures multiset(s.q) == multiset(q0) + multiset(Flatten(AllFindings(s.classes)))
    ensures s.count == c0 + |Flatten(AllFindings(s.classes))|
  {
    NoneBetween(s.tasks);
    var put, found := AllPut(s.classes, s.tasks), AllFindings(s.classes);
    forall i | 0 <= i < |s.classes| ensures put[i] == found[i] {
      assert FindingsOf(s.classes[i])[..|FindingsOf(s.classes[i])|] == FindingsOf(s.classes[i]);
    }
    assert put == found;
  }

  // ---- The pool ----

  lemma BusyUpdate(tasks: seq<Task>, i: nat, t: Task)
    requires i < |tasks|
    ensures Busy(tasks[i := t]) ==
              Busy(tasks) - (if tasks[i].Running? then 1 else 0) + (if t.Running? then 1 else 0)
  {
    var others := RunningOnes(tasks) - {i};
    assert RunningOnes(tasks) == others + if tasks[i].Running? then {i} else {};
    assert RunningOnes(tasks[i := t]) == others + if t.Running? then {i} else {};
  }

  lemma {:induction false} StepsKeepBusy(s: System, es: seq<Event>)
    requires |s.tasks| == |s.classes| && Runs(s, es) && Busy(s.tasks) <= s.workers
    ensures Busy(After(s, es).tasks) <= s.workers && After(s, es).workers == s.workers
    decreases es
  {
    if es != [] {
      if !es[0].Submit? { BusyUpdate(s.tasks, es[0].i, Step(s, es[0]).tasks[es[0].i]); }
      StepsKeepBusy(Step(s, es[0]), es[1..]);
    }
  }

  /** At no moment of any run do more agents run than the pool has workers. */
  lemma PoolBoundsRunning(classes: seq<AgentClass>, workers: nat, q0: seq<Finding>, c0: int, es: seq<Event>)
    requires Runs(Ready(classes, workers, q0, c0), es)
    ensures var tasks := After(Ready(classes, workers, q0, c0), es).tasks;
            |set i | 0 <= i < |tasks| && tasks[i].Running?| <= workers
  {
    assert RunningOnes(Ready(classes, workers, q0, c0).tasks) == {};
    StepsKeepBusy(Ready(classes, workers, q0, c0), es);
  }

  // ---- Progress ----

  /** Steps a task still has to take, its collection included. */
  function Remaining(c: AgentClass, t: Task): nat {
    match t
    case Waiting => 2 * |FindingsOf(c)| + 3
    case Running(done, between) =>
      if done <= |FindingsOf(c)| then 2 * (|FindingsOf(c)| - done) + (if between then 1 else 0) + 2 else 0
    case Finished => 1
    case Collected => 0
  }

  function Work(classes: seq<AgentClass>, tasks: seq<Task>): nat
    requires |classes| == |tasks|
  {
    if tasks == [] then 0 else Remaining(classes[0], tasks[0]) + Work(classes[1..], tasks[1..])
  }

  function Left(s: System): int
    requires |s.tasks| == |s.classes|
  {
    |s.classes| - s.submitted + Work(s.classes, s.tasks)
  }

  lemma {:induction false} WorkUpdate(classes: seq<AgentClass>, tasks: seq<Task>, i: nat, t: Task)
    requires |classes| == |tasks| && i < |tasks|
    ensures Work(classes, tasks[i := t]) ==
              Work(classes, tasks) - Remaining(classes[i], tasks[i]) + Remaining(classes[i], t)
  {
    if i == 0 {
      assert tasks[i := t][1..] == tasks[1..];
    } else {
      assert tasks[i := t][1..] == tasks[1..][i - 1 := t];
      WorkUpdate(classes[1..], tasks[1..], i - 1, t);
    }
  }

  lemma IdleOrRunning(tasks: seq<Task>)
    ensures Busy(tasks) > 0 ==> exists i :: 0 <= i < |tasks| && tasks[i].Running?
    ensures Busy(tasks) == 0 ==> forall i :: 0 <= i < |tasks| ==> !tasks[i].Running?
  {
    if Busy(tasks) > 0 {
      var i :| i in RunningOnes(tasks);
    } else {
      forall i | 0 <= i < |tasks| ensures !tasks[i].Running? { assert i !in RunningOnes(tasks); }
    }
  }

  /** Every step brings the return of run() one step nearer ... */
  lemma EveryStepCounts(s: System, e: Event)
    requires |s.tasks| == |s.classes| && InBounds(s) && Enabled(s, e)
    ensures Left(Step(s, e)) == Left(s) - 1 && Left(s) >= 0
  {
    if !e.Submit? { WorkUpdate(s.classes, s.tasks, e.i, Step(s, e).tasks[e.i]); }
  }

  /** ... and until it returns some step is possible, as the pool has at least
      one worker: so run() always returns. */
  lemma NeverStuck(s: System)
    requires |s.tasks| == |s.classes| && InBounds(s) && s.workers >= 1
    ensures Returned(s) || exists e :: Enabled(s, e)
  {
    if s.submitted < |s.classes| {
      assert Enabled(s, Submit);
    } else if !Returned(s) {
      IdleOrRunning(s.tasks);
      if Busy(s.tasks) > 0 {
        var i :| 0 <= i < |s.tasks| && s.tasks[i].Running?;
        assert Enabled(s, Put(i)) || Enabled(s, Count(i)) || Enabled(s, Finish(i));
      } else {
        var i :| 0 <= i < |s.tasks| && !s.tasks[i].Collected?;
        assert Enabled(s, Start(i)) || Enabled(s, Collect(i));
      }
    }
  }

  lemma {:induction false} WorkDone(classes: seq<AgentClass>, tasks: seq<Task>)
    requires |classes| == |tasks|
    requires forall i :: 0 <= i < |tasks| ==> PutBy(classes[i], tasks[i]) <= |FindingsOf(classes[i])|
    ensures Work(classes, tasks) == 0 <==> forall i :: 0 <= i < |tasks| ==> tasks[i].Collected?
  {
    if tasks != [] {
      forall i | 0 <= i < |tasks[1..]|
        ensures PutBy(classes[1..][i], tasks[1..][i]) <= |FindingsOf(classes[1..][i])|
      {
        assert tasks[1..][i] == tasks[i + 1] && classes[1..][i] == classes[i + 1];
      }
      WorkDone(classes[1..], tasks[1..]);
      assert forall i :: 1 <= i < |tasks| ==> tasks[i] == tasks[1..][i - 1];
    }
  }

  lemma {:induction false} StepsCountDown(s: System, es: seq<Event>)
    requires |s.tasks| == |s.classes| && InBounds(s) && Runs(s, es)
    ensures InBounds(After(s, es)) && Left(After(s, es)) == Left(s) - |es| && After(s, es).workers == s.workers
    ensures Left(After(s, es)) >= 0
    decreases es
  {
    if es == [] {
    } else {
      EveryStepCounts(s, es[0]);
      StepKeepsBounds(s, es[0]);
      StepsCountDown(Step(s, es[0]), es[1..]);
    }
  }

  /** run() always returns: whatever the schedule, it has returned after exactly
      the same number of steps, never later, and before that it can go on. */
  lemma RunAlwaysReturns(classes: seq<AgentClass>, workers: nat, q0: seq<Finding>, c0: int, es: seq<Event>)
    requires workers >= 1 && Runs(Ready(classes, workers, q0, c0), es)
    ensures var s0, s := Ready(classes, workers, q0, c0), After(Ready(classes, workers, q0, c0), es);
            && |es| <= Left(s0)
            && (Returned(s) <==> |es| == Left(s0))
            && (Returned(s) <==> !exists e :: Enabled(s, e))
  {
    var s0, s := Ready(classes, workers, q0, c0), After(Ready(classes, workers, q0, c0), es);
    ReadyInv(classes, workers, q0, c0);
    StepsCountDown(s0, es);
    WorkDone(s.classes, s.tasks);
    NeverStuck(s);
    if e :| Enabled(s, e) {
      EveryStepCounts(s, e);
      StepKeepsBounds(s, e);
    }
  }
}
