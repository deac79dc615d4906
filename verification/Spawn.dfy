/** The tap-to-spawn gate (patchi/web/spawn.py). Every call of time.time() is
    its own reading of a non-decreasing clock; a loop over the ants takes one
    for each ant. */
module Spawn {
  import opened Common

  const MAX_USER_ANTS: nat := 5
  const NODE_COOLDOWN_S: real := 10.0
  const ANT_EXPIRY_S: real := 60.0
  const MAX_ANTS_ON_NODE: nat := 3

  type AntId = string
  type Node = string

  datatype Ant = Ant(node: Node, spawnedAt: real, done: bool)

  type Ants = map<AntId, Ant>

  datatype Answer = Spawned(id: AntId) | Idle | Restricted | Cooldown | Capacity | NodeBusy

  /** One clock reading for each ant of a loop over the ants. */
  type PerAnt = AntId -> real

  /** All readings of a loop are taken in this interval. */
  ghost predicate Within(from: real, now: PerAnt, to: real) {
    from <= to && forall id :: from <= now(id) <= to
  }

  /** The clock readings of one try_spawn: when it begins, in _expire_ants,
      _on_cooldown, _live_ants, the new ant's timestamp and the tap. */
  datatype Readings = Readings(begin: real, expire: PerAnt, cooldown: real, live: PerAnt, spawn: real, tap: real) {
    ghost predicate Ordered() {
      Within(begin, expire, cooldown) && Within(cooldown, live, spawn) && spawn <= tap
    }
  }

  predicate IsExpired(a: Ant, now: real) { now - a.spawnedAt > ANT_EXPIRY_S }

  /** The ants that are live at one moment. */
  function LiveAnts(ants: Ants, now: real): Ants {
    map id | id in ants && !ants[id].done && !IsExpired(ants[id], now) :: ants[id]
  }

  /** What _live_ants collects, looking at one ant after the other. */
  function Collected(ants: Ants, now: PerAnt): Ants {
    map id | id in ants && !ants[id].done && !IsExpired(ants[id], now(id)) :: ants[id]
  }

  function CollectedOn(ants: Ants, now: PerAnt, node: Node): set<AntId> {
    set id | id in Collected(ants, now) && ants[id].node == node
  }

  function LiveOn(ants: Ants, now: real, node: Node): set<AntId> {
    set id | id in LiveAnts(ants, now) && ants[id].node == node
  }

  function Unexpired(ants: Ants, now: PerAnt): Ants {
    map id | id in ants && !IsExpired(ants[id], now(id)) :: ants[id]
  }

  function LastTap(taps: map<Node, real>, node: Node): real { if node in taps then taps[node] else 0.0 }

  datatype Gate = Gate(ants: Ants, taps: map<Node, real>, active: bool)

  /** What try_spawn answers, given the gate, the restriction lookup and a uuid. */
  function Verdict(g: Gate, node: Node, restricted: bool, r: Readings, id: AntId): Answer {
    var ants := Unexpired(g.ants, r.expire);
    if !g.active then Idle
    else if restricted then Restricted
    else if r.cooldown - LastTap(g.taps, node) < NODE_COOLDOWN_S then Cooldown
    else if |Collected(ants, r.live)| >= MAX_USER_ANTS then Capacity
    else if |CollectedOn(ants, r.live, node)| >= MAX_ANTS_ON_NODE then NodeBusy
    else Spawned(id)
  }

  function Tapped(g: Gate, node: Node, restricted: bool, r: Readings, id: AntId): Gate {
    var g' := g.(ants := Unexpired(g.ants, r.expire));
    if Verdict(g, node, restricted, r, id).Spawned?
    then g'.(ants := g'.ants[id := Ant(node, r.spawn, false)], taps := g.taps[node := r.tap])
    else g'
  }

  function MarkedDone(g: Gate, id: AntId): Gate {
    if id in g.ants then g.(ants := g.ants[id := g.ants[id].(done := true)]) else g
  }

  class SpawnManager {
    var ants: Ants
    var taps: map<Node, real>
    var isActive: bool

    function Contents(): Gate
      reads this
    {
      Gate(ants, taps, isActive)
    }

    constructor ()
      ensures Contents() == Gate(map[], map[], false)
    {
      ants, taps, isActive := map[], map[], false;
    }

    method SetActive(active: bool)
      modifies this
      ensures Contents() == old(Contents()).(active := active)
    {
      isActive := active;
    }

    method MarkDone(id: AntId)
      modifies this`ants
      ensures Contents() == MarkedDone(old(Contents()), id)
      ensures ants.Keys == old(ants).Keys
      ensures id in ants ==> ants[id] == old(ants)[id].(done := true)
      ensures forall a :: a in ants && a != id ==> ants[a] == old(ants)[a]
    {
      if id in ants {
        ants := ants[id := ants[id].(done := true)];
      }
    }

    method ExpireAnts(now: PerAnt)
      modifies this`ants
      ensures ants == Unexpired(old(ants), now)
    {
      var expired := set id | id in ants && IsExpired(ants[id], now(id));
      ghost var all := expired;
      while expired != {}
        invariant expired <= all
        invariant ants == old(ants) - (all - expired)
      {
        var id :| id in expired;
        expired := expired - {id};
        ants := ants - {id};
      }
      assert ants == Unexpired(old(ants), now);
    }

    /** Besides the expired ants, which go, a refusal changes nothing, and a
        spawn only adds the new ant and its tap. */
    method TrySpawn(node: Node, restricted: bool, r: Readings, id: AntId) returns (answer: Answer)
      modifies this`ants, this`taps
      ensures answer == Verdict(old(Contents()), node, restricted, r, id)
      ensures Contents() == Tapped(old(Contents()), node, restricted, r, id)
      ensures forall a :: a != id || !answer.Spawned? ==>
                (a in ants <==> a in old(ants) && !IsExpired(old(ants)[a], r.expire(a))) &&
                (a in ants ==> ants[a] == old(ants)[a])
      ensures answer.Spawned? ==> answer.id == id && id in ants && ants[id] == Ant(node, r.spawn, false)
      ensures taps == if answer.Spawned? then old(taps)[node := r.tap] else old(taps)
    {
      ExpireAnts(r.expire);
      if !isActive {
        return Idle;
      }
      if restricted {
        return Restricted;
      }
      if r.cooldown - LastTap(taps, node) < NODE_COOLDOWN_S {
        return Cooldown;
      }
      var live := Collected(ants, r.live);
      if |live| >= MAX_USER_ANTS {
        return Capacity;
      }
      var onNode := set a | a in live && live[a].node == node;
      assert onNode == CollectedOn(ants, r.live, node);
      if |onNode| >= MAX_ANTS_ON_NODE {
        return NodeBusy;
      }
      ants := ants[id := Ant(node, r.spawn, false)];
      taps := taps[node := r.tap];
      return Spawned(id);
    }

    /** The count lies between the numbers of live ants when it ends and when it begins. */
    method ActiveCount(ghost from: real, expire: PerAnt, live: PerAnt, ghost to: real) returns (n: nat)
      requires Within(from, expire, to) && Within(from, live, to)
      requires forall id :: expire(id) <= live(id)
      modifies this`ants
      ensures ants == Unexpired(old(ants), expire)
      ensures n == |Collected(old(ants), live)|
      ensures |LiveAnts(old(ants), to)| <= n <= |LiveAnts(old(ants), from)|
    {
      ghost var before := ants;
      ExpireAnts(expire);
      var found := Collected(ants, live);
      assert found == Collected(before, live);
      CollectedBetween(before, from, live, to);
      n := |found|;
    }
  }

  /** What a loop collects was live when it began, and misses none that is live
      when it ends. */
  lemma CollectedBetween(ants: Ants, from: real, now: PerAnt, to: real)
    requires Within(from, now, to)
    ensures LiveAnts(ants, to).Keys <= Collected(ants, now).Keys <= LiveAnts(ants, from).Keys
    ensures |LiveAnts(ants, to)| <= |Collected(ants, now)| <= |LiveAnts(ants, from)|
    ensures forall node :: LiveOn(ants, to, node) <= CollectedOn(ants, now, node) <= LiveOn(ants, from, node)
    ensures forall node :: |CollectedOn(ants, now, node)| <= |LiveOn(ants, from, node)|
  {
    SubsetSize(LiveAnts(ants, to).Keys, Collected(ants, now).Keys);
    SubsetSize(Collected(ants, now).Keys, LiveAnts(ants, from).Keys);
    forall node ensures |CollectedOn(ants, now, node)| <= |LiveOn(ants, from, node)| {
      SubsetSize(CollectedOn(ants, now, node), LiveOn(ants, from, node));
    }
  }

  // ---- Traces ----

  datatype Event =
    | Tap(node: Node, restricted: bool, r: Readings, id: AntId)
    | Complete(id: AntId)
    | Activate(active: bool)
    | Query(expire: PerAnt, now: real)   // active_count or all_active, ending at `now`
    | Pass(now: real)                    // time goes by

  datatype SpawnRecord = SpawnRecord(node: Node, time: real, tap: real)

  /** The gate, the clock, and the history of successful spawns. */
  datatype State = State(gate: Gate, clock: real, spawns: seq<SpawnRecord>)

  ghost predicate Enabled(s: State, e: Event) {
    match e
    case Tap(node, restricted, r, id) => s.clock <= r.begin && r.Ordered()
    case Query(expire, now) => Within(s.clock, expire, now)
    case Pass(now) => s.clock <= now
    case _ => true
  }

  ghost function Step(s: State, e: Event): State
    requires Enabled(s, e)
  {
    match e
    case Tap(node, restricted, r, id) =>
      State(Tapped(s.gate, node, restricted, r, id), r.tap,
            if Verdict(s.gate, node, restricted, r, id).Spawned?
            then s.spawns + [SpawnRecord(node, r.spawn, r.tap)] else s.spawns)
    case Complete(id) => s.(gate := MarkedDone(s.gate, id))
    case Activate(active) => s.(gate := s.gate.(active := active))
    case Query(expire, now) => s.(gate := s.gate.(ants := Unexpired(s.gate.ants, expire)), clock := now)
    case Pass(now) => s.(clock := now)
  }

  ghost predicate Runs(s: State, es: seq<Event>)
    decreases es
  {
    es == [] || (Enabled(s, es[0]) && Runs(Step(s, es[0]), es[1..]))
  }

  ghost function After(s: State, es: seq<Event>): State
    requires Runs(s, es)
    decreases es
  {
    if es == [] then s else After(Step(s, es[0]), es[1..])
  }

  /** What the other events do: a completion marks its ant done and a query drops
      the expired ants, as the methods do; set_active sets the flag; and none of
      them touches anything else. */
  lemma OtherEvents(s: State, e: Event)
    requires Enabled(s, e) && !e.Tap?
    ensures var g, g' := s.gate, Step(s, e).gate;
            && g'.taps == g.taps && Step(s, e).spawns == s.spawns
            && g'.active == (if e.Activate? then e.active else g.active)
            && (e.Complete? ==>
                  && g'.ants.Keys == g.ants.Keys
                  && forall a :: a in g.ants ==>
                       g'.ants[a] == if a == e.id then g.ants[a].(done := true) else g.ants[a])
            && (e.Query? ==>
                  forall a ::
                    && (a in g'.ants <==> a in g.ants && e.expire(a) - g.ants[a].spawnedAt <= 60.0)
                    && (a in g'.ants ==> g'.ants[a] == g.ants[a]))
            && (e.Activate? || e.Pass? ==> g'.ants == g.ants)
            && Step(s, e).clock == if e.Query? || e.Pass? then e.now else s.clock
  {
  }

  ghost predicate WithinCaps(ants: Ants, now: real) {
    && |LiveAnts(ants, now)| <= MAX_USER_ANTS
    && forall node :: |LiveOn(ants, now, node)| <= MAX_ANTS_ON_NODE
  }

  /** Both caps hold now and for as long as nothing but time happens. */
  ghost predicate Capped(s: State) {
    forall t: real :: s.clock <= t ==> WithinCaps(s.gate.ants, t)
  }

  /** Spawns on one node are a cooldown apart, and the recorded tap is the latest. */
  ghost predicate Spaced(s: State) {
    && (forall i :: 0 <= i < |s.spawns| ==>
          s.spawns[i].time <= s.spawns[i].tap <= LastTap(s.gate.taps, s.spawns[i].node))
    && (forall i, j :: 0 <= i < j < |s.spawns| && s.spawns[i].node == s.spawns[j].node ==>
          s.spawns[j].time - s.spawns[i].time >= NODE_COOLDOWN_S)
    && (forall i :: 0 <= i < |s.spawns| ==> s.spawns[i].node in s.gate.taps)
    && (forall n :: n in s.gate.taps ==> s.gate.taps[n] <= s.clock)
  }

  /** Every tap on record is the tap of a successful spawn. */
  ghost predicate TapsRecorded(s: State) {
    forall n :: n in s.gate.taps ==> RecordedTap(s.spawns, n, s.gate.taps[n])
  }

  ghost predicate RecordedTap(spawns: seq<SpawnRecord>, n: Node, tap: real) {
    exists i :: 0 <= i < |spawns| && spawns[i].node == n && spawns[i].tap == tap
  }

  /** Caps carry over to ants that are a subset at a later time. */
  lemma FewerAnts(ants: Ants, now: real, more: Ants, before: real)
    requires WithinCaps(more, before)
    requires forall id :: id in LiveAnts(ants, now) ==> id in LiveAnts(more, before) && ants[id].node == more[id].node
    ensures WithinCaps(ants, now)
  {
    SubsetSize(LiveAnts(ants, now).Keys, LiveAnts(more, before).Keys);
    forall node ensures |LiveOn(ants, now, node)| <= MAX_ANTS_ON_NODE {
      SubsetSize(LiveOn(ants, now, node), LiveOn(more, before, node));
    }
  }

  /** After a spawn, a live ant is the new one or was collected by the check. */
  lemma LiveAfterSpawn(g: Gate, node: Node, r: Readings, id: AntId, t: real)
    requires r.Ordered() && r.tap <= t && Verdict(g, node, false, r, id).Spawned?
    ensures var kept, ants := Unexpired(g.ants, r.expire), Tapped(g, node, false, r, id).ants;
            && LiveAnts(ants, t).Keys <= Collected(kept, r.live).Keys + {id}
            && LiveOn(ants, t, node) <= CollectedOn(kept, r.live, node) + {id}
            && forall n :: n != node ==> LiveOn(ants, t, n) <= LiveOn(g.ants, t, n)
  {
    var kept := Unexpired(g.ants, r.expire);
    CollectedBetween(kept, r.cooldown, r.live, r.spawn);
  }

  lemma SpawnKeepsCaps(g: Gate, node: Node, r: Readings, id: AntId, t: real)
    requires r.Ordered() && r.tap <= t
    requires Verdict(g, node, false, r, id).Spawned?
    requires WithinCaps(g.ants, t)
    ensures WithinCaps(Tapped(g, node, false, r, id).ants, t)
  {
    var kept, ants := Unexpired(g.ants, r.expire), Tapped(g, node, false, r, id).ants;
    LiveAfterSpawn(g, node, r, id, t);
    OneMore(LiveAnts(ants, t).Keys, Collected(kept, r.live).Keys, id);
    forall n ensures |LiveOn(ants, t, n)| <= MAX_ANTS_ON_NODE {
      if n == node {
        OneMore(LiveOn(ants, t, n), CollectedOn(kept, r.live, node), id);
      } else {
        SubsetSize(LiveOn(ants, t, n), LiveOn(g.ants, t, n));
      }
    }
  }

  lemma OneMore(a: set<AntId>, b: set<AntId>, id: AntId)
    requires a <= b + {id}
    ensures |a| <= |b| + 1
  {
    SubsetSize(a, b + {id});
  }

  lemma StepKeepsCaps(s: State, e: Event)
    requires Capped(s) && Enabled(s, e)
    ensures Capped(Step(s, e))
  {
    var s' := Step(s, e);
    forall t: real | s'.clock <= t ensures WithinCaps(s'.gate.ants, t) {
      assert WithinCaps(s.gate.ants, t);
      if e.Tap? && Verdict(s.gate, e.node, e.restricted, e.r, e.id).Spawned? {
        SpawnKeepsCaps(s.gate, e.node, e.r, e.id, t);
      } else {
        FewerAnts(s'.gate.ants, t, s.gate.ants, t);
      }
    }
  }

  lemma StepKeepsSpacing(s: State, e: Event)
    requires Spaced(s) && Enabled(s, e)
    ensures Spaced(Step(s, e))
  {
  }

  lemma StepKeepsTaps(s: State, e: Event)
    requires TapsRecorded(s) && Enabled(s, e)
    ensures TapsRecorded(Step(s, e))
  {
    var s' := Step(s, e);
    forall n | n in s'.gate.taps ensures RecordedTap(s'.spawns, n, s'.gate.taps[n]) {
      if |s'.spawns| > |s.spawns| && n == e.node {
        assert s'.spawns[|s.spawns|] == SpawnRecord(n, e.r.spawn, e.r.tap);
      } else {
        assert RecordedTap(s.spawns, n, s.gate.taps[n]);
        var i :| 0 <= i < |s.spawns| && s.spawns[i].node == n && s.spawns[i].tap == s.gate.taps[n];
        assert s'.spawns[i] == s.spawns[i];
      }
    }
  }

  lemma {:induction false} RunKeepsAll(s: State, es: seq<Event>)
    requires Capped(s) && Spaced(s) && TapsRecorded(s) && Runs(s, es)
    ensures Capped(After(s, es)) && Spaced(After(s, es)) && TapsRecorded(After(s, es))
    decreases es
  {
    if es != [] {
      StepKeepsCaps(s, es[0]);
      StepKeepsSpacing(s, es[0]);
      StepKeepsTaps(s, es[0]);
      RunKeepsAll(Step(s, es[0]), es[1..]);
    }
  }

  function Start(now: real): State { State(Gate(map[], map[], false), now, []) }

  lemma StartIsGood(now: real)
    ensures Capped(Start(now)) && Spaced(Start(now)) && TapsRecorded(Start(now))
  {
    forall t: real ensures WithinCaps(map[], t) {
      assert LiveAnts(map[], t) == map[];
      forall node ensures LiveOn(map[], t, node) == {} {}
    }
  }

  /** Over every trace: at the end of it and at any later time before the next
      event, at most 5 ants are live, and at most 3 on any one node. */
  lemma CapsAlwaysHold(now: real, es: seq<Event>, t: real, node: Node)
    requires Runs(Start(now), es) && After(Start(now), es).clock <= t
    ensures var ants := After(Start(now), es).gate.ants;
            var live := set a | a in ants && !ants[a].done && t - ants[a].spawnedAt <= 60.0;
            |live| <= 5 && |set a | a in live && ants[a].node == node| <= 3
  {
    StartIsGood(now);
    RunKeepsAll(Start(now), es);
    var ants := After(Start(now), es).gate.ants;
    assert WithinCaps(ants, t);
    var live := set a | a in ants && !ants[a].done && t - ants[a].spawnedAt <= 60.0;
    assert LiveAnts(ants, t).Keys == live;
    assert LiveOn(ants, t, node) == set a | a in live && ants[a].node == node;
  }

  // ---- Windows ----

  /** Times of the spawns on a node inside the closed window [from, from + width]. */
  function InWindow(spawns: seq<SpawnRecord>, node: Node, from: real, width: real): seq<real> {
    if spawns == [] then []
    else
      var rest := InWindow(spawns[..|spawns| - 1], node, from, width);
      var last := spawns[|spawns| - 1];
      if last.node == node && from <= last.time <= from + width then rest + [last.time] else rest
  }

  ghost predicate Apart(spawns: seq<SpawnRecord>) {
    forall i, j :: 0 <= i < j < |spawns| && spawns[i].node == spawns[j].node ==>
      spawns[j].time - spawns[i].time >= NODE_COOLDOWN_S
  }

  ghost predicate Gaps(ts: seq<real>) {
    forall i, j :: 0 <= i && j == i + 1 < |ts| ==> ts[j] - ts[i] >= NODE_COOLDOWN_S
  }

  ghost predicate SpawnedAt(spawns: seq<SpawnRecord>, node: Node, time: real) {
    exists i :: 0 <= i < |spawns| && spawns[i].node == node && spawns[i].time == time
  }

  lemma {:induction false} WindowGaps(spawns: seq<SpawnRecord>, node: Node, from: real, width: real)
    requires Apart(spawns)
    ensures Gaps(InWindow(spawns, node, from, width))
    ensures forall t :: t in InWindow(spawns, node, from, width) ==>
              from <= t <= from + width && SpawnedAt(spawns, node, t)
  {
    if spawns != [] {
      var n := |spawns| - 1;
      var front := spawns[..n];
      WindowGaps(front, node, from, width);
      var rest := InWindow(front, node, from, width);
      forall t | t in rest
        ensures SpawnedAt(spawns, node, t)
        ensures spawns[n].node == node ==> spawns[n].time - t >= NODE_COOLDOWN_S
      {
        var i :| 0 <= i < |front| && front[i].node == node && front[i].time == t;
        assert spawns[i] == front[i];
      }
      assert spawns[n].node == node ==> SpawnedAt(spawns, node, spawns[n].time);
      var ts := InWindow(spawns, node, from, width);
      forall i, j | 0 <= i && j == i + 1 < |ts| ensures ts[j] - ts[i] >= NODE_COOLDOWN_S {
        if j < |rest| {
          assert ts[j] == rest[j] && ts[i] == rest[i];
        } else {
          assert ts[i] == rest[i] && rest[i] in rest;
        }
      }
    }
  }

  lemma {:induction false} GapsAddUp(ts: seq<real>, k: nat)
    requires Gaps(ts) && k < |ts|
    ensures ts[k] - ts[0] >= NODE_COOLDOWN_S * k as real
  {
    if k > 0 {
      GapsAddUp(ts, k - 1);
      assert ts[k] - ts[k - 1] >= NODE_COOLDOWN_S;
    }
  }

  /** Numbers of the spawns on a node in the window. */
  function Hits(spawns: seq<SpawnRecord>, node: Node, from: real, width: real): set<int> {
    set i | 0 <= i < |spawns| && spawns[i].node == node && from <= spawns[i].time <= from + width
  }

  lemma HitsSnoc(spawns: seq<SpawnRecord>, last: SpawnRecord, node: Node, from: real, width: real)
    ensures Hits(spawns + [last], node, from, width) ==
              Hits(spawns, node, from, width) +
              (if last.node == node && from <= last.time <= from + width then {|spawns|} else {})
  {
    var all := spawns + [last];
    assert forall i :: 0 <= i < |spawns| ==> all[i] == spawns[i];
  }

  lemma {:induction false} WindowSize(spawns: seq<SpawnRecord>, node: Node, from: real, width: real)
    ensures |InWindow(spawns, node, from, width)| == |Hits(spawns, node, from, width)|
  {
    if spawns != [] {
      var n := |spawns| - 1;
      WindowSize(spawns[..n], node, from, width);
      HitsSnoc(spawns[..n], spawns[n], node, from, width);
      assert spawns[..n] + [spawns[n]] == spawns;
    }
  }

  /** Successful spawns on a node are at least 10 s apart over every trace, so a
      closed window of w seconds holds at most floor(w / 10) + 1 of them. */
  lemma SpawnRateLimited(now: real, es: seq<Event>, node: Node, from: real, width: real)
    requires Runs(Start(now), es) && width >= 0.0
    ensures var spawns := After(Start(now), es).spawns;
            && (forall i, j :: 0 <= i < j < |spawns| && spawns[i].node == spawns[j].node ==>
                  spawns[j].time - spawns[i].time >= 10.0)
            && |set i | 0 <= i < |spawns| && spawns[i].node == node && from <= spawns[i].time <= from + width|
               <= (width / 10.0).Floor + 1
  {
    StartIsGood(now);
    RunKeepsAll(Start(now), es);
    WindowHits(After(Start(now), es).spawns, node, from, width);
  }

  lemma WindowHits(spawns: seq<SpawnRecord>, node: Node, from: real, width: real)
    requires Apart(spawns) && width >= 0.0
    ensures |set i | 0 <= i < |spawns| && spawns[i].node == node && from <= spawns[i].time <= from + width|
            <= (width / 10.0).Floor + 1
  {
    WindowBound(spawns, node, from, width);
    WindowSize(spawns, node, from, width);
    assert Hits(spawns, node, from, width) ==
           set i | 0 <= i < |spawns| && spawns[i].node == node && from <= spawns[i].time <= from + width;
  }

  /** Every ant there is, over every trace, is one of these spawns. */
  lemma AntsAreSpawns(now: real, es: seq<Event>, a: AntId)
    requires Runs(Start(now), es) && a in After(Start(now), es).gate.ants
    ensures var s, ant := After(Start(now), es), After(Start(now), es).gate.ants[a];
            exists i :: 0 <= i < |s.spawns| && s.spawns[i].node == ant.node && s.spawns[i].time == ant.spawnedAt
  {
    RunKeepsAnts(Start(now), es);
    var s, ant := After(Start(now), es), After(Start(now), es).gate.ants[a];
    assert SpawnedAt(s.spawns, ant.node, ant.spawnedAt);
  }

  lemma WindowBound(spawns: seq<SpawnRecord>, node: Node, from: real, width: real)
    requires Apart(spawns) && width >= 0.0
    ensures |InWindow(spawns, node, from, width)| <= (width / NODE_COOLDOWN_S).Floor + 1
  {
    var ts := InWindow(spawns, node, from, width);
    WindowGaps(spawns, node, from, width);
    if ts != [] {
      var k := |ts| - 1;
      GapsAddUp(ts, k);
      assert ts[0] in ts && ts[k] in ts;
      assert NODE_COOLDOWN_S * k as real <= width;
      assert k as real <= width / NODE_COOLDOWN_S;
    }
  }

  /** Every ant is on record as a spawn on its node at its time. */
  ghost predicate AntsRecorded(s: State) {
    forall a :: a in s.gate.ants ==> SpawnedAt(s.spawns, s.gate.ants[a].node, s.gate.ants[a].spawnedAt)
  }

  lemma StepKeepsAnts(s: State, e: Event)
    requires AntsRecorded(s) && Enabled(s, e)
    ensures AntsRecorded(Step(s, e))
  {
    var s' := Step(s, e);
    forall a | a in s'.gate.ants ensures SpawnedAt(s'.spawns, s'.gate.ants[a].node, s'.gate.ants[a].spawnedAt) {
      if e.Tap? && |s'.spawns| > |s.spawns| && a == e.id {
        assert s'.spawns[|s.spawns|] == SpawnRecord(e.node, e.r.spawn, e.r.tap);
      } else {
        assert SpawnedAt(s.spawns, s.gate.ants[a].node, s.gate.ants[a].spawnedAt);
        var i :| 0 <= i < |s.spawns| && s.spawns[i].node == s.gate.ants[a].node
          && s.spawns[i].time == s.gate.ants[a].spawnedAt;
        assert s'.spawns[i] == s.spawns[i];
      }
    }
  }

  lemma {:induction false} RunKeepsAnts(s: State, es: seq<Event>)
    requires AntsRecorded(s) && Runs(s, es)
    ensures AntsRecorded(After(s, es))
    decreases es
  {
    if es != [] {
      StepKeepsAnts(s, es[0]);
      RunKeepsAnts(Step(s, es[0]), es[1..]);
    }
  }

  // ---- When a tap succeeds ----

  lemma {:induction false} ActiveAfter(s: State, es: seq<Event>)
    requires Runs(s, es)
    ensures After(s, es).gate.active <==>
              || (exists i :: LastActivation(es, i) && es[i].active)
              || (s.gate.active && forall i :: 0 <= i < |es| ==> !es[i].Activate?)
    decreases es
  {
    if es != [] {
      var rest := es[1..];
      ActiveAfter(Step(s, es[0]), rest);
      assert forall i :: 0 < i < |es| ==> es[i] == rest[i - 1];
      if i :| LastActivation(rest, i) { assert LastActivation(es, i + 1); }
      forall i | LastActivation(es, i) && i > 0 ensures LastActivation(rest, i - 1) {}
      if (forall i :: 0 <= i < |rest| ==> !rest[i].Activate?) && es[0].Activate? { assert LastActivation(es, 0); }
    }
  }

  /** set_active was called last at position i. */
  ghost predicate LastActivation(es: seq<Event>, i: int) {
    0 <= i < |es| && es[i].Activate? && forall j :: i < j < |es| ==> !es[j].Activate?
  }

  /** The whole answer of a tap at the end of any trace. It is "idle" unless the
      last set_active was true; else "restricted" exactly on a restricted node;
      else "cooldown" exactly if the last spawn on the node was tapped less than
      10 s before (a node without one counts as tapped at 0); else "capacity"
      exactly if 5 or more ants are live, "node_busy" exactly if otherwise 3 or
      more are on the node; and in every other case the ant is spawned. */
  lemma TapOutcome(now: real, es: seq<Event>, s: State, node: Node, restricted: bool, r: Readings, id: AntId)
    requires Runs(Start(now), es) && s == After(Start(now), es)
    requires Enabled(s, Tap(node, restricted, r, id))
    ensures var v := Verdict(s.gate, node, restricted, r, id);
            var ants := s.gate.ants;
            var on := exists i ::
                        && 0 <= i < |es| && es[i].Activate? && es[i].active
                        && forall j :: i < j < |es| ==> !es[j].Activate?;
            var cooled := && (forall i :: 0 <= i < |s.spawns| && s.spawns[i].node == node ==>
                                r.cooldown - s.spawns[i].tap >= 10.0)
                          && ((forall i :: 0 <= i < |s.spawns| ==> s.spawns[i].node != node) ==> r.cooldown >= 10.0);
            var live := set a | a in ants && !ants[a].done && r.live(a) - ants[a].spawnedAt <= 60.0;
            var here := set a | a in live && ants[a].node == node;
            v == if !on then Idle
                 else if restricted then Restricted
                 else if !cooled then Cooldown
                 else if |live| >= 5 then Capacity
                 else if |here| >= 3 then NodeBusy
                 else Spawned(id)
  {
    StartIsGood(now);
    RunKeepsAll(Start(now), es);
    ActiveMeans(now, es);
    CooledMeans(s, node, r.cooldown);
    VerdictMeans(s.gate, node, restricted, r, id);
  }

  lemma VerdictMeans(g: Gate, node: Node, restricted: bool, r: Readings, id: AntId)
    requires r.Ordered()
    ensures var live := set a | a in g.ants && !g.ants[a].done && r.live(a) - g.ants[a].spawnedAt <= 60.0;
            var here := set a | a in live && g.ants[a].node == node;
            Verdict(g, node, restricted, r, id) ==
              if !g.active then Idle
              else if restricted then Restricted
              else if r.cooldown - LastTap(g.taps, node) < 10.0 then Cooldown
              else if |live| >= 5 then Capacity
              else if |here| >= 3 then NodeBusy
              else Spawned(id)
  {
    UnexpiredSuffices(g.ants, r, node);
    CollectedMeans(g.ants, r.live, node);
  }

  lemma ActiveMeans(now: real, es: seq<Event>)
    requires Runs(Start(now), es)
    ensures After(Start(now), es).gate.active <==>
              exists i :: && 0 <= i < |es| && es[i].Activate? && es[i].active
                          && forall j :: i < j < |es| ==> !es[j].Activate?
  {
    ActiveAfter(Start(now), es);
    if After(Start(now), es).gate.active {
      var i :| LastActivation(es, i) && es[i].active;
      assert 0 <= i < |es| && es[i].Activate? && es[i].active;
    } else {
      forall i | 0 <= i < |es| && es[i].Activate? && es[i].active
        ensures !(forall j :: i < j < |es| ==> !es[j].Activate?)
      {
        assert !LastActivation(es, i);
      }
    }
  }

  /** The tap on record is the latest one, so the cooldown looks at all of them. */
  lemma CooledMeans(s: State, node: Node, time: real)
    requires Spaced(s) && TapsRecorded(s)
    ensures time - LastTap(s.gate.taps, node) >= NODE_COOLDOWN_S <==>
              && (forall i :: 0 <= i < |s.spawns| && s.spawns[i].node == node ==> time - s.spawns[i].tap >= 10.0)
              && ((forall i :: 0 <= i < |s.spawns| ==> s.spawns[i].node != node) ==> time >= 10.0)
  {
    if node in s.gate.taps {
      assert RecordedTap(s.spawns, node, s.gate.taps[node]);
      var i :| 0 <= i < |s.spawns| && s.spawns[i].node == node && s.spawns[i].tap == s.gate.taps[node];
    }
  }

  lemma CollectedMeans(ants: Ants, now: PerAnt, node: Node)
    ensures var live := set a | a in ants && !ants[a].done && now(a) - ants[a].spawnedAt <= 60.0;
            && |Collected(ants, now)| == |live|
            && CollectedOn(ants, now, node) == set a | a in live && ants[a].node == node
  {
    var live := set a | a in ants && !ants[a].done && now(a) - ants[a].spawnedAt <= 60.0;
    assert Collected(ants, now).Keys == live;
  }

  ghost predicate TappedAfter(spawns: seq<SpawnRecord>, n: Node, time: real) {
    exists i :: 0 <= i < |spawns| && spawns[i].node == n && spawns[i].tap > time
  }

  /** Expiring first does not change what is collected later. */
  lemma UnexpiredSuffices(ants: Ants, r: Readings, node: Node)
    requires r.Ordered()
    ensures Collected(Unexpired(ants, r.expire), r.live) == Collected(ants, r.live)
    ensures CollectedOn(Unexpired(ants, r.expire), r.live, node) == CollectedOn(ants, r.live, node)
  {
    forall id ensures r.expire(id) <= r.live(id) {}
  }

  /** No refusal without its cause: "capacity" means exactly 5 live ants, from
      the beginning of the tap to the check, "node_busy" exactly 3 on the node,
      and "cooldown" a successful spawn on the node less than 10 s before (or a
      clock that has not reached 10, as a node never tapped counts as tapped at 0). */
  lemma RefusalsAreJustified(now: real, es: seq<Event>, e: Event)
    requires Runs(Start(now), es) && e.Tap? && Enabled(After(Start(now), es), e)
    ensures var s := After(Start(now), es);
            var v := Verdict(s.gate, e.node, e.restricted, e.r, e.id);
            && (v.Capacity? ==> |LiveAnts(s.gate.ants, s.clock)| == |Collected(s.gate.ants, e.r.live)| == MAX_USER_ANTS)
            && (v.NodeBusy? ==>
                  |LiveOn(s.gate.ants, s.clock, e.node)| == |CollectedOn(s.gate.ants, e.r.live, e.node)|
                  == MAX_ANTS_ON_NODE)
            && (v.Cooldown? ==>
                  e.r.cooldown < NODE_COOLDOWN_S || TappedAfter(s.spawns, e.node, e.r.cooldown - NODE_COOLDOWN_S))
  {
    StartIsGood(now);
    RunKeepsAll(Start(now), es);
    var s := After(Start(now), es);
    assert WithinCaps(s.gate.ants, s.clock);
    CollectedBetween(s.gate.ants, s.clock, e.r.live, e.r.spawn);
    UnexpiredSuffices(s.gate.ants, e.r, e.node);
    if e.node in s.gate.taps {
      assert RecordedTap(s.spawns, e.node, s.gate.taps[e.node]);
    }
  }

  /** Expiring ants hides no ant that is live later. */
  lemma ExpiryHidesNone(ants: Ants, from: real, expire: PerAnt, to: real, t: real)
    requires Within(from, expire, to) && to <= t
    ensures LiveAnts(Unexpired(ants, expire), t) == LiveAnts(ants, t)
  {
    forall id ensures expire(id) <= t {}
  }

  /** A refused tap leaves the live ants and the taps as they are, now and later. */
  lemma RefusalChangesNothing(g: Gate, node: Node, restricted: bool, r: Readings, id: AntId, t: real)
    requires !Verdict(g, node, restricted, r, id).Spawned? && r.Ordered() && r.cooldown <= t
    ensures var g' := Tapped(g, node, restricted, r, id);
            LiveAnts(g'.ants, t) == LiveAnts(g.ants, t) && g'.taps == g.taps && g'.active == g.active
  {
    ExpiryHidesNone(g.ants, r.begin, r.expire, r.cooldown, t);
  }

  /** An accepted tap adds exactly one live ant, on the tapped node, and puts
      that node on cooldown; nothing else changes. */
  lemma AcceptanceAddsOneAnt(g: Gate, node: Node, restricted: bool, r: Readings, id: AntId, t: real)
    requires Verdict(g, node, restricted, r, id).Spawned? && r.Ordered() && r.tap <= t <= r.spawn + ANT_EXPIRY_S
    ensures var g' := Tapped(g, node, restricted, r, id);
            && LiveAnts(g'.ants, t) == LiveAnts(g.ants, t)[id := Ant(node, r.spawn, false)]
            && g'.taps == g.taps[node := r.tap]
            && forall r2: Readings, id2 ::
                 r2.cooldown < r.tap + NODE_COOLDOWN_S ==> !Verdict(g', node, restricted, r2, id2).Spawned?
  {
    var g' := Tapped(g, node, restricted, r, id);
    ExpiryHidesNone(g.ants, r.begin, r.expire, r.cooldown, t);
    assert LiveAnts(g'.ants, t) == LiveAnts(Unexpired(g.ants, r.expire), t)[id := Ant(node, r.spawn, false)];
    assert LiveAnts(g'.ants, t) == LiveAnts(g.ants, t)[id := Ant(node, r.spawn, false)];
  }
}
