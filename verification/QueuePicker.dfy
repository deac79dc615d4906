/** Choosing the next task (patchi/core/queue.py, next_waiting) and draining a
    queue with it. */
module QueuePicker {
  import opened Common
  import opened Sorting
  import opened TaskQueue
  import QP = QueueProtocol

  /** The sort key (-priority, created), compared as a tuple. */
  predicate KeyLess(a: Item, b: Item) {
    a.task.priority > b.task.priority || (a.task.priority == b.task.priority && a.created < b.created)
  }

  /** next_waiting reads the file twice: once for the flag, once for the list. */
  function Pick(paused: bool, items: seq<Item>): Option<Item> {
    var waiting := Filter(items, IsWaiting);
    if paused || waiting == [] then None else Some(StableSort(waiting, KeyLess)[0])
  }

  /** Nobody else writes between the two reads. */
  function NextWaiting(q: Queue): Option<Item> { Pick(q.paused, q.items) }

  /** Where the first item of maximal priority is: what a single scan would pick. */
  function ScanForMaximal(items: seq<Item>): (k: nat)
    requires items != []
    ensures k < |items|
    ensures forall j :: 0 <= j < |items| ==> items[j].task.priority <= items[k].task.priority
    ensures forall j :: 0 <= j < k ==> items[j].task.priority < items[k].task.priority
  {
    if |items| == 1 then 0
    else
      var k := ScanForMaximal(items[1..]) + 1;
      assert forall j :: 1 <= j < |items| ==> items[j] == items[1..][j - 1];
      if items[0].task.priority >= items[k].task.priority then 0 else k
  }

  function FirstMaximal(items: seq<Item>): Item
    requires items != []
  {
    items[ScanForMaximal(items)]
  }

  /** The sort-based pick and the scan agree on a list in creation order. */
  lemma {:induction false} SortedHeadIsFirstMaximal(items: seq<Item>)
    requires items != []
    requires forall i, j :: 0 <= i < j < |items| ==> items[i].created <= items[j].created
    ensures StableSort(items, KeyLess)[0] == FirstMaximal(items)
  {
    if |items| > 1 {
      SortedHeadIsFirstMaximal(items[1..]);
      assert FirstMaximal(items[1..]) == items[ScanForMaximal(items[1..]) + 1];
    } else {
      assert items[1..] == [];
    }
  }

  /** x at position k comes before y at position j: by priority, age and place. */
  predicate FirstOf(x: Item, k: int, y: Item, j: int) {
    || x.task.priority > y.task.priority
    || (x.task.priority == y.task.priority && x.created < y.created)
    || (x.task.priority == y.task.priority && x.created == y.created && k <= j)
  }

  /** Whatever order the list is in: the pick is a waiting item; none has a
      higher priority, none of its priority is older, and no other of that
      priority and age stands before it. */
  lemma PickIsFirstByKey(paused: bool, items: seq<Item>)
    ensures var picked, waiting := Pick(paused, items), Filter(items, IsWaiting);
            && (picked.None? <==> paused || waiting == [])
            && (picked.Some? ==>
                  exists k ::
                    && 0 <= k < |waiting| && waiting[k] == picked.value
                    && forall j :: 0 <= j < |waiting| ==> FirstOf(picked.value, k, waiting[j], j))
  {
    var waiting := Filter(items, IsWaiting);
    if waiting != [] {
      var k := HeadOfSort(waiting);
      assert waiting[k] == StableSort(waiting, KeyLess)[0];
    }
  }

  lemma {:induction false} HeadOfSort(items: seq<Item>) returns (k: nat)
    requires items != []
    ensures k < |items| && items[k] == StableSort(items, KeyLess)[0]
    ensures forall j :: 0 <= j < |items| ==> FirstOf(items[k], k, items[j], j)
  {
    k := 0;
    if |items| > 1 {
      var rest := HeadOfSort(items[1..]);
      SortedHead(items);
      if KeyLess(items[1..][rest], items[0]) {
        k := rest + 1;
        StillFirst(items, rest);
      } else {
        HeadIsFirst(items, rest);
      }
    } else {
      assert items[1..] == [];
    }
  }

  lemma SortedHead(items: seq<Item>)
    requires |items| > 1
    ensures var next := StableSort(items[1..], KeyLess)[0];
            StableSort(items, KeyLess)[0] == if KeyLess(next, items[0]) then next else items[0]
  {
  }

  lemma StillFirst(items: seq<Item>, k: nat)
    requires k + 1 < |items| && KeyLess(items[1..][k], items[0])
    requires forall j :: 0 <= j < |items[1..]| ==> FirstOf(items[1..][k], k, items[1..][j], j)
    ensures forall j :: 0 <= j < |items| ==> FirstOf(items[k + 1], k + 1, items[j], j)
  {
    forall j | 0 < j < |items| ensures FirstOf(items[k + 1], k + 1, items[j], j) {
      assert items[j] == items[1..][j - 1];
    }
  }

  lemma HeadIsFirst(items: seq<Item>, k: nat)
    requires k + 1 < |items| && !KeyLess(items[1..][k], items[0])
    requires forall j :: 0 <= j < |items[1..]| ==> FirstOf(items[1..][k], k, items[1..][j], j)
    ensures forall j :: 0 <= j < |items| ==> FirstOf(items[0], 0, items[j], j)
  {
    forall j | 0 < j < |items| ensures FirstOf(items[0], 0, items[j], j) {
      assert items[j] == items[1..][j - 1];
      assert FirstOf(items[1..][k], k, items[1..][j - 1], j - 1);
    }
  }

  /** In every run, unlocked clears included, and with any steps of other
      processes between its two reads: the pick is the scan for the first
      maximal waiting item of the list it reads, and is an item that was never
      retired before. */
  lemma PickInEveryReachableState(s: QP.System, es: seq<QP.Event>, between: seq<QP.Event>)
    requires QP.Initial(s) && QP.Runs(s, es + between) && QP.Runs(s, es)
    ensures var flag, list := QP.After(s, es).Contents(), QP.After(s, es + between).Contents();
            var waiting := Filter(list.items, IsWaiting);
            var picked := Pick(flag.paused, list.items);
            && picked == (if flag.paused || waiting == [] then None else Some(FirstMaximal(waiting)))
            && (picked.Some? ==> picked.value.id !in QP.RetiredIds(flag))
  {
    QP.FileStaysOrdered(s, es + between);
    var list := QP.After(s, es + between).Contents();
    var waiting := Filter(list.items, IsWaiting);
    assert Queue(false, list.items).items == list.items;
    QP.FilterKeepsOrder(list.items, IsWaiting);
    if waiting != [] {
      SortedHeadIsFirstMaximal(waiting);
      var m := FirstMaximal(waiting);
      WaitingId(list, m);
      if m.id in QP.RetiredIds(QP.After(s, es).Contents()) { QP.NeverWaitingAgain(s, es, between, m.id); }
    }
  }

  lemma WaitingId(q: Queue, m: Item)
    requires m in Filter(q.items, IsWaiting)
    ensures m.id in QP.WaitingIds(q)
  {
    var k :| 0 <= k < |q.items| && q.items[k] == m;
    assert IsWaiting(q.items[k]);
  }

  // ---- Draining ----

  ghost predicate Drainable(q: Queue) {
    !q.paused && QP.DistinctIds(q) && QP.OrderedByCreated(q)
  }

  function Activate(q: Queue, item: Item, at: int): Queue {
    Effect(Update(item.id, MarkActive(at)), q, at, item.id).queue
  }

  lemma {:induction false} ReplacedIsRemoved(items: seq<Item>, i: nat, x: Item)
    requires i < |items| && IsWaiting(items[i]) && !IsWaiting(x)
    requires items[i] !in items[..i]
    ensures Filter(items[i := x], IsWaiting) == Without(Filter(items, IsWaiting), items[i])
  {
    var tail := items[1..];
    if i == 0 {
      assert items[i := x][1..] == tail;
    } else {
      assert items[i := x][1..] == tail[i - 1 := x];
      assert items[0] in items[..i];
      assert tail[i - 1] !in tail[..i - 1] by { assert tail[..i - 1] == items[..i][1..]; }
      ReplacedIsRemoved(tail, i - 1, x);
      var rest := Filter(tail, IsWaiting);
      assert ([items[0]] + rest)[1..] == rest;
    }
  }

  /** Marking the picked item removes exactly it from the waiting list. */
  lemma ActivateRemoves(q: Queue, item: Item, at: int)
    requires Drainable(q) && item in q.items && IsWaiting(item)
    ensures Drainable(Activate(q, item, at))
    ensures Filter(Activate(q, item, at).items, IsWaiting) == Without(Filter(q.items, IsWaiting), item)
  {
    var i := FindId(q.items, item.id);
    var k :| 0 <= k < |q.items| && q.items[k] == item;
    assert i == k;
    var marked := Marked(item, MarkActive(at));
    assert Activate(q, item, at) == q.(items := q.items[i := marked]);
    ReplacedIsRemoved(q.items, i, marked);
    KeepsDrainable(q, i, marked);
  }

  lemma KeepsDrainable(q: Queue, i: nat, x: Item)
    requires Drainable(q) && i < |q.items| && x.id == q.items[i].id && x.created == q.items[i].created
    ensures Drainable(q.(items := q.items[i := x]))
  {
    var q' := q.(items := q.items[i := x]);
    forall j | 0 <= j < |q'.items|
      ensures q'.items[j].id == q.items[j].id && q'.items[j].created == q.items[j].created
    {
    }
  }

  lemma {:induction false} WithoutShortens(xs: seq<Item>, x: Item)
    requires x in xs
    ensures |Without(xs, x)| == |xs| - 1
  {
    if xs[0] != x { WithoutShortens(xs[1..], x); }
  }

  lemma PickedIsWaiting(q: Queue)
    ensures var n := NextWaiting(q);
            n.Some? ==> n.value in q.items && IsWaiting(n.value) && n.value in Filter(q.items, IsWaiting)
  {
    SortKeepsMembers(Filter(q.items, IsWaiting), KeyLess);
  }

  /** The items served by repeating next_waiting and mark_active until nothing
      is waiting; `clock` gives the clock reading of each round. */
  ghost function Served(q: Queue, clock: nat -> int, round: nat): seq<Item>
    requires Drainable(q)
    decreases Depth(q)
  {
    var next := NextWaiting(q);
    if next.None? then []
    else
      PickedIsWaiting(q);
      ActivateRemoves(q, next.value, clock(round));
      WithoutShortens(Filter(q.items, IsWaiting), next.value);
      [next.value] + Served(Activate(q, next.value, clock(round)), clock, round + 1)
  }

  lemma KeyLessIsOrder()
    ensures StrictWeakOrder(KeyLess)
  {
  }

  lemma {:induction false} ServedIsSorted(q: Queue, clock: nat -> int, round: nat)
    requires Drainable(q)
    ensures Served(q, clock, round) == StableSort(Filter(q.items, IsWaiting), KeyLess)
    decreases Depth(q)
  {
    var waiting := Filter(q.items, IsWaiting);
    if waiting != [] {
      var x := StableSort(waiting, KeyLess)[0];
      PickedIsWaiting(q);
      ActivateRemoves(q, x, clock(round));
      WithoutShortens(waiting, x);
      KeyLessIsOrder();
      SortTail(waiting, KeyLess);
      ServedIsSorted(Activate(q, x, clock(round)), clock, round + 1);
    }
  }

  lemma {:induction false} FilterKeepsBefore(items: seq<Item>, i: nat, j: nat)
    requires i < j < |items| && IsWaiting(items[i]) && IsWaiting(items[j])
    ensures Before(Filter(items, IsWaiting), items[i], items[j])
  {
    if i == 0 {
      assert items[1..][j - 1] == items[j];
      BeforeCons(items[0], Filter(items[1..], IsWaiting), items[0], items[j]);
    } else {
      FilterKeepsBefore(items[1..], i - 1, j - 1);
      if IsWaiting(items[0]) {
        BeforeCons(items[0], Filter(items[1..], IsWaiting), items[i], items[j]);
      }
    }
  }

  /** a is served before b: higher priority, or equal priority and enqueued first. */
  ghost predicate Precedes(q: Queue, a: Item, b: Item) {
    || a.task.priority > b.task.priority
    || (a.task.priority == b.task.priority && FindId(q.items, a.id) < FindId(q.items, b.id))
  }

  lemma PositionInQueue(q: Queue, x: Item) returns (a: nat)
    requires Drainable(q) && x in Filter(q.items, IsWaiting)
    ensures a < |q.items| && q.items[a] == x && FindId(q.items, x.id) == a
  {
    a :| 0 <= a < |q.items| && q.items[a] == x;
  }

  lemma SortedPair(waiting: seq<Item>, i: nat, j: nat)
    requires i < j < |waiting| && NoRepeats(waiting)
    ensures var s := StableSort(waiting, KeyLess);
            && s[i] != s[j] && s[i] in waiting && s[j] in waiting
            && !KeyLess(s[j], s[i]) && !Before(s, s[j], s[i])
  {
    KeyLessIsOrder();
    SortAscending(waiting, KeyLess);
    SortKeepsMembers(waiting, KeyLess);
    SortNoRepeats(waiting, KeyLess);
    NotBefore(StableSort(waiting, KeyLess), i, j);
  }

  lemma PairPrecedes(q: Queue, waiting: seq<Item>, u: Item, v: Item)
    requires Drainable(q) && waiting == Filter(q.items, IsWaiting) && u in waiting && v in waiting && u != v
    requires !KeyLess(v, u) && !Before(StableSort(waiting, KeyLess), v, u)
    ensures Precedes(q, u, v)
  {
    var a := PositionInQueue(q, u);
    var b := PositionInQueue(q, v);
    if u.task.priority == v.task.priority && b < a {
      KeyLessIsOrder();
      FilterKeepsBefore(q.items, b, a);
      SortStable(waiting, KeyLess, v, u);
    }
  }

  lemma WaitingNoRepeats(q: Queue)
    requires Drainable(q)
    ensures NoRepeats(Filter(q.items, IsWaiting))
  {
    assert Queue(false, q.items).items == q.items;
    QP.FilterKeepsOrder(q.items, IsWaiting);
  }

  lemma SortedPrecedes(q: Queue, i: nat, j: nat)
    requires Drainable(q)
    requires i < j < Depth(q)
    ensures var s := StableSort(Filter(q.items, IsWaiting), KeyLess);
            s[i] != s[j] && Precedes(q, s[i], s[j])
  {
    var waiting := Filter(q.items, IsWaiting);
    var s := StableSort(waiting, KeyLess);
    WaitingNoRepeats(q);
    SortedPair(waiting, i, j);
    PairPrecedes(q, waiting, s[i], s[j]);
  }

  /** Draining an unpaused queue takes exactly `depth` rounds, serves every
      WAITING item once and nothing else, by descending priority and, within
      one priority, in the order of the list. */
  lemma DrainServesAll(q: Queue, clock: nat -> int)
    requires Drainable(q)
    ensures |Served(q, clock, 0)| == Depth(q)
    ensures multiset(Served(q, clock, 0)) == multiset(Filter(q.items, IsWaiting))
    ensures forall i, j :: 0 <= i < j < Depth(q) ==>
              && Served(q, clock, 0)[i] != Served(q, clock, 0)[j]
              && Precedes(q, Served(q, clock, 0)[i], Served(q, clock, 0)[j])
  {
    ServedIsSorted(q, clock, 0);
    forall i, j | 0 <= i < j < Depth(q)
      ensures Served(q, clock, 0)[i] != Served(q, clock, 0)[j]
      ensures Precedes(q, Served(q, clock, 0)[i], Served(q, clock, 0)[j])
    {
      SortedPrecedes(q, i, j);
    }
  }

  /** Nothing is picked while the queue is paused, and resuming brings the pick back. */
  lemma PauseStopsPicking(q: Queue, now: int, uid: Id, later: int, other: Id)
    ensures var paused := Effect(Pause, q, now, uid).queue;
            && NextWaiting(paused) == None
            && (!q.paused ==> NextWaiting(Effect(Resume, paused, later, other).queue) == NextWaiting(q))
  {
    WholeQueueEffects(q, now, uid);
    WholeQueueEffects(Effect(Pause, q, now, uid).queue, later, other);
  }

  // ---- From enqueue to service ----

  /** The queue after these tasks were enqueued, one after the other, on an
      empty queue: at the clock readings and with the uuids given by number. */
  function EnqueueAll(tasks: seq<Task>, clock: nat -> int, uids: nat -> Id): Queue {
    if tasks == [] then Queue(false, [])
    else
      var n := |tasks| - 1;
      Effect(Enqueue(tasks[n]), EnqueueAll(tasks[..n], clock, uids), clock(n), uids(n)).queue
  }

  lemma {:induction false} AllWaiting(items: seq<Item>)
    requires forall i :: 0 <= i < |items| ==> items[i].state == Waiting
    ensures Filter(items, IsWaiting) == items
  {
    if items != [] { AllWaiting(items[1..]); }
  }

  /** The list holds the tasks that fitted, as they were given. */
  ghost predicate HoldsTasks(q: Queue, tasks: seq<Task>, clock: nat -> int, uids: nat -> Id) {
    && !q.paused
    && |q.items| == (if |tasks| < 50 then |tasks| else 50)
    && forall i :: 0 <= i < |q.items| ==>
         && q.items[i].task == tasks[i] && q.items[i].state == Waiting
         && q.items[i].id == uids(i) && q.items[i].created == clock(i)
  }

  lemma OneMoreTask(q: Queue, q': Queue, tasks: seq<Task>, n: nat, clock: nat -> int, uids: nat -> Id)
    requires n + 1 == |tasks| && HoldsTasks(q, tasks[..n], clock, uids) && q'.paused == q.paused
    requires n >= 50 ==> q' == q
    requires n < 50 ==>
               && |q'.items| == n + 1 && q'.items[..n] == q.items
               && q'.items[n].task == tasks[n] && q'.items[n].state == Waiting
               && q'.items[n].id == uids(n) && q'.items[n].created == clock(n)
    ensures HoldsTasks(q', tasks, clock, uids)
  {
    forall i | 0 <= i < |q.items| ensures q'.items[i] == q.items[i] {
      if n < 50 { assert q'.items[i] == q'.items[..n][i]; }
    }
  }

  lemma {:induction false} EnqueuedItems(tasks: seq<Task>, clock: nat -> int, uids: nat -> Id)
    ensures HoldsTasks(EnqueueAll(tasks, clock, uids), tasks, clock, uids)
  {
    if tasks != [] {
      var n := |tasks| - 1;
      EnqueuedItems(tasks[..n], clock, uids);
      var q := EnqueueAll(tasks[..n], clock, uids);
      AllWaiting(q.items);
      EnqueueAppends(q, tasks[n], clock(n), uids(n));
      OneMoreTask(q, EnqueueAll(tasks, clock, uids), tasks, n, clock, uids);
    }
  }

  /** What the queue is for: tasks enqueued on an empty queue - the first fifty,
      the rest is refused - are served each once, by descending priority as it
      was passed to enqueue, and in the order of their enqueues among equals. */
  lemma EnqueuedAreServedInOrder(tasks: seq<Task>, clock: nat -> int, uids: nat -> Id, at: nat -> int)
    returns (order: seq<nat>)
    requires forall i: nat, j: nat :: i < j < |tasks| ==> clock(i) <= clock(j) && uids(i) != uids(j)
    ensures |order| == if |tasks| < 50 then |tasks| else 50
    ensures forall i :: 0 <= i < |order| ==> order[i] < |order|
    ensures forall i, j :: 0 <= i < j < |order| ==>
              && order[i] != order[j]
              && (|| tasks[order[i]].priority > tasks[order[j]].priority
                  || (tasks[order[i]].priority == tasks[order[j]].priority && order[i] < order[j]))
    ensures Drainable(EnqueueAll(tasks, clock, uids))
    ensures var served := Served(EnqueueAll(tasks, clock, uids), at, 0);
            |served| == |order| && forall i :: 0 <= i < |order| ==> served[i].task == tasks[order[i]]
  {
    var q := EnqueueAll(tasks, clock, uids);
    EnqueuedItems(tasks, clock, uids);
    EnqueuedIsDrainable(tasks, clock, uids);
    AllWaiting(q.items);
    DrainServesAll(q, at);
    ServedAreItems(q, at);
    order := Positions(q, Served(q, at, 0));
  }

  lemma EnqueuedIsDrainable(tasks: seq<Task>, clock: nat -> int, uids: nat -> Id)
    requires forall i: nat, j: nat :: i < j < |tasks| ==> clock(i) <= clock(j) && uids(i) != uids(j)
    ensures Drainable(EnqueueAll(tasks, clock, uids))
  {
    EnqueuedItems(tasks, clock, uids);
  }

  lemma ServedAreItems(q: Queue, at: nat -> int)
    requires Drainable(q)
    ensures forall i :: 0 <= i < |Served(q, at, 0)| ==> Served(q, at, 0)[i] in q.items
  {
    ServedIsSorted(q, at, 0);
    SortKeepsMembers(Filter(q.items, IsWaiting), KeyLess);
  }

  /** Where the served items stand in the list. */
  lemma Positions(q: Queue, served: seq<Item>) returns (order: seq<nat>)
    requires Drainable(q) && forall i :: 0 <= i < |served| ==> served[i] in q.items
    requires forall i, j :: 0 <= i < j < |served| ==> served[i] != served[j] && Precedes(q, served[i], served[j])
    ensures |order| == |served|
    ensures forall i :: 0 <= i < |order| ==> order[i] < |q.items| && q.items[order[i]] == served[i]
    ensures forall i, j :: 0 <= i < j < |order| ==>
              && order[i] != order[j]
              && (|| served[i].task.priority > served[j].task.priority
                  || (served[i].task.priority == served[j].task.priority && order[i] < order[j]))
  {
    order := seq(|served|, i requires 0 <= i < |served| => FindId(q.items, served[i].id));
    forall i | 0 <= i < |served| ensures order[i] < |q.items| && q.items[order[i]] == served[i] {
      var k :| 0 <= k < |q.items| && q.items[k] == served[i];
      assert FindId(q.items, served[i].id) == k;
    }
  }
}
