/** The persistent task queue (patchi/core/queue.py), one process at a time.

    `Effect` is what one operation computes from the queue it has read. The
    class `QueueFile` runs the operations on the stored file the way the source
    does, scanning and changing the item list in place; each method is proved
    to have exactly its `Effect`. */
module TaskQueue {
  import opened Common

  const QUEUE_MAX_DEPTH: nat := 50

  type Id = string

  datatype ItemState = Waiting | Active | Done | Failed | Skipped

  datatype Task = Task(kind: string, target: string, agent: Option<string>, priority: int, extra: map<string, string>)

  /** `created`, `started` and `completed` are clock readings; the source stores
      them as ISO strings, which compare in the same order. */
  datatype Item = Item(
    id: Id, task: Task, state: ItemState, created: int,
    started: Option<int>, completed: Option<int>, result: Option<string>, error: Option<string>)

  datatype Queue = Queue(paused: bool, items: seq<Item>)

  /** The update dictionaries of mark_active, mark_done, mark_failed and
      mark_skipped; their clock reading is taken before the lock is. */
  datatype Mark =
    | MarkActive(at: int)
    | MarkDone(at: int, outcome: Option<string>)
    | MarkFailed(at: int, reason: string)
    | MarkSkipped(at: int)

  datatype Request =
    | Enqueue(task: Task)
    | Update(id: Id, mark: Mark)
    | Pause
    | Resume
    | SkipActive
    | Clear
    | ClearAll
  {
    /** `clear` and `clear_all` are the two writers that take no file lock. */
    predicate TakesLock() { !Clear? && !ClearAll? }
  }

  datatype Reply =
    | QueueFull
    | Enqueued(id: Id)
    | Found(ok: bool)
    | Nothing
    | SkippedItem(which: Option<Id>)
    | Removed(count: nat)

  /** `writes` is false where the source returns without calling _write. */
  datatype Outcome = Outcome(writes: bool, queue: Queue, reply: Reply)

  const EMPTY_QUEUE := Queue(false, [])

  predicate IsWaiting(i: Item) { i.state == Waiting }
  predicate NotWaiting(i: Item) { i.state != Waiting }

  function Depth(q: Queue): nat { |Filter(q.items, IsWaiting)| }

  /** Position of the first item with this id, or the length of the list. */
  function FindId(items: seq<Item>, id: Id): (i: nat)
    ensures i <= |items|
    ensures i < |items| ==> items[i].id == id
    ensures forall j :: 0 <= j < i ==> items[j].id != id
  {
    if items == [] || items[0].id == id then 0 else 1 + FindId(items[1..], id)
  }

  /** Position of the first ACTIVE item, or the length of the list. */
  function FindActive(items: seq<Item>): (i: nat)
    ensures i <= |items|
    ensures i < |items| ==> items[i].state == Active
    ensures forall j :: 0 <= j < i ==> items[j].state != Active
  {
    if items == [] || items[0].state == Active then 0 else 1 + FindActive(items[1..])
  }

  function Marked(item: Item, mark: Mark): (r: Item)
    ensures r.id == item.id && r.created == item.created && r.task == item.task
    ensures r.state != Waiting
  {
    match mark
    case MarkActive(at) => item.(state := Active, started := Some(at))
    case MarkDone(at, outcome) => item.(state := Done, completed := Some(at), result := outcome)
    case MarkFailed(at, reason) => item.(state := Failed, completed := Some(at), error := Some(reason))
    case MarkSkipped(at) => item.(state := Skipped, completed := Some(at))
  }

  function NewItem(task: Task, id: Id, now: int): Item {
    Item(id, task, Waiting, now, None, None, None, None)
  }

  /** What a request computes from the queue `q` it has read. `now` is the clock
      reading and `uid` the truncated uuid taken while computing. */
  function Effect(r: Request, q: Queue, now: int, uid: Id): Outcome {
    match r
    case Enqueue(task) =>
      if Depth(q) >= QUEUE_MAX_DEPTH then Outcome(false, q, QueueFull)
      else Outcome(true, q.(items := q.items + [NewItem(task, uid, now)]), Enqueued(uid))
    case Update(id, mark) =>
      var i := FindId(q.items, id);
      if i == |q.items| then Outcome(false, q, Found(false))
      else Outcome(true, q.(items := q.items[i := Marked(q.items[i], mark)]), Found(true))
    case Pause => Outcome(true, q.(paused := true), Nothing)
    case Resume => Outcome(true, q.(paused := false), Nothing)
    case SkipActive =>
      var i := FindActive(q.items);
      if i == |q.items| then Outcome(false, q, SkippedItem(None))
      else
        Outcome(true, q.(items := q.items[i := Marked(q.items[i], MarkSkipped(now))]), SkippedItem(Some(q.items[i].id)))
    case Clear => Outcome(true, q.(items := Filter(q.items, NotWaiting)), Removed(Depth(q)))
    case ClearAll => Outcome(true, q.(items := []), Removed(|q.items|))
  }

  /** An enqueue on a queue with room adds at the end one item that carries the
      task as given, its priority included, and is otherwise as new; nothing
      else changes. On a full queue it writes nothing. */
  lemma EnqueueAppends(q: Queue, task: Task, now: int, uid: Id)
    ensures var o, n := Effect(Enqueue(task), q, now, uid), |q.items|;
            if Depth(q) < 50 then
              && o.writes && o.reply == Enqueued(uid)
              && o.queue.paused == q.paused
              && |o.queue.items| == n + 1 && o.queue.items[..n] == q.items
              && var x := o.queue.items[n];
              && x.task == task && x.id == uid && x.created == now && x.state == Waiting
              && x.started == None && x.completed == None && x.result == None && x.error == None
            else !o.writes && o.queue == q && o.reply == QueueFull
  {
    var x := Effect(Enqueue(task), q, now, uid).queue.items;
    assert Depth(q) < 50 ==> x[..|q.items|] == q.items;
  }

  /** The operations on the whole queue: pause and resume set the flag and keep
      the list; the clears keep the flag and the order, and count what they
      remove; without an active item skip_active writes nothing. */
  lemma WholeQueueEffects(q: Queue, now: int, uid: Id)
    ensures Effect(Pause, q, now, uid) == Outcome(true, Queue(true, q.items), Nothing)
    ensures Effect(Resume, q, now, uid) == Outcome(true, Queue(false, q.items), Nothing)
    ensures Effect(ClearAll, q, now, uid) == Outcome(true, Queue(q.paused, []), Removed(|q.items|))
    ensures var o := Effect(Clear, q, now, uid);
            && o.writes && o.queue.paused == q.paused
            && o.queue.items == Filter(q.items, (i: Item) => i.state != Waiting)
            && o.reply == Removed(|q.items| - |o.queue.items|)
    ensures (forall i :: 0 <= i < |q.items| ==> q.items[i].state != Active) ==>
              Effect(SkipActive, q, now, uid) == Outcome(false, q, SkippedItem(None))
  {
    FilterSplits(q.items);
    SameFilter(q.items, NotWaiting, (i: Item) => i.state != Waiting);
  }

  /** No operation takes the depth over the limit: the only one that adds an
      item is enqueue, and it adds exactly one, to a list that is not full. */
  lemma EffectBoundsDepth(r: Request, q: Queue, now: int, uid: Id)
    ensures var o := Effect(r, q, now, uid);
            && Depth(o.queue) <= (if o.reply.Enqueued? then Depth(q) + 1 else Depth(q))
            && (Depth(q) <= QUEUE_MAX_DEPTH ==> Depth(o.queue) <= QUEUE_MAX_DEPTH)
            && (r.Enqueue? ==> (o.reply.QueueFull? <==> Depth(q) >= QUEUE_MAX_DEPTH))
            && (r.Clear? ==> Depth(o.queue) == 0 && |q.items| == |o.queue.items| + o.reply.count)
  {
    match r
    case Enqueue(task) =>
      FilterConcat(q.items, [NewItem(task, uid, now)], IsWaiting);
    case Update(id, mark) =>
      var i := FindId(q.items, id);
      if i < |q.items| { FilterUpdate(q.items, i, Marked(q.items[i], mark), IsWaiting); }
    case SkipActive =>
      var i := FindActive(q.items);
      if i < |q.items| { FilterUpdate(q.items, i, Marked(q.items[i], MarkSkipped(now)), IsWaiting); }
    case Clear =>
      NoneLeft(q.items);
      FilterSplits(q.items);
    case _ =>
  }

  lemma {:induction false} NoneLeft(items: seq<Item>)
    ensures Filter(Filter(items, NotWaiting), IsWaiting) == []
  {
    if items != [] {
      NoneLeft(items[1..]);
      FilterConcat(Filter([items[0]], NotWaiting), Filter(items[1..], NotWaiting), IsWaiting);
      FilterConcat([items[0]], items[1..], NotWaiting);
      assert items == [items[0]] + items[1..];
    }
  }

  lemma {:induction false} FilterSplits(items: seq<Item>)
    ensures |Filter(items, IsWaiting)| + |Filter(items, NotWaiting)| == |items|
  {
    if items != [] { FilterSplits(items[1..]); }
  }

  predicate HasId(q: Queue, id: Id) { exists i :: 0 <= i < |q.items| && q.items[i].id == id }

  function StateOf(mark: Mark): ItemState {
    match mark
    case MarkActive(_) => Active
    case MarkDone(_, _) => Done
    case MarkFailed(_, _) => Failed
    case MarkSkipped(_) => Skipped
  }

  /** An update answers whether the id is there, and touches only the first
      item that has it: its state and the fields the mark is about. */
  lemma UpdateTouchesOne(q: Queue, id: Id, mark: Mark, now: int, uid: Id)
    ensures var o := Effect(Update(id, mark), q, now, uid);
            && o.reply == Found(HasId(q, id)) && o.writes == HasId(q, id)
            && o.queue.paused == q.paused && |o.queue.items| == |q.items|
            && forall j :: 0 <= j < |q.items| ==>
                 var before, after := q.items[j], o.queue.items[j];
                 if before.id == id && (forall k :: 0 <= k < j ==> q.items[k].id != id)
                 then
                   && after.state == StateOf(mark)
                   && after.id == before.id && after.task == before.task && after.created == before.created
                   && (if mark.MarkActive? then after.started == Some(mark.at) && after.completed == before.completed
                       else after.completed == Some(mark.at) && after.started == before.started)
                   && after.result == (if mark.MarkDone? then mark.outcome else before.result)
                   && after.error == (if mark.MarkFailed? then Some(mark.reason) else before.error)
                 else after == before
  {
    assert HasId(q, id) <==> FindId(q.items, id) < |q.items|;
  }

  /** skip_active is mark_skipped on the first active item. */
  lemma SkipIsMarkSkipped(q: Queue, i: nat, now: int, uid: Id)
    requires i < |q.items| && q.items[i].state == Active
    requires forall j :: 0 <= j < i ==> q.items[j].state != Active && q.items[j].id != q.items[i].id
    ensures Effect(SkipActive, q, now, uid).queue == Effect(Update(q.items[i].id, MarkSkipped(now)), q, now, uid).queue
    ensures Effect(SkipActive, q, now, uid).reply == SkippedItem(Some(q.items[i].id))
  {
    assert FindActive(q.items) == i && FindId(q.items, q.items[i].id) == i;
  }

  /** clear undoes an enqueue: the queue is as if only the clear had run. */
  lemma ClearUndoesEnqueue(q: Queue, task: Task, now: int, uid: Id, later: int, other: Id)
    ensures Effect(Clear, Effect(Enqueue(task), q, now, uid).queue, later, other).queue ==
              Effect(Clear, q, later, other).queue
  {
    FilterConcat(q.items, [NewItem(task, uid, now)], NotWaiting);
    assert Filter([NewItem(task, uid, now)], NotWaiting) == [];
  }

  /** The queue file of one project. An absent file reads as the empty queue. */
  class QueueFile {
    var stored: Option<Queue>

    constructor ()
      ensures stored == None
    {
      stored := None;
    }

    function Contents(): Queue
      reads this
    {
      if stored.None? then EMPTY_QUEUE else stored.value
    }

    /** The new state and the reply of a method that carried out `r`. */
    twostate predicate Did(r: Request, now: int, uid: Id, reply: Reply)
      reads this
    {
      var o := Effect(r, old(Contents()), now, uid);
      && reply == o.reply
      && stored == if o.writes then Some(o.queue) else old(stored)
    }

    method EnqueueTask(task: Task, now: int, uid: Id) returns (reply: Reply)
      modifies this
      ensures Did(Enqueue(task), now, uid, reply)
      ensures Depth(old(Contents())) >= 50 ==> reply == QueueFull && stored == old(stored)
      ensures Depth(old(Contents())) < 50 ==>
                && reply == Enqueued(uid) && stored.Some?
                && Contents().paused == old(Contents()).paused
                && |Contents().items| == |old(Contents()).items| + 1
                && Contents().items[..|old(Contents()).items|] == old(Contents()).items
                && var x := Contents().items[|old(Contents()).items|];
                && x.task == task && x.id == uid && x.created == now && x.state == Waiting
                && x.started == None && x.completed == None && x.result == None && x.error == None
    {
      EnqueueAppends(Contents(), task, now, uid);
      var data := Contents();
      var waiting := Filter(data.items, IsWaiting);
      if |waiting| >= QUEUE_MAX_DEPTH {
        return QueueFull;
      }
      var item := NewItem(task, uid, now);
      data := data.(items := data.items + [item]);
      stored := Some(data);
      return Enqueued(uid);
    }

    method UpdateItem(id: Id, mark: Mark, now: int, uid: Id) returns (reply: Reply)
      modifies this
      ensures Did(Update(id, mark), now, uid, reply)
    {
      var data := Contents();
      var i := 0;
      while i < |data.items|
        invariant 0 <= i <= |data.items|
        invariant forall j :: 0 <= j < i ==> data.items[j].id != id
        invariant stored == old(stored) && data == old(Contents())
      {
        if data.items[i].id == id {
          data := data.(items := data.items[i := Marked(data.items[i], mark)]);
          stored := Some(data);
          assert FindId(old(Contents()).items, id) == i;
          return Found(true);
        }
        i := i + 1;
      }
      return Found(false);
    }

    method SetPaused(value: bool, now: int, uid: Id) returns (reply: Reply)
      modifies this
      ensures Did(if value then Pause else Resume, now, uid, reply)
      ensures stored == Some(Queue(value, old(Contents()).items)) && reply == Nothing
    {
      stored := Some(Contents().(paused := value));
      return Nothing;
    }

    method SkipActiveItem(now: int, uid: Id) returns (reply: Reply)
      modifies this
      ensures Did(SkipActive, now, uid, reply)
    {
      var data := Contents();
      var i := 0;
      while i < |data.items|
        invariant 0 <= i <= |data.items|
        invariant forall j :: 0 <= j < i ==> data.items[j].state != Active
        invariant stored == old(stored) && data == old(Contents())
      {
        if data.items[i].state == Active {
          data := data.(items := data.items[i := data.items[i].(state := Skipped, completed := Some(now))]);
          stored := Some(data);
          assert FindActive(old(Contents()).items) == i;
          return SkippedItem(Some(data.items[i].id));
        }
        i := i + 1;
      }
      return SkippedItem(None);
    }

    method ClearWaiting(now: int, uid: Id) returns (reply: Reply)
      modifies this
      ensures Did(Clear, now, uid, reply)
      ensures stored.Some? && Contents().paused == old(Contents()).paused
      ensures Contents().items == Filter(old(Contents()).items, (i: Item) => i.state != Waiting)
      ensures reply == Removed(|old(Contents()).items| - |Contents().items|)
    {
      WholeQueueEffects(Contents(), now, uid);
      var data := Contents();
      var before := |Filter(data.items, IsWaiting)|;
      data := data.(items := Filter(data.items, NotWaiting));
      stored := Some(data);
      return Removed(before);
    }

    method ClearEverything(now: int, uid: Id) returns (reply: Reply)
      modifies this
      ensures Did(ClearAll, now, uid, reply)
      ensures stored == Some(Queue(old(Contents()).paused, [])) && reply == Removed(|old(Contents()).items|)
    {
      var data := Contents();
      var count := |data.items|;
      stored := Some(data.(items := []));
      return Removed(count);
    }
  }
}
