/** Any number of processes sharing one queue file (patchi/core/queue.py).

    Every operation reads the file, computes, and writes it back as separate
    steps. All operations but `clear` and `clear_all` hold an exclusive file
    lock from before the read until after the write. A process may die between
    any two steps; the operating system then drops its lock. One `_write` (tmp
    file plus rename) is one step. */
module QueueProtocol {
  import opened Common
  import opened TaskQueue

  type Pid = nat

  datatype Phase =
    | Idle
    | Begun(req: Request)                                // lock taken if the request needs one
    | Loaded(req: Request, snapshot: Queue, seen: nat)   // has read version `seen` of the file
    | Committed(req: Request)                            // has written, lock not yet released

  datatype Entry = Entry(req: Request, now: int, uid: Id, reply: Reply)

  /** `file`, `holder` and `phases` are the system. The other fields are its
      history: the number of writes, the latest clock reading, all ids ever
      generated, all ids ever stored in a state other than WAITING, and the
      requests in the order of their write steps. */
  datatype System = System(
    file: Option<Queue>, holder: Option<Pid>, phases: map<Pid, Phase>,
    version: nat, clock: int, issued: set<Id>, retired: set<Id>, log: seq<Entry>)
  {
    function PhaseOf(p: Pid): Phase { if p in phases then phases[p] else Idle }
    function Contents(): Queue { if file.None? then EMPTY_QUEUE else file.value }
  }

  datatype Event =
    | Begin(p: Pid, req: Request)
    | Read(p: Pid)
    | Commit(p: Pid, now: int, uid: Id)
    | Release(p: Pid)
    | Die(p: Pid)

  predicate Enabled(s: System, e: Event) {
    match e
    case Begin(p, req) => s.PhaseOf(p).Idle? && (req.TakesLock() ==> s.holder.None?)
    case Read(p) => s.PhaseOf(p).Begun?
    case Commit(p, now, uid) => s.PhaseOf(p).Loaded? && s.clock <= now && uid !in s.issued
    case Release(p) => s.PhaseOf(p).Committed?
    case Die(p) => true
  }

  function IdsWhere(q: Queue, state: Item -> bool): set<Id> {
    set i | 0 <= i < |q.items| && state(q.items[i]) :: q.items[i].id
  }

  function WaitingIds(q: Queue): set<Id> { IdsWhere(q, IsWaiting) }
  function RetiredIds(q: Queue): set<Id> { IdsWhere(q, NotWaiting) }
  function AllIds(q: Queue): set<Id> { set i | 0 <= i < |q.items| :: q.items[i].id }

  function Step(s: System, e: Event): System
    requires Enabled(s, e)
  {
    match e
    case Begin(p, req) =>
      s.(phases := s.phases[p := Begun(req)], holder := if req.TakesLock() then Some(p) else s.holder)
    case Read(p) =>
      s.(phases := s.phases[p := Loaded(s.phases[p].req, s.Contents(), s.version)])
    case Commit(p, now, uid) =>
      var ph := s.phases[p];
      var o := Effect(ph.req, ph.snapshot, now, uid);
      s.(phases := s.phases[p := Committed(ph.req)],
         file := if o.writes then Some(o.queue) else s.file,
         version := if o.writes then s.version + 1 else s.version,
         clock := now,
         issued := s.issued + {uid},
         retired := if o.writes then s.retired + RetiredIds(o.queue) else s.retired,
         log := s.log + [Entry(ph.req, now, uid, o.reply)])
    case Release(p) => Drop(s, p)
    case Die(p) => Drop(s, p)
  }

  /** The process stops holding anything. */
  function Drop(s: System, p: Pid): System {
    s.(phases := s.phases[p := Idle], holder := if s.holder == Some(p) then None else s.holder)
  }

  predicate Runs(s: System, es: seq<Event>)
    decreases es
  {
    es == [] || (Enabled(s, es[0]) && Runs(Step(s, es[0]), es[1..]))
  }

  function After(s: System, es: seq<Event>): System
    requires Runs(s, es)
    decreases es
  {
    if es == [] then s else After(Step(s, es[0]), es[1..])
  }

  lemma {:induction false} RunsConcat(s: System, es: seq<Event>, fs: seq<Event>)
    requires Runs(s, es + fs)
    ensures Runs(s, es) && Runs(After(s, es), fs)
    ensures After(s, es + fs) == After(After(s, es), fs)
    decreases es
  {
    if es == [] {
      assert es + fs == fs;
    } else {
      assert (es + fs)[1..] == es[1..] + fs;
      RunsConcat(Step(s, es[0]), es[1..], fs);
    }
  }

  // ---- The inductive invariant ----

  ghost predicate DistinctIds(q: Queue) {
    forall i, j :: 0 <= i < j < |q.items| ==> q.items[i].id != q.items[j].id
  }

  /** Items are listed in the order of their creation times. */
  ghost predicate OrderedByCreated(q: Queue) {
    forall i, j :: 0 <= i < j < |q.items| ==> q.items[i].created <= q.items[j].created
  }

  ghost predicate Sound(q: Queue, clock: int, issued: set<Id>, retired: set<Id>) {
    && Depth(q) <= QUEUE_MAX_DEPTH
    && DistinctIds(q)
    && OrderedByCreated(q)
    && (forall i :: 0 <= i < |q.items| ==> q.items[i].created <= clock)
    && AllIds(q) <= issued
    && RetiredIds(q) <= retired
  }

  ghost predicate PhaseSound(s: System, p: Pid) {
    var ph := s.PhaseOf(p);
    && (!ph.Idle? && ph.req.TakesLock() ==> s.holder == Some(p))
    && (ph.Loaded? ==>
          && Sound(ph.snapshot, s.clock, s.issued, s.retired)
          && ph.seen <= s.version
          && (ph.req.TakesLock() ==> WaitingIds(ph.snapshot) !! s.retired))
  }

  ghost predicate Inv(s: System) {
    && Sound(s.Contents(), s.clock, s.issued, s.retired)
    && WaitingIds(s.Contents()) !! s.retired
    && s.retired <= s.issued
    && forall p: Pid :: PhaseSound(s, p)
  }

  /** A system at rest, its file holding whatever earlier sessions left there. */
  ghost predicate Initial(s: System) {
    && s.phases == map[] && s.holder == None && s.version == 0 && s.log == []
    && s.issued == AllIds(s.Contents()) && s.retired == RetiredIds(s.Contents())
    && Sound(s.Contents(), s.clock, s.issued, s.retired)
  }

  lemma IdsSplit(q: Queue)
    ensures AllIds(q) == WaitingIds(q) + RetiredIds(q)
    ensures DistinctIds(q) ==> WaitingIds(q) !! RetiredIds(q)
  {
    forall x | x in AllIds(q) ensures x in WaitingIds(q) + RetiredIds(q) {
      var i :| 0 <= i < |q.items| && q.items[i].id == x;
      assert IsWaiting(q.items[i]) || NotWaiting(q.items[i]);
    }
  }

  /** Of an orderly list, the first item is the oldest and its id is its own. */
  ghost predicate Leads(x: Item, items: seq<Item>) {
    forall y :: y in items ==> y.id != x.id && x.created <= y.created
  }

  lemma LeadsTail(items: seq<Item>)
    requires items != [] && DistinctIds(Queue(false, items)) && OrderedByCreated(Queue(false, items))
    ensures Leads(items[0], items[1..])
    ensures DistinctIds(Queue(false, items[1..])) && OrderedByCreated(Queue(false, items[1..]))
  {
  }

  lemma LeadsCons(x: Item, items: seq<Item>)
    requires Leads(x, items) && DistinctIds(Queue(false, items)) && OrderedByCreated(Queue(false, items))
    ensures DistinctIds(Queue(false, [x] + items)) && OrderedByCreated(Queue(false, [x] + items))
  {
  }

  lemma {:induction false} FilterKeepsOrder(items: seq<Item>, keep: Item -> bool)
    requires DistinctIds(Queue(false, items)) && OrderedByCreated(Queue(false, items))
    ensures DistinctIds(Queue(false, Filter(items, keep)))
    ensures OrderedByCreated(Queue(false, Filter(items, keep)))
  {
    if items != [] {
      LeadsTail(items);
      FilterKeepsOrder(items[1..], keep);
      LeadsCons(items[0], Filter(items[1..], keep));
    }
  }

  /** q' follows from q: same or one more item, ids and creation times kept. */
  ghost predicate Follows(q: Queue, q': Queue, now: int, uid: Id) {
    && DistinctIds(q') && OrderedByCreated(q')
    && (forall i :: 0 <= i < |q'.items| ==> q'.items[i].created <= now)
    && AllIds(q') <= AllIds(q) + {uid}
    && WaitingIds(q') <= WaitingIds(q) + {uid}
  }

  ghost predicate WellOrdered(q: Queue, now: int, uid: Id) {
    && DistinctIds(q) && OrderedByCreated(q)
    && (forall i :: 0 <= i < |q.items| ==> q.items[i].created <= now)
    && uid !in AllIds(q)
  }

  lemma AppendFollows(q: Queue, task: Task, now: int, uid: Id)
    requires WellOrdered(q, now, uid)
    ensures Follows(q, q.(items := q.items + [NewItem(task, uid, now)]), now, uid)
  {
  }

  lemma MarkFollows(q: Queue, i: nat, mark: Mark, now: int, uid: Id)
    requires WellOrdered(q, now, uid) && i < |q.items|
    ensures Follows(q, q.(items := q.items[i := Marked(q.items[i], mark)]), now, uid)
  {
    var q' := q.(items := q.items[i := Marked(q.items[i], mark)]);
    forall j | 0 <= j < |q'.items|
      ensures q'.items[j].id == q.items[j].id && q'.items[j].created == q.items[j].created
      ensures IsWaiting(q'.items[j]) ==> IsWaiting(q.items[j])
    {
    }
  }

  lemma ClearFollows(q: Queue, now: int, uid: Id)
    requires WellOrdered(q, now, uid)
    ensures var q' := q.(items := Filter(q.items, NotWaiting));
            Follows(q, q', now, uid) && WaitingIds(q') == {} && RetiredIds(q') <= RetiredIds(q)
  {
    var q' := q.(items := Filter(q.items, NotWaiting));
    FilterKeepsOrder(q.items, NotWaiting);
    forall i | 0 <= i < |q'.items|
      ensures NotWaiting(q'.items[i])
      ensures exists k :: 0 <= k < |q.items| && q.items[k] == q'.items[i]
    {
      assert q'.items[i] in q'.items;
    }
  }

  lemma EffectFollows(r: Request, q: Queue, now: int, uid: Id)
    requires WellOrdered(q, now, uid)
    ensures Follows(q, Effect(r, q, now, uid).queue, now, uid)
  {
    match r
    case Enqueue(task) => AppendFollows(q, task, now, uid);
    case Update(id, mark) =>
      var i := FindId(q.items, id);
      if i < |q.items| { MarkFollows(q, i, mark, now, uid); }
    case SkipActive =>
      var i := FindActive(q.items);
      if i < |q.items| { MarkFollows(q, i, MarkSkipped(now), now, uid); }
    case Clear => ClearFollows(q, now, uid);
    case _ =>
  }

  lemma UnlockedKeepsNoneWaiting(r: Request, q: Queue, now: int, uid: Id)
    requires WellOrdered(q, now, uid) && !r.TakesLock()
    ensures var q' := Effect(r, q, now, uid).queue;
            WaitingIds(q') == {} && RetiredIds(q') <= RetiredIds(q)
  {
    if r.Clear? { ClearFollows(q, now, uid); }
  }

  /** One operation computed from a sound snapshot gives a sound queue; ids it
      shows as WAITING were WAITING in the snapshot or are the new one, and the
      unlocked operations write no WAITING id at all. */
  lemma EffectSound(r: Request, q: Queue, now: int, uid: Id, clock: int, issued: set<Id>, retired: set<Id>)
    requires Sound(q, clock, issued, retired) && clock <= now && uid !in issued
    ensures var q' := Effect(r, q, now, uid).queue;
            && Sound(q', now, issued + {uid}, retired + RetiredIds(q'))
            && WaitingIds(q') <= WaitingIds(q) + {uid}
            && (!r.TakesLock() ==> WaitingIds(q') == {} && RetiredIds(q') <= RetiredIds(q))
  {
    EffectBoundsDepth(r, q, now, uid);
    EffectFollows(r, q, now, uid);
    if !r.TakesLock() { UnlockedKeepsNoneWaiting(r, q, now, uid); }
  }

  lemma {:induction false} StepKeepsInv(s: System, e: Event)
    requires Inv(s) && Enabled(s, e)
    ensures Inv(Step(s, e))
    ensures s.retired <= Step(s, e).retired
  {
    var s' := Step(s, e);
    assert PhaseSound(s, e.p);
    if e.Commit? {
      CommitKeepsInv(s, e);
    } else {
      assert s'.Contents() == s.Contents();
      forall q: Pid ensures PhaseSound(s', q) {
        assert PhaseSound(s, q);
      }
    }
  }

  lemma CommitKeepsInv(s: System, e: Event)
    requires Inv(s) && Enabled(s, e) && e.Commit?
    ensures Inv(Step(s, e))
  {
    var s' := Step(s, e);
    var ph := s.phases[e.p];
    var o := Effect(ph.req, ph.snapshot, e.now, e.uid);
    assert PhaseSound(s, e.p);
    EffectSound(ph.req, ph.snapshot, e.now, e.uid, s.clock, s.issued, s.retired);
    IdsSplit(o.queue);
    assert !ph.req.TakesLock() ==> s'.retired == s.retired;
    forall q: Pid ensures PhaseSound(s', q) {
      assert PhaseSound(s, q);
      SoundLater(s, e, q);
    }
  }

  /** What was sound stays so as time passes and more ids are known. */
  lemma SoundLater(s: System, e: Event, p: Pid)
    requires Enabled(s, e) && e.Commit? && PhaseSound(s, p) && PhaseSound(s, e.p)
    requires !s.phases[e.p].req.TakesLock() ==> Step(s, e).retired == s.retired
    ensures PhaseSound(Step(s, e), p)
  {
  }

  lemma {:induction false} RunKeepsInv(s: System, es: seq<Event>)
    requires Inv(s) && Runs(s, es)
    ensures Inv(After(s, es))
    ensures s.retired <= After(s, es).retired
    decreases es
  {
    if es != [] {
      StepKeepsInv(s, es[0]);
      RunKeepsInv(Step(s, es[0]), es[1..]);
    }
  }

  lemma InitialInv(s: System)
    requires Initial(s)
    ensures Inv(s)
  {
    IdsSplit(s.Contents());
    assert forall p: Pid :: s.PhaseOf(p) == Idle;
  }

  /** Whether an operation ends or its process dies: the lock it held is free,
      and neither the file nor another process is affected. */
  lemma LockIsReleased(s: System, e: Event)
    requires Enabled(s, e) && (e.Release? || e.Die?)
    ensures var s' := Step(s, e);
            && s'.PhaseOf(e.p).Idle?
            && s'.holder == (if s.holder == Some(e.p) then None else s.holder)
            && s'.file == s.file && s'.log == s.log && s'.version == s.version
            && forall p: Pid :: p != e.p ==> s'.PhaseOf(p) == s.PhaseOf(p)
  {
  }

  // ---- Safety over every interleaving, unlocked clears and crashes included ----

  /** The stored queue never holds more than QUEUE_MAX_DEPTH waiting items. */
  lemma DepthNeverExceeded(s: System, es: seq<Event>)
    requires Initial(s) && Runs(s, es)
    ensures Depth(After(s, es).Contents()) <= QUEUE_MAX_DEPTH
  {
    InitialInv(s);
    RunKeepsInv(s, es);
  }

  /** Once an id is stored as active, done, failed or skipped, no later state
      of the file shows it as WAITING. */
  lemma NeverWaitingAgain(s: System, es: seq<Event>, fs: seq<Event>, x: Id)
    requires Initial(s) && Runs(s, es + fs)
    requires Runs(s, es) && x in RetiredIds(After(s, es).Contents())
    ensures x !in WaitingIds(After(s, es + fs).Contents())
  {
    InitialInv(s);
    RunsConcat(s, es, fs);
    RunKeepsInv(s, es);
    RunKeepsInv(After(s, es), fs);
  }

  /** Ids stay unique and the list stays in creation order. */
  lemma FileStaysOrdered(s: System, es: seq<Event>)
    requires Initial(s) && Runs(s, es)
    ensures DistinctIds(After(s, es).Contents()) && OrderedByCreated(After(s, es).Contents())
  {
    InitialInv(s);
    RunKeepsInv(s, es);
  }

  // ---- Linearizability ----

  /** Replaying whole operations one after the other. */
  function Replay(q: Queue, log: seq<Entry>): Queue {
    if log == [] then q
    else
      var last := log[|log| - 1];
      Effect(last.req, Replay(q, log[..|log| - 1]), last.now, last.uid).queue
  }

  /** Every reply in the log is the one the replay gives at that point. */
  ghost predicate RepliesAgree(q: Queue, log: seq<Entry>) {
    log == [] ||
    var front, last := log[..|log| - 1], log[|log| - 1];
    RepliesAgree(q, front) && last.reply == Effect(last.req, Replay(q, front), last.now, last.uid).reply
  }

  /** No write of another process falls between a process's read and its own
      write, anywhere in the run. */
  predicate Undisturbed(s: System, es: seq<Event>)
    requires Runs(s, es)
    decreases es
  {
    es == [] ||
    ( && (es[0].Commit? ==> s.phases[es[0].p].seen == s.version)
      && Undisturbed(Step(s, es[0]), es[1..]))
  }

  predicate AllLocked(es: seq<Event>) {
    forall i :: 0 <= i < |es| && es[i].Begin? ==> es[i].req.TakesLock()
  }

  /** What holds on locked-only runs: whoever has read is up to date. */
  ghost predicate LockedInv(s: System) {
    forall p: Pid :: !s.PhaseOf(p).Idle? ==>
      && s.PhaseOf(p).req.TakesLock()
      && s.holder == Some(p)
      && (s.PhaseOf(p).Loaded? ==> s.PhaseOf(p).seen == s.version)
  }

  lemma LockedStep(s: System, e: Event)
    requires LockedInv(s) && Enabled(s, e) && (e.Begin? ==> e.req.TakesLock())
    ensures LockedInv(Step(s, e))
    ensures e.Commit? ==> s.phases[e.p].seen == s.version
  {
    var s' := Step(s, e);
    assert !s.PhaseOf(e.p).Idle? || e.Begin? || e.Die?;
    forall p: Pid | !s'.PhaseOf(p).Idle?
      ensures s'.PhaseOf(p).req.TakesLock() && s'.holder == Some(p)
      ensures s'.PhaseOf(p).Loaded? ==> s'.PhaseOf(p).seen == s'.version
    {
      assert !s.PhaseOf(p).Idle? || p == e.p;
    }
  }

  lemma {:induction false} LockedRunsUndisturbed(s: System, es: seq<Event>)
    requires LockedInv(s) && Runs(s, es) && AllLocked(es)
    ensures Undisturbed(s, es)
    decreases es
  {
    if es != [] {
      var s' := Step(s, es[0]);
      LockedStep(s, es[0]);
      LockedRunsUndisturbed(s', es[1..]);
    }
  }

  /** The file is the replay of the log, from a file that held `q0`, and the
      replies are the replay's. */
  ghost predicate Explained(q: Queue, log: seq<Entry>, q0: Queue) {
    q == Replay(q0, log) && RepliesAgree(q0, log)
  }

  /** A process that has read the current version has the current contents. */
  ghost predicate UpToDate(s: System, p: Pid) {
    s.PhaseOf(p).Loaded? ==>
      && s.PhaseOf(p).seen <= s.version
      && (s.PhaseOf(p).seen == s.version ==> s.PhaseOf(p).snapshot == s.Contents())
  }

  /** Invariant of undisturbed runs. */
  ghost predicate Linear(s: System, q0: Queue) {
    && Explained(s.Contents(), s.log, q0)
    && forall p: Pid :: UpToDate(s, p)
  }

  lemma OneMoreEntry(q: Queue, log: seq<Entry>, q0: Queue, e: Entry)
    requires Explained(q, log, q0) && e.reply == Effect(e.req, q, e.now, e.uid).reply
    ensures Explained(Effect(e.req, q, e.now, e.uid).queue, log + [e], q0)
  {
    assert (log + [e])[..|log|] == log;
  }

  lemma CommitIsExplained(s: System, e: Event, q0: Queue)
    requires Explained(s.Contents(), s.log, q0) && UpToDate(s, e.p)
    requires e.Commit? && Enabled(s, e) && s.phases[e.p].seen == s.version
    ensures Explained(Step(s, e).Contents(), Step(s, e).log, q0)
  {
    var req, q := s.phases[e.p].req, s.Contents();
    NoWriteNoChange(req, q, e.now, e.uid);
    OneMoreEntry(q, s.log, q0, Entry(req, e.now, e.uid, Effect(req, q, e.now, e.uid).reply));
  }

  lemma StaysUpToDate(s: System, e: Event, p: Pid)
    requires UpToDate(s, p) && Enabled(s, e)
    ensures UpToDate(Step(s, e), p)
  {
  }

  lemma LinearStep(s: System, e: Event, q0: Queue)
    requires Linear(s, q0) && Enabled(s, e) && (e.Commit? ==> s.phases[e.p].seen == s.version)
    ensures Linear(Step(s, e), q0)
  {
    if e.Commit? { CommitIsExplained(s, e, q0); }
    forall p: Pid ensures UpToDate(Step(s, e), p) { StaysUpToDate(s, e, p); }
  }

  lemma {:induction false} UndisturbedIsLinear(s: System, es: seq<Event>, q0: Queue)
    requires Linear(s, q0) && Runs(s, es) && Undisturbed(s, es)
    ensures Linear(After(s, es), q0)
    decreases es
  {
    if es != [] {
      LinearStep(s, es[0], q0);
      UndisturbedIsLinear(Step(s, es[0]), es[1..], q0);
    }
  }

  lemma NoWriteNoChange(r: Request, q: Queue, now: int, uid: Id)
    ensures !Effect(r, q, now, uid).writes ==> Effect(r, q, now, uid).queue == q
  {
  }

  /** Linearizability: in a run where no write falls between a process's read
      and its write, the file is the replay of the operations in commit order
      and every caller got the reply of that replay. */
  lemma UndisturbedRunsLinearizable(s: System, es: seq<Event>)
    requires Initial(s) && Runs(s, es) && Undisturbed(s, es)
    ensures After(s, es).Contents() == Replay(s.Contents(), After(s, es).log)
    ensures RepliesAgree(s.Contents(), After(s, es).log)
  {
    UndisturbedIsLinear(s, es, s.Contents());
  }

  function Ids(items: seq<Item>): seq<Id> {
    seq(|items|, i requires 0 <= i < |items| => items[i].id)
  }

  /** The ids handed out by the successful enqueues of a log, in order. */
  function EnqueuedIds(log: seq<Entry>): seq<Id> {
    if log == [] then []
    else
      var last := log[|log| - 1];
      EnqueuedIds(log[..|log| - 1]) + (if last.reply.Enqueued? then [last.reply.id] else [])
  }

  /** A locked operation appends the id it answers with, and no other. */
  lemma LockedEffectIds(r: Request, q: Queue, now: int, uid: Id)
    requires r.TakesLock()
    ensures var o := Effect(r, q, now, uid);
            Ids(o.queue.items) == Ids(q.items) + (if o.reply.Enqueued? then [o.reply.id] else [])
  {
  }

  lemma {:induction false} ReplayAppendsIds(q: Queue, log: seq<Entry>)
    requires forall i :: 0 <= i < |log| ==> log[i].req.TakesLock()
    requires RepliesAgree(q, log)
    ensures Ids(Replay(q, log).items) == Ids(q.items) + EnqueuedIds(log)
  {
    if log != [] {
      var n := |log| - 1;
      var front, last := log[..n], log[n];
      ReplayAppendsIds(q, front);
      LockedEffectIds(last.req, Replay(q, front), last.now, last.uid);
    }
  }

  lemma {:induction false} LockedRunsLogLocked(s: System, es: seq<Event>)
    requires LockedInv(s) && Runs(s, es) && AllLocked(es)
    requires forall i :: 0 <= i < |s.log| ==> s.log[i].req.TakesLock()
    ensures forall i :: 0 <= i < |After(s, es).log| ==> After(s, es).log[i].req.TakesLock()
    decreases es
  {
    if es != [] {
      var s' := Step(s, es[0]);
      LockedStep(s, es[0]);
      LockedRunsLogLocked(s', es[1..]);
    }
  }

  /** With locked operations only, every concurrent run, crashes included, is
      linearizable: the file is the replay in lock order, replies agree, the id
      list only grows at its end, and it holds each enqueued id exactly once. */
  lemma LockedRunsLinearizable(s: System, es: seq<Event>)
    requires Initial(s) && Runs(s, es) && AllLocked(es)
    ensures After(s, es).Contents() == Replay(s.Contents(), After(s, es).log)
    ensures RepliesAgree(s.Contents(), After(s, es).log)
    ensures Ids(After(s, es).Contents().items) == Ids(s.Contents().items) + EnqueuedIds(After(s, es).log)
    ensures DistinctIds(After(s, es).Contents())
  {
    LockedRunsUndisturbed(s, es);
    UndisturbedRunsLinearizable(s, es);
    LockedRunsLogLocked(s, es);
    ReplayAppendsIds(s.Contents(), After(s, es).log);
    FileStaysOrdered(s, es);
  }

  lemma {:induction false} RunsSnoc(s: System, es: seq<Event>, e: Event)
    requires Runs(s, es) && Enabled(After(s, es), e)
    ensures Runs(s, es + [e]) && After(s, es + [e]) == Step(After(s, es), e)
    decreases es
  {
    if es == [] {
      assert [e][1..] == [];
    } else {
      assert (es + [e])[1..] == es[1..] + [e];
      RunsSnoc(Step(s, es[0]), es[1..], e);
    }
  }

  /** An operation that runs alone has exactly its Effect on the file, logs its
      reply, and leaves the lock as it found it. */
  lemma WholeOperation(s: System, p: Pid, req: Request, now: int, uid: Id)
    requires s.PhaseOf(p).Idle? && (req.TakesLock() ==> s.holder.None?) && s.holder != Some(p)
    requires s.clock <= now && uid !in s.issued
    ensures Runs(s, Whole(p, req, now, uid))
    ensures var o, s' := Effect(req, s.Contents(), now, uid), After(s, Whole(p, req, now, uid));
            && s'.file == (if o.writes then Some(o.queue) else s.file)
            && s'.log == s.log + [Entry(req, now, uid, o.reply)]
            && s'.holder == s.holder && s'.PhaseOf(p).Idle?
            && forall r: Pid :: r != p ==> s'.PhaseOf(r) == s.PhaseOf(r)
  {
    RunsSnoc(s, [], Begin(p, req));
    assert [] + [Begin(p, req)] == [Begin(p, req)];
    RunsSnoc(s, [Begin(p, req)], Read(p));
    RunsSnoc(s, [Begin(p, req)] + [Read(p)], Commit(p, now, uid));
    RunsSnoc(s, [Begin(p, req)] + [Read(p)] + [Commit(p, now, uid)], Release(p));
  }

  /** The steps of one operation. */
  function Whole(p: Pid, req: Request, now: int, uid: Id): seq<Event> {
    [Begin(p, req)] + [Read(p)] + [Commit(p, now, uid)] + [Release(p)]
  }

  /** A queue holding only the active item x, nobody working on it. */
  function OnlyItem(x: Item): System {
    System(Some(Queue(false, [x])), None, map[], 0, x.created, {x.id}, {x.id}, [])
  }

  /** Process 0 starts an unlocked clear and reads; process 1 marks x done. */
  function ClearThenMark(x: Item, done: Mark, a: Id): seq<Event> {
    [Begin(0, Clear)] + [Read(0)] + [Begin(1, Update(x.id, done))] + [Read(1)] + [Commit(1, x.created, a)]
  }

  lemma ClearThenMarkRuns(x: Item, done: Mark, a: Id)
    requires x.state == Active && x.id != a
    ensures Initial(OnlyItem(x))
    ensures Runs(OnlyItem(x), ClearThenMark(x, done, a))
    ensures var s := After(OnlyItem(x), ClearThenMark(x, done, a));
            && s.Contents().items == [Marked(x, done)]
            && s.PhaseOf(0) == Loaded(Clear, Queue(false, [x]), 0)
            && s.issued == {x.id, a} && s.clock == x.created
  {
    var s := OnlyItem(x);
    assert Filter([x], IsWaiting) == [];
    RunsSnoc(s, [], Begin(0, Clear));
    var es1 := [Begin(0, Clear)];
    assert [] + es1 == es1;
    RunsSnoc(s, es1, Read(0));
    var es2 := es1 + [Read(0)];
    RunsSnoc(s, es2, Begin(1, Update(x.id, done)));
    var es3 := es2 + [Begin(1, Update(x.id, done))];
    RunsSnoc(s, es3, Read(1));
    var es4 := es3 + [Read(1)];
    assert After(s, es4).PhaseOf(1) == Loaded(Update(x.id, done), Queue(false, [x]), 0);
    RunsSnoc(s, es4, Commit(1, x.created, a));
    assert [x][0 := Marked(x, done)] == [Marked(x, done)];
  }

  /** What an overtaken unlocked `clear` does to the file: it puts an item that
      `mark_done` has finished back to ACTIVE, and no order of the two operations
      explains the file it leaves. */
  lemma UnlockedClearIsNotLinearizable(x: Item, done: Mark, a: Id, b: Id)
    requires x.state == Active && done.MarkDone? && a != b && x.id != a && x.id != b
    ensures Initial(OnlyItem(x))
    ensures Runs(OnlyItem(x), ClearThenMark(x, done, a) + [Commit(0, x.created, b)])
    ensures After(OnlyItem(x), ClearThenMark(x, done, a) + [Commit(0, x.created, b)]).Contents().items == [x]
    ensures forall n, r :: var mark, clear := Entry(Update(x.id, done), n, a, r), Entry(Clear, n, b, r);
              && Replay(Queue(false, [x]), [mark, clear]).items == [Marked(x, done)]
              && Replay(Queue(false, [x]), [clear, mark]).items == [Marked(x, done)]
    ensures Marked(x, done).state == Done
  {
    var q, y := Queue(false, [x]), Marked(x, done);
    ClearThenMarkRuns(x, done, a);
    RunsSnoc(OnlyItem(x), ClearThenMark(x, done, a), Commit(0, x.created, b));
    assert Filter([x], NotWaiting) == [x] && Filter([y], NotWaiting) == [y];
    forall n, r
      ensures var mark, clear := Entry(Update(x.id, done), n, a, r), Entry(Clear, n, b, r);
              Replay(q, [mark, clear]).items == [y] && Replay(q, [clear, mark]).items == [y]
    {
      var mark, clear := Entry(Update(x.id, done), n, a, r), Entry(Clear, n, b, r);
      assert [x][0 := y] == [y];
      ReplayTwo(q, mark, clear);
      ReplayTwo(q, clear, mark);
    }
  }

  lemma ReplayTwo(q: Queue, e: Entry, f: Entry)
    ensures Replay(q, [e, f]) == Effect(f.req, Effect(e.req, q, e.now, e.uid).queue, f.now, f.uid).queue
  {
    assert [e, f][..1] == [e] && [e][..0] == [];
    assert Replay(q, []) == q;
  }

  // ---- Exactly which operations may run concurrently ----

  ghost predicate InCommitOrder(s: System, es: seq<Event>) {
    Runs(s, es) ==> Explained(After(s, es).Contents(), After(s, es).log, s.Contents())
  }

  /** Some order of the completed operations explains the file and all replies. */
  ghost predicate InSomeOrder(s: System, es: seq<Event>) {
    Runs(s, es) ==>
      exists order ::
        && multiset(order) == multiset(After(s, es).log)
        && Explained(After(s, es).Contents(), order, s.Contents())
  }

  /** Only allowed operations are begun. */
  ghost predicate Uses(es: seq<Event>, allowed: Request -> bool) {
    forall i :: 0 <= i < |es| && es[i].Begin? ==> allowed(es[i].req)
  }

  /** Two processes run the same request; both read before either writes. */
  function Overlap(r: Request, a: Id, b: Id): seq<Event> {
    [Begin(0, r)] + [Begin(1, r)] + [Read(0)] + [Read(1)] + [Commit(0, 0, a)] + [Commit(1, 0, b)]
  }

  /** A queue holding only the waiting item x, nobody working on it. */
  function OnlyWaiting(x: Item): System {
    System(Some(Queue(false, [x])), None, map[], 0, x.created, {x.id}, {}, [])
  }

  lemma OnlyWaitingInitial(x: Item)
    requires IsWaiting(x)
    ensures Initial(OnlyWaiting(x))
  {
    var q := Queue(false, [x]);
    assert AllIds(q) == {x.id} by { assert q.items[0].id == x.id; }
    assert Depth(q) <= 1;
  }

  /** An unlocked request on one waiting item removes it and answers 1; on what
      it leaves it answers 0. */
  lemma UnlockedRemoves(r: Request, x: Item, now: int, uid: Id)
    requires !r.TakesLock() && IsWaiting(x)
    ensures var q := Queue(false, [x]);
            && Effect(r, q, now, uid) == Outcome(true, Queue(false, []), Removed(1))
            && forall later, other :: Effect(r, Queue(false, []), later, other).reply == Removed(0)
  {
    assert Filter([x], IsWaiting) == [x] && Filter([x], NotWaiting) == [];
    assert Filter<Item>([], IsWaiting) == [];
  }

  lemma OverlapRuns(r: Request, x: Item, a: Id, b: Id)
    requires !r.TakesLock() && IsWaiting(x) && x.created == 0 && x.id != a && x.id != b && a != b
    ensures Runs(OnlyWaiting(x), Overlap(r, a, b))
    ensures After(OnlyWaiting(x), Overlap(r, a, b)).log == [Entry(r, 0, a, Removed(1)), Entry(r, 0, b, Removed(1))]
  {
    var s := OnlyWaiting(x);
    UnlockedRemoves(r, x, 0, a);
    UnlockedRemoves(r, x, 0, b);
    OverlapReads(s, r);
    var es := [Begin(0, r)] + [Begin(1, r)] + [Read(0)] + [Read(1)];
    RunsSnoc(s, es, Commit(0, 0, a));
    RunsSnoc(s, es + [Commit(0, 0, a)], Commit(1, 0, b));
  }

  lemma OverlapReads(s: System, r: Request)
    requires !r.TakesLock() && s.phases == map[]
    ensures var es, loaded := [Begin(0, r)] + [Begin(1, r)] + [Read(0)] + [Read(1)], Loaded(r, s.Contents(), s.version);
            Runs(s, es) && After(s, es) == s.(phases := map[0 := loaded, 1 := loaded])
  {
    OverlapBegins(s, r);
    var es := [Begin(0, r)] + [Begin(1, r)];
    RunsSnoc(s, es, Read(0));
    RunsSnoc(s, es + [Read(0)], Read(1));
  }

  lemma OverlapBegins(s: System, r: Request)
    requires !r.TakesLock() && s.phases == map[]
    ensures var es := [Begin(0, r)] + [Begin(1, r)];
            Runs(s, es) && After(s, es) == s.(phases := map[0 := Begun(r), 1 := Begun(r)])
  {
    RunsSnoc(s, [], Begin(0, r));
    assert [] + [Begin(0, r)] == [Begin(0, r)];
    RunsSnoc(s, [Begin(0, r)], Begin(1, r));
  }

  /** One of two requests answering Removed(1) comes second in any order, and
      would have answered Removed(0) there. */
  lemma NoOrderRemovesTwice(r: Request, x: Item, a: Id, b: Id, order: seq<Entry>)
    requires !r.TakesLock() && IsWaiting(x)
    requires multiset(order) == multiset([Entry(r, 0, a, Removed(1)), Entry(r, 0, b, Removed(1))])
    ensures !RepliesAgree(Queue(false, [x]), order)
  {
    assert |order| == |multiset(order)| == 2;
    assert order[0] in multiset(order) && order[1] in multiset(order);
    var first, second := order[0], order[1];
    assert order[..1] == [first] && [first][..0] == [];
    assert Replay(Queue(false, [x]), []) == Queue(false, [x]);
    UnlockedRemoves(r, x, first.now, first.uid);
    assert Replay(Queue(false, [x]), [first]) == Queue(false, []);
  }

  /** A single unlocked request is enough to break the order of operations: two
      overlapping runs of it both claim the one waiting item. */
  lemma UnlockedBreaksOrder(r: Request) returns (s: System, es: seq<Event>)
    requires !r.TakesLock()
    ensures Initial(s) && Runs(s, es) && (forall i :: 0 <= i < |es| && es[i].Begin? ==> es[i].req == r)
    ensures !InSomeOrder(s, es)
  {
    var x := NewItem(Task("scan", "full", None, 0, map[]), "w", 0);
    s, es := OnlyWaiting(x), Overlap(r, "a", "b");
    OnlyWaitingInitial(x);
    OverlapRuns(r, x, "a", "b");
    forall order | multiset(order) == multiset(After(s, es).log)
      ensures !RepliesAgree(s.Contents(), order)
    {
      NoOrderRemovesTwice(r, x, "a", "b", order);
    }
  }

  lemma CommitOrderIsSomeOrder(s: System, es: seq<Event>)
    requires InCommitOrder(s, es)
    ensures InSomeOrder(s, es)
  {
  }

  /** The exact condition. Concurrent runs of a set of operations always come
      down to the replay in commit order - and even to any order at all - if and
      only if every operation of the set takes the file lock. */
  lemma LinearizableIffAllLocked(allowed: Request -> bool)
    ensures (forall s, es :: Initial(s) && Uses(es, allowed) ==> InCommitOrder(s, es)) <==>
              (forall r :: allowed(r) ==> r.TakesLock())
    ensures (forall s, es :: Initial(s) && Uses(es, allowed) ==> InSomeOrder(s, es)) <==>
              (forall r :: allowed(r) ==> r.TakesLock())
  {
    if r :| allowed(r) && !r.TakesLock() {
      var s, es := UnlockedBreaksOrder(r);
      assert Uses(es, allowed);
      if InCommitOrder(s, es) { CommitOrderIsSomeOrder(s, es); }
      assert !InSomeOrder(s, es) && !InCommitOrder(s, es);
    } else {
      forall s, es | Initial(s) && Uses(es, allowed) ensures InCommitOrder(s, es) && InSomeOrder(s, es) {
        if Runs(s, es) { LockedRunsLinearizable(s, es); }
        assert InCommitOrder(s, es);
        CommitOrderIsSomeOrder(s, es);
      }
    }
  }
}
