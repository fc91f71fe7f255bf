/** Heal tasks of one sequence and the counters that report on them (cmd/admin-heal-ops.go). */
module HealTasks {
  import opened Bytes

  /** The kind of thing healed: metadata, bucket, bucket metadata or object. */
  type ItemType = nat

  datatype Phase =
    | Counted              // counted as scanned, not yet offered to the workers
    | Queued               // handed to the workers, the response is awaited
    | Answered(ok: bool)   // the response is here, not yet counted
    | Healed
    | Failed
    | Abandoned            // the sequence was stopped before a response was seen
    | Handed               // nobody waits: handed to the workers
    | Dropped              // nobody waits: the queue was full
    | Settled              // nobody waits: the worker counted the outcome itself

  datatype Task = Task(itemType: ItemType, noWait: bool, phase: Phase)

  /** The three counter maps; an absent key counts 0. */
  datatype Counts = Counts(scanned: map<ItemType, nat>, healed: map<ItemType, nat>, failed: map<ItemType, nat>)

  function Get(m: map<ItemType, nat>, t: ItemType): nat {
    if t in m then m[t] else 0
  }

  function Bump(m: map<ItemType, nat>, t: ItemType): map<ItemType, nat> {
    m[t := Get(m, t) + 1]
  }

  /** The counter of this type went up by one, and no other. */
  ghost predicate Raised(before: map<ItemType, nat>, after: map<ItemType, nat>, t: ItemType) {
    Get(after, t) == Get(before, t) + 1 && forall u :: u != t ==> Get(after, u) == Get(before, u)
  }

  /** countHealed or countFailed. */
  function WithOutcome(c: Counts, t: ItemType, ok: bool): Counts {
    if ok then c.(healed := Bump(c.healed, t)) else c.(failed := Bump(c.failed, t))
  }

  const NONE := Counts(map[], map[], map[])

  /** All tasks ever queued, by number, and the counters. */
  datatype State = State(tasks: seq<Task>, counts: Counts)
  {
    function At(i: nat, phase: Phase): State
      requires i < |tasks|
    {
      State(tasks[i := tasks[i].(phase := phase)], counts)
    }
  }

  datatype Event =
    | Scan(itemType: ItemType, noWait: bool)   // countScanned
    | Offer(task: nat, accepted: bool)         // a task nobody waits for is sent, or dropped if the queue is full
    | WorkerCount(task: nat, resultType: ItemType, ok: bool)   // a worker counts such a task on the background sequence
    | ScanDirect(itemType: ItemType)               // drive healing counts on the background sequence, without a task
    | CountDirect(itemType: ItemType, ok: bool)
    | Send(task: nat)
    | Respond(task: nat, ok: bool)
    | Count(task: nat)                         // countHealed or countFailed
    | Abandon(task: nat)                       // the sequence's context is done

  predicate Enabled(s: State, e: Event) {
    match e
    case Scan(_, _) => true
    case Offer(i, _) => i < |s.tasks| && s.tasks[i].phase == Counted && s.tasks[i].noWait
    case WorkerCount(i, _, _) => i < |s.tasks| && s.tasks[i].phase == Handed
    case ScanDirect(_) => true
    case CountDirect(_, _) => true
    case Send(i) => i < |s.tasks| && s.tasks[i].phase == Counted && !s.tasks[i].noWait
    case Respond(i, _) => i < |s.tasks| && s.tasks[i].phase == Queued
    case Count(i) => i < |s.tasks| && s.tasks[i].phase.Answered?
    case Abandon(i) =>
      i < |s.tasks| && !s.tasks[i].noWait && (s.tasks[i].phase == Counted || s.tasks[i].phase == Queued)
  }

  function Apply(s: State, e: Event): State
    requires Enabled(s, e)
  {
    match e
    case Scan(t, noWait) =>
      State(s.tasks + [Task(t, noWait, Counted)], s.counts.(scanned := Bump(s.counts.scanned, t)))
    case Offer(i, accepted) => s.At(i, if accepted then Handed else Dropped)
    case WorkerCount(i, u, ok) => s.At(i, Settled).(counts := WithOutcome(s.counts, u, ok))
    case ScanDirect(t) => s.(counts := s.counts.(scanned := Bump(s.counts.scanned, t)))
    case CountDirect(t, ok) => s.(counts := WithOutcome(s.counts, t, ok))
    case Send(i) => s.At(i, Queued)
    case Respond(i, ok) => s.At(i, Answered(ok))
    case Count(i) =>
      var ok := s.tasks[i].phase.ok;
      s.At(i, if ok then Healed else Failed).(counts := WithOutcome(s.counts, s.tasks[i].itemType, ok))
    case Abandon(i) => s.At(i, Abandoned)
  }

  function After(events: seq<Event>): Option<State> {
    if events == [] then Some(State([], NONE))
    else
      var before := After(events[..|events| - 1]);
      var e := events[|events| - 1];
      if before.Some? && Enabled(before.value, e) then Some(Apply(before.value, e)) else None
  }

  // ---- counting tasks ----

  datatype Group = All | HealedOnes | FailedOnes | InFlight | AbandonedOnes | Awaited | Unawaited

  predicate In(task: Task, g: Group) {
    match g
    case All => true
    case HealedOnes => task.phase == Healed
    case FailedOnes => task.phase == Failed
    case InFlight => !task.noWait && (task.phase == Counted || task.phase == Queued || task.phase.Answered?)
    case AbandonedOnes => task.phase == Abandoned
    case Awaited => !task.noWait
    case Unawaited => task.noWait
  }

  function One(task: Task, t: ItemType, g: Group): nat {
    if task.itemType == t && In(task, g) then 1 else 0
  }

  /** How many tasks of a type are in a group. */
  function Tally(tasks: seq<Task>, t: ItemType, g: Group): nat {
    if tasks == [] then 0 else Tally(tasks[..|tasks| - 1], t, g) + One(tasks[|tasks| - 1], t, g)
  }

  lemma {:induction false} TallyUpdate(tasks: seq<Task>, i: nat, task: Task, t: ItemType, g: Group)
    requires i < |tasks|
    ensures Tally(tasks[i := task], t, g) + One(tasks[i], t, g) == Tally(tasks, t, g) + One(task, t, g)
  {
    var n := |tasks| - 1;
    if i == n {
      assert tasks[i := task][..n] == tasks[..n];
    } else {
      assert tasks[i := task][..n] == tasks[..n][i := task];
      TallyUpdate(tasks[..n], i, task, t, g);
    }
  }

  lemma TallyPush(tasks: seq<Task>, task: Task, t: ItemType, g: Group)
    ensures Tally(tasks + [task], t, g) == Tally(tasks, t, g) + One(task, t, g)
  {
    assert (tasks + [task])[..|tasks|] == tasks;
  }

  predicate Reported(g: Group) {
    g == All || g == HealedOnes || g == FailedOnes
  }

  function Counter(c: Counts, g: Group): map<ItemType, nat>
    requires Reported(g)
  {
    if g == All then c.scanned else if g == HealedOnes then c.healed else c.failed
  }

  /** The events that move a reported counter of a type although no awaited task stands behind it. */
  predicate Moves(e: Event, t: ItemType, g: Group) {
    match e
    case ScanDirect(u) => u == t && g == All
    case CountDirect(u, ok) => u == t && g == (if ok then HealedOnes else FailedOnes)
    case WorkerCount(_, u, ok) => u == t && g == (if ok then HealedOnes else FailedOnes)
    case _ => false
  }

  /** How often the counter was moved that way. */
  function Direct(events: seq<Event>, t: ItemType, g: Group): nat {
    if events == [] then 0
    else Direct(events[..|events| - 1], t, g) + if Moves(events[|events| - 1], t, g) then 1 else 0
  }

  /** A counter of a type is the number of its tasks in the group that it reports on, and of the moves beside them. */
  predicate CountsGroup(s: State, t: ItemType, g: Group, direct: nat)
    requires Reported(g)
  {
    Get(Counter(s.counts, g), t) == Tally(s.tasks, t, g) + direct
  }

  /** The outcome of a task that nobody waits for is counted by its worker, if at all. */
  predicate WellPhased(task: Task) {
    var unawaited := task.phase == Handed || task.phase == Dropped || task.phase == Settled;
    if task.noWait then task.phase == Counted || unawaited else !unawaited
  }

  predicate AllWellPhased(s: State) {
    forall i :: 0 <= i < |s.tasks| ==> WellPhased(s.tasks[i])
  }

  lemma StepCounts(s: State, e: Event, t: ItemType, g: Group, direct: nat)
    requires Enabled(s, e) && Reported(g) && CountsGroup(s, t, g, direct)
    ensures CountsGroup(Apply(s, e), t, g, direct + if Moves(e, t, g) then 1 else 0)
  {
    hide Tally;
    if e.Scan? {
      TallyPush(s.tasks, Task(e.itemType, e.noWait, Counted), t, g);
    } else if !e.ScanDirect? && !e.CountDirect? {
      TallyUpdate(s.tasks, e.task, Apply(s, e).tasks[e.task], t, g);
    }
  }

  lemma {:induction false} RunCounts(events: seq<Event>, t: ItemType, g: Group)
    requires After(events).Some? && Reported(g)
    ensures CountsGroup(After(events).value, t, g, Direct(events, t, g))
  {
    hide CountsGroup;
    if events != [] {
      var init := events[..|events| - 1];
      RunCounts(init, t, g);
      StepCounts(After(init).value, events[|events| - 1], t, g, Direct(init, t, g));
    } else {
      NothingCounted(t, g);
    }
  }

  lemma NothingCounted(t: ItemType, g: Group)
    requires Reported(g)
    ensures CountsGroup(State([], NONE), t, g, 0)
  {
  }

  /** A counter is the number of its tasks exactly if nothing was counted on the sequence beside its awaited tasks. */
  lemma CountsExactly(events: seq<Event>, t: ItemType, g: Group)
    requires After(events).Some? && Reported(g)
    ensures var s := After(events).value;
            Get(Counter(s.counts, g), t) == Tally(s.tasks, t, g) <==> Direct(events, t, g) == 0
  {
    RunCounts(events, t, g);
  }

  /** That is so for every sequence but the background one. */
  predicate OwnTasksOnly(events: seq<Event>) {
    forall i :: 0 <= i < |events| ==>
      !events[i].ScanDirect? && !events[i].CountDirect? && !events[i].WorkerCount?
  }

  lemma {:induction false} OwnTasksCountNothingElse(events: seq<Event>, t: ItemType, g: Group)
    requires OwnTasksOnly(events)
    ensures Direct(events, t, g) == 0
  {
    if events != [] {
      OwnTasksCountNothingElse(events[..|events| - 1], t, g);
    }
  }

  lemma {:induction false} RunPhases(events: seq<Event>)
    requires After(events).Some?
    ensures AllWellPhased(After(events).value)
  {
    if events != [] {
      RunPhases(events[..|events| - 1]);
    }
  }

  lemma {:induction false} Partition(tasks: seq<Task>, t: ItemType)
    requires forall i :: 0 <= i < |tasks| ==> WellPhased(tasks[i])
    ensures Tally(tasks, t, All) == Tally(tasks, t, Awaited) + Tally(tasks, t, Unawaited)
    ensures Tally(tasks, t, Awaited) ==
            Tally(tasks, t, HealedOnes) + Tally(tasks, t, FailedOnes) + Tally(tasks, t, InFlight) +
            Tally(tasks, t, AbandonedOnes)
  {
    if tasks != [] {
      Partition(tasks[..|tasks| - 1], t);
      assert WellPhased(tasks[|tasks| - 1]);
    }
  }

  /**
   * Conservation, after every interleaving and for each type: every task that waits for a response was counted as
   * healed, or counted as failed, or is in flight, or was abandoned, and none twice; the scanned counter counts
   * these and the tasks that nobody waits for. What the background sequence counts beside its tasks comes on top.
   */
  lemma ScannedIsAccountedFor(events: seq<Event>, t: ItemType)
    requires After(events).Some?
    ensures var s := After(events).value;
            Get(s.counts.scanned, t) - Direct(events, t, All) - Tally(s.tasks, t, Unawaited) ==
            (Get(s.counts.healed, t) - Direct(events, t, HealedOnes)) +
            (Get(s.counts.failed, t) - Direct(events, t, FailedOnes)) +
            Tally(s.tasks, t, InFlight) + Tally(s.tasks, t, AbandonedOnes)
  {
    RunCounts(events, t, All);
    RunCounts(events, t, HealedOnes);
    RunCounts(events, t, FailedOnes);
    RunPhases(events);
    Partition(After(events).value.tasks, t);
    hide After, Tally, Direct;
  }

  /** Without these terms the equation holds exactly if as much was scanned as was healed or failed beside the tasks. */
  lemma PlainlyAccountedForExactly(events: seq<Event>, t: ItemType)
    requires After(events).Some?
    ensures var s := After(events).value;
            Get(s.counts.scanned, t) - Tally(s.tasks, t, Unawaited) ==
            Get(s.counts.healed, t) + Get(s.counts.failed, t) + Tally(s.tasks, t, InFlight) +
            Tally(s.tasks, t, AbandonedOnes)
            <==>
            Direct(events, t, All) == Direct(events, t, HealedOnes) + Direct(events, t, FailedOnes)
  {
    ScannedIsAccountedFor(events, t);
  }

  /** So when nothing is in flight and nothing was abandoned, what was awaited was healed or failed. */
  lemma SettledWhenIdle(events: seq<Event>, t: ItemType)
    requires After(events).Some?
    ensures var s := After(events).value;
            Tally(s.tasks, t, InFlight) + Tally(s.tasks, t, AbandonedOnes) == 0 <==>
            Get(s.counts.healed, t) + Get(s.counts.failed, t) ==
            Tally(s.tasks, t, Awaited) + Direct(events, t, HealedOnes) + Direct(events, t, FailedOnes)
  {
    RunCounts(events, t, HealedOnes);
    RunCounts(events, t, FailedOnes);
    RunPhases(events);
    Partition(After(events).value.tasks, t);
    hide After, Tally, Direct;
  }

  lemma Extend(events: seq<Event>, e: Event)
    requires After(events).Some? && Enabled(After(events).value, e)
    ensures After(events + [e]) == Some(Apply(After(events).value, e))
  {
    assert (events + [e])[..|events|] == events;
  }

  /**
   * One healed object with one version, as drive healing counts it: healed once, and scanned once for the result and
   * once more for the end of the entry. There is no task, and the plain equation reads 2 == 1.
   */
  lemma DriveHealingScansTwice(t: ItemType)
    ensures var s := After([CountDirect(t, true), ScanDirect(t), ScanDirect(t)]);
            s.Some? && s.value.tasks == [] &&
            Get(s.value.counts.scanned, t) == 2 && Get(s.value.counts.healed, t) == 1 &&
            Get(s.value.counts.failed, t) == 0
  {
    var e1, e2 := [CountDirect(t, true)], [CountDirect(t, true), ScanDirect(t)];
    assert After([]) == Some(State([], NONE)) && [] + [CountDirect(t, true)] == e1;
    Extend([], CountDirect(t, true));
    hide After;
    Extend(e1, ScanDirect(t));
    assert e1 + [ScanDirect(t)] == e2;
    Extend(e2, ScanDirect(t));
    assert e2 + [ScanDirect(t)] == [CountDirect(t, true), ScanDirect(t), ScanDirect(t)];
  }
}
