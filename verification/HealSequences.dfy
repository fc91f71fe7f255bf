/**
 * One heal sequence in memory: its life, the queue of results for its client, and its counters
 * (cmd/admin-heal-ops.go). Methods are critical sections, or consist of them.
 */
module HealSequences {
  import opened Bytes
  import Registry = HealRegistry
  import Results = HealResults
  import Tasks = HealTasks

  datatype PushOutcome = Accepted | StopSignalled | IdleTimeout

  datatype PopOutcome = Finished | InvalidClientToken | InternalError | Items(items: seq<Results.Item>)

  /** How the traversal that a sequence starts comes to its end. */
  datatype Ending = Traversed(ok: bool) | ContextDone

  datatype HealError = SkipFile | OtherError

  /** What the worker pool and the context do to one heal task. */
  datatype Fate =
    | StoppedBeforeSend
    | StoppedWhileWaiting
    | Response(err: Option<HealError>, result: string)

  /** What the caller gets: this error or none, or the outcome of the push of the result. */
  datatype Answer = Returned(err: Option<HealError>) | Pushed(outcome: PushOutcome)

  /** A registry that has seen one sequence only. */
  function Alone(h: Registry.Heal): Registry.State {
    Registry.State(map[0 := h], map[], Registry.Free, multiset{})
  }

  /** The step of the registry's machine that ends a sequence. */
  function EndEvent(ending: Ending, now: int): Registry.Event {
    match ending
    case Traversed(ok) => Registry.TraverseDone(0, now, ok)
    case ContextDone => Registry.Event.ContextDone(0, now)
  }

  /** What happens between the first n tries of a push. */
  function Meanwhile(others: nat -> seq<Results.Event>, n: nat): seq<Results.Event> {
    if n == 0 then [] else Meanwhile(others, n - 1) + others(n)
  }

  /** The phase that a task is in after an event of its own that counts nothing, if it can happen. */
  function MovesOn(task: Tasks.Task, i: nat, e: Tasks.Event): Option<Tasks.Phase> {
    match e
    case Offer(k, accepted) =>
      if k == i && task.noWait && task.phase == Tasks.Counted
      then Some(if accepted then Tasks.Handed else Tasks.Dropped)
      else None
    case Send(k) => if k == i && !task.noWait && task.phase == Tasks.Counted then Some(Tasks.Queued) else None
    case Respond(k, ok) => if k == i && task.phase == Tasks.Queued then Some(Tasks.Answered(ok)) else None
    case Abandon(k) =>
      if k == i && !task.noWait && (task.phase == Tasks.Counted || task.phase == Tasks.Queued)
      then Some(Tasks.Abandoned)
      else None
    case _ => None
  }

  /** The queue was full at each of the first n tries. */
  ghost predicate FullUntil(before: seq<Results.Event>, others: nat -> seq<Results.Event>, n: nat) {
    forall k :: 0 <= k < n ==> Results.Full(before + Meanwhile(others, k))
  }

  lemma NotTried(before: seq<Results.Event>, others: nat -> seq<Results.Event>)
    ensures FullUntil(before, others, 0)
  {
  }

  lemma OneTryMore(before: seq<Results.Event>, others: nat -> seq<Results.Event>, n: nat)
    requires FullUntil(before, others, n)
    requires |Results.After(before + Meanwhile(others, n)).queue.items| == Results.MAX_UNCONSUMED
    ensures FullUntil(before, others, n + 1)
    ensures before + Meanwhile(others, n) + others(n + 1) == before + Meanwhile(others, n + 1)
  {
    hide Results.After;
  }

  /** The events of one heal task, i being its number, in order. */
  function EventsOf(i: nat, itemType: Tasks.ItemType, noWait: bool, accepted: bool, fate: Fate): seq<Tasks.Event> {
    if noWait then [Tasks.Scan(itemType, noWait), Tasks.Offer(i, accepted)]
    else match fate
      case StoppedBeforeSend => [Tasks.Scan(itemType, noWait), Tasks.Abandon(i)]
      case StoppedWhileWaiting => [Tasks.Scan(itemType, noWait), Tasks.Send(i), Tasks.Abandon(i)]
      case Response(err, _) =>
        [Tasks.Scan(itemType, noWait), Tasks.Send(i), Tasks.Respond(i, err.None?), Tasks.Count(i)]
  }

  class HealSequence {
    const path: string
    const clientToken: string
    const background: bool
    const reportProgress: bool

    var status: Registry.Status
    var endTime: Option<int>
    var cancelled: bool

    var items: seq<Results.Item>
    var lastSentResultIndex: int
    ghost var results: seq<Results.Event>   // what happened to the queue so far

    var scannedItemsMap: map<Tasks.ItemType, nat>
    var healedItemsMap: map<Tasks.ItemType, nat>
    var healFailedItemsMap: map<Tasks.ItemType, nat>
    ghost var tasks: seq<Tasks.Task>
    ghost var taskEvents: seq<Tasks.Event>

    constructor (path: string, clientToken: string, background: bool, reportProgress: bool)
      ensures this.path == path && this.clientToken == clientToken
      ensures this.background == background && this.reportProgress == reportProgress
      ensures status == Registry.NotStarted && endTime == None && !cancelled
      ensures QueueValid() && results == [] && CountersValid() && taskEvents == []
    {
      this.path, this.clientToken := path, clientToken;
      this.background, this.reportProgress := background, reportProgress;
      status, endTime, cancelled := Registry.NotStarted, None, false;
      items, lastSentResultIndex, results := [], 0, [];
      scannedItemsMap, healedItemsMap, healFailedItemsMap := map[], map[], map[];
      tasks, taskEvents := [], [];
    }

    // ---- life ----

    /** The launched sequence as the registry's state machine sees it. */
    ghost function Life(): Registry.Heal
      reads this`status, this`endTime, this`cancelled
    {
      Registry.Heal(path, background, true, status, endTime, cancelled)
    }

    predicate HasEnded()
      reads this`endTime
    {
      !background && endTime.Some?
    }

    method Stop()
      modifies this`cancelled
      ensures Life() == old(Life()).(cancelled := true)
    {
      cancelled := true;
    }

    /**
     * Runs the sequence: its life goes forward through the stages of the registry's machine to an end that fits the
     * ending of the traversal.
     */
    method HealSequenceStart(ending: Ending, now: int)
      requires !background && Registry.Proper(Life()) && status == Registry.NotStarted
      modifies this`status, this`endTime
      ensures HasEnded() && endTime == Some(now)
      ensures Registry.Proper(Life()) && Registry.Forward(old(Life()), Life())
      ensures status == Registry.Stopped <==> ending == Traversed(false)
      ensures var running := Registry.Apply(Alone(old(Life())), Registry.Run(0)); var e := EndEvent(ending, now);
              Registry.Enabled(running, e) ==> Life() == Registry.Apply(running, e).heals[0]
    {
      status := Registry.Running;
      endTime := Some(now);
      match ending {
        case Traversed(ok) => status := if ok then Registry.Finished else Registry.Stopped;
        case ContextDone => status := Registry.Finished;
      }
    }

    // ---- results ----

    ghost predicate QueueValid()
      reads this`items, this`lastSentResultIndex, this`results
    {
      Results.Queue(items, lastSentResultIndex) == Results.After(results).queue
    }

    /** Adds the result behind the last one, with the mutex held. */
    method Append(r: string)
      requires QueueValid() && |items| != Results.MAX_UNCONSUMED
      modifies this`items, this`results
      ensures QueueValid() && results == old(results) + [Results.Push(r)]
      ensures Results.After(results).accepted == Results.After(old(results)).accepted + [r]
    {
      var index := 1 + lastSentResultIndex;
      if |items| > 0 {
        index := 1 + items[|items| - 1].resultIndex;
      }
      items := items + [Results.Item(r, index)];
      results := results + [Results.Push(r)];
    }

    /** While the mutex is released, other goroutines push and clients pop. */
    method Interfere(others: seq<Results.Event>)
      requires QueueValid()
      modifies this`items, this`lastSentResultIndex, this`results
      ensures QueueValid() && results == old(results) + others
    {
      hide Results.After, Results.Step;
      var k := 0;
      while k < |others|
        invariant 0 <= k <= |others| && QueueValid() && results == old(results) + others[..k]
      {
        match others[k] {
          case Push(r) =>
            if |items| == Results.MAX_UNCONSUMED {
              Results.FullQueueWaits(results, r);
              results := results + [Results.Push(r)];
            } else {
              Append(r);
            }
          case Pop(marshals) =>
            var _ := PopHealStatus(clientToken, marshals);
        }
        k := k + 1;
      }
    }

    /** Waits until the queue is not full, unless the sequence is stopped or a day passes with it full at each try. */
    method WaitForRoom(stopAt: Option<nat>, others: nat -> seq<Results.Event>)
      returns (end: Option<PushOutcome>, ghost tries: nat)
      requires QueueValid()
      modifies this`items, this`lastSentResultIndex, this`results
      ensures QueueValid() && results == old(results) + Meanwhile(others, tries)
      ensures FullUntil(old(results), others, tries) && tries <= Results.UNCONSUMED_TIMEOUT
      ensures end.None? <==> |items| != Results.MAX_UNCONSUMED
      ensures end.Some? ==> !end.value.Accepted?
      ensures end == Some(StopSignalled) ==> stopAt == Some(tries)
      ensures end == Some(IdleTimeout) ==> tries == Results.UNCONSUMED_TIMEOUT && stopAt != Some(tries)
    {
      var waited: nat := 0;
      tries := 0;
      assert old(results) + [] == old(results);
      hide Results.After, FullUntil;
      NotTried(results, others);
      while |items| == Results.MAX_UNCONSUMED
        invariant QueueValid() && results == old(results) + Meanwhile(others, tries)
        invariant tries == waited <= Results.UNCONSUMED_TIMEOUT && (stopAt.Some? ==> stopAt.value >= waited)
        invariant FullUntil(old(results), others, tries)
        decreases Results.UNCONSUMED_TIMEOUT - waited
      {
        if stopAt.Some? && stopAt.value <= waited {
          return Some(StopSignalled), tries;
        }
        if waited == Results.UNCONSUMED_TIMEOUT {
          return Some(IdleTimeout), tries;
        }
        OneTryMore(old(results), others, tries);
        waited := waited + 1;
        Interfere(others(waited));
        tries := waited;
      }
      return None, tries;
    }

    /**
     * Waits for room and adds the result, if there is some in time. `stopAt` is the second at which a stop is
     * signalled, `others` what happens between the tries, `tries` how many found the queue full and went on waiting.
     */
    method PushHealResultItem(r: string, stopAt: Option<nat>, others: nat -> seq<Results.Event>)
      returns (outcome: PushOutcome, ghost between: seq<Results.Event>, ghost tries: nat)
      requires QueueValid()
      modifies this`items, this`lastSentResultIndex, this`results
      ensures QueueValid()
      ensures results == old(results) + between + (if outcome.Accepted? then [Results.Push(r)] else [])
      ensures outcome.Accepted? ==>
                Results.After(results).accepted == Results.After(old(results) + between).accepted + [r]
      ensures between == Meanwhile(others, tries) && FullUntil(old(results), others, tries)
      ensures outcome.Accepted? <==> !Results.Full(old(results) + between)
      ensures outcome.StopSignalled? ==> stopAt == Some(tries)
      ensures outcome.IdleTimeout? ==> tries == Results.UNCONSUMED_TIMEOUT && stopAt != Some(tries)
    {
      var end;
      end, tries := WaitForRoom(stopAt, others);
      between := Meanwhile(others, tries);
      hide FullUntil, Meanwhile;
      assert end.Some? <==> Results.Full(results);
      if end.Some? {
        return end.value, between, tries;
      }
      Append(r);
      return Accepted, between, tries;
    }

    /** Hands over all pending items; the last sent number moves on before the answer is marshalled. */
    method PopHealStatus(token: string, marshals: bool) returns (outcome: PopOutcome)
      requires QueueValid()
      modifies this`items, this`lastSentResultIndex, this`results
      ensures QueueValid()
      ensures token != clientToken ==> outcome == InvalidClientToken && unchanged(this)
      ensures token == clientToken ==> results == old(results) + [Results.Pop(marshals)]
      ensures token == clientToken && marshals ==>
                outcome == Items(old(items)) &&
                Results.After(results).delivered == Results.After(old(results)).delivered + old(items)
      ensures token == clientToken && !marshals ==>
                outcome == InternalError && Results.After(results).delivered == Results.After(old(results)).delivered
    {
      if token != clientToken {
        return InvalidClientToken;
      }
      var numItems := |items|;
      var lastResultIndex := lastSentResultIndex;
      if numItems > 0 {
        lastResultIndex := items[numItems - 1].resultIndex;
      }
      lastSentResultIndex := lastResultIndex;
      results := results + [Results.Pop(marshals)];
      if !marshals {
        items := [];
        return InternalError;
      }
      outcome := Items(items);
      items := [];
    }

    // ---- counters ----

    ghost predicate CountersValid()
      reads this`scannedItemsMap, this`healedItemsMap, this`healFailedItemsMap, this`tasks, this`taskEvents
    {
      Tasks.After(taskEvents) ==
      Some(Tasks.State(tasks, Tasks.Counts(scannedItemsMap, healedItemsMap, healFailedItemsMap)))
    }

    /** One critical section of the model: the event happens to the ghost state. */
    ghost method Happen(e: Tasks.Event)
      requires Tasks.After(taskEvents).Some? && Tasks.Enabled(Tasks.After(taskEvents).value, e)
      modifies this`tasks, this`taskEvents
      ensures taskEvents == old(taskEvents) + [e]
      ensures Tasks.After(taskEvents) == Some(Tasks.Apply(Tasks.After(old(taskEvents)).value, e))
      ensures tasks == Tasks.After(taskEvents).value.tasks
    {
      Tasks.Extend(taskEvents, e);
      hide Tasks.After, Tasks.Apply, Tasks.Enabled;
      taskEvents := taskEvents + [e];
      tasks := Tasks.After(taskEvents).value.tasks;
    }

    /** One event moves a task on, without a counter. */
    ghost method Advance(i: nat, e: Tasks.Event)
      requires CountersValid() && i < |tasks| && MovesOn(tasks[i], i, e).Some?
      modifies this`tasks, this`taskEvents
      ensures CountersValid() && taskEvents == old(taskEvents) + [e]
      ensures tasks == old(tasks)[i := old(tasks)[i].(phase := MovesOn(old(tasks)[i], i, e).value)]
    {
      Happen(e);
      hide Tasks.After;
    }

    method CountScanned(t: Tasks.ItemType, ghost e: Tasks.Event)
      requires CountersValid() && ((e.Scan? && e.itemType == t) || e == Tasks.ScanDirect(t))
      modifies this`scannedItemsMap, this`tasks, this`taskEvents
      ensures CountersValid() && taskEvents == old(taskEvents) + [e]
      ensures tasks == old(tasks) + if e.Scan? then [Tasks.Task(t, e.noWait, Tasks.Counted)] else []
      ensures Tasks.Raised(old(scannedItemsMap), scannedItemsMap, t)
    {
      Happen(e);
      scannedItemsMap := Tasks.Bump(scannedItemsMap, t);
    }

    /** The events with which an item is counted as healed or failed. */
    ghost predicate IsOutcome(e: Tasks.Event, t: Tasks.ItemType, ok: bool)
      reads this`tasks
    {
      match e
      case Count(i) => i < |tasks| && tasks[i].phase == Tasks.Answered(ok) && tasks[i].itemType == t
      case WorkerCount(i, u, o) => i < |tasks| && tasks[i].phase == Tasks.Handed && u == t && o == ok
      case CountDirect(u, o) => u == t && o == ok
      case _ => false
    }

    method CountHealed(t: Tasks.ItemType, ghost e: Tasks.Event)
      requires CountersValid() && IsOutcome(e, t, true)
      modifies this`healedItemsMap, this`tasks, this`taskEvents
      ensures CountersValid() && taskEvents == old(taskEvents) + [e]
      ensures Tasks.Raised(old(healedItemsMap), healedItemsMap, t)
      ensures e.Count? ==> tasks == old(tasks)[e.task := old(tasks)[e.task].(phase := Tasks.Healed)]
    {
      Happen(e);
      healedItemsMap := Tasks.Bump(healedItemsMap, t);
    }

    method CountFailed(t: Tasks.ItemType, ghost e: Tasks.Event)
      requires CountersValid() && IsOutcome(e, t, false)
      modifies this`healFailedItemsMap, this`tasks, this`taskEvents
      ensures CountersValid() && taskEvents == old(taskEvents) + [e]
      ensures Tasks.Raised(old(healFailedItemsMap), healFailedItemsMap, t)
      ensures e.Count? ==> tasks == old(tasks)[e.task := old(tasks)[e.task].(phase := Tasks.Failed)]
    {
      Happen(e);
      healFailedItemsMap := Tasks.Bump(healFailedItemsMap, t);
    }

    /** What one heal worker does about a task of the background sequence that nobody waits for. */
    method WorkerSettles(ghost i: nat, resultType: Tasks.ItemType, err: bool)
      requires CountersValid() && i < |tasks| && tasks[i].phase == Tasks.Handed
      modifies this`healedItemsMap, this`healFailedItemsMap, this`tasks, this`taskEvents
      ensures CountersValid() && taskEvents == old(taskEvents) + [Tasks.WorkerCount(i, resultType, !err)]
      ensures if err then Tasks.Raised(old(healFailedItemsMap), healFailedItemsMap, resultType)
              else healFailedItemsMap == old(healFailedItemsMap)
      ensures if err then healedItemsMap == old(healedItemsMap)
              else Tasks.Raised(old(healedItemsMap), healedItemsMap, resultType)
    {
      if !err {
        CountHealed(resultType, Tasks.WorkerCount(i, resultType, true));
      } else {
        CountFailed(resultType, Tasks.WorkerCount(i, resultType, false));
      }
    }

    /** A response is counted as healed or failed. */
    method CountAnswer(ghost i: nat, t: Tasks.ItemType, err: bool)
      requires CountersValid() && i < |tasks| && tasks[i] == Tasks.Task(t, false, Tasks.Queued)
      modifies this`healedItemsMap, this`healFailedItemsMap, this`tasks, this`taskEvents
      ensures CountersValid() && taskEvents == old(taskEvents) + [Tasks.Respond(i, !err), Tasks.Count(i)]
      ensures tasks == old(tasks)[i := Tasks.Task(t, false, if err then Tasks.Failed else Tasks.Healed)]
      ensures if err then Tasks.Raised(old(healFailedItemsMap), healFailedItemsMap, t)
              else healFailedItemsMap == old(healFailedItemsMap)
      ensures if err then healedItemsMap == old(healedItemsMap)
              else Tasks.Raised(old(healedItemsMap), healedItemsMap, t)
    {
      Advance(i, Tasks.Respond(i, !err));
      hide Tasks.After, Tasks.Apply, Tasks.Enabled, Tasks.Raised;
      if !err {
        CountHealed(t, Tasks.Count(i));
      } else {
        CountFailed(t, Tasks.Count(i));
      }
      assert taskEvents == old(taskEvents) + ([Tasks.Respond(i, !err)] + [Tasks.Count(i)]);
    }

    /** It is counted, and passed on to the caller or to the result queue. */
    method AnswerTo(ghost i: nat, t: Tasks.ItemType, err: Option<HealError>, result: string,
                    stopAt: Option<nat>, others: nat -> seq<Results.Event>)
      returns (answer: Answer, ghost between: seq<Results.Event>)
      requires QueueValid() && CountersValid() && i < |tasks| && tasks[i] == Tasks.Task(t, false, Tasks.Queued)
      modifies this`healedItemsMap, this`healFailedItemsMap, this`tasks, this`taskEvents
      modifies this`items, this`lastSentResultIndex, this`results
      ensures QueueValid() && CountersValid()
      ensures taskEvents == old(taskEvents) + [Tasks.Respond(i, err.None?), Tasks.Count(i)]
      ensures tasks == old(tasks)[i := Tasks.Task(t, false, if err.Some? then Tasks.Failed else Tasks.Healed)]
      ensures if err.Some? then Tasks.Raised(old(healFailedItemsMap), healFailedItemsMap, t)
              else healFailedItemsMap == old(healFailedItemsMap)
      ensures if err.Some? then healedItemsMap == old(healedItemsMap)
              else Tasks.Raised(old(healedItemsMap), healedItemsMap, t)
      ensures reportProgress <==> answer.Pushed?
      ensures answer.Returned? ==> answer.err == (if err == Some(SkipFile) then None else err) && between == []
      ensures results == old(results) + between + (if answer == Pushed(Accepted) then [Results.Push(result)] else [])
    {
      hide *;
      CountAnswer(i, t, err.Some?);
      between := [];
      if !reportProgress {
        if err == Some(SkipFile) {
          return Returned(None), [];
        }
        return Returned(err), [];
      }
      var outcome;
      ghost var tries;
      outcome, between, tries := PushHealResultItem(result, stopAt, others);
      answer := Pushed(outcome);
    }

    /**
     * Every heal task is counted as scanned; one that is waited for is counted as healed or failed exactly if its
     * response is seen, and then its result goes to the queue or to the caller.
     */
    method QueueHealTask(t: Tasks.ItemType, noWait: bool, accepted: bool, fate: Fate,
                         stopAt: Option<nat>, others: nat -> seq<Results.Event>)
      returns (answer: Answer, ghost between: seq<Results.Event>)
      requires QueueValid() && CountersValid()
      modifies this`scannedItemsMap, this`healedItemsMap, this`healFailedItemsMap, this`tasks, this`taskEvents
      modifies this`items, this`lastSentResultIndex, this`results
      ensures QueueValid() && CountersValid()
      ensures Tasks.Raised(old(scannedItemsMap), scannedItemsMap, t)
      ensures |tasks| == |old(tasks)| + 1 && tasks[..|old(tasks)|] == old(tasks)
      ensures tasks[|old(tasks)|].itemType == t && tasks[|old(tasks)|].noWait == noWait
      ensures noWait ==> tasks[|old(tasks)|].phase == if accepted then Tasks.Handed else Tasks.Dropped
      ensures !noWait && !fate.Response? ==> tasks[|old(tasks)|].phase == Tasks.Abandoned
      ensures !noWait && fate.Response? ==>
                tasks[|old(tasks)|].phase == if fate.err.None? then Tasks.Healed else Tasks.Failed
      ensures if !noWait && fate.Response? && fate.err.None?
              then Tasks.Raised(old(healedItemsMap), healedItemsMap, t) else healedItemsMap == old(healedItemsMap)
      ensures if !noWait && fate.Response? && fate.err.Some?
              then Tasks.Raised(old(healFailedItemsMap), healFailedItemsMap, t)
              else healFailedItemsMap == old(healFailedItemsMap)
      ensures taskEvents == old(taskEvents) + EventsOf(|old(tasks)|, t, noWait, accepted, fate)
      ensures noWait || !fate.Response? ==> answer == Returned(None) && results == old(results)
      ensures !noWait && fate.Response? ==> (reportProgress <==> answer.Pushed?)
      ensures !noWait && fate.Response? && answer.Returned? ==>
                answer.err == (if fate.err == Some(SkipFile) then None else fate.err) && results == old(results)
      ensures !noWait && fate.Response? && answer.Pushed? ==>
                results == old(results) + between +
                           (if answer == Pushed(Accepted) then [Results.Push(fate.result)] else [])
    {
      ghost var i := |tasks|;
      between := [];
      hide Tasks.After, Tasks.Apply, Tasks.Enabled, Tasks.Raised, CountersValid, QueueValid;
      CountScanned(t, Tasks.Scan(t, noWait));
      if noWait {
        Advance(i, Tasks.Offer(i, accepted));
        return Returned(None), [];
      }
      if fate.StoppedBeforeSend? {
        Advance(i, Tasks.Abandon(i));
        return Returned(None), [];
      }
      Advance(i, Tasks.Send(i));
      if fate.StoppedWhileWaiting? {
        Advance(i, Tasks.Abandon(i));
        return Returned(None), [];
      }
      answer, between := AnswerTo(i, t, fate.err, fate.result, stopAt, others);
    }
  }

  /** A status request: a path without a sequence must have finished. */
  method PopHealStatusJSON(heals: map<string, HealSequence>, path: string, token: string, marshals: bool)
    returns (outcome: PopOutcome)
    requires path in heals ==> heals[path].QueueValid()
    modifies if path in heals then {heals[path]} else {}
    ensures path !in heals ==> outcome == Finished
    ensures path in heals ==> heals[path].QueueValid()
    ensures path in heals && token == heals[path].clientToken ==>
              heals[path].results == old(heals[path].results) + [Results.Pop(marshals)] &&
              outcome == if marshals then Items(old(heals[path].items)) else InternalError
    ensures path in heals && token != heals[path].clientToken ==>
              outcome == InvalidClientToken && heals[path].results == old(heals[path].results)
  {
    if path !in heals {
      return Finished;
    }
    outcome := heals[path].PopHealStatus(token, marshals);
  }
}
