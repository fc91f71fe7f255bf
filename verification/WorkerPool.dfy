/** Resizing the pool of batch job workers by kill tokens (cmd/batch-handlers.go). */
module WorkerPool {
  import opened Bytes

  /**
   * The size asked for; the workers, waiting or at work on a job; the kill tokens, held by a goroutine that wants to
   * send them or in the channel's buffer.
   */
  datatype Pool = Pool(cap: nat, workerSize: int, idle: nat, busy: nat, senders: nat, buffered: nat)
  {
    function Workers(): nat {
      idle + busy
    }

    function Tokens(): nat {
      senders + buffered
    }
  }

  datatype Event =
    | Resize(n: int)
    | TakeJob
    | EndJob
    | Deposit     // a token goes into the buffer
    | TakeToken   // an idle worker takes one from the buffer and ends
    | HandOver    // an idle worker takes one from its sender and ends

  predicate Enabled(s: Pool, e: Event) {
    match e
    case Resize(_) => true
    case TakeJob => s.idle > 0
    case EndJob => s.busy > 0
    case Deposit => s.senders > 0 && s.buffered < s.cap
    case TakeToken => s.idle > 0 && s.buffered > 0
    case HandOver => s.idle > 0 && s.senders > 0 && s.buffered == 0
  }

  function Apply(s: Pool, e: Event): Pool
    requires Enabled(s, e)
  {
    match e
    case Resize(n) =>
      if n >= s.workerSize then s.(workerSize := n, idle := s.idle + (n - s.workerSize))
      else s.(workerSize := n, senders := s.senders + (s.workerSize - n))
    case TakeJob => s.(idle := s.idle - 1, busy := s.busy + 1)
    case EndJob => s.(idle := s.idle + 1, busy := s.busy - 1)
    case Deposit => s.(senders := s.senders - 1, buffered := s.buffered + 1)
    case TakeToken => s.(idle := s.idle - 1, buffered := s.buffered - 1)
    case HandOver => s.(idle := s.idle - 1, senders := s.senders - 1)
  }

  /** The pool with room for as many tokens as it had workers at first. */
  function Start(workers: nat): Pool {
    Pool(workers, workers, workers, 0, 0, 0)
  }

  function After(workers: nat, events: seq<Event>): Option<Pool> {
    if events == [] then Some(Start(workers))
    else
      var before := After(workers, events[..|events| - 1]);
      var e := events[|events| - 1];
      if before.Some? && Enabled(before.value, e) then Some(Apply(before.value, e)) else None
  }

  /** The size asked for last. */
  function LastSize(workers: nat, events: seq<Event>): int {
    if events == [] then workers
    else
      var e := events[|events| - 1];
      if e.Resize? then e.n else LastSize(workers, events[..|events| - 1])
  }

  /** Every token is one worker too many. */
  predicate Inv(s: Pool) {
    s.Workers() == s.workerSize + s.Tokens() && s.buffered <= s.cap
  }

  lemma StepKeeps(s: Pool, e: Event)
    requires Inv(s) && Enabled(s, e)
    ensures Inv(Apply(s, e))
    ensures Apply(s, e).workerSize == if e.Resize? then e.n else s.workerSize
  {
  }

  /** In every run the workers are as many as were asked for last plus the tokens not taken yet. */
  lemma {:induction false} TokensAreSurplusWorkers(workers: nat, events: seq<Event>)
    requires After(workers, events).Some?
    ensures var s := After(workers, events).value;
            Inv(s) && s.workerSize == LastSize(workers, events) && s.Workers() == LastSize(workers, events) + s.Tokens()
  {
    if events != [] {
      var init := events[..|events| - 1];
      TokensAreSurplusWorkers(workers, init);
      StepKeeps(After(workers, init).value, events[|events| - 1]);
    }
  }

  // ---- can every token be taken? ----

  /** A run of events from a state. */
  function Run(s: Pool, events: seq<Event>): Option<Pool>
    decreases |events|
  {
    if events == [] then Some(s)
    else if Enabled(s, events[0]) then Run(Apply(s, events[0]), events[1..])
    else None
  }

  predicate NoResize(events: seq<Event>) {
    forall i :: 0 <= i < |events| ==> !events[i].Resize?
  }

  /** An event that brings the end nearer. */
  function NextEvent(s: Pool): Event
    requires s.Tokens() > 0 && s.Workers() > 0
  {
    if s.idle == 0 then EndJob else if s.buffered > 0 then TakeToken else HandOver
  }

  /** From a state with enough workers the tokens run out: as many workers as were asked for are left. */
  lemma {:induction false} Drains(s: Pool) returns (events: seq<Event>)
    requires Inv(s) && s.workerSize >= 0
    ensures NoResize(events) && Run(s, events).Some?
    ensures var t := Run(s, events).value; t.Tokens() == 0 && t.Workers() == s.workerSize
    decreases s.Tokens() + s.Workers() + s.busy
  {
    if s.Tokens() == 0 {
      events := [];
    } else {
      var e := NextEvent(s);
      var more := Drains(Apply(s, e));
      events := [e] + more;
      assert events[1..] == more;
    }
  }

  lemma {:induction false} RunKeeps(s: Pool, events: seq<Event>)
    requires Inv(s) && NoResize(events) && Run(s, events).Some?
    ensures Inv(Run(s, events).value) && Run(s, events).value.workerSize == s.workerSize
    decreases |events|
  {
    if events != [] {
      StepKeeps(s, events[0]);
      RunKeeps(Apply(s, events[0]), events[1..]);
    }
  }

  ghost predicate CanDrain(s: Pool) {
    exists events :: NoResize(events) && Run(s, events).Some? && Run(s, events).value.Tokens() == 0
  }

  /** All kill tokens can be taken exactly if the size asked for last is not negative. */
  lemma DrainsExactly(workers: nat, events: seq<Event>)
    requires After(workers, events).Some?
    ensures CanDrain(After(workers, events).value) <==> LastSize(workers, events) >= 0
  {
    var s := After(workers, events).value;
    TokensAreSurplusWorkers(workers, events);
    if LastSize(workers, events) >= 0 {
      var more := Drains(s);
    } else {
      forall more | NoResize(more) && Run(s, more).Some? ensures Run(s, more).value.Tokens() > 0 {
        RunKeeps(s, more);
      }
    }
  }

  /** A negative size leaves a token that no worker is there to take. */
  lemma NegativeSizeStrands()
    ensures After(1, [Resize(-1)]).Some?
    ensures var s := After(1, [Resize(-1)]).value; s.Workers() == 1 && s.Tokens() == 2 && !CanDrain(s)
  {
    var events := [Resize(-1)];
    assert events[..0] == [];
    assert After(1, events) == Some(Pool(1, -1, 1, 0, 2, 0)) && LastSize(1, events) == -1;
    hide *;
    DrainsExactly(1, events);
  }

  /** With sizes that are not negative the pool is never stuck: while there are tokens, some worker can go on. */
  lemma NeverStuck(workers: nat, events: seq<Event>)
    requires After(workers, events).Some? && LastSize(workers, events) >= 0
    requires After(workers, events).value.Tokens() > 0
    ensures var s := After(workers, events).value;
            Enabled(s, EndJob) || Enabled(s, TakeToken) || Enabled(s, HandOver)
  {
    TokensAreSurplusWorkers(workers, events);
  }

  // ---- the pool in memory ----

  class BatchJobPool {
    const cap: nat
    var workerSize: int
    var idle: nat
    var busy: nat
    var senders: nat
    var buffered: nat

    function Contents(): Pool
      reads this
    {
      Pool(cap, workerSize, idle, busy, senders, buffered)
    }

    constructor (workers: nat)
      ensures Contents() == Start(workers)
    {
      cap, workerSize, idle, busy, senders, buffered := workers, 0, 0, 0, 0, 0;
      new;
      ResizeWorkers(workers);
    }

    /** Starts the workers that are missing, or a sender for each one too many. */
    method ResizeWorkers(n: int)
      modifies this
      ensures workerSize == n && busy == old(busy) && buffered == old(buffered)
      ensures idle == old(idle) + if n > old(workerSize) then n - old(workerSize) else 0
      ensures senders == old(senders) + if n < old(workerSize) then old(workerSize) - n else 0
      ensures Contents() == Apply(old(Contents()), Resize(n))
    {
      while workerSize < n
        invariant workerSize - idle == old(workerSize) - old(idle) && old(workerSize) <= workerSize
        invariant workerSize <= n || workerSize == old(workerSize)
        invariant busy == old(busy) && senders == old(senders) && buffered == old(buffered)
      {
        workerSize := workerSize + 1;
        idle := idle + 1;
      }
      label Grown:
      while workerSize > n
        invariant workerSize + senders == old@Grown(workerSize) + old@Grown(senders)
        invariant workerSize <= old@Grown(workerSize)
        invariant n <= workerSize
        invariant idle == old@Grown(idle) && busy == old(busy) && buffered == old(buffered)
      {
        workerSize := workerSize - 1;
        senders := senders + 1;
      }
    }
  }
}
