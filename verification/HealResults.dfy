/** The bounded queue of heal results that a client empties by polling (cmd/admin-heal-ops.go). */
module HealResults {

  const MAX_UNCONSUMED := 1000       // results kept for a client
  const UNCONSUMED_TIMEOUT := 86400  // seconds that a full queue is waited for

  /** A result with the number it was given when it was pushed. */
  datatype Item = Item(result: string, resultIndex: int)

  datatype Queue = Queue(items: seq<Item>, lastSent: int)

  function IndexOfLast(q: Queue): int {
    if q.items == [] then q.lastSent else q.items[|q.items| - 1].resultIndex
  }

  datatype Event =
    | Push(result: string)
    | Pop(marshalled: bool)   // a status request whose answer could, or could not, be put into JSON

  /**
   * The queue together with its history: the results accepted, the items that successful pops handed to the
   * client, and how many pending items failed pops threw away.
   */
  datatype Run = Run(queue: Queue, accepted: seq<string>, delivered: seq<Item>, lost: nat)

  const START := Run(Queue([], 0), [], [], 0)

  /** One critical section. A push that finds the queue full changes nothing. */
  function Step(s: Run, e: Event): Run {
    match e
    case Push(r) =>
      if |s.queue.items| == MAX_UNCONSUMED then s
      else s.(queue := Queue(s.queue.items + [Item(r, 1 + IndexOfLast(s.queue))], s.queue.lastSent),
              accepted := s.accepted + [r])
    case Pop(true) => s.(queue := Queue([], IndexOfLast(s.queue)), delivered := s.delivered + s.queue.items)
    case Pop(false) => s.(queue := Queue([], IndexOfLast(s.queue)), lost := s.lost + |s.queue.items|)
  }

  function After(events: seq<Event>): Run {
    if events == [] then START else Step(After(events[..|events| - 1]), events[|events| - 1])
  }

  lemma Extend(events: seq<Event>, e: Event)
    ensures After(events + [e]) == Step(After(events), e)
  {
    assert (events + [e])[..|events|] == events;
  }

  predicate Full(events: seq<Event>) {
    |After(events).queue.items| == MAX_UNCONSUMED
  }

  lemma FullQueueWaits(events: seq<Event>, r: string)
    requires |After(events).queue.items| == MAX_UNCONSUMED
    ensures After(events + [Push(r)]) == After(events)
  {
    Extend(events, Push(r));
  }

  // ---- numbering ----

  /** The n-th result accepted, under the number n. */
  predicate IsNth(accepted: seq<string>, item: Item) {
    1 <= item.resultIndex <= |accepted| && item.result == accepted[item.resultIndex - 1]
  }

  /** The results of which the pending ones are the last, numbered in push order. */
  function Numbered(accepted: seq<string>): (items: seq<Item>)
    ensures |items| == |accepted|
    ensures forall i :: 0 <= i < |items| ==> items[i] == Item(accepted[i], i + 1)
  {
    seq(|accepted|, i requires 0 <= i < |accepted| => Item(accepted[i], i + 1))
  }

  /** Pending items are the last accepted ones, consecutive from the last number sent, and never more than 1000. */
  predicate PendingInv(s: Run) {
    |s.queue.items| <= MAX_UNCONSUMED &&
    s.queue.lastSent + |s.queue.items| == |s.accepted| &&
    forall i :: 0 <= i < |s.queue.items| ==>
      s.queue.items[i].resultIndex == s.queue.lastSent + 1 + i && IsNth(s.accepted, s.queue.items[i])
  }

  /** What was delivered keeps its push numbers, in push order; whatever is missing was thrown away. */
  predicate DeliveredInv(s: Run) {
    |s.delivered| + s.lost == s.queue.lastSent &&
    (forall i :: 0 <= i < |s.delivered| ==>
       IsNth(s.accepted, s.delivered[i]) && i + 1 <= s.delivered[i].resultIndex <= s.queue.lastSent) &&
    (forall i, j :: 0 <= i < j < |s.delivered| ==> s.delivered[i].resultIndex < s.delivered[j].resultIndex) &&
    (s.lost == 0 ==> forall i :: 0 <= i < |s.delivered| ==> s.delivered[i].resultIndex == i + 1)
  }

  lemma StepKeeps(s: Run, e: Event)
    requires PendingInv(s) && DeliveredInv(s)
    ensures PendingInv(Step(s, e)) && DeliveredInv(Step(s, e))
  {
  }

  lemma {:induction false} RunKeeps(events: seq<Event>)
    ensures PendingInv(After(events)) && DeliveredInv(After(events))
    ensures |After(events).queue.items| <= 1000
  {
    if events != [] {
      RunKeeps(events[..|events| - 1]);
      StepKeeps(After(events[..|events| - 1]), events[|events| - 1]);
    }
  }

  /** No failed pop happened while items were pending. */
  predicate NothingThrownAway(events: seq<Event>) {
    forall k :: 0 <= k < |events| && events[k] == Pop(false) ==> After(events[..k]).queue.items == []
  }

  lemma {:induction false} LostExactly(events: seq<Event>)
    ensures After(events).lost == 0 <==> NothingThrownAway(events)
  {
    if events != [] {
      var n := |events| - 1;
      var init := events[..n];
      LostExactly(init);
      assert forall k :: 0 <= k <= n ==> init[..k] == events[..k];
      if After(events).lost == 0 {
        forall k | 0 <= k < |events| && events[k] == Pop(false) ensures After(events[..k]).queue.items == [] {
          if k < n {
            assert init[k] == Pop(false);
            assert After(init[..k]).queue.items == [];
          }
        }
      } else if After(init).lost != 0 {
        var k :| 0 <= k < n && init[k] == Pop(false) && After(init[..k]).queue.items != [];
        assert events[k] == Pop(false) && After(events[..k]).queue.items != [];
      } else {
        assert events[n] == Pop(false) && After(events[..n]).queue.items != [];
      }
    }
  }

  lemma AllThereExactly(s: Run)
    requires PendingInv(s) && DeliveredInv(s)
    ensures s.delivered + s.queue.items == Numbered(s.accepted) <==> s.lost == 0
  {
    var all, numbered := s.delivered + s.queue.items, Numbered(s.accepted);
    if s.lost == 0 {
      forall i | 0 <= i < |all| ensures all[i] == numbered[i] {
        if i < |s.delivered| {
          assert IsNth(s.accepted, s.delivered[i]);
        } else {
          assert IsNth(s.accepted, s.queue.items[i - |s.delivered|]);
        }
      }
    } else {
      assert |all| < |numbered|;
    }
  }

  /**
   * For every interleaving of pushes and pops: what clients received followed by what is pending is all
   * accepted results numbered 1, 2, 3, ... with no gap or repeat, exactly if no pop failed on pending items.
   */
  lemma GapFreeExactly(events: seq<Event>)
    ensures var s := After(events);
            s.delivered + s.queue.items == Numbered(s.accepted) <==> NothingThrownAway(events)
  {
    RunKeeps(events);
    LostExactly(events);
    AllThereExactly(After(events));
  }

  /** A pop whose answer cannot be marshalled moves the last sent number on and drops the items. */
  lemma FailedPopLoses(r: string)
    ensures var s := After([Push(r), Pop(false), Push(r), Pop(true)]);
            s.accepted == [r, r] && s.delivered == [Item(r, 2)] && s.lost == 1
  {
    var s1 := Run(Queue([Item(r, 1)], 0), [r], [], 0);
    var s2 := Run(Queue([], 1), [r], [], 1);
    var s3 := Run(Queue([Item(r, 2)], 1), [r, r], [], 1);
    assert Step(START, Push(r)) == s1 && Step(s1, Pop(false)) == s2 && Step(s2, Push(r)) == s3;
    assert Step(s3, Pop(true)) == Run(Queue([], 2), [r, r], [Item(r, 2)], 1);
    assert After([]) == START;
    hide After, Step;
    var e0, e1, e2 := [Push(r)], [Push(r), Pop(false)], [Push(r), Pop(false), Push(r)];
    Extend([], Push(r));
    assert [] + [Push(r)] == e0;
    Extend(e0, Pop(false));
    assert e0 + [Pop(false)] == e1;
    Extend(e1, Push(r));
    assert e1 + [Push(r)] == e2;
    Extend(e2, Pop(true));
    assert e2 + [Pop(true)] == [Push(r), Pop(false), Push(r), Pop(true)];
  }

  /** A client can tell: the number on the last item received counts the items thrown away before it, too. */
  lemma NumbersRevealLosses(events: seq<Event>)
    requires events != [] && events[|events| - 1] == Pop(true)
    requires After(events[..|events| - 1]).queue.items != []
    ensures var s := After(events);
            s.delivered != [] && s.delivered[|s.delivered| - 1].resultIndex == |s.delivered| + s.lost == |s.accepted|
  {
    RunKeeps(events[..|events| - 1]);
    RunKeeps(events);
  }
}
