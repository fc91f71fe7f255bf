/** The main loop of a batch-expire job (cmd/batch-expire.go), with the closure that it shares its variables with. */
module ExpireLoops {
  import opened Bytes
  import opened ExpireWalk
  import opened ExpireStamps

  /** The state that the loop and its closure pushToExpire share, and the batches handed over so far. */
  class ExpireLoop {
    var toDel: seq<Entry>
    var markerCounts: map<string, int>
    var sent: seq<seq<Entry>>
    var done: bool
    var failed: bool
    const cancellable: bool   // the job's context is cancelled at some time
    var cancelled: bool
    var prevName: string      // prevObj.Name
    var retain: int           // matchedFilter.Purge.RetainVersions
    var versionsCount: int
    ghost var pushes: map<string, int>

    constructor (cancellable: bool)
      ensures this.cancellable == cancellable
      ensures State() == INITIAL && sent == [] && !done && !failed && !cancelled
    {
      this.cancellable := cancellable;
      toDel, markerCounts, sent := [], map[], [];
      done, failed, cancelled := false, false, false;
      prevName, retain, versionsCount := "", 0, 0;
      pushes := map[];
    }

    ghost function State(): LoopState
      reads this
    {
      LoopState(Flatten(sent), toDel, markerCounts, prevName, retain, versionsCount, pushes)
    }

    /** While the job is not cancelled, batches leave with exactly eleven entries and at most `most` wait. */
    ghost predicate InStep(most: nat)
      reads this
    {
      !cancelled ==> |toDel| <= most && AllFull(sent)
    }

    /** Between two turns an eleventh entry waits only if it expires a whole object. */
    ghost predicate BetweenTurns()
      reads this
    {
      InStep(if retain == 0 then BATCH_LIMIT + 1 else BATCH_LIMIT)
    }

    /** Nothing but the context cancels the job, and for good. */
    twostate predicate Cancels()
      reads this`cancelled
    {
      (old(cancelled) ==> cancelled) && (cancelled ==> old(cancelled) || cancellable)
    }

    /** The context may be cancelled at any time, if it ever is. Tells whether a select takes its Done branch. */
    method SelectDone() returns (taken: bool)
      modifies this`cancelled
      ensures Cancels() && (taken ==> cancelled)
    {
      if cancellable {
        if * { cancelled := true; }
      }
      taken := *;
      taken := taken && cancelled;
    }

    method PushToExpire()
      modifies this`toDel, this`markerCounts, this`sent, this`done, this`cancelled, this`pushes
      ensures Cancels()
      ensures Pushed(old(State()), State())
      ensures old(InStep(BATCH_LIMIT + 1)) ==> InStep(BATCH_LIMIT)
      ensures done ==> old(done) || cancelled
    {
      hide Flatten;
      if |toDel| > 0 {
        var lastDelIndex := |toDel| - 1;
        var lastDel := toDel[lastDelIndex];
        if lastDel.expireAll {
          toDel := toDel[lastDelIndex := lastDel.(deleteMarkerCount := Count(markerCounts, lastDel.v.name))];
          markerCounts := markerCounts - {lastDel.v.name};
          pushes := pushes[lastDel.v.name := Count(pushes, lastDel.v.name) + 1];
        }
      }
      if |toDel| > BATCH_LIMIT {
        var xfer := toDel;
        var quit := SelectDone();
        if quit {
          done := true;
        } else {
          FlattenSnoc(sent, xfer);
          sent := sent + [xfer];
          toDel := [];
        }
      }
    }

    /**
     * The body of the main loop for one version. The result tells whether it runs to the end of the body,
     * where the loop looks at `done`, instead of continuing with the next result.
     */
    method Receive(v: Version, rules: seq<Rule>) returns (toEnd: bool, ghost mid: LoopState)
      requires BetweenTurns() && (v.isLatest && prevName == v.name ==> toDel == [])
      modifies this
      ensures Turn(rules, v, old(State()), mid, State()) && BetweenTurns()
      ensures failed == old(failed) && Cancels() && (done ==> old(done) || cancelled)
    {
      if v.deleteMarker {
        markerCounts := markerCounts[v.name := Count(markerCounts, v.name) + 1];
      }
      mid := State();
      if v.isLatest {
        toEnd, mid := ReceiveLatest(v, rules);
      } else if prevName == v.name {
        toEnd := false;
        if retain != 0 {
          versionsCount := versionsCount + 1;
          toEnd := ExpireIfDue(v);
        }
      } else {
        PushToExpire();
        toEnd := false;
      }
    }

    method FindRule(rules: seq<Rule>, v: Version) returns (found: Option<Rule>)
      ensures found == None <==> forall k :: 0 <= k < |rules| ==> !rules[k].matches(v)
      ensures found.Some? ==> exists k: nat :: IsFirst(rules, v, k) && found.value == rules[k]
      ensures found == FirstMatch(rules, v)
    {
      FirstMatchDecides(rules, v);
      for i := 0 to |rules|
        invariant FirstMatch(rules, v) == MatchFrom(rules, v, i)
        invariant forall j :: 0 <= j < i ==> !rules[j].matches(v)
      {
        if rules[i].matches(v) {
          assert IsFirst(rules, v, i);
          return Some(rules[i]);
        }
      }
      return None;
    }

    method ReceiveLatest(v: Version, rules: seq<Rule>) returns (toEnd: bool, ghost mid: LoopState)
      requires BetweenTurns() && (prevName == v.name ==> toDel == [])
      modifies this
      ensures LatestTurn(rules, v, old(State()), mid, State()) && BetweenTurns()
      ensures failed == old(failed) && Cancels() && (done ==> old(done) || cancelled)
    {
      toEnd, mid := false, State();
      var found := FindRule(rules, v);
      if found.Some? {
        if prevName != v.name {
          PushToExpire();
          mid := State();
        }
        prevName, retain, versionsCount := v.name, found.value.retain, 1;
        if retain == 0 {
          toDel := toDel + [Entry(v, true, 0)];
        } else {
          toEnd := ExpireIfDue(v);
        }
      }
    }

    /** The end of the loop body: a version beyond the retained ones is appended and pushed. */
    method ExpireIfDue(v: Version) returns (toEnd: bool)
      requires InStep(BATCH_LIMIT)
      modifies this`toDel, this`markerCounts, this`sent, this`done, this`cancelled, this`pushes
      ensures Due(v, old(State()), State())
      ensures InStep(BATCH_LIMIT) && Cancels() && (done ==> old(done) || cancelled)
    {
      if versionsCount <= retain {
        return false;
      }
      toDel := toDel + [Entry(v, false, 0)];
      PushToExpire();
      return true;
    }

    /** The push after the loop and the send of what remains. */
    method CloseBatches(ghost all: seq<Entry>, ghost items: seq<Version>)
      requires StampsExact(items, State().out, pushes)
      requires StampsExact(items, State().out + Push(State()).toDel, Push(State()).pushes)
      requires Plain(State().out + Push(State()).toDel) == all && MarkersOK(items, State().out + Push(State()).toDel)
      requires Plain(State().out) <= all && MarkersOK(items, State().out) && InStep(BATCH_LIMIT + 1)
      modifies this`toDel, this`markerCounts, this`sent, this`done, this`cancelled, this`pushes
      ensures Cancels()
      ensures Plain(Flatten(sent)) <= all && MarkersOK(items, Flatten(sent))
      ensures StampsExact(items, Flatten(sent), pushes)
      ensures !cancelled ==> Plain(Flatten(sent)) == all && FullBatches(sent)
      ensures failed == old(failed)
    {
      PushToExpire();
      PushedSame(old(State()), State());
      SentPart(State().out, State().toDel, items);
      ClosingStamps(old(State()), State(), items);
      hide Plain, MarkersOK, Pushed, Push, StampsExact;
      if |toDel| > 0 {
        var quit := SelectDone();
        if !quit {
          FlattenSnoc(sent, toDel);
          assert (sent + [toDel])[..|sent|] == sent;
          sent := sent + [toDel];
        }
      }
    }

    /**
     * The loop over everything the walk delivers. Handing a batch to the delete workers is appending it to
     * `sent`; a select between a channel and the cancelled context may take either branch.
     */
    method Consume(stream: seq<WalkResult>, rules: seq<Rule>) returns (ghost k: nat)
      requires WellFormed(Items(stream))
      requires State() == INITIAL && sent == [] && !done && !failed && !cancelled
      modifies this
      ensures k <= |Items(stream)| && Reached(Items(stream), rules, k, State())
      ensures InStep(BATCH_LIMIT + 1) && (cancelled ==> cancellable)
      ensures !cancelled ==> k == |Items(stream)| && (failed <==> HasError(stream))
    {
      hide Reached, WellFormed, HasError, Items;
      ghost var items := Items(stream);
      k := 0;
      var i := 0;
      NothingConsumed(stream, rules);
      while true
        invariant 0 <= i <= |stream| && k <= |items| && Items(stream[..i]) == items[..k]
        invariant Reached(items, rules, k, State()) && BetweenTurns()
        invariant (failed <==> HasError(stream[..i])) && (done ==> cancelled) && (cancelled ==> cancellable)
        decreases |stream| - i
      {
        var quit := SelectDone();
        if quit || i == |stream| {
          done := true;
          assert i == |stream| ==> stream[..i] == stream;
          break;
        }
        NextResult(stream, i, k);
        var result := stream[i];
        i := i + 1;
        if result.WalkError? {
          failed := true;
        } else {
          HeadWhileCurrent(items, rules, k, State());
          ghost var s := State();
          var toEnd, mid := Receive(result.v, rules);
          k := k + 1;
          ReachedStep(items, rules, k, s, mid, State());
          if toEnd && done {
            break;
          }
        }
      }
    }

    /** The job: the loop, and unless it was cancelled the closing of the batches. */
    method Start(stream: seq<WalkResult>, rules: seq<Rule>) returns (err: bool)
      requires WellFormed(Items(stream))
      requires State() == INITIAL && sent == [] && !done && !failed && !cancelled
      modifies this
      ensures (err ==> cancelled) && (cancelled ==> cancellable)
      ensures Plain(Flatten(sent)) <= Expected(Items(stream), rules, |Items(stream)|)
      ensures MarkersOK(Items(stream), Flatten(sent)) && StampsExact(Items(stream), Flatten(sent), pushes)
      ensures !cancelled ==> Plain(Flatten(sent)) == Expected(Items(stream), rules, |Items(stream)|)
      ensures !cancelled ==>
                forall i :: 0 <= i < |sent| ==> if i < |sent| - 1 then |sent[i]| == 11 else 0 < |sent[i]| <= 11
      ensures !cancelled ==> FullBatches(sent) && (failed <==> WalkError in stream)
    {
      ghost var k := Consume(stream, rules);
      ReachedProduces(Items(stream), rules, k, State());
      StampsExactly(Items(stream), rules, k, State());
      HasErrorExactly(stream);
      hide Plain, MarkersOK, StampsExact, HasError, Reached, Expected, Items, WellFormed, FullBatches;
      var stop := SelectDone();
      if cancelled {
        return true;
      }
      CloseBatches(Expected(Items(stream), rules, |Items(stream)|), Items(stream));
      if !cancelled {
        BatchSizes(sent);
      }
      return false;
    }
  }
}
