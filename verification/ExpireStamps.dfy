/**
 * Which delete-marker count a whole-object entry is stamped with: every push stamps the last pending entry, and clears
 * the count that it used (cmd/batch-expire.go).
 */
module ExpireStamps {
  import opened Bytes
  import opened ExpireWalk

  /** All versions of this name are among the first j. */
  predicate Ended(items: seq<Version>, j: nat, name: string) {
    forall i :: j <= i < |items| ==> items[i].name != name
  }

  predicate Listed(items: seq<Version>, k: nat, name: string)
    requires k <= |items|
  {
    exists i :: 0 <= i < k && items[i].name == name
  }

  /** The count of a name is complete until a push uses it, and 0 from then on. */
  ghost predicate CountsLive(items: seq<Version>, j: nat, counts: map<string, int>, pushes: map<string, int>)
    requires j <= |items|
  {
    forall n :: Count(pushes, n) >= 0 &&
      if Count(pushes, n) == 0 then Count(counts, n) == Markers(items, j, n)
      else Count(counts, n) == 0 && Ended(items, j, n) && Listed(items, j, n)
  }

  /** The first push stamps the true count, and every later one 0. */
  predicate StampOK(items: seq<Version>, pushes: map<string, int>, e: Entry) {
    e.expireAll ==>
      e.deleteMarkerCount == if Count(pushes, e.v.name) == 1 then Markers(items, |items|, e.v.name) else 0
  }

  predicate Pushed1(pushes: map<string, int>, e: Entry) {
    e.expireAll ==> Count(pushes, e.v.name) >= 1
  }

  ghost predicate EntriesOK(items: seq<Version>, k: nat, es: seq<Entry>, pushes: map<string, int>)
    requires k <= |items|
  {
    (forall i :: 0 <= i < |es| ==>
       StampOK(items, pushes, es[i]) && (es[i].expireAll ==> Listed(items, k, es[i].v.name))) &&
    (forall i :: 0 <= i < |es| - 1 ==> Pushed1(pushes, es[i])) &&
    (forall i, j :: 0 <= i < j < |es| && es[i].expireAll && es[j].expireAll ==> es[i].v.name != es[j].v.name)
  }

  /** A last entry that no push has met yet is the one of the object being listed. */
  predicate FreshIsCurrent(s: LoopState) {
    s.toDel != [] && !Pushed1(s.pushes, s.toDel[|s.toDel| - 1]) ==>
      s.retain == 0 && s.toDel[|s.toDel| - 1].v.name == s.prevName
  }

  predicate LastPushed(pushes: map<string, int>, es: seq<Entry>) {
    es != [] ==> Pushed1(pushes, es[|es| - 1])
  }

  ghost predicate StampInv(items: seq<Version>, k: nat, j: nat, s: LoopState)
    requires k <= j <= |items|
  {
    CountsLive(items, j, s.counts, s.pushes) && EntriesOK(items, k, s.out + s.toDel, s.pushes) &&
    (s.toDel == [] ==> LastPushed(s.pushes, s.out)) && FreshIsCurrent(s)
  }

  // ---- counting ----

  lemma {:induction false} CountStamps(items: seq<Version>, k: nat, s: LoopState)
    requires k < |items| && StampInv(items, k, k, s)
    ensures StampInv(items, k, k + 1, s.(counts := CountVersion(s.counts, items[k])))
  {
    var counts := CountVersion(s.counts, items[k]);
    forall n ensures Count(s.pushes, n) >= 0 &&
      if Count(s.pushes, n) == 0 then Count(counts, n) == Markers(items, k + 1, n)
      else Count(counts, n) == 0 && Ended(items, k + 1, n) && Listed(items, k + 1, n)
    {
      if Count(s.pushes, n) > 0 {
        assert Ended(items, k, n) && Listed(items, k, n);
        assert n != items[k].name;
      }
    }
    hide EntriesOK;
  }

  // ---- pushing ----

  /** What a push does to the last entry, if it is a whole-object one of an object that is listed to its end. */
  lemma {:induction false} PushLast(items: seq<Version>, k: nat, j: nat, s: LoopState)
    requires k <= j <= |items| && StampInv(items, k, j, s)
    requires s.toDel != [] && s.toDel[|s.toDel| - 1].expireAll && Ended(items, j, s.toDel[|s.toDel| - 1].v.name)
    ensures CountsLive(items, j, Push(s).counts, Push(s).pushes)
    ensures StampOK(items, Push(s).pushes, Push(s).toDel[|s.toDel| - 1])
    ensures Pushed1(Push(s).pushes, Push(s).toDel[|s.toDel| - 1])
  {
    var e := s.toDel[|s.toDel| - 1];
    var name := e.v.name;
    assert (s.out + s.toDel)[|s.out + s.toDel| - 1] == e;
    MarkersComplete(items, name, j, |items|);
    var t := Push(s);
    ListedLonger(items, k, j, name);
    forall n ensures Count(t.pushes, n) >= 0 &&
      if Count(t.pushes, n) == 0 then Count(t.counts, n) == Markers(items, j, n)
      else Count(t.counts, n) == 0 && Ended(items, j, n) && Listed(items, j, n)
    {
      assert n != name ==> Count(t.pushes, n) == Count(s.pushes, n) && Count(t.counts, n) == Count(s.counts, n);
    }
    hide Markers, Ended;
  }

  lemma {:induction false} ListedLonger(items: seq<Version>, k: nat, j: nat, name: string)
    requires k <= j <= |items| && Listed(items, k, name)
    ensures Listed(items, j, name)
  {
  }

  lemma {:induction false} PushStamps(items: seq<Version>, k: nat, j: nat, s: LoopState)
    requires k <= j <= |items| && StampInv(items, k, j, s)
    requires s.toDel != [] && s.toDel[|s.toDel| - 1].expireAll ==> Ended(items, j, s.toDel[|s.toDel| - 1].v.name)
    ensures StampInv(items, k, j, Push(s)) && LastPushed(Push(s).pushes, Push(s).out + Push(s).toDel)
  {
    if s.toDel != [] && s.toDel[|s.toDel| - 1].expireAll {
      PushLast(items, k, j, s);
      OthersSame(items, k, s);
    } else if s.toDel == [] {
      assert s.out + s.toDel == s.out;
    }
    hide CountsLive, StampOK, Markers;
  }

  /** The other entries have other names. */
  lemma {:induction false} OthersSame(items: seq<Version>, k: nat, s: LoopState)
    requires k <= |items| && EntriesOK(items, k, s.out + s.toDel, s.pushes)
    requires s.toDel != [] && s.toDel[|s.toDel| - 1].expireAll
    requires StampOK(items, Push(s).pushes, Push(s).toDel[|s.toDel| - 1])
    ensures EntriesOK(items, k, Push(s).out + Push(s).toDel, Push(s).pushes)
  {
    var es, fs, last := s.out + s.toDel, Push(s).out + Push(s).toDel, |s.out + s.toDel| - 1;
    assert |fs| == |es| && es[last] == s.toDel[|s.toDel| - 1] && fs[last] == Push(s).toDel[|s.toDel| - 1];
    forall i | 0 <= i < last
      ensures fs[i] == es[i]
      ensures es[i].expireAll ==> Count(Push(s).pushes, es[i].v.name) == Count(s.pushes, es[i].v.name)
    {
    }
    hide Markers, Listed;
  }

  lemma {:induction false} FlushStamps(items: seq<Version>, k: nat, j: nat, s: LoopState)
    requires k <= j <= |items| && StampInv(items, k, j, s) && LastPushed(s.pushes, s.out + s.toDel)
    ensures StampInv(items, k, j, Flush(s)) && LastPushed(s.pushes, Flush(s).out + Flush(s).toDel)
  {
    assert s.out + s.toDel + [] == s.out + s.toDel;
    hide CountsLive, EntriesOK;
  }

  lemma {:induction false} PushedStamps(items: seq<Version>, k: nat, j: nat, s: LoopState, t: LoopState)
    requires k <= j <= |items| && StampInv(items, k, j, s) && Pushed(s, t)
    requires s.toDel != [] && s.toDel[|s.toDel| - 1].expireAll ==> Ended(items, j, s.toDel[|s.toDel| - 1].v.name)
    ensures StampInv(items, k, j, t) && LastPushed(t.pushes, t.out + t.toDel)
  {
    PushStamps(items, k, j, s);
    FlushStamps(items, k, j, Push(s));
    hide StampInv, Push, LastPushed;
  }

  // ---- appending ----

  lemma {:induction false} AppendStamps(items: seq<Version>, k: nat, s: LoopState, e: Entry)
    requires k < |items| && StampInv(items, k, k + 1, s) && LastPushed(s.pushes, s.out + s.toDel)
    requires e.deleteMarkerCount == 0 && e.v.name == items[k].name
    requires e.expireAll ==> !Listed(items, k, e.v.name) && s.retain == 0 && s.prevName == e.v.name &&
                             Count(s.pushes, e.v.name) == 0
    ensures StampInv(items, k + 1, k + 1, Append(s, e))
  {
    var es := s.out + s.toDel;
    assert s.out + Append(s, e).toDel == es + [e];
    forall i | 0 <= i < |es| && es[i].expireAll ensures Listed(items, k + 1, es[i].v.name) {
      ListedLonger(items, k, k + 1, es[i].v.name);
    }
    assert Listed(items, k + 1, items[k].name);
    hide CountsLive, Markers, Listed;
  }

  /** Nothing is appended. */
  lemma {:induction false} LaterStamps(items: seq<Version>, k: nat, s: LoopState)
    requires k < |items| && StampInv(items, k, k + 1, s)
    ensures StampInv(items, k + 1, k + 1, s)
  {
    var es := s.out + s.toDel;
    forall i | 0 <= i < |es| && es[i].expireAll ensures Listed(items, k + 1, es[i].v.name) {
      ListedLonger(items, k, k + 1, es[i].v.name);
    }
    hide CountsLive, StampOK, Pushed1, Listed;
  }

  // ---- turns ----

  /** The object of the last pending entry has ended when another one is listed. */
  lemma {:induction false} LastEnded(items: seq<Version>, k: nat, m: int, pending: seq<Entry>)
    requires k < |items| && m <= k && WellFormed(items) && LastListed(items, m, pending)
    requires forall a :: 0 <= a <= m ==> items[a].name != items[k].name
    requires pending != [] && pending[|pending| - 1].expireAll
    ensures Ended(items, k + 1, pending[|pending| - 1].v.name)
  {
    var name := pending[|pending| - 1].v.name;
    var a :| 0 <= a <= m && items[a].name == name;
    forall i | k + 1 <= i < |items| ensures items[i].name != name {
      if items[i].name == name {
        Contiguous(items, a, k, i);
      }
    }
  }

  lemma {:induction false} NotListedYet(items: seq<Version>, k: nat)
    requires k < |items| && WellFormed(items) && (items[k].isLatest || k == 0)
    ensures !Listed(items, k, items[k].name)
  {
    forall i | 0 <= i < k ensures items[i].name != items[k].name {
      HeadIsNew(items, k, i);
    }
  }

  lemma {:induction false} NotPushedYet(items: seq<Version>, k: nat, s: LoopState)
    requires k < |items| && StampInv(items, k, k, s)
    ensures Count(s.pushes, items[k].name) == 0
  {
    hide EntriesOK;
    assert Ended(items, k, items[k].name) ==> false;
  }

  lemma {:induction false} SwitchStamps(items: seq<Version>, rules: seq<Rule>, k: nat, m: int, c: LoopState,
                                        mid: LoopState)
    requires k < |items| && m < k && WellFormed(items) && items[k].isLatest && Inv(items, rules, k, k + 1, m, c)
    requires StampInv(items, k, k + 1, c) && Pushed(c, mid)
    ensures StampInv(items, k, k + 1, mid) && LastPushed(mid.pushes, mid.out + mid.toDel)
  {
    HeadAt(items, rules, k, m, c);
    hide Pushed, StampInv, WellFormed, Expected, MarkersOK, Counted, Tracks, FirstMatch, ExpectedAt, Ended;
    if c.toDel != [] && c.toDel[|c.toDel| - 1].expireAll {
      LastEnded(items, k, m, c.toDel);
    }
    PushedStamps(items, k, k + 1, c, mid);
  }

  lemma {:induction false} HeadStamps(items: seq<Version>, rules: seq<Rule>, k: nat, m: int, c: LoopState,
                                      mid: LoopState)
    requires k < |items| && m < k && WellFormed(items) && items[k].isLatest && Inv(items, rules, k, k + 1, m, c)
    requires StampInv(items, k, k + 1, c) && (c.prevName == items[k].name ==> c.toDel == [])
    requires if c.prevName != items[k].name then Pushed(c, mid) else mid == c
    ensures StampInv(items, k, k + 1, mid) && LastPushed(mid.pushes, mid.out + mid.toDel)
  {
    hide Inv, WellFormed, Pushed;
    if c.prevName != items[k].name {
      SwitchStamps(items, rules, k, m, c, mid);
    } else {
      assert c.out + [] == c.out;
    }
  }

  lemma {:induction false} SameEntries(items: seq<Version>, k: nat, j: nat, s: LoopState, prevName: string, retain: int,
                                       versionsCount: int)
    requires k <= j <= |items| && StampInv(items, k, j, s)
    requires LastPushed(s.pushes, s.out + s.toDel) || (prevName == s.prevName && retain == s.retain)
    ensures StampInv(items, k, j, s.(prevName := prevName, retain := retain, versionsCount := versionsCount))
  {
    hide CountsLive, EntriesOK;
    assert s.toDel != [] ==> (s.out + s.toDel)[|s.out + s.toDel| - 1] == s.toDel[|s.toDel| - 1];
  }

  lemma {:induction false} DueStamps(items: seq<Version>, k: nat, s: LoopState, t: LoopState)
    requires k < |items| && StampInv(items, k, k + 1, s) && LastPushed(s.pushes, s.out + s.toDel)
    requires Due(items[k], s, t)
    ensures StampInv(items, k + 1, k + 1, t)
  {
    hide StampInv, Pushed;
    if s.versionsCount <= s.retain {
      LaterStamps(items, k, s);
    } else {
      AppendStamps(items, k, s, Entry(items[k], false, 0));
      PushedStamps(items, k + 1, k + 1, Append(s, Entry(items[k], false, 0)), t);
    }
  }

  lemma {:induction false} LatestStamps(items: seq<Version>, rules: seq<Rule>, k: nat, m: int, c: LoopState,
                                        mid: LoopState, t: LoopState)
    requires k < |items| && m < k && WellFormed(items) && Inv(items, rules, k, k + 1, m, c) && items[k].isLatest
    requires StampInv(items, k, k + 1, c) && (c.prevName == items[k].name ==> c.toDel == [])
    requires Count(c.pushes, items[k].name) == 0 && LatestTurn(rules, items[k], c, mid, t)
    ensures StampInv(items, k + 1, k + 1, t)
  {
    hide Inv, WellFormed, StampInv, Pushed, Due, LastPushed, FirstMatch;
    var v := items[k];
    match FirstMatch(rules, v)
    case None => LaterStamps(items, k, c);
    case Some(r) =>
      HeadStamps(items, rules, k, m, c, mid);
      SameEntries(items, k, k + 1, mid, v.name, r.retain, 1);
      var h := mid.(prevName := v.name, retain := r.retain, versionsCount := 1);
      if r.retain == 0 {
        NotListedYet(items, k);
        OtherPushes(items, k, c, mid, v.name);
        AppendStamps(items, k, h, Entry(v, true, 0));
      } else {
        DueStamps(items, k, h, t);
      }
  }

  /** A push meets the entry of another object. */
  lemma {:induction false} OtherPushes(items: seq<Version>, k: nat, c: LoopState, mid: LoopState, name: string)
    requires k < |items| && StampInv(items, k, k + 1, c) && !Listed(items, k, name) && Count(c.pushes, name) == 0
    requires mid == c || Pushed(c, mid)
    ensures Count(mid.pushes, name) == 0
  {
    if c.toDel != [] {
      assert (c.out + c.toDel)[|c.out + c.toDel| - 1] == c.toDel[|c.toDel| - 1];
    }
    hide CountsLive, StampOK, Listed;
  }

  lemma {:induction false} CurrentIsPushed(items: seq<Version>, k: nat, j: nat, s: LoopState)
    requires k <= j <= |items| && StampInv(items, k, j, s) && s.retain != 0
    ensures LastPushed(s.pushes, s.out + s.toDel)
  {
    hide CountsLive, EntriesOK;
    if s.toDel == [] {
      assert s.out + s.toDel == s.out;
    }
  }

  lemma {:induction false} FollowStamps(items: seq<Version>, k: nat, c: LoopState, t: LoopState)
    requires k < |items| && StampInv(items, k, k + 1, c) && c.prevName == items[k].name && OlderTurn(items[k], c, t)
    ensures StampInv(items, k + 1, k + 1, t)
  {
    hide StampInv, Due, LastPushed;
    if c.retain == 0 {
      LaterStamps(items, k, c);
    } else {
      SameEntries(items, k, k + 1, c, c.prevName, c.retain, c.versionsCount + 1);
      CurrentIsPushed(items, k, k + 1, c);
      DueStamps(items, k, c.(versionsCount := c.versionsCount + 1), t);
    }
  }

  lemma {:induction false} SkipStamps(items: seq<Version>, rules: seq<Rule>, k: nat, m: int, c: LoopState,
                                      t: LoopState)
    requires k < |items| && m < k && WellFormed(items) && Inv(items, rules, k, k + 1, m, c)
    requires StampInv(items, k, k + 1, c) && !items[k].isLatest && c.prevName != items[k].name && Pushed(c, t)
    ensures StampInv(items, k + 1, k + 1, t)
  {
    SkipAt(items, rules, k, m, c.prevName, c.retain, c.versionsCount);
    hide Pushed, StampInv, WellFormed, Expected, MarkersOK, Counted, Tracks, FirstMatch, ExpectedAt, Ended;
    if c.toDel != [] && c.toDel[|c.toDel| - 1].expireAll {
      LastEnded(items, k, m, c.toDel);
    }
    PushedStamps(items, k, k + 1, c, t);
    LaterStamps(items, k, t);
  }

  lemma {:induction false} TurnStamps(items: seq<Version>, rules: seq<Rule>, k: nat, m: int, s: LoopState,
                                      mid: LoopState, t: LoopState)
    requires k < |items| && m < k && WellFormed(items) && Inv(items, rules, k, k, m, s) && StampInv(items, k, k, s)
    requires items[k].isLatest && s.prevName == items[k].name ==> s.toDel == []
    requires Turn(rules, items[k], s, mid, t)
    ensures StampInv(items, k + 1, k + 1, t)
  {
    hide Inv, StampInv, WellFormed, LatestTurn, OlderTurn, Pushed, CountVersion;
    var c := s.(counts := CountVersion(s.counts, items[k]));
    CountKeeps(items, rules, k, m, s);
    CountStamps(items, k, s);
    if items[k].isLatest {
      NotPushedYet(items, k, s);
      LatestStamps(items, rules, k, m, c, mid, t);
    } else if c.prevName == items[k].name {
      FollowStamps(items, k, c, t);
    } else {
      IsSkip(items[k], c, t);
      SkipStamps(items, rules, k, m, c, t);
    }
  }

  lemma IsSkip(v: Version, c: LoopState, t: LoopState)
    requires c.prevName != v.name && OlderTurn(v, c, t)
    ensures Pushed(c, t)
  {
  }

  lemma InitialStamps(items: seq<Version>)
    ensures StampInv(items, 0, 0, INITIAL)
  {
  }

  /** In every state that the loop reaches, the first push has stamped the true count and every later one 0. */
  lemma {:induction false} ReachedStamps(items: seq<Version>, rules: seq<Rule>, k: nat, s: LoopState)
    requires k <= |items| && WellFormed(items) && Reached(items, rules, k, s)
    ensures StampInv(items, k, k, s)
  {
    hide Turn, WellFormed, Inv, StampInv;
    if k == 0 {
      InitialStamps(items);
    } else {
      var p :| ReachedFrom(items, rules, k, p, s);
      var mid :| Turn(rules, items[k - 1], p, mid, s);
      var m := ReachedKeeps(items, rules, k - 1, p);
      HeadWhileCurrent(items, rules, k - 1, p);
      ReachedStamps(items, rules, k - 1, p);
      TurnStamps(items, rules, k - 1, m, p, mid, s);
    }
  }

  // ---- what is sent ----

  /** Every whole-object entry was met by a push; its count is the true one exactly if it was met once, or is 0. */
  predicate StampsExact(items: seq<Version>, es: seq<Entry>, pushes: map<string, int>) {
    forall e :: e in es && e.expireAll ==>
      Count(pushes, e.v.name) >= 1 &&
      (e.deleteMarkerCount == Markers(items, |items|, e.v.name) <==>
       Count(pushes, e.v.name) == 1 || Markers(items, |items|, e.v.name) == 0)
  }

  lemma {:induction false} SentStamps(items: seq<Version>, k: nat, s: LoopState)
    requires k <= |items| && StampInv(items, k, k, s)
    ensures StampsExact(items, s.out, s.pushes)
    ensures LastPushed(s.pushes, s.out + s.toDel) ==> StampsExact(items, s.out + s.toDel, s.pushes)
  {
    var es := s.out + s.toDel;
    forall e | e in s.out && e.expireAll ensures StampOK(items, s.pushes, e) && Pushed1(s.pushes, e) {
      var i :| 0 <= i < |s.out| && s.out[i] == e;
      assert es[i] == e;
      assert s.toDel == [] ==> es == s.out;
    }
    if LastPushed(s.pushes, es) {
      forall e | e in es && e.expireAll ensures StampOK(items, s.pushes, e) && Pushed1(s.pushes, e) {
        var i :| 0 <= i < |es| && es[i] == e;
      }
    }
    hide Markers, Listed, CountsLive;
  }

  /** What was sent by then, and after the closing push what is sent or pending, has the stamps that its pushes gave. */
  lemma {:induction false} StampsExactly(items: seq<Version>, rules: seq<Rule>, k: nat, s: LoopState)
    requires k <= |items| && WellFormed(items) && Reached(items, rules, k, s)
    ensures StampsExact(items, s.out, s.pushes)
    ensures k == |items| ==> StampsExact(items, s.out + Push(s).toDel, Push(s).pushes)
  {
    ReachedStamps(items, rules, k, s);
    SentStamps(items, k, s);
    if k == |items| {
      PushStamps(items, k, k, s);
      SentStamps(items, k, Push(s));
    }
    hide Reached, StampInv, StampsExact, WellFormed;
  }

  /** After the closing push, whether or not it sent the pending list. */
  lemma {:induction false} ClosingStamps(s: LoopState, t: LoopState, items: seq<Version>)
    requires Pushed(s, t) && StampsExact(items, s.out + Push(s).toDel, Push(s).pushes)
    ensures StampsExact(items, t.out, t.pushes) && StampsExact(items, t.out + t.toDel, t.pushes)
  {
    var es := s.out + Push(s).toDel;
    assert t.out + t.toDel == es && t.pushes == Push(s).pushes;
    forall e | e in t.out ensures e in es {
    }
    hide Push;
  }

  /**
   * A whole object with a delete marker, followed by an object that keeps its only version: the second push meets the
   * same last entry, and the object is sent with a count of 0.
   */
  lemma {:induction false} StampLost(v: Version, w: Version) returns (rules: seq<Rule>, s: LoopState)
    requires v.isLatest && v.deleteMarker && w.isLatest && !w.deleteMarker && v.name != w.name && v.name != ""
    ensures WellFormed([v, w]) && Reached([v, w], rules, 2, s) && Markers([v, w], 2, v.name) == 1
    ensures s.out + Push(s).toDel == [Entry(v, true, 0)] && Count(Push(s).pushes, v.name) == 2
  {
    rules := [Rule((x: Version) => x.name == v.name, 0), Rule((x: Version) => true, 1)];
    var items := [v, w];
    assert FirstMatch(rules, v) == Some(rules[0]);
    assert MatchFrom(rules, w, 1) == Some(rules[1]) && FirstMatch(rules, w) == Some(rules[1]);
    var a := LoopState([], [Entry(v, true, 0)], map[v.name := 1], v.name, 0, 1, map[]);
    var mid := LoopState([], [Entry(v, true, 1)], map[], v.name, 0, 1, map[v.name := 1]);
    s := LoopState([], [Entry(v, true, 1)], map[], w.name, 1, 1, map[v.name := 1]);
    FirstTurn(v, rules, a);
    assert Push(a) == mid && Turn(rules, w, a, mid, s);
    ReachedStep(items, rules, 1, INITIAL, Push(INITIAL.(counts := map[v.name := 1])), a);
    ReachedStep(items, rules, 2, a, mid, s);
    assert FirstOf(items, 0) == 0 && FirstOf(items, 1) == 1;
    assert Placed(items, 0) && Placed(items, 1);
    assert Markers(items, 0, v.name) == 0 && Markers(items, 1, v.name) == 1;
    assert Push(s).toDel == [Entry(v, true, 0)] && s.out + Push(s).toDel == Push(s).toDel;
  }

  lemma {:induction false} FirstTurn(v: Version, rules: seq<Rule>, a: LoopState)
    requires v.isLatest && v.deleteMarker && v.name != "" && FirstMatch(rules, v).Some?
    requires FirstMatch(rules, v).value.retain == 0
    requires a == LoopState([], [Entry(v, true, 0)], map[v.name := 1], v.name, 0, 1, map[])
    ensures Turn(rules, v, INITIAL, Push(INITIAL.(counts := map[v.name := 1])), a)
  {
  }
}
