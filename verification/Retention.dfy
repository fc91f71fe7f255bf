/** What a batch-expire job means for the objects of a bucket: the retention promise, object by object. */
module Retention {
  import opened Bytes
  import opened ExpireWalk

  /** The listed versions of one object: newest first, only the first may be marked latest. */
  predicate IsObject(o: seq<Version>) {
    o != [] && forall i :: 0 < i < |o| ==> o[i].name == o[0].name && !o[i].isLatest
  }

  predicate IsBucket(objs: seq<seq<Version>>) {
    (forall j :: 0 <= j < |objs| ==> IsObject(objs[j])) &&
    (forall i, j :: 0 <= i < j < |objs| ==> objs[i][0].name != objs[j][0].name)
  }

  /** The rule that decides for an object, chosen by its latest version. */
  function Decision(rules: seq<Rule>, o: seq<Version>): Option<Rule>
    requires o != []
  {
    if o[0].isLatest then FirstMatch(rules, o[0]) else None
  }

  /** Without a latest version nothing decides; otherwise the first rule that the latest version matches does. */
  lemma {:induction false} DecisionIsFirst(rules: seq<Rule>, o: seq<Version>)
    requires o != []
    ensures Decision(rules, o) == None <==>
            !o[0].isLatest || forall k :: 0 <= k < |rules| ==> !rules[k].matches(o[0])
    ensures Decision(rules, o).Some? ==>
              o[0].isLatest && exists k: nat :: IsFirst(rules, o[0], k) && Decision(rules, o).value == rules[k]
  {
    FirstMatchDecides(rules, o[0]);
    hide FirstMatch;
  }

  /** The number of versions, newest first, that an object keeps. */
  function Keeps(rules: seq<Rule>, o: seq<Version>): (n: nat)
    requires o != []
    ensures n <= |o|
  {
    match Decision(rules, o)
    case None => |o|
    case Some(r) => if r.retain <= 0 then 0 else if r.retain < |o| then r.retain else |o|
  }

  /** The number kept in plain terms: of the first rule that the latest version matches, at most all; otherwise all. */
  lemma {:induction false} KeepsPlain(rules: seq<Rule>, o: seq<Version>, k: nat)
    requires o != []
    ensures o[0].isLatest && IsFirst(rules, o[0], k) ==>
              var n := rules[k].retain;
              Keeps(rules, o) == if n <= 0 then 0 else if n < |o| then n else |o|
    ensures !o[0].isLatest || (forall i :: 0 <= i < |rules| ==> !rules[i].matches(o[0])) ==> Keeps(rules, o) == |o|
  {
    DecisionIsFirst(rules, o);
    if o[0].isLatest && IsFirst(rules, o[0], k) {
      FirstMatchDecides(rules, o[0]);
      assert Decides(rules, o[0], Some(rules[k]));
      OneDecides(rules, o[0], Some(rules[k]), FirstMatch(rules, o[0]));
    }
    hide FirstMatch;
  }

  /** What version i of an object sends to deletion: the whole object with its head, or itself if it is not kept. */
  function DemandAt(rules: seq<Rule>, o: seq<Version>, i: nat): seq<Entry>
    requires i < |o|
  {
    match Decision(rules, o)
    case None => []
    case Some(r) =>
      if r.retain == 0 then (if i == 0 then [Entry(o[0], true, 0)] else [])
      else if i >= Keeps(rules, o) then [Entry(o[i], false, 0)] else []
  }

  /** The concatenation of the first n pieces. */
  function Gather<T>(piece: nat -> seq<T>, n: nat): seq<T> {
    if n == 0 then [] else Gather(piece, n - 1) + piece(n - 1)
  }

  function ObjectPieces(rules: seq<Rule>, o: seq<Version>): nat -> seq<Entry> {
    (i: nat) => if i < |o| then DemandAt(rules, o, i) else []
  }

  /** What one object sends to deletion. */
  function Demand(rules: seq<Rule>, o: seq<Version>): seq<Entry> {
    Gather(ObjectPieces(rules, o), |o|)
  }

  function Demands(rules: seq<Rule>, objs: seq<seq<Version>>): seq<Entry>
    requires forall j :: 0 <= j < |objs| ==> objs[j] != []
  {
    if objs == [] then []
    else Demands(rules, objs[..|objs| - 1]) + Demand(rules, objs[|objs| - 1])
  }

  // ---- the listing of a bucket is well formed ----

  lemma {:induction false} ListedNames(objs: seq<seq<Version>>, i: nat)
    requires IsBucket(objs) && i < |Flatten(objs)|
    ensures exists j :: 0 <= j < |objs| && objs[j][0].name == Flatten(objs)[i].name
  {
    var init := objs[..|objs| - 1];
    if i < |Flatten(init)| {
      ListedNames(init, i);
      var j :| 0 <= j < |init| && init[j][0].name == Flatten(init)[i].name;
      assert objs[j] == init[j];
    } else {
      assert objs[|objs| - 1][0].name == Flatten(objs)[i].name;
    }
  }

  /** The last object of a bucket shares no name with what is listed before it, p. */
  lemma LastIsNew(objs: seq<seq<Version>>, p: seq<Version>)
    requires IsBucket(objs) && objs != [] && p == Flatten(objs[..|objs| - 1])
    ensures forall i :: 0 <= i < |p| ==> p[i].name != objs[|objs| - 1][0].name
  {
    var init := objs[..|objs| - 1];
    forall i | 0 <= i < |p| ensures p[i].name != objs[|objs| - 1][0].name {
      ListedNames(init, i);
      var j :| 0 <= j < |init| && init[j][0].name == p[i].name;
      assert objs[j] == init[j];
    }
  }

  lemma AppendObject(p: seq<Version>, o: seq<Version>)
    requires WellFormed(p) && IsObject(o)
    requires forall i :: 0 <= i < |p| ==> p[i].name != o[0].name
    ensures WellFormed(p + o)
  {
    var items := p + o;
    forall k | 0 <= k < |items| ensures Placed(items, k) {
      if k < |p| {
        assert Placed(p, k);
        FirstOfLocal(p, o, k, 0);
      } else {
        var i := k - |p|;
        assert items[k] == o[i];
        if i == 0 {
          FirstOfUnique(items, k, k);
        } else {
          assert items[k - 1] == o[i - 1];
        }
      }
    }
  }

  /** Listing a bucket object by object gives a well-formed walk. */
  lemma {:induction false} ListingWellFormed(objs: seq<seq<Version>>)
    requires IsBucket(objs)
    ensures WellFormed(Flatten(objs))
  {
    if objs != [] {
      ListingWellFormed(objs[..|objs| - 1]);
      LastIsNew(objs, Flatten(objs[..|objs| - 1]));
      AppendObject(Flatten(objs[..|objs| - 1]), objs[|objs| - 1]);
    }
  }

  // ---- the walk's specification is the per-object one ----

  lemma {:induction false} FirstOfLocal(p: seq<Version>, q: seq<Version>, k: nat, from: nat)
    requires from <= k < |p|
    ensures FirstNamed(p + q, k, from) == FirstNamed(p, k, from)
    decreases k - from
  {
    if p[from].name != p[k].name {
      FirstOfLocal(p, q, k, from + 1);
    }
  }

  lemma ExpectedAtLocal(p: seq<Version>, q: seq<Version>, rules: seq<Rule>, k: nat)
    requires k < |p|
    ensures ExpectedAt(p + q, rules, k) == ExpectedAt(p, rules, k)
  {
    hide FirstNamed, FirstMatch;
    FirstOfLocal(p, q, k, 0);
  }

  lemma {:induction false} ExpectedLocal(p: seq<Version>, q: seq<Version>, rules: seq<Rule>, n: nat)
    requires n <= |p|
    ensures Expected(p + q, rules, n) == Expected(p, rules, n)
  {
    hide ExpectedAt;
    if n > 0 {
      ExpectedLocal(p, q, rules, n - 1);
      ExpectedAtLocal(p, q, rules, n - 1);
    }
  }

  lemma ExpectedAtLast(p: seq<Version>, o: seq<Version>, rules: seq<Rule>, i: nat)
    requires IsObject(o) && i < |o|
    requires o != [] && forall j :: 0 <= j < |p| ==> p[j].name != o[0].name
    ensures ExpectedAt(p + o, rules, |p| + i) == DemandAt(rules, o, i)
  {
    FirstOfUnique(p + o, |p| + i, |p|);
  }

  lemma {:induction false} GatherShift<T>(f: nat -> seq<T>, g: nat -> seq<T>, n: nat, m: nat)
    requires forall i: nat :: i < m ==> f(n + i) == g(i)
    ensures Gather(f, n + m) == Gather(f, n) + Gather(g, m)
  {
    if m > 0 {
      GatherShift(f, g, n, m - 1);
      assert f(n + (m - 1)) == g(m - 1);
    }
  }

  function WalkPieces(items: seq<Version>, rules: seq<Rule>): nat -> seq<Entry> {
    (k: nat) => if k < |items| then ExpectedAt(items, rules, k) else []
  }

  lemma {:induction false} ExpectedGathers(items: seq<Version>, rules: seq<Rule>, n: nat)
    requires n <= |items|
    ensures Expected(items, rules, n) == Gather(WalkPieces(items, rules), n)
  {
    hide ExpectedAt;
    if n > 0 {
      ExpectedGathers(items, rules, n - 1);
    }
  }

  lemma {:induction false} LastPiece(p: seq<Version>, o: seq<Version>, rules: seq<Rule>, i: nat)
    requires IsObject(o) && i < |o|
    requires o != [] && forall j :: 0 <= j < |p| ==> p[j].name != o[0].name
    ensures WalkPieces(p + o, rules)(|p| + i) == ObjectPieces(rules, o)(i)
  {
    hide ExpectedAt, DemandAt;
    ExpectedAtLast(p, o, rules, i);
  }

  lemma DemandGathers(rules: seq<Rule>, o: seq<Version>)
    ensures Demand(rules, o) == Gather(ObjectPieces(rules, o), |o|)
  {
  }

  lemma {:induction false} LastObjectExpected(p: seq<Version>, o: seq<Version>, rules: seq<Rule>)
    requires IsObject(o)
    requires o != [] && forall j :: 0 <= j < |p| ==> p[j].name != o[0].name
    ensures Gather(WalkPieces(p + o, rules), |p| + |o|) == Gather(WalkPieces(p + o, rules), |p|) + Demand(rules, o)
  {
    hide *;
    forall i: nat | i < |o| ensures WalkPieces(p + o, rules)(|p| + i) == ObjectPieces(rules, o)(i) {
      LastPiece(p, o, rules, i);
    }
    GatherShift(WalkPieces(p + o, rules), ObjectPieces(rules, o), |p|, |o|);
    DemandGathers(rules, o);
  }

  /** Adding an object to the end of a listing adds that object's demand. */
  lemma {:induction false} AppendedObjectExpected(p: seq<Version>, o: seq<Version>, rules: seq<Rule>)
    requires IsObject(o)
    requires o != [] && forall j :: 0 <= j < |p| ==> p[j].name != o[0].name
    ensures Expected(p + o, rules, |p| + |o|) == Expected(p, rules, |p|) + Demand(rules, o)
  {
    hide *;
    LastObjectExpected(p, o, rules);
    ExpectedGathers(p + o, rules, |p| + |o|);
    ExpectedGathers(p + o, rules, |p|);
    ExpectedLocal(p, o, rules, |p|);
  }

  lemma {:induction false} ListedObjectExpected(p: seq<Version>, o: seq<Version>, whole: seq<Version>, rules: seq<Rule>)
    requires IsObject(o) && whole == p + o
    requires o != [] && forall j :: 0 <= j < |p| ==> p[j].name != o[0].name
    ensures Expected(whole, rules, |whole|) == Expected(p, rules, |p|) + Demand(rules, o)
  {
    hide *;
    AppendedObjectExpected(p, o, rules);
  }

  lemma OneObjectMore(objs: seq<seq<Version>>, rules: seq<Rule>)
    requires IsBucket(objs) && objs != []
    ensures var init, last := objs[..|objs| - 1], objs[|objs| - 1];
            IsBucket(init) && IsObject(last) && Flatten(objs) == Flatten(init) + last &&
            Demands(rules, objs) == Demands(rules, init) + Demand(rules, last)
  {
    hide Demand;
  }

  /**
   * Refinement: for every bucket, what the one-pass specification asks of the listed stream is, in stream order,
   * what each object asks for on its own.
   */
  lemma {:induction false} WalkMeetsDemands(objs: seq<seq<Version>>, rules: seq<Rule>)
    requires IsBucket(objs)
    ensures Expected(Flatten(objs), rules, |Flatten(objs)|) == Demands(rules, objs)
  {
    if objs != [] {
      OneObjectMore(objs, rules);
      hide *;
      var init := objs[..|objs| - 1];
      WalkMeetsDemands(init, rules);
      LastIsNew(objs, Flatten(init));
      ListedObjectExpected(Flatten(init), objs[|objs| - 1], Flatten(objs), rules);
    } else {
      assert Flatten(objs) == [];
    }
  }

  // ---- what is left in the bucket ----

  /** A deletion hits a version through its whole object or through its version ID. */
  predicate Hits(e: Entry, v: Version) {
    e.v.name == v.name && (e.expireAll || e.v.versionID == v.versionID)
  }

  predicate Deleted(es: seq<Entry>, v: Version) {
    exists i :: 0 <= i < |es| && Hits(es[i], v)
  }

  /** The versions of an object that the deletions leave behind. */
  function Left(es: seq<Entry>, o: seq<Version>): seq<Version> {
    if o == [] then []
    else Left(es, o[..|o| - 1]) + if Deleted(es, o[|o| - 1]) then [] else [o[|o| - 1]]
  }

  predicate DistinctIDs(o: seq<Version>) {
    forall i, j :: 0 <= i < j < |o| ==> o[i].versionID != o[j].versionID
  }

  lemma {:induction false} DemandsSplit(rules: seq<Rule>, objs: seq<seq<Version>>, e: Entry) returns (j: int)
    requires forall j :: 0 <= j < |objs| ==> objs[j] != []
    requires e in Demands(rules, objs)
    ensures 0 <= j < |objs| && e in Demand(rules, objs[j])
  {
    j := |objs| - 1;
    if e !in Demand(rules, objs[j]) {
      j := DemandsSplit(rules, objs[..|objs| - 1], e);
    }
  }

  lemma {:induction false} DemandsInclude(rules: seq<Rule>, objs: seq<seq<Version>>, e: Entry, j: nat)
    requires forall j :: 0 <= j < |objs| ==> objs[j] != []
    requires j < |objs| && e in Demand(rules, objs[j])
    ensures e in Demands(rules, objs)
  {
    if j < |objs| - 1 {
      DemandsInclude(rules, objs[..|objs| - 1], e, j);
    }
  }

  lemma {:induction false} GatherMember<T>(piece: nat -> seq<T>, n: nat, e: T) returns (i: nat)
    requires e in Gather(piece, n)
    ensures i < n && e in piece(i)
  {
    i := n - 1;
    if e !in piece(n - 1) {
      i := GatherMember(piece, n - 1, e);
    }
  }

  lemma {:induction false} GatherIncludes<T>(piece: nat -> seq<T>, n: nat, i: nat, e: T)
    requires i < n && e in piece(i)
    ensures e in Gather(piece, n)
  {
    if i < n - 1 {
      GatherIncludes(piece, n - 1, i, e);
    }
  }

  lemma DemandIsOwn(rules: seq<Rule>, o: seq<Version>, e: Entry)
    requires IsObject(o) && e in Demand(rules, o)
    ensures e.v.name == o[0].name
  {
    var i := GatherMember(ObjectPieces(rules, o), |o|, e);
  }

  /** An object's own demand deletes exactly the versions beyond the ones it keeps. */
  lemma OwnDemandDeletes(rules: seq<Rule>, o: seq<Version>, i: nat)
    requires IsObject(o) && DistinctIDs(o) && i < |o|
    ensures (exists e :: e in Demand(rules, o) && Hits(e, o[i])) <==> i >= Keeps(rules, o)
  {
    var pieces := ObjectPieces(rules, o);
    if Decision(rules, o).Some? && i >= Keeps(rules, o) {
      var at := if Decision(rules, o).value.retain == 0 then 0 else i;
      var e := pieces(at)[0];
      GatherIncludes(pieces, |o|, at, e);
      assert e in Demand(rules, o) && Hits(e, o[i]);
    }
    forall e | e in Demand(rules, o) && Hits(e, o[i]) ensures i >= Keeps(rules, o) {
      var at := GatherMember(pieces, |o|, e);
    }
  }

  /** In the demands of a whole bucket, only an object's own demand hits its versions. */
  lemma DemandsDelete(rules: seq<Rule>, objs: seq<seq<Version>>, j: nat, i: nat)
    requires IsBucket(objs) && j < |objs| && DistinctIDs(objs[j]) && i < |objs[j]|
    ensures (exists e :: e in Demands(rules, objs) && Hits(e, objs[j][i])) <==> i >= Keeps(rules, objs[j])
  {
    var o := objs[j];
    OwnDemandDeletes(rules, o, i);
    if i >= Keeps(rules, o) {
      var e :| e in Demand(rules, o) && Hits(e, o[i]);
      DemandsInclude(rules, objs, e, j);
      assert e in Demands(rules, objs) && Hits(e, o[i]);
    }
    forall e | e in Demands(rules, objs) && Hits(e, o[i]) ensures i >= Keeps(rules, o) {
      var l := DemandsSplit(rules, objs, e);
      DemandIsOwn(rules, objs[l], e);
      assert l == j;
    }
  }

  lemma {:induction false} LeftIsPrefix(es: seq<Entry>, o: seq<Version>, kept: nat)
    requires kept <= |o| && forall i :: 0 <= i < |o| ==> (Deleted(es, o[i]) <==> i >= kept)
    ensures Left(es, o) == o[..kept]
  {
    if o != [] {
      var init := o[..|o| - 1];
      LeftIsPrefix(es, init, if kept < |o| then kept else kept - 1);
    }
  }

  lemma PlainHits(es: seq<Entry>, v: Version)
    ensures Deleted(es, v) <==> exists e :: e in Plain(es) && Hits(e, v)
  {
    if Deleted(es, v) {
      var x :| 0 <= x < |es| && Hits(es[x], v);
      assert Plain(es)[x] in Plain(es) && Hits(Plain(es)[x], v);
    }
    if e :| e in Plain(es) && Hits(e, v) {
      var x :| 0 <= x < |es| && Plain(es)[x] == e;
      assert Hits(es[x], v);
    }
  }

  /** The entries that the walk of a bucket sends hit exactly the versions beyond the ones an object keeps. */
  lemma SentHitsExactly(objs: seq<seq<Version>>, rules: seq<Rule>, es: seq<Entry>, j: nat, i: nat)
    requires IsBucket(objs) && j < |objs| && DistinctIDs(objs[j]) && i < |objs[j]|
    requires Plain(es) == Expected(Flatten(objs), rules, |Flatten(objs)|)
    ensures Deleted(es, objs[j][i]) <==> i >= Keeps(rules, objs[j])
  {
    WalkMeetsDemands(objs, rules);
    DemandsDelete(rules, objs, j, i);
    PlainHits(es, objs[j][i]);
  }

  /**
   * Retention: the entries that the walk of a bucket sends leave every object exactly the versions it keeps. No
   * matching rule: all of them; retain r > 0: its min(r, n) newest; retain 0: none.
   */
  lemma RetentionExact(objs: seq<seq<Version>>, rules: seq<Rule>, es: seq<Entry>, j: nat)
    requires IsBucket(objs) && j < |objs| && DistinctIDs(objs[j])
    requires Plain(es) == Expected(Flatten(objs), rules, |Flatten(objs)|)
    ensures Left(es, objs[j]) == objs[j][..Keeps(rules, objs[j])]
  {
    var o := objs[j];
    forall i | 0 <= i < |o| ensures Deleted(es, o[i]) <==> i >= Keeps(rules, o) {
      SentHitsExactly(objs, rules, es, j, i);
    }
    LeftIsPrefix(es, o, Keeps(rules, o));
  }

  /**
   * The same in plain terms. With the rule at k the first that the latest version of an object matches, the entries
   * leave it nothing if that rule retains nothing, and as many of its newest versions as it retains otherwise; an
   * object whose latest version matches no rule, or which has none, is left as it is.
   */
  lemma {:induction false} RetentionPlain(objs: seq<seq<Version>>, rules: seq<Rule>, es: seq<Entry>, j: nat, k: nat)
    requires IsBucket(objs) && j < |objs| && DistinctIDs(objs[j])
    requires Plain(es) == Expected(Flatten(objs), rules, |Flatten(objs)|)
    ensures var o := objs[j];
            o[0].isLatest && IsFirst(rules, o[0], k) ==>
              var n := rules[k].retain;
              Left(es, o) == if n <= 0 then [] else if n < |o| then o[..n] else o
    ensures var o := objs[j];
            !o[0].isLatest || (forall i :: 0 <= i < |rules| ==> !rules[i].matches(o[0])) ==> Left(es, o) == o
  {
    var o := objs[j];
    RetentionExact(objs, rules, es, j);
    KeepsPlain(rules, o, k);
    assert o[..|o|] == o;
    hide Left, Expected, Plain, Flatten, IsBucket, DistinctIDs, Keeps;
  }

  /** What one object sends: itself as a whole with its head, or each version beyond those kept, newest first. */
  lemma {:induction false} DemandPlain(rules: seq<Rule>, o: seq<Version>, k: nat)
    requires o != [] && o[0].isLatest && IsFirst(rules, o[0], k)
    ensures rules[k].retain == 0 ==> Demand(rules, o) == [Entry(o[0], true, 0)]
    ensures rules[k].retain != 0 ==>
              var keep := if rules[k].retain < 0 then 0 else if rules[k].retain < |o| then rules[k].retain else |o|;
              |Demand(rules, o)| == |o| - keep &&
              forall i :: keep <= i < |o| ==> Demand(rules, o)[i - keep] == Entry(o[i], false, 0)
  {
    FirstMatchDecides(rules, o[0]);
    assert Decides(rules, o[0], Some(rules[k]));
    OneDecides(rules, o[0], Some(rules[k]), FirstMatch(rules, o[0]));
    DemandUpTo(rules, o, |o|);
    hide FirstMatch, Gather;
  }

  lemma {:induction false} DemandUpTo(rules: seq<Rule>, o: seq<Version>, n: nat)
    requires o != [] && n <= |o| && Decision(rules, o).Some?
    ensures var r, es := Decision(rules, o).value, Gather(ObjectPieces(rules, o), n);
            if r.retain == 0 then es == if n == 0 then [] else [Entry(o[0], true, 0)]
            else
              var keep := Keeps(rules, o);
              |es| == (if n < keep then 0 else n - keep) &&
              forall i :: keep <= i < n ==> es[i - keep] == Entry(o[i], false, 0)
  {
    hide Decision;
    if n > 0 {
      DemandUpTo(rules, o, n - 1);
    }
  }

  /** Retention, whatever fails: a version that its object keeps is never deleted by any part of what the walk sends. */
  lemma RetainedIsSafe(objs: seq<seq<Version>>, rules: seq<Rule>, es: seq<Entry>, j: nat, i: nat)
    requires IsBucket(objs) && j < |objs| && DistinctIDs(objs[j]) && i < Keeps(rules, objs[j])
    requires forall e :: e in Plain(es) ==> e in Expected(Flatten(objs), rules, |Flatten(objs)|)
    ensures !Deleted(es, objs[j][i])
  {
    WalkMeetsDemands(objs, rules);
    DemandsDelete(rules, objs, j, i);
    forall x | 0 <= x < |es| ensures !Hits(es[x], objs[j][i]) {
      assert Plain(es)[x] in Demands(rules, objs);
    }
  }
}
