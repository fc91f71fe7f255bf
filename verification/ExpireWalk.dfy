/** The walk of a batch-expire job: which versions a stream of versions sends to deletion (cmd/batch-expire.go). */
module ExpireWalk {
  import opened Bytes

  /** The fields of an ObjectInfo that the walk and the counters read. */
  datatype Version = Version(name: string, versionID: string, isLatest: bool, deleteMarker: bool,
                             numVersions: int, size: int)

  /** A filter, as the predicate it computes at the job's start time, with its purge setting. */
  datatype Rule = Rule(matches: Version -> bool, retain: int)

  /** What the walk channel delivers. */
  datatype WalkResult = Item(v: Version) | WalkError

  /** An expireObjInfo. */
  datatype Entry = Entry(v: Version, expireAll: bool, deleteMarkerCount: int)

  /** A batch goes out as soon as the pending list is longer than this. */
  const BATCH_LIMIT := 10

  // ---- the specification, version by version ----

  /** The rule is the one with this index, and the first that matches. */
  predicate IsFirst(rules: seq<Rule>, v: Version, k: nat) {
    k < |rules| && rules[k].matches(v) && forall j :: 0 <= j < k ==> !rules[j].matches(v)
  }

  /** This is the rule that decides for a version: the first that matches, or none if none does. */
  ghost predicate Decides(rules: seq<Rule>, v: Version, found: Option<Rule>) {
    match found
    case None => forall k :: 0 <= k < |rules| ==> !rules[k].matches(v)
    case Some(r) => exists k: nat :: IsFirst(rules, v, k) && r == rules[k]
  }

  lemma {:induction false} OneDecides(rules: seq<Rule>, v: Version, a: Option<Rule>, b: Option<Rule>)
    requires Decides(rules, v, a) && Decides(rules, v, b)
    ensures a == b
  {
    if a.Some? && b.Some? {
      var i: nat :| IsFirst(rules, v, i) && a.value == rules[i];
      var j: nat :| IsFirst(rules, v, j) && b.value == rules[j];
      assert i == j;
    }
  }

  function FirstMatch(rules: seq<Rule>, v: Version): Option<Rule> {
    MatchFrom(rules, v, 0)
  }

  lemma {:induction false} FirstMatchDecides(rules: seq<Rule>, v: Version)
    ensures Decides(rules, v, FirstMatch(rules, v))
  {
    MatchFromDecides(rules, v, 0);
  }

  lemma {:induction false} MatchFromDecides(rules: seq<Rule>, v: Version, i: nat)
    requires i <= |rules| && forall j :: 0 <= j < i ==> !rules[j].matches(v)
    ensures Decides(rules, v, MatchFrom(rules, v, i))
    decreases |rules| - i
  {
    if i < |rules| {
      if rules[i].matches(v) {
        assert IsFirst(rules, v, i);
      } else {
        hide Decides;
        MatchFromDecides(rules, v, i + 1);
      }
    }
  }

  function MatchFrom(rules: seq<Rule>, v: Version, i: nat): Option<Rule>
    requires i <= |rules|
    decreases |rules| - i
  {
    if i == |rules| then None
    else if rules[i].matches(v) then Some(rules[i])
    else MatchFrom(rules, v, i + 1)
  }

  /** The versions of a walk, its errors dropped. */
  function Items(stream: seq<WalkResult>): seq<Version> {
    if stream == [] then []
    else Items(stream[..|stream| - 1]) +
         match stream[|stream| - 1] { case Item(v) => [v] case WalkError => [] }
  }

  predicate HasError(stream: seq<WalkResult>) {
    stream != [] && (stream[|stream| - 1].WalkError? || HasError(stream[..|stream| - 1]))
  }

  lemma {:induction false} HasErrorExactly(stream: seq<WalkResult>)
    ensures HasError(stream) <==> WalkError in stream
  {
    if stream != [] {
      HasErrorExactly(stream[..|stream| - 1]);
      assert stream == stream[..|stream| - 1] + [stream[|stream| - 1]];
    }
  }

  /** Every version delivered is an item, every error is not, and the order stays. */
  lemma {:induction false} ItemsConcat(a: seq<WalkResult>, b: seq<WalkResult>)
    ensures Items(a + b) == Items(a) + Items(b)
    ensures Items([WalkError]) == [] && forall v :: Items([Item(v)]) == [v]
  {
    assert forall x: WalkResult :: [x][..0] == [];
    if b == [] {
      assert a + b == a;
    } else {
      assert (a + b)[..|a + b| - 1] == a + b[..|b| - 1];
      ItemsConcat(a, b[..|b| - 1]);
    }
  }

  /** The position of the first version of the object that version k belongs to. */
  function FirstOf(items: seq<Version>, k: nat): (f: nat)
    requires k < |items|
    ensures f <= k
  {
    FirstNamed(items, k, 0)
  }

  function FirstNamed(items: seq<Version>, k: nat, from: nat): (f: nat)
    requires from <= k < |items|
    ensures from <= f <= k
    decreases k - from
  {
    if items[from].name == items[k].name then from else FirstNamed(items, k, from + 1)
  }

  lemma {:induction false} FirstNamedIsFirst(items: seq<Version>, k: nat, from: nat)
    requires from <= k < |items|
    ensures items[FirstNamed(items, k, from)].name == items[k].name
    ensures forall j :: from <= j < FirstNamed(items, k, from) ==> items[j].name != items[k].name
    decreases k - from
  {
    if items[from].name != items[k].name {
      FirstNamedIsFirst(items, k, from + 1);
    }
  }

  /** f is the first position of an object whose name version k carries. */
  lemma FirstOfUnique(items: seq<Version>, k: nat, f: nat)
    requires f <= k < |items| && items[f].name == items[k].name
    requires forall j :: 0 <= j < f ==> items[j].name != items[k].name
    ensures FirstOf(items, k) == f
  {
    FirstNamedIsFirst(items, k, 0);
  }

  /**
   * The walk lists object after object: a version continues the object listed before it or is the first of its
   * name; and the latest version of an object, if listed, comes first.
   */
  ghost predicate WellFormed(items: seq<Version>) {
    forall k :: 0 <= k < |items| ==> Placed(items, k)
  }

  predicate Placed(items: seq<Version>, k: nat)
    requires k < |items|
  {
    FirstOf(items, k) == k || (items[k - 1].name == items[k].name && !items[k].isLatest)
  }

  /** Between two versions of an object lie only versions of that object. */
  lemma {:induction false} Contiguous(items: seq<Version>, i: nat, j: nat, k: nat)
    requires i <= j <= k < |items| && WellFormed(items) && items[i].name == items[k].name
    ensures items[j].name == items[i].name
  {
    if j < k {
      assert Placed(items, k);
      FirstNamedIsFirst(items, k, 0);
      Contiguous(items, i, j, k - 1);
    }
  }

  lemma HeadIsNew(items: seq<Version>, k: nat, i: nat)
    requires i < k < |items| && WellFormed(items)
    requires items[k].isLatest || items[k - 1].name != items[k].name
    ensures items[i].name != items[k].name && FirstOf(items, k) == k
  {
    assert Placed(items, k);
    FirstNamedIsFirst(items, k, 0);
  }

  /** The retention rule at version k: the rule is chosen by the object's latest version, its head. */
  function ExpectedAt(items: seq<Version>, rules: seq<Rule>, k: nat): seq<Entry>
    requires k < |items|
  {
    var f := FirstOf(items, k);
    if !items[f].isLatest then []
    else match FirstMatch(rules, items[f])
      case None => []
      case Some(r) =>
        if r.retain == 0 then (if k == f then [Entry(items[k], true, 0)] else [])
        else if k - f >= r.retain then [Entry(items[k], false, 0)]
        else []
  }

  function Expected(items: seq<Version>, rules: seq<Rule>, n: nat): seq<Entry>
    requires n <= |items|
  {
    if n == 0 then [] else Expected(items, rules, n - 1) + ExpectedAt(items, rules, n - 1)
  }

  /** The number of delete markers listed for an object among the first n versions. */
  function Markers(items: seq<Version>, n: nat, name: string): nat
    requires n <= |items|
  {
    if n == 0 then 0
    else Markers(items, n - 1, name) + if items[n - 1].name == name && items[n - 1].deleteMarker then 1 else 0
  }

  /** The positions of these delete markers. */
  function MarkersAt(items: seq<Version>, n: nat, name: string): set<int>
    requires n <= |items|
  {
    set i | 0 <= i < n && items[i].name == name && items[i].deleteMarker
  }

  lemma {:induction false} MarkersAreCounted(items: seq<Version>, n: nat, name: string)
    requires n <= |items|
    ensures Markers(items, n, name) == |MarkersAt(items, n, name)|
  {
    if n > 0 {
      MarkersAreCounted(items, n - 1, name);
      MarkersStep(items, n - 1, name);
      hide MarkersAt;
    }
  }

  lemma {:induction false} MarkersStep(items: seq<Version>, k: nat, name: string)
    requires k < |items|
    ensures k !in MarkersAt(items, k, name)
    ensures MarkersAt(items, k + 1, name) ==
            MarkersAt(items, k, name) + if items[k].name == name && items[k].deleteMarker then {k} else {}
  {
  }

  // ---- entries without their delete-marker count, and batches ----

  function Plain(es: seq<Entry>): (ps: seq<Entry>)
    ensures |ps| == |es|
    ensures forall i :: 0 <= i < |es| ==> ps[i] == es[i].(deleteMarkerCount := 0)
  {
    seq(|es|, i requires 0 <= i < |es| => es[i].(deleteMarkerCount := 0))
  }

  function Flatten<T>(batches: seq<seq<T>>): seq<T> {
    if batches == [] then [] else Flatten(batches[..|batches| - 1]) + batches[|batches| - 1]
  }

  predicate AllFull(batches: seq<seq<Entry>>) {
    forall i :: 0 <= i < |batches| ==> |batches[i]| == BATCH_LIMIT + 1
  }

  /** All batches but the last hold exactly eleven entries; the last holds at most eleven. */
  predicate FullBatches(batches: seq<seq<Entry>>) {
    batches != [] ==>
      AllFull(batches[..|batches| - 1]) && 0 < |batches[|batches| - 1]| <= BATCH_LIMIT + 1
  }

  lemma BatchSizes(batches: seq<seq<Entry>>)
    requires FullBatches(batches)
    ensures forall i :: 0 <= i < |batches| ==>
              if i < |batches| - 1 then |batches[i]| == 11 else 0 < |batches[i]| <= 11
  {
    if batches != [] {
      var n := |batches| - 1;
      assert forall i :: 0 <= i < n ==> batches[..n][i] == batches[i];
    }
  }

  lemma FlattenSnoc<T>(batches: seq<seq<T>>, b: seq<T>)
    ensures Flatten(batches + [b]) == Flatten(batches) + b
  {
    assert (batches + [b])[..|batches|] == batches;
  }

  lemma PlainConcat(a: seq<Entry>, b: seq<Entry>)
    ensures Plain(a + b) == Plain(a) + Plain(b)
  {
  }

  lemma ItemsStep(stream: seq<WalkResult>, i: nat)
    requires i < |stream|
    ensures Items(stream[..i + 1]) ==
            Items(stream[..i]) + match stream[i] { case Item(v) => [v] case WalkError => [] }
  {
    assert stream[..i + 1][..i] == stream[..i];
  }

  lemma {:induction false} ItemsPrefix(stream: seq<WalkResult>, i: nat)
    requires i <= |stream|
    ensures Items(stream[..i]) <= Items(stream)
    decreases |stream| - i
  {
    if i == |stream| {
      assert stream[..i] == stream;
    } else {
      ItemsStep(stream, i);
      ItemsPrefix(stream, i + 1);
    }
  }

  /** Receiving result i, when the first k versions have been received. */
  lemma NothingConsumed(stream: seq<WalkResult>, rules: seq<Rule>)
    ensures Items(stream[..0]) == Items(stream)[..0] && !HasError(stream[..0])
    ensures Reached(Items(stream), rules, 0, INITIAL)
  {
  }

  lemma NextResult(stream: seq<WalkResult>, i: nat, k: nat)
    requires i < |stream| && k <= |Items(stream)| && Items(stream[..i]) == Items(stream)[..k]
    ensures stream[i].WalkError? ==> Items(stream[..i + 1]) == Items(stream)[..k] && HasError(stream[..i + 1])
    ensures stream[i].Item? ==> k < |Items(stream)| && Items(stream)[k] == stream[i].v &&
                                Items(stream[..i + 1]) == Items(stream)[..k + 1] &&
                                HasError(stream[..i + 1]) == HasError(stream[..i])
  {
    ItemsStep(stream, i);
    ItemsPrefix(stream, i + 1);
    assert stream[..i + 1][..i] == stream[..i];
  }

  lemma {:induction false} ExpectedPrefix(items: seq<Version>, rules: seq<Rule>, m: nat, n: nat)
    requires m <= n <= |items|
    ensures Expected(items, rules, m) <= Expected(items, rules, n)
  {
    if m < n {
      ExpectedPrefix(items, rules, m, n - 1);
    }
  }

  lemma {:induction false} MarkersComplete(items: seq<Version>, name: string, m: nat, n: nat)
    requires m <= n <= |items|
    requires forall i :: m <= i < n ==> items[i].name != name
    ensures Markers(items, m, name) == Markers(items, n, name)
  {
    if m < n {
      MarkersComplete(items, name, m, n - 1);
    }
  }

  lemma {:induction false} NoMarkersBefore(items: seq<Version>, name: string, n: nat)
    requires n <= |items|
    requires forall i :: 0 <= i < n ==> items[i].name != name
    ensures Markers(items, n, name) == 0
  {
    if n > 0 {
      NoMarkersBefore(items, name, n - 1);
    }
  }

  function Count(m: map<string, int>, name: string): int {
    if name in m then m[name] else 0
  }

  /** The last pending entry, if it expires a whole object, takes the marker count collected for that object. */
  function Stamped(pending: seq<Entry>, counts: map<string, int>): seq<Entry> {
    if pending != [] && pending[|pending| - 1].expireAll then
      var last := |pending| - 1;
      pending[last := pending[last].(deleteMarkerCount := Count(counts, pending[last].v.name))]
    else pending
  }

  function Cleared(pending: seq<Entry>, counts: map<string, int>): map<string, int> {
    if pending != [] && pending[|pending| - 1].expireAll then counts - {pending[|pending| - 1].v.name} else counts
  }

  /** One push more for the last pending entry. */
  function Met(pending: seq<Entry>, pushes: map<string, int>): map<string, int> {
    if pending != [] && pending[|pending| - 1].expireAll then
      var name := pending[|pending| - 1].v.name;
      pushes[name := Count(pushes, name) + 1]
    else pushes
  }

  /** A whole-object entry carries 0 or the number of delete markers its object had in the walk. */
  predicate MarkersOK(items: seq<Version>, es: seq<Entry>) {
    forall e :: e in es ==> e.deleteMarkerCount == 0 ||
                            (e.expireAll && e.deleteMarkerCount == Markers(items, |items|, e.v.name))
  }

  /**
   * The collected marker counts: complete for the object being listed, and complete or already
   * handed over (0) for every other one.
   */
  ghost predicate Counted(counts: map<string, int>, items: seq<Version>, k: nat)
    requires k <= |items|
  {
    (forall n :: Count(counts, n) == 0 || Count(counts, n) == Markers(items, k, n)) &&
    (k > 0 ==> Count(counts, items[k - 1].name) == Markers(items, k, items[k - 1].name))
  }

  /** Clearing the count of an object other than the one being listed keeps the account. */
  lemma ClearedKeepsCounted(pending: seq<Entry>, counts: map<string, int>, items: seq<Version>, k: nat)
    requires k <= |items| && Counted(counts, items, k)
    requires k > 0 && pending != [] && pending[|pending| - 1].expireAll ==>
               items[k - 1].name != pending[|pending| - 1].v.name
    ensures Counted(Cleared(pending, counts), items, k)
  {
    forall n ensures Count(Cleared(pending, counts), n) == 0 || Count(Cleared(pending, counts), n) == Count(counts, n) {
    }
  }

  /** Counting the marker of version k. */
  function CountVersion(counts: map<string, int>, v: Version): map<string, int> {
    if v.deleteMarker then counts[v.name := Count(counts, v.name) + 1] else counts
  }

  lemma CountVersionKeepsCounted(counts: map<string, int>, items: seq<Version>, k: nat)
    requires k < |items| && WellFormed(items) && Counted(counts, items, k)
    ensures Counted(CountVersion(counts, items[k]), items, k + 1)
  {
    var name := items[k].name;
    if k == 0 || items[k - 1].name != name {
      forall i | 0 <= i < k ensures items[i].name != name {
        HeadIsNew(items, k, i);
      }
      NoMarkersBefore(items, name, k);
    }
    forall n ensures Count(CountVersion(counts, items[k]), n) ==
                     Count(counts, n) + if n == name && items[k].deleteMarker then 1 else 0 {
    }
  }

  /**
   * What the loop's variables mean after k versions: m is the position of the last head that matched
   * a rule (-1 if none did yet), and it left its name, its retention and a running version count behind.
   */
  ghost predicate Tracks(items: seq<Version>, rules: seq<Rule>, k: nat, m: int,
                         prevName: string, retain: int, versionsCount: int)
    requires k <= |items|
  {
    -1 <= m < k &&
    (m == -1 ==> prevName == "" && retain == 0) &&
    (m >= 0 ==> items[m].isLatest && items[m].name == prevName &&
                FirstMatch(rules, items[m]).Some? && FirstMatch(rules, items[m]).value.retain == retain &&
                (retain != 0 && items[k - 1].name == prevName ==> versionsCount == k - m)) &&
    forall j :: m < j < k && items[j].isLatest ==> FirstMatch(rules, items[j]).None?
  }

  /** A version of the object whose head matched last. */
  lemma FollowAt(items: seq<Version>, rules: seq<Rule>, k: nat, m: int, prevName: string, retain: int,
                 versionsCount: int)
    requires k < |items| && WellFormed(items) && !items[k].isLatest && items[k].name == prevName
    requires Tracks(items, rules, k, m, prevName, retain, versionsCount)
    ensures retain == 0 ==> ExpectedAt(items, rules, k) == []
    ensures retain != 0 ==>
              ExpectedAt(items, rules, k) == if versionsCount + 1 <= retain then [] else [Entry(items[k], false, 0)]
    ensures retain != 0 ==> Tracks(items, rules, k + 1, m, prevName, retain, versionsCount + 1)
    ensures retain == 0 ==> Tracks(items, rules, k + 1, m, prevName, retain, versionsCount)
  {
    var f := FirstOf(items, k);
    FirstNamedIsFirst(items, k, 0);
    if m >= 0 {
      forall i | 0 <= i < m ensures items[i].name != items[m].name {
        HeadIsNew(items, m, i);
      }
      FirstOfUnique(items, k, m);
      Contiguous(items, m, k - 1, k);
    } else if items[f].isLatest {
      assert f < k;
    }
  }

  /** A version of an object whose head matched no rule, or was not listed. */
  lemma SkipAt(items: seq<Version>, rules: seq<Rule>, k: nat, m: int, prevName: string, retain: int, versionsCount: int)
    requires k < |items| && WellFormed(items) && !items[k].isLatest && items[k].name != prevName
    requires Tracks(items, rules, k, m, prevName, retain, versionsCount)
    ensures ExpectedAt(items, rules, k) == []
    ensures Tracks(items, rules, k + 1, m, prevName, retain, versionsCount)
    ensures forall a :: 0 <= a <= m ==> items[a].name != items[k].name
  {
    var f := FirstOf(items, k);
    FirstNamedIsFirst(items, k, 0);
    forall a | 0 <= a <= m ensures items[a].name != items[k].name {
      if items[a].name == items[k].name {
        Contiguous(items, a, m, k);
      }
    }
  }

  /** The object of the last pending whole-object entry has its head at position m or before. */
  ghost predicate LastListed(items: seq<Version>, m: int, pending: seq<Entry>)
    requires m < |items|
  {
    pending != [] && pending[|pending| - 1].expireAll ==>
      exists a :: 0 <= a <= m && items[a].name == pending[|pending| - 1].v.name
  }

  /**
   * The loop's variables, with the batches sent so far flattened, and how many pushes met the whole-object entry of a
   * name as the last pending one.
   */
  datatype LoopState = LoopState(out: seq<Entry>, toDel: seq<Entry>, counts: map<string, int>,
                                 prevName: string, retain: int, versionsCount: int, pushes: map<string, int>)

  /** The loop invariant: the entries of k versions are produced, the markers of j versions are counted. */
  ghost predicate Inv(items: seq<Version>, rules: seq<Rule>, k: nat, j: nat, m: int, s: LoopState)
    requires k <= |items| && j <= |items|
  {
    Plain(s.out + s.toDel) == Expected(items, rules, k) && MarkersOK(items, s.out + s.toDel) &&
    Counted(s.counts, items, j) &&
    Tracks(items, rules, k, m, s.prevName, s.retain, s.versionsCount) &&
    LastListed(items, m, s.toDel) && (m == -1 ==> s.toDel == [])
  }

  function Push(s: LoopState): LoopState {
    s.(toDel := Stamped(s.toDel, s.counts), counts := Cleared(s.toDel, s.counts), pushes := Met(s.toDel, s.pushes))
  }

  function Flush(s: LoopState): LoopState {
    s.(out := s.out + s.toDel, toDel := [])
  }

  lemma StampedKeeps(items: seq<Version>, out: seq<Entry>, pending: seq<Entry>, counts: map<string, int>)
    requires MarkersOK(items, out + pending)
    requires pending != [] && pending[|pending| - 1].expireAll ==>
               var c := Count(counts, pending[|pending| - 1].v.name);
               c == 0 || c == Markers(items, |items|, pending[|pending| - 1].v.name)
    ensures Plain(out + Stamped(pending, counts)) == Plain(out + pending)
    ensures MarkersOK(items, out + Stamped(pending, counts))
  {
    var after := out + Stamped(pending, counts);
    forall i | 0 <= i < |after|
      ensures after[i].deleteMarkerCount == 0 ||
              (after[i].expireAll && after[i].deleteMarkerCount == Markers(items, |items|, after[i].v.name))
    {
      assert (out + pending)[i] in out + pending;
    }
  }

  lemma FlushKeeps(items: seq<Version>, rules: seq<Rule>, k: nat, j: nat, m: int, s: LoopState)
    requires k <= |items| && j <= |items| && Inv(items, rules, k, j, m, s)
    ensures Inv(items, rules, k, j, m, Flush(s))
  {
    assert s.out + s.toDel + [] == s.out + s.toDel;
  }

  /** What a push keeps: the object of the last pending entry ended before version j - 1, or is not a whole one. */
  lemma PushKeeps(items: seq<Version>, rules: seq<Rule>, k: nat, j: nat, m: int, s: LoopState)
    requires k <= j <= |items| && m < j && WellFormed(items) && Inv(items, rules, k, j, m, s)
    requires s.toDel != [] && s.toDel[|s.toDel| - 1].expireAll ==>
               0 < j && forall a :: 0 <= a <= m ==> items[a].name != items[j - 1].name
    ensures Inv(items, rules, k, j, m, Push(s))
  {
    if s.toDel != [] && s.toDel[|s.toDel| - 1].expireAll {
      var a :| 0 <= a <= m && items[a].name == s.toDel[|s.toDel| - 1].v.name;
      forall i | j <= i < |items| ensures items[i].name != items[a].name {
        if items[i].name == items[a].name {
          Contiguous(items, a, j - 1, i);
        }
      }
      MarkersComplete(items, items[a].name, j, |items|);
    }
    StampedKeeps(items, s.out, s.toDel, s.counts);
    ClearedKeepsCounted(s.toDel, s.counts, items, j);
  }

  /** The closing push: every object is completely listed, and the counts are not needed any more. */
  lemma ClosingPush(items: seq<Version>, rules: seq<Rule>, m: int, s: LoopState)
    requires Inv(items, rules, |items|, |items|, m, s)
    ensures Plain(s.out + Push(s).toDel) == Expected(items, rules, |items|)
    ensures MarkersOK(items, s.out + Push(s).toDel)
  {
    StampedKeeps(items, s.out, s.toDel, s.counts);
  }

  lemma AppendKeeps(items: seq<Version>, rules: seq<Rule>, k: nat, m: int, m': int, s: LoopState, s': LoopState)
    requires k < |items| && m < |items| && Inv(items, rules, k, k + 1, m, s)
    requires s'.out == s.out && s'.counts == s.counts && m <= m'
    requires s'.toDel == s.toDel + ExpectedAt(items, rules, k)
    requires Tracks(items, rules, k + 1, m', s'.prevName, s'.retain, s'.versionsCount)
    requires ExpectedAt(items, rules, k) != [] && ExpectedAt(items, rules, k)[0].expireAll ==>
               m' >= 0 && items[m'].name == items[k].name
    ensures Inv(items, rules, k + 1, k + 1, m', s')
  {
    PlainConcat(s.out + s.toDel, ExpectedAt(items, rules, k));
    assert s.out + s.toDel + ExpectedAt(items, rules, k) == s'.out + s'.toDel;
  }

  /** Counting the markers of version k. */
  lemma CountKeeps(items: seq<Version>, rules: seq<Rule>, k: nat, m: int, s: LoopState)
    requires k < |items| && WellFormed(items) && Inv(items, rules, k, k, m, s)
    ensures Inv(items, rules, k, k + 1, m, s.(counts := CountVersion(s.counts, items[k])))
  {
    CountVersionKeepsCounted(s.counts, items, k);
  }

  /** A head starts its object: no earlier head carries its name. A rule that it matches is tracked from here on. */
  lemma HeadAt(items: seq<Version>, rules: seq<Rule>, k: nat, m: int, s: LoopState)
    requires k < |items| && WellFormed(items) && items[k].isLatest && Inv(items, rules, k, k + 1, m, s)
    ensures forall a :: 0 <= a <= m ==> items[a].name != items[k].name
    ensures match FirstMatch(rules, items[k])
              case None =>
                ExpectedAt(items, rules, k) == [] &&
                Tracks(items, rules, k + 1, m, s.prevName, s.retain, s.versionsCount)
              case Some(r) =>
                ExpectedAt(items, rules, k) == (if r.retain == 0 then [Entry(items[k], true, 0)]
                                                else if 1 <= r.retain then []
                                                else [Entry(items[k], false, 0)]) &&
                Tracks(items, rules, k + 1, k, items[k].name, r.retain, 1)
  {
    assert Placed(items, k);
    FirstNamedIsFirst(items, k, 0);
  }

  // ---- one turn of the loop, as a relation, and its invariant over every run ----

  /** A push either keeps the pending list, or hands it over; while cancelled the choice is free. */
  ghost predicate Pushed(s: LoopState, t: LoopState) {
    t == Push(s) || t == Flush(Push(s))
  }

  function Append(s: LoopState, e: Entry): LoopState {
    s.(toDel := s.toDel + [e])
  }

  /** The turn of a latest version, after counting; mid is the state after the push that switches objects, if any. */
  ghost predicate LatestTurn(rules: seq<Rule>, v: Version, c: LoopState, mid: LoopState, t: LoopState) {
    match FirstMatch(rules, v)
    case None => t == c
    case Some(r) =>
      (if c.prevName != v.name then Pushed(c, mid) else mid == c) &&
      var h := mid.(prevName := v.name, retain := r.retain, versionsCount := 1);
      if r.retain == 0 then t == Append(h, Entry(v, true, 0)) else Due(v, h, t)
  }

  ghost predicate OlderTurn(v: Version, c: LoopState, t: LoopState) {
    if c.prevName != v.name then Pushed(c, t)
    else if c.retain == 0 then t == c
    else Due(v, c.(versionsCount := c.versionsCount + 1), t)
  }

  /** A version beyond the retained ones is appended and pushed. */
  ghost predicate Due(v: Version, s: LoopState, t: LoopState) {
    if s.versionsCount <= s.retain then t == s else Pushed(Append(s, Entry(v, false, 0)), t)
  }

  /** One version of the walk takes s to t. */
  ghost predicate Turn(rules: seq<Rule>, v: Version, s: LoopState, mid: LoopState, t: LoopState) {
    var c := s.(counts := CountVersion(s.counts, v));
    if v.isLatest then LatestTurn(rules, v, c, mid, t) else OlderTurn(v, c, t)
  }

  ghost predicate TurnTo(rules: seq<Rule>, v: Version, s: LoopState, t: LoopState) {
    exists mid :: Turn(rules, v, s, mid, t)
  }

  const INITIAL := LoopState([], [], map[], "", 0, 0, map[])

  ghost predicate Reached(items: seq<Version>, rules: seq<Rule>, k: nat, s: LoopState)
    requires k <= |items|
    decreases k, 0
  {
    if k == 0 then s == INITIAL else exists p :: ReachedFrom(items, rules, k, p, s)
  }

  ghost predicate ReachedFrom(items: seq<Version>, rules: seq<Rule>, k: nat, p: LoopState, s: LoopState)
    requires 0 < k <= |items|
    decreases k - 1, 1
  {
    Reached(items, rules, k - 1, p) && TurnTo(rules, items[k - 1], p, s)
  }

  lemma ReachedStep(items: seq<Version>, rules: seq<Rule>, k: nat, s: LoopState, mid: LoopState, t: LoopState)
    requires 0 < k <= |items| && Reached(items, rules, k - 1, s) && Turn(rules, items[k - 1], s, mid, t)
    ensures Reached(items, rules, k, t)
  {
    assert TurnTo(rules, items[k - 1], s, t);
    assert ReachedFrom(items, rules, k, s, t);
  }

  lemma PushedKeeps(items: seq<Version>, rules: seq<Rule>, k: nat, j: nat, m: int, s: LoopState, t: LoopState)
    requires k <= j <= |items| && m < j && WellFormed(items) && Inv(items, rules, k, j, m, s) && Pushed(s, t)
    requires s.toDel != [] && s.toDel[|s.toDel| - 1].expireAll ==>
               0 < j && forall a :: 0 <= a <= m ==> items[a].name != items[j - 1].name
    ensures Inv(items, rules, k, j, m, t)
  {
    PushKeeps(items, rules, k, j, m, s);
    FlushKeeps(items, rules, k, j, m, Push(s));
  }

  /** A head that matches: its object is tracked from here on, and the entries its rule asks for are appended. */
  lemma MatchedKeeps(items: seq<Version>, rules: seq<Rule>, k: nat, m: int, mid: LoopState, h: LoopState)
    requires k < |items| && WellFormed(items) && items[k].isLatest && Inv(items, rules, k, k + 1, m, mid)
    requires FirstMatch(rules, items[k]).Some?
    requires h == mid.(prevName := items[k].name, retain := FirstMatch(rules, items[k]).value.retain,
                       versionsCount := 1, toDel := mid.toDel + ExpectedAt(items, rules, k))
    ensures Inv(items, rules, k + 1, k + 1, k, h)
  {
    HeadAt(items, rules, k, m, mid);
    AppendKeeps(items, rules, k, m, k, mid, h);
  }

  lemma SwitchKeeps(items: seq<Version>, rules: seq<Rule>, k: nat, m: int, c: LoopState, mid: LoopState)
    requires k < |items| && WellFormed(items) && items[k].isLatest && Inv(items, rules, k, k + 1, m, c)
    requires Pushed(c, mid)
    ensures Inv(items, rules, k, k + 1, m, mid)
  {
    hide WellFormed, Pushed, ExpectedAt, FirstMatch;
    HeadAt(items, rules, k, m, c);
    PushedKeeps(items, rules, k, k + 1, m, c, mid);
  }

  /** Pushing right after a single version was appended. */
  lemma AppendedKeeps(items: seq<Version>, rules: seq<Rule>, k: nat, m: int, s: LoopState, v: Version, t: LoopState)
    requires k <= |items| && m < k && WellFormed(items)
    requires Inv(items, rules, k, k, m, Append(s, Entry(v, false, 0))) && Pushed(Append(s, Entry(v, false, 0)), t)
    ensures Inv(items, rules, k, k, m, t)
  {
    hide WellFormed, Pushed;
    PushedKeeps(items, rules, k, k, m, Append(s, Entry(v, false, 0)), t);
  }

  lemma LatestKeeps(items: seq<Version>, rules: seq<Rule>, k: nat, m: int, c: LoopState, mid: LoopState, t: LoopState)
    returns (m': int)
    requires k < |items| && WellFormed(items) && Inv(items, rules, k, k + 1, m, c)
    requires items[k].isLatest && LatestTurn(rules, items[k], c, mid, t)
    ensures m' <= k && Inv(items, rules, k + 1, k + 1, m', t)
  {
    hide Inv, WellFormed, Pushed, FirstMatch, FirstOf, ExpectedAt;
    var v := items[k];
    HeadAt(items, rules, k, m, c);
    match FirstMatch(rules, v)
    case None =>
      m' := m;
      AppendKeeps(items, rules, k, m, m, c, c);
    case Some(r) =>
      m' := k;
      if c.prevName != v.name {
        SwitchKeeps(items, rules, k, m, c, mid);
      }
      var h := mid.(prevName := v.name, retain := r.retain, versionsCount := 1);
      MatchedKeeps(items, rules, k, m, mid, h.(toDel := mid.toDel + ExpectedAt(items, rules, k)));
      if r.retain < 0 {
        AppendedKeeps(items, rules, k + 1, k, h, v, t);
      } else if r.retain > 0 {
        assert h == h.(toDel := mid.toDel + []);
      }
  }

  lemma FollowKeeps(items: seq<Version>, rules: seq<Rule>, k: nat, m: int, c: LoopState, t: LoopState)
    requires k < |items| && WellFormed(items) && Inv(items, rules, k, k + 1, m, c)
    requires !items[k].isLatest && c.prevName == items[k].name && OlderTurn(items[k], c, t)
    ensures Inv(items, rules, k + 1, k + 1, m, t)
  {
    hide WellFormed, Pushed, FirstOf, ExpectedAt, Counted, MarkersOK, LastListed;
    var v := items[k];
    FollowAt(items, rules, k, m, c.prevName, c.retain, c.versionsCount);
    var n := c.(versionsCount := c.versionsCount + 1);
    if c.retain == 0 || n.versionsCount <= c.retain {
      AppendKeeps(items, rules, k, m, m, c, t);
    } else {
      AppendKeeps(items, rules, k, m, m, c, Append(n, Entry(v, false, 0)));
      AppendedKeeps(items, rules, k + 1, m, n, v, t);
    }
  }

  lemma SkipKeeps(items: seq<Version>, rules: seq<Rule>, k: nat, m: int, c: LoopState, t: LoopState)
    requires k < |items| && WellFormed(items) && Inv(items, rules, k, k + 1, m, c)
    requires !items[k].isLatest && c.prevName != items[k].name && Pushed(c, t)
    ensures Inv(items, rules, k + 1, k + 1, m, t)
  {
    hide WellFormed, Pushed, FirstOf, ExpectedAt, Counted, MarkersOK, LastListed;
    SkipAt(items, rules, k, m, c.prevName, c.retain, c.versionsCount);
    PushedKeeps(items, rules, k, k + 1, m, c, t);
    AppendKeeps(items, rules, k, m, m, t, t);
  }

  lemma TurnKeeps(items: seq<Version>, rules: seq<Rule>, k: nat, m: int, s: LoopState, mid: LoopState, t: LoopState)
    returns (m': int)
    requires k < |items| && WellFormed(items) && m < k && Inv(items, rules, k, k, m, s)
    requires Turn(rules, items[k], s, mid, t)
    ensures m' < k + 1 && Inv(items, rules, k + 1, k + 1, m', t)
  {
    hide Inv, WellFormed, LatestTurn, Pushed;
    var c := s.(counts := CountVersion(s.counts, items[k]));
    CountKeeps(items, rules, k, m, s);
    m' := m;
    if items[k].isLatest {
      m' := LatestKeeps(items, rules, k, m, c, mid, t);
    } else if s.prevName == items[k].name {
      FollowKeeps(items, rules, k, m, c, t);
    } else {
      SkipKeeps(items, rules, k, m, c, t);
    }
  }

  lemma InitialInv(items: seq<Version>, rules: seq<Rule>) returns (m: int)
    ensures m == -1 && Inv(items, rules, 0, 0, m, INITIAL)
  {
    m := -1;
  }

  /** Whatever was pushed when, a state reached after k versions satisfies the loop invariant. */
  lemma {:induction false} ReachedKeeps(items: seq<Version>, rules: seq<Rule>, k: nat, s: LoopState) returns (m: int)
    requires k <= |items| && WellFormed(items) && Reached(items, rules, k, s)
    ensures m < k && Inv(items, rules, k, k, m, s)
  {
    hide Turn, WellFormed, Inv;
    if k == 0 {
      m := InitialInv(items, rules);
    } else {
      var p :| ReachedFrom(items, rules, k, p, s);
      var mid :| Turn(rules, items[k - 1], p, mid, s);
      m := ReachedKeeps(items, rules, k - 1, p);
      m := TurnKeeps(items, rules, k - 1, m, p, mid, s);
    }
  }

  /** A head listed under the current object's name can only be a first, nameless one: nothing is pending. */
  lemma HeadWhileCurrent(items: seq<Version>, rules: seq<Rule>, k: nat, s: LoopState)
    requires k < |items| && WellFormed(items) && Reached(items, rules, k, s)
    ensures items[k].isLatest && s.prevName == items[k].name ==> s.toDel == []
  {
    var m := ReachedKeeps(items, rules, k, s);
    if m >= 0 && items[k].isLatest {
      HeadIsNew(items, k, m);
    }
  }

  /** What was sent by then is a prefix of the specification; after the closing push nothing is missing. */
  lemma ReachedProduces(items: seq<Version>, rules: seq<Rule>, k: nat, s: LoopState)
    requires k <= |items| && WellFormed(items) && Reached(items, rules, k, s)
    ensures Plain(s.out) <= Expected(items, rules, |items|) && MarkersOK(items, s.out)
    ensures k == |items| ==> Plain(s.out + Push(s).toDel) == Expected(items, rules, |items|) &&
                             MarkersOK(items, s.out + Push(s).toDel)
  {
    var m := ReachedKeeps(items, rules, k, s);
    ExpectedPrefix(items, rules, k, |items|);
    PlainConcat(s.out, s.toDel);
    forall e | e in s.out ensures e in s.out + s.toDel {
    }
    if k == |items| {
      ClosingPush(items, rules, m, s);
    }
  }

  /** A push leaves what is sent or pending as it is, but for the stamp. */
  lemma PushedSame(s: LoopState, t: LoopState)
    requires Pushed(s, t)
    ensures t.out + t.toDel == s.out + Push(s).toDel
  {
  }

  /** What is sent is a part of what is sent or pending. */
  lemma SentPart(out: seq<Entry>, pending: seq<Entry>, items: seq<Version>)
    ensures Plain(out) <= Plain(out + pending)
    ensures MarkersOK(items, out + pending) ==> MarkersOK(items, out)
    ensures pending == [] ==> out + pending == out
  {
    PlainConcat(out, pending);
    if MarkersOK(items, out + pending) {
      forall e | e in out ensures e in out + pending {
      }
    }
  }
}
