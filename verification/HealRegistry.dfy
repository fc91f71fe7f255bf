/** The registry of heal sequences as a state machine, one step per critical section (cmd/admin-heal-ops.go). */
module HealRegistry {
  import opened Bytes

  /** A client token. */
  type Token = nat

  datatype Status = NotStarted | Running | Stopped | Finished

  /** One heal sequence: endTime is None while it is zero. */
  datatype Heal = Heal(path: string, background: bool, launched: bool, status: Status, endTime: Option<int>,
                       cancelled: bool)
  {
    /** hasEnded: a background sequence never ends. */
    predicate HasEnded() {
      !background && endTime.Some?
    }
  }

  /** The registry's lock; a launcher that holds it still has to look at the entries in `remaining`. */
  datatype Lock = Free | Scanning(token: Token, remaining: set<string>)

  /**
   * All sequences ever made, by token; the registered ones, by path; the lock; and the stop requests that
   * have looked up a sequence and wait for it to end, each of its own.
   */
  datatype State = State(heals: map<Token, Heal>, registered: map<string, Token>, lock: Lock,
                         stops: multiset<(string, Token)>)
  {
    predicate Live(t: Token) {
      t in heals && heals[t].launched && !heals[t].HasEnded()
    }

    function With(t: Token, h: Heal): State {
      State(heals[t := h], registered, lock, stops)
    }
  }

  const KEEP_ENDED := 600   // seconds that an ended sequence stays registered

  predicate Related(a: string, b: string) {
    a <= b || b <= a
  }

  /** The object is one of those that a sequence with this path heals. */
  predicate Under(obj: string, path: string) {
    path <= obj
  }

  /** Related paths are those that have an object in common. */
  lemma RelatedExactly(a: string, b: string)
    ensures Related(a, b) <==> exists obj :: Under(obj, a) && Under(obj, b)
  {
    if Related(a, b) {
      var obj := if a <= b then b else a;
      assert Under(obj, a) && Under(obj, b);
    }
    forall obj | Under(obj, a) && Under(obj, b) ensures Related(a, b) {
      PrefixesAreRelated(a, b, obj);
    }
  }

  datatype Event =
    | Create(token: Token, path: string, background: bool)
    | BeginLaunch(token: Token)
    | ScanEntry(path: string)
    | Insert
    | Run(token: Token)
    | TraverseDone(token: Token, now: int, ok: bool)
    | Cancel(token: Token)
    | ContextDone(token: Token, now: int)
    | StopLookup(path: string)
    | StopRemove(path: string, token: Token)
    | Clean(path: string, now: int)

  /** When an event may happen. */
  predicate Enabled(s: State, e: Event) {
    match e
    case Create(t, _, _) => t !in s.heals
    case BeginLaunch(t) => s.lock.Free? && t in s.heals && !s.heals[t].launched
    case ScanEntry(k) =>
      s.lock.Scanning? && k in s.lock.remaining && s.lock.token in s.heals &&
      k in s.registered && s.registered[k] in s.heals
    case Insert => s.lock.Scanning? && s.lock.remaining == {} && s.lock.token in s.heals
    case Run(t) => t in s.heals && s.heals[t].launched && !s.heals[t].background && s.heals[t].status == NotStarted
    case TraverseDone(t, _, _) => t in s.heals && s.heals[t].status == Running
    case Cancel(t) => t in s.heals
    case ContextDone(t, _) => t in s.heals && s.heals[t].status == Running && s.heals[t].cancelled
    case StopLookup(k) => k in s.registered && s.registered[k] in s.heals
    case StopRemove(k, t) => s.lock.Free? && (k, t) in s.stops && t in s.heals && s.heals[t].HasEnded()
    case Clean(k, now) =>
      s.lock.Free? && k in s.registered && s.registered[k] in s.heals && s.heals[s.registered[k]].HasEnded() &&
      s.heals[s.registered[k]].endTime.value + KEEP_ENDED < now
  }

  function Remove(m: map<string, Token>, k: string): map<string, Token> {
    m - {k}
  }

  function Apply(s: State, e: Event): State
    requires Enabled(s, e)
  {
    match e
    case Create(t, p, bg) => s.With(t, Heal(p, bg, false, NotStarted, None, false))
    case BeginLaunch(t) => State(s.heals, s.registered, Scanning(t, s.registered.Keys), s.stops)
    case ScanEntry(k) =>
      if !s.heals[s.registered[k]].HasEnded() && Related(k, s.heals[s.lock.token].path)
      then State(s.heals, s.registered, Free, s.stops)   // refused: overlapping paths
      else State(s.heals, s.registered, Scanning(s.lock.token, s.lock.remaining - {k}), s.stops)
    case Insert =>
      var h := s.heals[s.lock.token];
      State(s.heals[s.lock.token := h.(launched := true)], s.registered[h.path := s.lock.token], Free, s.stops)
    case Run(t) => s.With(t, s.heals[t].(status := Running))
    case TraverseDone(t, now, ok) =>
      s.With(t, s.heals[t].(endTime := Some(now), status := if ok then Finished else Stopped))
    case Cancel(t) => s.With(t, s.heals[t].(cancelled := true))
    case ContextDone(t, now) => s.With(t, s.heals[t].(endTime := Some(now), status := Finished))
    case StopLookup(k) =>
      var t := s.registered[k];
      State(s.heals[t := s.heals[t].(cancelled := true)], s.registered, s.lock, s.stops + multiset{(k, t)})
    case StopRemove(k, t) => State(s.heals, Remove(s.registered, k), s.lock, s.stops - multiset{(k, t)})
    case Clean(k, _) => State(s.heals, Remove(s.registered, k), s.lock, s.stops)
  }

  // ---- the invariant ----

  /** Every entry stands under its own path. */
  predicate Consistent(s: State) {
    forall k :: k in s.registered ==>
      s.registered[k] in s.heals && s.heals[s.registered[k]].path == k && s.heals[s.registered[k]].launched
  }

  /** No two registered sequences that have not ended have paths of which one is a prefix of the other. */
  predicate Exclusive(s: State) {
    forall j, k :: (j in s.registered && k in s.registered && j != k &&
                    s.Live(s.registered[j]) && s.Live(s.registered[k])) ==> !Related(j, k)
  }

  /** What a launcher has established about the entries it has looked at. */
  predicate Scanned(s: State) {
    s.lock.Scanning? ==>
      s.lock.token in s.heals && !s.heals[s.lock.token].launched &&
      s.lock.remaining <= s.registered.Keys &&
      forall k :: k in s.registered && k !in s.lock.remaining && s.Live(s.registered[k]) ==>
        !Related(k, s.heals[s.lock.token].path)
  }

  /** A sequence has an end time exactly when it is finished or stopped, and none before it is launched. */
  predicate Proper(h: Heal) {
    (h.endTime.Some? <==> h.status == Finished || h.status == Stopped) &&
    (h.status != NotStarted ==> h.launched && !h.background)
  }

  predicate Lifecycle(s: State) {
    forall t :: t in s.heals ==> Proper(s.heals[t])
  }

  predicate Inv(s: State) {
    Consistent(s) && Exclusive(s) && Scanned(s) && Lifecycle(s)
  }

  const INITIAL: State := State(map[], map[], Free, multiset{})

  /** The state that a run of events leads to, if every event could happen when its turn came. */
  function After(events: seq<Event>): Option<State> {
    if events == [] then Some(INITIAL)
    else
      var before := After(events[..|events| - 1]);
      var e := events[|events| - 1];
      if before.Some? && Enabled(before.value, e) then Some(Apply(before.value, e)) else None
  }

  /** A change of one sequence that keeps its path and launch and does not bring it back to life. */
  predicate Onward(h: Heal, h': Heal) {
    h'.path == h.path && h'.background == h.background && h'.launched == h.launched && (h.HasEnded() ==> h'.HasEnded())
  }

  lemma OnwardKeeps(s: State, t: Token, h: Heal, stops: multiset<(string, Token)>)
    requires Inv(s) && t in s.heals && Onward(s.heals[t], h) && Proper(h)
    ensures Inv(State(s.heals[t := h], s.registered, s.lock, stops))
  {
  }

  /** A launcher is refused at an entry exactly if its sequence is live and has an object in common with the own one. */
  lemma {:induction false} RefusedExactly(s: State, k: string)
    requires Enabled(s, ScanEntry(k)) && Consistent(s)
    ensures Apply(s, ScanEntry(k)).lock == Free <==>
            s.Live(s.registered[k]) && exists obj :: Under(obj, k) && Under(obj, s.heals[s.lock.token].path)
    ensures Apply(s, ScanEntry(k)).lock != Free ==>
              Apply(s, ScanEntry(k)).lock == Scanning(s.lock.token, s.lock.remaining - {k})
    ensures Apply(s, ScanEntry(k)).registered == s.registered
  {
    RelatedExactly(k, s.heals[s.lock.token].path);
  }

  /** A stop request cancels the sequence that stands under its path then, and waits for it. */
  lemma {:induction false} StopCancels(s: State, k: string)
    requires Enabled(s, StopLookup(k))
    ensures var s' := Apply(s, StopLookup(k));
            s'.heals[s.registered[k]] == s.heals[s.registered[k]].(cancelled := true) &&
            (k, s.registered[k]) in s'.stops && s'.registered == s.registered &&
            forall t :: t in s.heals && t != s.registered[k] ==> s'.heals[t] == s.heals[t]
  {
  }

  lemma InsertKeeps(s: State)
    requires Inv(s) && Enabled(s, Insert)
    ensures Inv(Apply(s, Insert))
  {
    var s' := Apply(s, Insert);
    var t := s.lock.token;
    var p := s.heals[t].path;
    forall j, k | j in s'.registered && k in s'.registered && j != k &&
                  s'.Live(s'.registered[j]) && s'.Live(s'.registered[k])
      ensures !Related(j, k)
    {
      if j == p {
        assert s.registered[k] != t && s.Live(s.registered[k]);
      } else if k == p {
        assert s.registered[j] != t && s.Live(s.registered[j]);
      } else {
        assert s.registered[j] != t && s.registered[k] != t;
      }
    }
  }

  lemma RemoveKeeps(s: State, k: string, stops: multiset<(string, Token)>)
    requires Inv(s) && s.lock.Free?
    ensures Inv(State(s.heals, Remove(s.registered, k), s.lock, stops))
  {
  }

  lemma StepKeeps(s: State, e: Event)
    requires Inv(s) && Enabled(s, e)
    ensures Inv(Apply(s, e))
  {
    match e
    case Create(t, p, bg) =>
    case BeginLaunch(t) =>
    case ScanEntry(k) =>
    case Insert => InsertKeeps(s);
    case Run(t) => OnwardKeeps(s, t, s.heals[t].(status := Running), s.stops);
    case TraverseDone(t, now, ok) => OnwardKeeps(s, t, Apply(s, e).heals[t], s.stops);
    case Cancel(t) => OnwardKeeps(s, t, Apply(s, e).heals[t], s.stops);
    case ContextDone(t, now) => OnwardKeeps(s, t, Apply(s, e).heals[t], s.stops);
    case StopLookup(k) => OnwardKeeps(s, s.registered[k], Apply(s, e).heals[s.registered[k]], Apply(s, e).stops);
    case StopRemove(k, t) => RemoveKeeps(s, k, Apply(s, e).stops);
    case Clean(k, now) => RemoveKeeps(s, k, s.stops);
  }

  lemma {:induction false} RunKeeps(events: seq<Event>)
    requires After(events).Some?
    ensures Inv(After(events).value)
  {
    if events != [] {
      RunKeeps(events[..|events| - 1]);
      StepKeeps(After(events[..|events| - 1]).value, events[|events| - 1]);
    }
  }

  lemma PrefixesAreRelated(j: string, k: string, obj: string)
    requires j <= obj && k <= obj
    ensures Related(j, k)
  {
    if |j| <= |k| {
      assert j == obj[..|j|] == k[..|j|];
    } else {
      assert k == obj[..|k|] == j[..|k|];
    }
  }

  /** The sequence registered under k is live, and covers the object's path. */
  predicate Covers(s: State, k: string, obj: string) {
    k in s.registered && s.Live(s.registered[k]) && k <= obj
  }

  /**
   * Exclusion: after every run of every interleaving, at most one live registered sequence covers an
   * object's path, that is, has a path that is a prefix of it.
   */
  lemma NoPathHealedTwice(events: seq<Event>, obj: string, j: string, k: string)
    requires After(events).Some?
    requires Covers(After(events).value, j, obj) && Covers(After(events).value, k, obj)
    ensures j == k
  {
    RunKeeps(events);
    PrefixesAreRelated(j, k, obj);
  }

  // ---- lifecycle ----

  function Rank(status: Status): nat {
    match status
    case NotStarted => 0
    case Running => 1
    case Stopped => 2
    case Finished => 2
  }

  /** Nothing goes back: a sequence keeps its path, its status rank never falls, and once ended it stays as it is. */
  predicate Forward(h: Heal, h': Heal) {
    h'.path == h.path && h'.background == h.background && (h.launched ==> h'.launched) &&
    Rank(h.status) <= Rank(h'.status) &&
    (h.endTime.Some? ==> h'.endTime == h.endTime && h'.status == h.status)
  }

  lemma StepForward(s: State, e: Event, t: Token)
    requires Inv(s) && Enabled(s, e) && t in s.heals
    ensures t in Apply(s, e).heals && Forward(s.heals[t], Apply(s, e).heals[t])
    ensures Rank(Apply(s, e).heals[t].status) <= Rank(s.heals[t].status) + 1
  {
    assert Proper(s.heals[t]);
  }

  lemma {:induction false} RunForward(events: seq<Event>, n: nat, t: Token)
    requires n <= |events| && After(events).Some?
    requires After(events[..n]).Some? && t in After(events[..n]).value.heals
    ensures t in After(events).value.heals && Forward(After(events[..n]).value.heals[t], After(events).value.heals[t])
    decreases |events|
  {
    if n == |events| {
      assert events[..n] == events;
    } else {
      var init := events[..|events| - 1];
      assert init[..n] == events[..n];
      RunForward(init, n, t);
      RunKeeps(init);
      StepForward(After(init).value, events[|events| - 1], t);
    }
  }

  // ---- is every live sequence registered? ----

  ghost predicate AllRegistered(s: State) {
    forall t :: s.Live(t) ==> s.heals[t].path in s.registered && s.registered[s.heals[t].path] == t
  }

  /**
   * A step keeps every live sequence registered exactly when it is not a stop request that removes, by path,
   * the entry of a sequence that has not ended. In particular a launch replaces, and the periodic cleaner
   * removes, ended sequences only.
   */
  lemma {:induction false} RegisteredExactly(s: State, e: Event)
    requires Inv(s) && Enabled(s, e) && AllRegistered(s)
    ensures AllRegistered(Apply(s, e)) <==>
            !(e.StopRemove? && e.path in s.registered && !s.heals[s.registered[e.path]].HasEnded())
  {
    var s' := Apply(s, e);
    match e
    case Insert =>
      InsertReplacesEnded(s);
    case StopRemove(k, _) =>
      if k in s.registered && !s.heals[s.registered[k]].HasEnded() {
        assert s'.Live(s.registered[k]);
      }
    case _ =>
      OthersKeepRegistered(s, e);
  }

  lemma {:induction false} OthersKeepRegistered(s: State, e: Event)
    requires Inv(s) && Enabled(s, e) && AllRegistered(s) && !e.Insert? && !e.StopRemove?
    ensures AllRegistered(Apply(s, e))
  {
    var s' := Apply(s, e);
    forall t | s'.Live(t) ensures s'.heals[t].path in s'.registered && s'.registered[s'.heals[t].path] == t {
      assert s.Live(t);
    }
  }

  lemma InsertReplacesEnded(s: State)
    requires Inv(s) && Enabled(s, Insert) && AllRegistered(s)
    ensures AllRegistered(Apply(s, Insert))
  {
    var s' := Apply(s, Insert);
    var t := s.lock.token;
    var p := s.heals[t].path;
    assert p in s.registered ==> !s.Live(s.registered[p]);
    forall u | s'.Live(u) ensures s'.heals[u].path in s'.registered && s'.registered[s'.heals[u].path] == u {
      if u != t {
        assert s.Live(u);
        assert s.heals[u].path != p;
      }
    }
  }

  lemma Then(events: seq<Event>, s: State, e: Event) returns (more: seq<Event>, t: State)
    requires After(events) == Some(s) && Enabled(s, e)
    ensures more == events + [e] && t == Apply(s, e) && After(more) == Some(t)
  {
    more, t := events + [e], Apply(s, e);
    assert more[..|events|] == events;
  }

  /** Creating, launching and starting a sequence while the lock is free and nothing is registered. */
  lemma Launched(events: seq<Event>, s: State, t: Token, path: string) returns (more: seq<Event>, s': State)
    requires After(events) == Some(s) && s.lock.Free? && s.registered == map[] && t !in s.heals
    ensures After(more) == Some(s') && s'.lock.Free? && s'.stops == s.stops && s'.registered == map[path := t]
    ensures s'.heals == s.heals[t := Heal(path, false, true, Running, None, false)]
  {
    hide After;
    more, s' := Then(events, s, Create(t, path, false));
    more, s' := Then(more, s', BeginLaunch(t));
    more, s' := Then(more, s', Insert);
    more, s' := Then(more, s', Run(t));
  }

  /** Two stop requests wait for a sequence; it ends, and the first of them removes the path. */
  lemma StoppedTwice(events: seq<Event>, s: State, t: Token, path: string) returns (more: seq<Event>, s': State)
    requires After(events) == Some(s) && s.lock.Free? && s.registered == map[path := t]
    requires t in s.heals && s.heals[t] == Heal(path, false, true, Running, None, false)
    ensures After(more) == Some(s') && s'.lock.Free? && s'.registered == map[] && (path, t) in s'.stops
    ensures s'.heals == s.heals[t := Heal(path, false, true, Finished, Some(0), true)]
  {
    hide After;
    more, s' := Then(events, s, StopLookup(path));
    more, s' := Then(more, s', StopLookup(path));
    more, s' := Then(more, s', ContextDone(t, 0));
    more, s' := Then(more, s', StopRemove(path, t));
  }

  /**
   * It can go wrong. Two stop requests wait for sequence 1 to end; it ends, the first request removes the path,
   * sequence 2 is launched on it, and then the second request removes the path again. Sequence 2 is live but not
   * registered, and sequence 3 is launched beside it.
   */
  lemma StopCanUnregisterALiveSequence(path: string) returns (events: seq<Event>)
    ensures After(events).Some?
    ensures var s := After(events).value;
            s.Live(2) && s.Live(3) && s.heals[2].path == s.heals[3].path == path && s.registered == map[path := 3]
  {
    var s;
    assert After([]) == Some(INITIAL);
    hide After;
    events, s := Launched([], INITIAL, 1, path);
    events, s := StoppedTwice(events, s, 1, path);
    events, s := Launched(events, s, 2, path);
    events, s := Then(events, s, StopRemove(path, 1));
    events, s := Launched(events, s, 3, path);
  }
}
