/** Grouping the lock records of all peers into one entry per lock (cmd/admin-handlers.go). */
module TopLocks {
  import opened Bytes

  datatype LockRequesterInfo = LockRequesterInfo(name: string, writer: bool, uid: string, timestamp: int,
                                                 source: string, owner: string, quorum: int)

  datatype PeerLocks = PeerLocks(addr: string, locks: map<string, seq<LockRequesterInfo>>)

  datatype LockType = Write | Read

  datatype LockEntry = LockEntry(timestamp: int, elapsed: int, resource: string, lockType: LockType,
                                 serverList: seq<string>, source: string, owner: string, id: string, quorum: int)

  function LriToLockEntry(l: LockRequesterInfo, now: int, resource: string, server: string): LockEntry {
    LockEntry(l.timestamp, now - l.timestamp, resource, if l.writer then Write else Read, [server],
              l.source, l.owner, l.uid, l.quorum)
  }

  function ToEntry(l: LockRequesterInfo): string {
    l.name + "/" + l.uid
  }

  // ---- where the records are ----

  /** The i-th record for a resource at a peer. */
  datatype Pos = Pos(peer: nat, resource: string, i: nat)

  type Peers = seq<Option<PeerLocks>>

  predicate IsPos(peers: Peers, p: Pos) {
    p.peer < |peers| && peers[p.peer].Some? && p.resource in peers[p.peer].value.locks &&
    p.i < |peers[p.peer].value.locks[p.resource]|
  }

  function RecordAt(peers: Peers, p: Pos): LockRequesterInfo
    requires IsPos(peers, p)
  {
    peers[p.peer].value.locks[p.resource][p.i]
  }

  function ServerAt(peers: Peers, p: Pos): string
    requires IsPos(peers, p)
  {
    peers[p.peer].value.addr
  }

  /** An order in which the records were visited: each at most once. */
  predicate IsVisit(peers: Peers, visited: seq<Pos>) {
    (forall k :: 0 <= k < |visited| ==> IsPos(peers, visited[k])) &&
    Distinct(visited)
  }

  /** Every record was visited. */
  ghost predicate IsComplete(peers: Peers, visited: seq<Pos>) {
    forall p :: IsPos(peers, p) ==> p in visited
  }

  /** The positions visited whose records have a key, in order. */
  function With(peers: Peers, visited: seq<Pos>, key: string): (ps: seq<Pos>)
    requires IsVisit(peers, visited)
    ensures forall p :: p in ps ==> p in visited && IsPos(peers, p) && ToEntry(RecordAt(peers, p)) == key
  {
    if visited == [] then []
    else
      var n := |visited| - 1;
      assert IsVisit(peers, visited[..n]);
      With(peers, visited[..n], key) + if ToEntry(RecordAt(peers, visited[n])) == key then [visited[n]] else []
  }

  function Servers(peers: Peers, ps: seq<Pos>): (ss: seq<string>)
    requires forall p :: p in ps ==> IsPos(peers, p)
    ensures |ss| == |ps|
  {
    seq(|ps|, k requires 0 <= k < |ps| => ServerAt(peers, ps[k]))
  }

  // ---- what the map of entries holds ----

  /** The entry of a key: made from the record at the first position, with the servers of all of them. */
  predicate EntryFor(peers: Peers, now: int, ps: seq<Pos>, key: string, entries: map<string, LockEntry>)
    requires forall p :: p in ps ==> IsPos(peers, p)
  {
    if ps == [] then key !in entries
    else
      key in entries &&
      entries[key] == LriToLockEntry(RecordAt(peers, ps[0]), now, ps[0].resource, "").(serverList := Servers(peers, ps))
  }

  predicate Groups(peers: Peers, now: int, visited: seq<Pos>, key: string, entries: map<string, LockEntry>)
    requires IsVisit(peers, visited)
  {
    EntryFor(peers, now, With(peers, visited, key), key, entries)
  }

  ghost predicate Grouped(peers: Peers, now: int, visited: seq<Pos>, entries: map<string, LockEntry>)
    requires IsVisit(peers, visited)
  {
    forall key :: Groups(peers, now, visited, key, entries)
  }

  /** What is done to the map for one more record. */
  function Noted(entries: map<string, LockEntry>, l: LockRequesterInfo, now: int, resource: string, server: string):
    map<string, LockEntry>
  {
    var key := ToEntry(l);
    if key in entries then entries[key := entries[key].(serverList := entries[key].serverList + [server])]
    else entries[key := LriToLockEntry(l, now, resource, server)]
  }

  lemma VisitMore(peers: Peers, visited: seq<Pos>, p: Pos)
    requires IsVisit(peers, visited) && IsPos(peers, p) && p !in visited
    ensures IsVisit(peers, visited + [p])
  {
  }

  lemma WithMore(peers: Peers, visited: seq<Pos>, p: Pos, key: string)
    requires IsVisit(peers, visited) && IsPos(peers, p) && p !in visited && IsVisit(peers, visited + [p])
    ensures With(peers, visited + [p], key) ==
            With(peers, visited, key) + if ToEntry(RecordAt(peers, p)) == key then [p] else []
  {
    assert (visited + [p])[..|visited|] == visited;
  }

  lemma NotedSameKey(peers: Peers, now: int, ps: seq<Pos>, p: Pos, entries: map<string, LockEntry>)
    requires (forall q :: q in ps ==> IsPos(peers, q)) && IsPos(peers, p)
    requires EntryFor(peers, now, ps, ToEntry(RecordAt(peers, p)), entries)
    ensures EntryFor(peers, now, ps + [p], ToEntry(RecordAt(peers, p)),
                     Noted(entries, RecordAt(peers, p), now, p.resource, ServerAt(peers, p)))
  {
    assert Servers(peers, ps + [p]) == Servers(peers, ps) + [ServerAt(peers, p)];
    hide RecordAt, ServerAt, ToEntry, IsPos;
  }

  lemma NotedGroups(peers: Peers, now: int, visited: seq<Pos>, p: Pos, key: string, entries: map<string, LockEntry>)
    requires IsVisit(peers, visited) && IsPos(peers, p) && p !in visited && IsVisit(peers, visited + [p])
    requires Groups(peers, now, visited, key, entries)
    ensures Groups(peers, now, visited + [p], key,
                   Noted(entries, RecordAt(peers, p), now, p.resource, ServerAt(peers, p)))
  {
    hide With, IsVisit, ToEntry, RecordAt, ServerAt, IsPos, Servers;
    WithMore(peers, visited, p, key);
    var ps := With(peers, visited, key);
    if ToEntry(RecordAt(peers, p)) == key {
      NotedSameKey(peers, now, ps, p, entries);
    } else {
      assert ps + [] == ps;
    }
  }

  /** Visiting one more record keeps the map right. */
  lemma NotedKeeps(peers: Peers, now: int, visited: seq<Pos>, p: Pos, entries: map<string, LockEntry>)
    requires IsVisit(peers, visited) && IsPos(peers, p) && p !in visited && Grouped(peers, now, visited, entries)
    ensures IsVisit(peers, visited + [p])
    ensures Grouped(peers, now, visited + [p], Noted(entries, RecordAt(peers, p), now, p.resource, ServerAt(peers, p)))
  {
    VisitMore(peers, visited, p);
    forall key ensures Groups(peers, now, visited + [p], key,
                              Noted(entries, RecordAt(peers, p), now, p.resource, ServerAt(peers, p))) {
      NotedGroups(peers, now, visited, p, key, entries);
    }
  }

  // ---- the loops ----

  /** Visited are the records of the peers before i, and at peer i those of the resources not in `remaining`. */
  ghost predicate Covered(peers: Peers, visited: seq<Pos>, i: nat, remaining: set<string>) {
    forall p :: IsPos(peers, p) ==>
      (p in visited <==> p.peer < i || (p.peer == i && p.resource !in remaining))
  }

  /** And the first j of one of the remaining resources. */
  ghost predicate CoveredPartly(peers: Peers, visited: seq<Pos>, i: nat, remaining: set<string>, k: string, j: nat) {
    forall p :: IsPos(peers, p) ==>
      (p in visited <==> p.peer < i || (p.peer == i && (p.resource !in remaining || (p.resource == k && p.i < j))))
  }

  method VisitResource(peers: Peers, now: int, i: nat, k: string, entries: map<string, LockEntry>,
                       ghost visited: seq<Pos>, ghost remaining: set<string>)
    returns (entries': map<string, LockEntry>, ghost visited': seq<Pos>)
    requires i < |peers| && peers[i].Some? && k in peers[i].value.locks && k in remaining
    requires IsVisit(peers, visited) && Covered(peers, visited, i, remaining) && Grouped(peers, now, visited, entries)
    ensures IsVisit(peers, visited') && Covered(peers, visited', i, remaining - {k})
    ensures Grouped(peers, now, visited', entries')
  {
    hide IsVisit, Grouped;
    var v := peers[i].value.locks[k];
    entries', visited' := entries, visited;
    var j := 0;
    while j < |v|
      invariant j <= |v| && IsVisit(peers, visited') && Grouped(peers, now, visited', entries')
      invariant CoveredPartly(peers, visited', i, remaining, k, j)
    {
      ghost var p := Pos(i, k, j);
      assert IsPos(peers, p) && p !in visited';
      NotedKeeps(peers, now, visited', p, entries');
      if ToEntry(v[j]) in entries' {
        var val := entries'[ToEntry(v[j])];
        entries' := entries'[ToEntry(v[j]) := val.(serverList := val.serverList + [peers[i].value.addr])];
      } else {
        entries' := entries'[ToEntry(v[j]) := LriToLockEntry(v[j], now, k, peers[i].value.addr)];
      }
      visited' := visited' + [p];
      j := j + 1;
    }
  }

  method VisitPeer(peers: Peers, now: int, i: nat, entries: map<string, LockEntry>, ghost visited: seq<Pos>)
    returns (entries': map<string, LockEntry>, ghost visited': seq<Pos>)
    requires i < |peers| && peers[i].Some?
    requires IsVisit(peers, visited) && Covered(peers, visited, i, peers[i].value.locks.Keys)
    requires Grouped(peers, now, visited, entries)
    ensures IsVisit(peers, visited') && Covered(peers, visited', i, {}) && Grouped(peers, now, visited', entries')
  {
    hide IsVisit, Grouped;
    entries', visited' := entries, visited;
    var remaining := peers[i].value.locks.Keys;
    while remaining != {}
      invariant remaining <= peers[i].value.locks.Keys
      invariant IsVisit(peers, visited') && Covered(peers, visited', i, remaining)
      invariant Grouped(peers, now, visited', entries')
      decreases remaining
    {
      var k :| k in remaining;   // a map is iterated in any order
      entries', visited' := VisitResource(peers, now, i, k, entries', visited', remaining);
      remaining := remaining - {k};
    }
  }

  /** Whether an entry is reported. */
  predicate Kept(stale: bool, e: LockEntry) {
    stale || |e.serverList| >= e.quorum
  }

  /** The entries reported: those kept, each once; order[i] is the key of the i-th. */
  ghost predicate Reported(groups: map<string, LockEntry>, stale: bool, entries: seq<LockEntry>, order: seq<string>) {
    |order| == |entries| &&
    Distinct(order) &&
    (forall i :: 0 <= i < |order| ==> order[i] in groups && entries[i] == groups[order[i]]) &&
    (forall key :: key in order <==> key in groups && Kept(stale, groups[key]))
  }

  method Report(groups: map<string, LockEntry>, stale: bool) returns (entries: seq<LockEntry>, ghost order: seq<string>)
    ensures Reported(groups, stale, entries, order)
  {
    entries, order := [], [];
    var remaining := groups.Keys;
    while remaining != {}
      invariant remaining <= groups.Keys && |order| == |entries|
      invariant Distinct(order)
      invariant forall i :: 0 <= i < |order| ==> order[i] in groups && entries[i] == groups[order[i]]
      invariant forall key :: key in order <==> key in groups && key !in remaining && Kept(stale, groups[key])
      decreases remaining
    {
      var key :| key in remaining;
      var v := groups[key];
      if stale {
        entries, order := entries + [v], order + [key];
      } else if |v.serverList| >= v.quorum {
        entries, order := entries + [v], order + [key];
      }
      remaining := remaining - {key};
    }
  }

  /** The entries are what some order of iteration over the maps gives. */
  ghost predicate IsReport(peers: Peers, stale: bool, now: int, entries: seq<LockEntry>) {
    exists visited, groups, order ::
      IsVisit(peers, visited) && IsComplete(peers, visited) && Grouped(peers, now, visited, groups) &&
      Reported(groups, stale, entries, order)
  }

  /**
   * One entry for each key, made from all records with the key at all peers that answered; reported are all of them,
   * or those with enough servers.
   */
  method TopLockEntries(peers: Peers, stale: bool, now: int) returns (entries: seq<LockEntry>)
    ensures IsReport(peers, stale, now, entries)
  {
    var entryMap: map<string, LockEntry> := map[];
    ghost var visited := [];
    var i := 0;
    while i < |peers|
      invariant i <= |peers| && IsVisit(peers, visited) && Grouped(peers, now, visited, entryMap)
      invariant forall p :: IsPos(peers, p) ==> (p in visited <==> p.peer < i)
    {
      if peers[i].Some? {
        entryMap, visited := VisitPeer(peers, now, i, entryMap, visited);
      }
      i := i + 1;
    }
    ghost var order;
    entries, order := Report(entryMap, stale);
    assert IsComplete(peers, visited);
  }

  // ---- the laws ----

  /** A record with this key, of which the entry tells what it is and how long it has been there. */
  predicate Tells(e: LockEntry, peers: Peers, p: Pos, now: int) {
    IsPos(peers, p) &&
    var l := peers[p.peer].value.locks[p.resource][p.i];
    e.resource == p.resource && e.lockType == (if l.writer then Write else Read) && e.id == l.uid &&
    e.owner == l.owner && e.source == l.source && e.quorum == l.quorum && e.timestamp == l.timestamp &&
    e.elapsed == now - l.timestamp
  }

  /** The server is one of those that report a record of this lock and request. */
  predicate ReportsLock(peers: Peers, p: Pos, name: string, uid: string, server: string) {
    IsPos(peers, p) && peers[p.peer].value.addr == server &&
    var l := peers[p.peer].value.locks[p.resource][p.i];
    l.name + "/" + l.uid == name + "/" + uid
  }

  /**
   * An entry reported describes one of the records of its lock and request, and lists a server for every record that
   * there is of them and no other.
   */
  lemma {:induction false} EntryTells(peers: Peers, stale: bool, now: int, entries: seq<LockEntry>, i: nat)
    returns (p: Pos, name: string)
    requires IsReport(peers, stale, now, entries) && i < |entries|
    ensures Tells(entries[i], peers, p, now) && peers[p.peer].value.locks[p.resource][p.i].name == name
    ensures forall server :: server in entries[i].serverList <==>
              exists q :: ReportsLock(peers, q, name, entries[i].id, server)
  {
    var visited, groups, order :|
      IsVisit(peers, visited) && IsComplete(peers, visited) && Grouped(peers, now, visited, groups) &&
      Reported(groups, stale, entries, order);
    var key := order[i];
    var ps := With(peers, visited, key);
    assert Groups(peers, now, visited, key, groups);
    p := ps[0];
    name := RecordAt(peers, p).name;
    forall server ensures server in entries[i].serverList <==>
                          exists q :: ReportsLock(peers, q, name, entries[i].id, server) {
      ServerListed(peers, visited, key, name, entries[i].id, server);
    }
    hide With, IsVisit, IsComplete, Grouped, Servers;
  }

  lemma {:induction false} ServerListed(peers: Peers, visited: seq<Pos>, key: string, name: string, uid: string,
                                        server: string)
    requires IsVisit(peers, visited) && IsComplete(peers, visited) && key == name + "/" + uid
    ensures server in Servers(peers, With(peers, visited, key)) <==>
            exists q :: ReportsLock(peers, q, name, uid, server)
  {
    var ps := With(peers, visited, key);
    if server in Servers(peers, ps) {
      var k :| 0 <= k < |ps| && Servers(peers, ps)[k] == server;
      assert ps[k] in ps;
      assert ReportsLock(peers, ps[k], name, uid, server);
    }
    if q :| ReportsLock(peers, q, name, uid, server) {
      WithMembers(peers, visited, key, q);
      var k :| 0 <= k < |ps| && ps[k] == q;
      assert Servers(peers, ps)[k] == server;
    }
    hide With, IsVisit;
  }

  /** Two ways to iterate over the maps visit the same records. */
  lemma SameRecords(peers: Peers, v: seq<Pos>, w: seq<Pos>)
    requires IsVisit(peers, v) && IsComplete(peers, v) && IsVisit(peers, w) && IsComplete(peers, w)
    ensures multiset(v) == multiset(w)
  {
    forall p ensures multiset(v)[p] == multiset(w)[p] {
      OnceAtMost(v, p);
      OnceAtMost(w, p);
      assert p in multiset(v) <==> p in v;
      assert p in multiset(w) <==> p in w;
    }
  }

  lemma {:induction false} OnceAtMost(v: seq<Pos>, p: Pos)
    requires Distinct(v)
    ensures multiset(v)[p] <= 1
  {
    if v != [] {
      var n := |v| - 1;
      assert v == v[..n] + [v[n]];
      OnceAtMost(v[..n], p);
      if p == v[n] {
        assert p !in v[..n];
      }
    }
  }

  predicate HasKey(peers: Peers, p: Pos, key: string) {
    IsPos(peers, p) && ToEntry(RecordAt(peers, p)) == key
  }

  lemma {:induction false} WithMembers(peers: Peers, v: seq<Pos>, key: string, p: Pos)
    requires IsVisit(peers, v)
    ensures multiset(With(peers, v, key))[p] == if HasKey(peers, p, key) then multiset(v)[p] else 0
  {
    if v != [] {
      var n := |v| - 1;
      assert v == v[..n] + [v[n]];
      WithMembers(peers, v[..n], key, p);
    }
  }

  /** For each key the visits find the same servers. */
  lemma SameServers(peers: Peers, v: seq<Pos>, w: seq<Pos>, key: string)
    requires IsVisit(peers, v) && IsComplete(peers, v) && IsVisit(peers, w) && IsComplete(peers, w)
    ensures multiset(With(peers, v, key)) == multiset(With(peers, w, key))
    ensures multiset(Servers(peers, With(peers, v, key))) == multiset(Servers(peers, With(peers, w, key)))
  {
    SameRecords(peers, v, w);
    forall p ensures multiset(With(peers, v, key))[p] == multiset(With(peers, w, key))[p] {
      WithMembers(peers, v, key, p);
      WithMembers(peers, w, key, p);
    }
    ServersOfPermuted(peers, With(peers, v, key), With(peers, w, key));
  }

  lemma ServersConcat(peers: Peers, ps: seq<Pos>, qs: seq<Pos>)
    requires (forall p :: p in ps ==> IsPos(peers, p)) && (forall p :: p in qs ==> IsPos(peers, p))
    ensures Servers(peers, ps + qs) == Servers(peers, ps) + Servers(peers, qs)
  {
  }

  lemma RemoveFirst(ps: seq<Pos>, qs: seq<Pos>) returns (k: nat)
    requires ps != [] && multiset(ps) == multiset(qs)
    ensures k < |qs| && qs[k] == ps[0] && multiset(ps[1..]) == multiset(qs[..k] + qs[k + 1..])
    ensures qs == qs[..k] + [ps[0]] + qs[k + 1..]
  {
    assert ps[0] in multiset(qs);
    k :| 0 <= k < |qs| && qs[k] == ps[0];
    assert ps == [ps[0]] + ps[1..];
    assert qs == qs[..k] + [qs[k]] + qs[k + 1..];
    assert multiset(ps) == multiset([ps[0]]) + multiset(ps[1..]);
    assert multiset(qs) == multiset(qs[..k]) + multiset([ps[0]]) + multiset(qs[k + 1..]);
    assert multiset(qs[..k] + qs[k + 1..]) == multiset(qs[..k]) + multiset(qs[k + 1..]);
    assert multiset(ps[1..]) == multiset(ps) - multiset([ps[0]]);
    assert multiset(qs) - multiset([ps[0]]) == multiset(qs[..k]) + multiset(qs[k + 1..]);
  }

  lemma ServersRemoved(peers: Peers, before: seq<Pos>, p: Pos, after: seq<Pos>)
    requires (forall q :: q in before ==> IsPos(peers, q)) && IsPos(peers, p)
    requires forall q :: q in after ==> IsPos(peers, q)
    ensures multiset(Servers(peers, before + [p] + after)) ==
            multiset([ServerAt(peers, p)]) + multiset(Servers(peers, before + after))
  {
    ServersConcat(peers, before + [p], after);
    ServersConcat(peers, before, [p]);
    ServersConcat(peers, before, after);
    assert Servers(peers, [p]) == [ServerAt(peers, p)];
  }

  lemma {:induction false} ServersOfPermuted(peers: Peers, ps: seq<Pos>, qs: seq<Pos>)
    requires (forall p :: p in ps ==> IsPos(peers, p)) && (forall p :: p in qs ==> IsPos(peers, p))
    requires multiset(ps) == multiset(qs)
    ensures multiset(Servers(peers, ps)) == multiset(Servers(peers, qs))
    decreases |ps|
  {
    hide IsPos, Servers;
    if ps == [] {
      assert |multiset(qs)| == 0;
      assert qs == [];
    } else {
      var k := RemoveFirst(ps, qs);
      ServersOfPermuted(peers, ps[1..], qs[..k] + qs[k + 1..]);
      ServersRemoved(peers, [], ps[0], ps[1..]);
      ServersRemoved(peers, qs[..k], ps[0], qs[k + 1..]);
      assert ps == [] + [ps[0]] + ps[1..] && [] + ps[1..] == ps[1..];
    }
  }

  /** The lengths of the server lists, added up. */
  function TotalServers(entries: seq<LockEntry>): nat {
    if entries == [] then 0 else TotalServers(entries[..|entries| - 1]) + |entries[|entries| - 1].serverList|
  }

  /** How many visited records have one of the first n keys. */
  function Counted(peers: Peers, visited: seq<Pos>, order: seq<string>, n: nat): nat
    requires IsVisit(peers, visited) && n <= |order|
  {
    if n == 0 then 0 else Counted(peers, visited, order, n - 1) + |With(peers, visited, order[n - 1])|
  }

  lemma {:induction false} CountedMore(peers: Peers, visited: seq<Pos>, p: Pos, order: seq<string>, n: nat)
    requires IsVisit(peers, visited) && IsPos(peers, p) && p !in visited && IsVisit(peers, visited + [p])
    requires n <= |order| && Distinct(order)
    ensures Counted(peers, visited + [p], order, n) ==
            Counted(peers, visited, order, n) + if ToEntry(RecordAt(peers, p)) in order[..n] then 1 else 0
  {
    hide With, IsVisit, IsPos, RecordAt, ToEntry;
    if n > 0 {
      CountedMore(peers, visited, p, order, n - 1);
      WithMore(peers, visited, p, order[n - 1]);
      assert order[..n] == order[..n - 1] + [order[n - 1]];
    }
  }

  lemma {:induction false} CountedAll(peers: Peers, visited: seq<Pos>, order: seq<string>)
    requires IsVisit(peers, visited) && Distinct(order)
    requires forall p :: p in visited ==> ToEntry(RecordAt(peers, p)) in order
    ensures Counted(peers, visited, order, |order|) == |visited|
  {
    if visited == [] {
      CountedNone(peers, order, |order|);
    } else {
      var n := |visited| - 1;
      assert visited == visited[..n] + [visited[n]];
      CountedAll(peers, visited[..n], order);
      CountedMore(peers, visited[..n], visited[n], order, |order|);
      assert order[..|order|] == order;
    }
  }

  lemma {:induction false} CountedNone(peers: Peers, order: seq<string>, n: nat)
    requires n <= |order|
    ensures Counted(peers, [], order, n) == 0
  {
    if n > 0 {
      CountedNone(peers, order, n - 1);
    }
  }

  lemma AsManyServers(peers: Peers, now: int, visited: seq<Pos>, groups: map<string, LockEntry>, key: string)
    requires IsVisit(peers, visited) && Grouped(peers, now, visited, groups) && key in groups
    ensures |groups[key].serverList| == |With(peers, visited, key)|
  {
    assert Groups(peers, now, visited, key, groups);
  }

  lemma {:induction false} TotalIsCounted(peers: Peers, now: int, visited: seq<Pos>, groups: map<string, LockEntry>,
                                          entries: seq<LockEntry>, order: seq<string>, n: nat)
    requires IsVisit(peers, visited) && Grouped(peers, now, visited, groups) && n <= |order| == |entries|
    requires forall i :: 0 <= i < |order| ==> order[i] in groups && entries[i] == groups[order[i]]
    ensures TotalServers(entries[..n]) == Counted(peers, visited, order, n)
  {
    hide With, IsVisit, Grouped;
    if n > 0 {
      TotalIsCounted(peers, now, visited, groups, entries, order, n - 1);
      assert entries[..n][..n - 1] == entries[..n - 1];
      AsManyServers(peers, now, visited, groups, order[n - 1]);
    }
  }

  lemma {:induction false} WithHas(peers: Peers, visited: seq<Pos>, p: Pos)
    requires IsVisit(peers, visited) && p in visited
    ensures p in With(peers, visited, ToEntry(RecordAt(peers, p)))
  {
    hide RecordAt, ToEntry, IsPos;
    var n := |visited| - 1;
    if p != visited[n] {
      WithHas(peers, visited[..n], p);
    }
  }

  lemma EveryKeyGrouped(peers: Peers, now: int, visited: seq<Pos>, groups: map<string, LockEntry>)
    requires IsVisit(peers, visited) && Grouped(peers, now, visited, groups)
    ensures forall p :: p in visited ==> ToEntry(RecordAt(peers, p)) in groups
  {
    forall p | p in visited ensures ToEntry(RecordAt(peers, p)) in groups {
      WithHas(peers, visited, p);
      assert Groups(peers, now, visited, ToEntry(RecordAt(peers, p)), groups);
    }
  }

  /** All records of all peers that answered. */
  ghost function Positions(peers: Peers): set<Pos> {
    set i, k, j | 0 <= i < |peers| && peers[i].Some? && k in peers[i].value.locks &&
                  0 <= j < |peers[i].value.locks[k]| :: Pos(i, k, j)
  }

  lemma {:induction false} NoDuplicates(v: seq<Pos>, all: set<Pos>)
    requires Distinct(v)
    requires forall p :: p in v <==> p in all
    ensures |v| == |all|
  {
    if v == [] {
      assert all == {};
    } else {
      var n := |v| - 1;
      assert v == v[..n] + [v[n]];
      NoDuplicates(v[..n], all - {v[n]});
    }
  }

  lemma VisitCounts(peers: Peers, visited: seq<Pos>)
    requires IsVisit(peers, visited) && IsComplete(peers, visited)
    ensures |visited| == |Positions(peers)|
  {
    forall p ensures p in visited <==> p in Positions(peers) {
      assert IsPos(peers, p) <==> p in Positions(peers) by {
        assert p == Pos(p.peer, p.resource, p.i);
      }
    }
    NoDuplicates(visited, Positions(peers));
  }

  /** In stale mode no record is lost: the server lists together are as long as there are records. */
  lemma StaleReportsEveryRecord(peers: Peers, now: int, entries: seq<LockEntry>)
    requires IsReport(peers, true, now, entries)
    ensures TotalServers(entries) == |Positions(peers)|
  {
    var visited, groups, order :|
      IsVisit(peers, visited) && IsComplete(peers, visited) && Grouped(peers, now, visited, groups) &&
      Reported(groups, true, entries, order);
    EveryKeyGrouped(peers, now, visited, groups);
    CountedAll(peers, visited, order);
    TotalIsCounted(peers, now, visited, groups, entries, order, |order|);
    assert entries[..|order|] == entries;
    VisitCounts(peers, visited);
  }

  /** And there is one entry for every key of a record. */
  lemma StaleReportsEveryKey(peers: Peers, now: int, visited: seq<Pos>, groups: map<string, LockEntry>,
                             entries: seq<LockEntry>, order: seq<string>, key: string)
    requires IsVisit(peers, visited) && IsComplete(peers, visited) && Grouped(peers, now, visited, groups)
    requires Reported(groups, true, entries, order)
    ensures key in order <==> exists p :: HasKey(peers, p, key)
  {
    assert Groups(peers, now, visited, key, groups);
    if key in order {
      var p := With(peers, visited, key)[0];
      assert p in With(peers, visited, key);
      assert HasKey(peers, p, key);
    }
    if p :| HasKey(peers, p, key) {
      assert p in visited;
      EveryKeyGrouped(peers, now, visited, groups);
    }
  }

  /** Records of the same lock agree on its quorum. */
  ghost predicate AgreeOnQuorum(peers: Peers) {
    forall p, q :: IsPos(peers, p) && IsPos(peers, q) && ToEntry(RecordAt(peers, p)) == ToEntry(RecordAt(peers, q)) ==>
      RecordAt(peers, p).quorum == RecordAt(peers, q).quorum
  }

  /** Otherwise exactly the locks are reported that have as many records as their quorum asks for. */
  lemma QuorumReportsExactly(peers: Peers, now: int, visited: seq<Pos>, groups: map<string, LockEntry>,
                             entries: seq<LockEntry>, order: seq<string>, p: Pos)
    requires IsVisit(peers, visited) && IsComplete(peers, visited) && Grouped(peers, now, visited, groups)
    requires Reported(groups, false, entries, order) && AgreeOnQuorum(peers) && IsPos(peers, p)
    ensures var key := ToEntry(RecordAt(peers, p));
            key in order <==> |With(peers, visited, key)| >= RecordAt(peers, p).quorum
  {
    var key := ToEntry(RecordAt(peers, p));
    WithHas(peers, visited, p);
    assert Groups(peers, now, visited, key, groups);
    var first := With(peers, visited, key)[0];
    assert first in With(peers, visited, key);
    assert RecordAt(peers, first).quorum == RecordAt(peers, p).quorum;
  }

  /** Whatever the order of iteration, the same locks are reported. */
  lemma OrderDoesNotMatter(peers: Peers, now: int,
                           v: seq<Pos>, g: map<string, LockEntry>, e: seq<LockEntry>, o: seq<string>,
                           w: seq<Pos>, h: map<string, LockEntry>, f: seq<LockEntry>, u: seq<string>, key: string)
    requires IsVisit(peers, v) && IsComplete(peers, v) && Grouped(peers, now, v, g) && Reported(g, false, e, o)
    requires IsVisit(peers, w) && IsComplete(peers, w) && Grouped(peers, now, w, h) && Reported(h, false, f, u)
    requires AgreeOnQuorum(peers)
    ensures key in o <==> key in u
    ensures key in o ==> multiset(g[key].serverList) == multiset(h[key].serverList)
  {
    SameServers(peers, v, w, key);
    assert Groups(peers, now, v, key, g) && Groups(peers, now, w, key, h);
    assert |multiset(With(peers, v, key))| == |With(peers, v, key)|;
    assert |multiset(With(peers, w, key))| == |With(peers, w, key)|;
    if With(peers, v, key) != [] {
      var p := With(peers, v, key)[0];
      assert p in With(peers, v, key);
      QuorumReportsExactly(peers, now, v, g, e, o, p);
      QuorumReportsExactly(peers, now, w, h, f, u, p);
    }
  }

  // ---- keys ----

  /** The key names the lock and the request, if request identifiers contain no slash. */
  lemma KeyInjective(l: LockRequesterInfo, m: LockRequesterInfo)
    requires ToEntry(l) == ToEntry(m) && '/' !in l.uid && '/' !in m.uid
    ensures l.name == m.name && l.uid == m.uid
  {
    SlashNotLater(l.name, l.uid, m.name, m.uid);
    SlashNotLater(m.name, m.uid, l.name, l.uid);
    var k := ToEntry(l);
    assert l.name == k[..|l.name|] == m.name;
    assert l.uid == k[|l.name| + 1..] == m.uid;
  }

  lemma SlashNotLater(a: string, u: string, b: string, v: string)
    requires a + "/" + u == b + "/" + v && '/' !in u
    ensures |b| <= |a|
  {
    var k := a + "/" + u;
    assert forall i :: |a| < i < |k| ==> k[i] in u;
    assert k[|b|] == (b + "/" + v)[|b|] == '/';
  }

  lemma KeyCollides(l: LockRequesterInfo)
    ensures var x := l.(name := "a", uid := "b/c"); var y := l.(name := "a/b", uid := "c");
            ToEntry(x) == ToEntry(y) && x != y
  {
    var x, y := l.(name := "a", uid := "b/c"), l.(name := "a/b", uid := "c");
    assert ToEntry(x) == "a/b/c" == ToEntry(y);
    assert |x.name| != |y.name|;
  }
}
