/** The in-memory registry of heal sequences (cmd/admin-heal-ops.go), one method per critical section. */
module HealState {
  import opened Bytes
  import opened HealRegistry
  import opened HealSequences

  class AllHealState {
    var healSeqMap: map<string, HealSequence>

    ghost predicate LiveAt(k: string)
      reads this, healSeqMap.Values
    {
      k in healSeqMap && !healSeqMap[k].HasEnded()
    }

    /** Every sequence stands under its path, and no two live ones have prefix-related paths. */
    ghost predicate Valid()
      reads this, healSeqMap.Values
    {
      (forall k :: k in healSeqMap ==> healSeqMap[k].path == k) &&
      (forall j, k :: LiveAt(j) && LiveAt(k) && j != k ==> !Related(j, k))
    }

    constructor ()
      ensures Valid() && healSeqMap == map[]
    {
      healSeqMap := map[];
    }

    /** While the registry is locked, its sequences go on under their own locks: any of them may end. */
    method Interfere()
      modifies healSeqMap.Values
      ensures forall h :: h in healSeqMap.Values ==> (old(h.HasEnded()) ==> h.HasEnded() && h.endTime == old(h.endTime))
      ensures forall h :: h in healSeqMap.Values ==> h.cancelled == old(h.cancelled)
    {
      var ending: set<HealSequence> :| ending <= healSeqMap.Values;
      forall h | h in ending && h.endTime.None? && !h.background {
        h.status := Status.Finished;
      }
      forall h | h in ending && h.endTime.None? && !h.background {
        h.endTime := Some(0);
      }
    }

    /**
     * The launch under the registry's lock: refused if a sequence seen to be live overlaps, else registered.
     * Sequences may end while the launcher looks at the entries, in any order.
     */
    method LaunchNewHealSequence(h: HealSequence) returns (ok: bool)
      requires Valid() && h !in healSeqMap.Values
      modifies this, healSeqMap.Values
      ensures Valid()
      ensures healSeqMap == if ok then old(healSeqMap)[h.path := h] else old(healSeqMap)
      ensures ok ==> forall k :: k in old(healSeqMap) && (k <= h.path || h.path <= k) ==> old(healSeqMap)[k].HasEnded()
      ensures !ok ==>
                exists k :: k in old(healSeqMap) && (k <= h.path || h.path <= k) && !old(healSeqMap[k].HasEnded())
    {
      var remaining := healSeqMap.Keys;
      while remaining != {}
        invariant remaining <= healSeqMap.Keys && healSeqMap == old(healSeqMap) && Valid()
        invariant forall k :: k in healSeqMap && k !in remaining && Related(k, h.path) ==> healSeqMap[k].HasEnded()
        invariant forall k :: k in healSeqMap && old(healSeqMap[k].HasEnded()) ==> healSeqMap[k].HasEnded()
        decreases remaining
      {
        Interfere();
        assert forall k :: k in healSeqMap ==> healSeqMap[k] in healSeqMap.Values;
        var k :| k in remaining;
        if !healSeqMap[k].HasEnded() && Related(k, h.path) {
          return false;
        }
        remaining := remaining - {k};
      }
      healSeqMap := healSeqMap[h.path := h];
      return true;
    }

    /**
     * The end of a stop request: the entry goes by path, whatever it is by now. Afterwards nothing stands in the way
     * of a launch on the path, and every live sequence is still registered exactly if the one removed had ended.
     */
    method RemoveStopped(path: string)
      requires Valid()
      modifies this
      ensures Valid() && healSeqMap == old(healSeqMap) - {path}
      ensures (forall k :: old(LiveAt(k)) ==> LiveAt(k)) <==> !old(LiveAt(path))
      ensures old(LiveAt(path)) ==> forall k :: LiveAt(k) ==> !(k <= path || path <= k)
    {
      healSeqMap := healSeqMap - {path};
      assert !LiveAt(path);
      forall k | LiveAt(k) && old(LiveAt(path)) ensures !(k <= path || path <= k) {
        assert old(LiveAt(k)) && !Related(k, path);
      }
      forall k | k != path && old(LiveAt(k)) ensures LiveAt(k) {
        assert healSeqMap[k] == old(healSeqMap[k]);
      }
    }

    /**
     * A stop request that waits at most so many seconds for the end of the sequence that stood under the path. It
     * signals that sequence, and removes the path exactly if that sequence has ended in time.
     */
    method StopHealSequence(path: string, seconds: nat) returns (known: bool, ended: bool)
      requires Valid()
      modifies this, healSeqMap.Values
      ensures Valid()
      ensures known <==> path in old(healSeqMap)
      ensures known ==> old(healSeqMap)[path].cancelled && (ended <==> old(healSeqMap)[path].HasEnded())
      ensures healSeqMap == if ended then old(healSeqMap) - {path} else old(healSeqMap)
    {
      if path !in healSeqMap {
        return false, false;
      }
      var he := healSeqMap[path];
      he.Stop();
      var waited := 0;
      while waited < seconds && !he.HasEnded()
        invariant Valid() && healSeqMap == old(healSeqMap) && he.cancelled
      {
        Interfere();
        waited := waited + 1;
      }
      known, ended := true, he.HasEnded();
      if ended {
        RemoveStopped(path);
      }
    }

    /** One round of the periodic cleaner: exactly the entries of sequences that ended long enough ago go. */
    method CleanEnded(now: int)
      requires Valid()
      modifies this
      ensures Valid()
      ensures forall k :: k in healSeqMap <==>
                k in old(healSeqMap) &&
                !(old(healSeqMap)[k].HasEnded() && old(healSeqMap)[k].endTime.value + 10 * 60 < now)
      ensures healSeqMap == map k | k in old(healSeqMap) && !Expired(old(healSeqMap)[k], now) :: old(healSeqMap)[k]
    {
      var remaining := healSeqMap.Keys;
      while remaining != {}
        invariant remaining <= healSeqMap.Keys && Valid()
        invariant healSeqMap ==
                  map k | k in old(healSeqMap) && (k in remaining || !Expired(old(healSeqMap)[k], now)) ::
                    old(healSeqMap)[k]
        decreases remaining
      {
        var k :| k in remaining;
        remaining := remaining - {k};
        if Expired(healSeqMap[k], now) {
          healSeqMap := healSeqMap - {k};
        }
      }
    }
  }

  predicate Expired(h: HealSequence, now: int)
    reads h
  {
    h.HasEnded() && h.endTime.value + KEEP_ENDED < now
  }
}
