/**
 * The not-renderable list as a value: how `set_event_renderable` edits it and how
 * `_set_not_renderable_events` prunes it against the events the broker still knows.
 */
module NotRenderable {
  import opened Wrappers
  import opened RenderKeys
  import opened Lists

  /** The list after `set_event_renderable` has edited it, before it is persisted. */
  function ToggleKey(keys: seq<string>, key: string, renderable: bool): seq<string>
  {
    if key in keys && renderable then RemoveFirst(keys, key)
    else if key !in keys && !renderable then keys + [key]
    else keys
  }

  /** Disabling rendering stores the key; a key that was absent is stored exactly once. */
  lemma DisableStoresKeyOnce(keys: seq<string>, key: string)
    ensures key in ToggleKey(keys, key, false)
    ensures multiset(ToggleKey(keys, key, false))[key] == if key in keys then multiset(keys)[key] else 1
    ensures forall k :: k != key ==> multiset(ToggleKey(keys, key, false))[k] == multiset(keys)[k]
  {
  }

  /** Disabling twice is the same as disabling once. */
  lemma DisableIdempotent(keys: seq<string>, key: string)
    ensures ToggleKey(ToggleKey(keys, key, false), key, false) == ToggleKey(keys, key, false)
  {
  }

  /**
   * Enabling rendering drops one occurrence of the key, the first one, and keeps every
   * other key and their order.
   */
  lemma EnableDropsOneOccurrence(keys: seq<string>, key: string)
    ensures multiset(ToggleKey(keys, key, true)) == multiset(keys) - multiset{key}
    ensures IsSubsequence(ToggleKey(keys, key, true), keys)
    ensures key in keys ==> var r, i := ToggleKey(keys, key, true), IndexOf(keys, key);
      && |r| == |keys| - 1
      && (forall k :: 0 <= k < i ==> r[k] == keys[k])
      && (forall k :: i <= k < |r| ==> r[k] == keys[k + 1])
  {
    RemoveFirstIsSubsequence(keys, key);
    if key !in keys {
      assert multiset(keys)[key] == 0;
    } else {
      RemoveFirstDropsFirstOccurrence(keys, key);
    }
  }

  /** With the key stored twice around another, enabling keeps the later copy. */
  lemma EnableKeepsLaterCopy()
    ensures ToggleKey(["r1__e1", "r2__e2", "r1__e1"], "r1__e1", true) == ["r2__e2", "r1__e1"]
  {
    assert ["r1__e1", "r2__e2", "r1__e1"][1..] == ["r2__e2", "r1__e1"];
  }

  /** Removing a key just appended to a list that lacked it gives the list back. */
  lemma {:induction false} RemoveAppended(keys: seq<string>, key: string)
    requires key !in keys
    ensures RemoveFirst(keys + [key], key) == keys
    decreases |keys|
  {
    if |keys| > 0 {
      assert (keys + [key])[0] == keys[0];
      assert (keys + [key])[1..] == keys[1..] + [key];
      RemoveAppended(keys[1..], key);
      assert keys == [keys[0]] + keys[1..];
    }
  }

  /** Disabling then enabling a pair that was not stored restores the list. */
  lemma DisableThenEnable(keys: seq<string>, key: string)
    requires key !in keys
    ensures ToggleKey(ToggleKey(keys, key, false), key, true) == keys
  {
    RemoveAppended(keys, key);
  }

  /** After disabling a well-formed pair on a readable list, the list reads back and reports the pair. */
  lemma DisableReportsEntry(keys: seq<string>, renderer: string, event: string)
    requires ParseKeys(keys).Ok?
    requires !HasSeparator(renderer) && !HasSeparator(event) && !EndsWithUnderscore(renderer)
    ensures ParseKeys(ToggleKey(keys, EncodeKey(renderer, event), false)).Ok?
    ensures Entry(renderer, event) in ParseKeys(ToggleKey(keys, EncodeKey(renderer, event), false)).value
  {
    var key := EncodeKey(renderer, event);
    ParseEncodedKey(renderer, event);
    if key in keys {
      var i :| 0 <= i < |keys| && keys[i] == key;
      assert ParseKeys(keys).value[i] == Entry(renderer, event);
    } else {
      ParseKeysAppend(keys, key);
      assert ParseKeys(keys + [key]).value[|keys|] == Entry(renderer, event);
    }
  }

  /** A stored key whose event the broker no longer resolves. */
  predicate IsStale(key: string, known: set<string>)
  {
    ParseKey(key).Ok? && ParseKey(key).value.event !in known
  }

  /**
   * The `events_to_delete` list: the key of every entry whose event is not known,
   * each key once, in the order of first appearance.
   */
  function StaleKeys(entries: seq<Entry>, known: set<string>): (stale: seq<string>)
    ensures forall i, j :: 0 <= i < j < |stale| ==> stale[i] != stale[j]
    ensures forall k :: k in stale <==>
      exists i :: 0 <= i < |entries| && entries[i].event !in known && EncodeKey(entries[i].renderer, entries[i].event) == k
    decreases |entries|
  {
    if |entries| == 0 then []
    else
      var prefix := entries[..|entries| - 1];
      var acc := StaleKeys(prefix, known);
      var e := entries[|entries| - 1];
      var key := EncodeKey(e.renderer, e.event);
      assert forall i :: 0 <= i < |prefix| ==> prefix[i] == entries[i];
      if e.event in known || key in acc then acc else acc + [key]
  }

  /** The entries whose events resolve: each gets `set_renderable(renderer, False)`, in order. */
  function Resolved(entries: seq<Entry>, known: set<string>): (live: seq<Entry>)
    ensures forall e :: e in live <==> e in entries && e.event in known
    ensures IsSubsequence(live, entries)
    decreases |entries|
  {
    if |entries| == 0 then []
    else if entries[0].event in known then
      var rest := Resolved(entries[1..], known);
      assert entries == [entries[0]] + entries[1..];
      [entries[0]] + rest
    else
      TailSubsequence(entries);
      SubsequenceTrans(Resolved(entries[1..], known), entries[1..], entries);
      assert entries == [entries[0]] + entries[1..];
      Resolved(entries[1..], known)
  }

  /** Filtering a list extended by one entry filters the list, then that entry. */
  lemma {:induction false} ResolvedAppend(entries: seq<Entry>, e: Entry, known: set<string>)
    ensures Resolved(entries + [e], known) == Resolved(entries, known) + (if e.event in known then [e] else [])
    decreases |entries|
  {
    var all := entries + [e];
    if |entries| == 0 {
      assert all == [e];
      assert all[1..] == [];
    } else {
      assert all[0] == entries[0];
      assert all[1..] == entries[1..] + [e];
      ResolvedAppend(entries[1..], e, known);
    }
  }

  /** The second loop of the reconciliation: `remove` each collected key once, in order. */
  function RemoveEach(keys: seq<string>, toDelete: seq<string>): seq<string>
    decreases |toDelete|
  {
    if |toDelete| == 0 then keys else RemoveEach(RemoveFirst(keys, toDelete[0]), toDelete[1..])
  }

  /** Removing distinct keys that are all present takes exactly one copy of each. */
  lemma {:induction false} RemoveEachCounts(keys: seq<string>, toDelete: seq<string>)
    requires forall i, j :: 0 <= i < j < |toDelete| ==> toDelete[i] != toDelete[j]
    requires forall k :: k in toDelete ==> k in keys
    ensures forall k :: multiset(RemoveEach(keys, toDelete))[k]
                      == multiset(keys)[k] - (if k in toDelete then 1 else 0)
    decreases |toDelete|
  {
    if |toDelete| > 0 {
      var first := toDelete[0];
      var next := RemoveFirst(keys, first);
      forall k | k in toDelete[1..]
        ensures k in next
      {
        var j :| 0 <= j < |toDelete[1..]| && toDelete[1..][j] == k;
        assert toDelete[j + 1] == k && k in toDelete;
        assert k != first;
        assert k in multiset(keys);
        assert multiset(next)[k] == multiset(keys)[k];
      }
      forall i, j | 0 <= i < j < |toDelete[1..]|
        ensures toDelete[1..][i] != toDelete[1..][j]
      {
        assert toDelete[1..][i] == toDelete[i + 1] && toDelete[1..][j] == toDelete[j + 1];
      }
      RemoveEachCounts(next, toDelete[1..]);
      forall k
        ensures multiset(RemoveEach(keys, toDelete))[k] == multiset(keys)[k] - (if k in toDelete then 1 else 0)
      {
        assert k in toDelete <==> k == first || k in toDelete[1..];
        if k == first {
          assert k !in toDelete[1..];
        }
      }
    }
  }

  /** The tail of a list of distinct keys is distinct and lacks the head. */
  lemma DistinctTail(toDelete: seq<string>)
    requires |toDelete| > 0
    requires forall i, j :: 0 <= i < j < |toDelete| ==> toDelete[i] != toDelete[j]
    ensures forall i, j :: 0 <= i < j < |toDelete[1..]| ==> toDelete[1..][i] != toDelete[1..][j]
    ensures toDelete[0] !in toDelete[1..]
    ensures (set k | k in toDelete[1..]) + {toDelete[0]} == set k | k in toDelete
  {
    var rest := toDelete[1..];
    assert forall j :: 0 <= j < |rest| ==> rest[j] == toDelete[j + 1];
    assert toDelete == [toDelete[0]] + rest;
  }

  /** Removing distinct keys one after another drops the first copy of each in one pass. */
  lemma {:induction false} RemoveEachDropsFirstCopies(keys: seq<string>, toDelete: seq<string>)
    requires forall i, j :: 0 <= i < j < |toDelete| ==> toDelete[i] != toDelete[j]
    ensures RemoveEach(keys, toDelete) == DropFirstCopies(keys, set k | k in toDelete)
    decreases |toDelete|
  {
    if |toDelete| == 0 {
      assert (set k | k in toDelete) == {};
      DropNothing(keys);
    } else {
      var first, rest := toDelete[0], toDelete[1..];
      DistinctTail(toDelete);
      RemoveEachDropsFirstCopies(RemoveFirst(keys, first), rest);
      RemoveFirstThenDrop(keys, first, set k | k in rest);
    }
  }

  /** Removal never reorders: the result is a subsequence of the list. */
  lemma {:induction false} RemoveEachIsSubsequence(keys: seq<string>, toDelete: seq<string>)
    ensures IsSubsequence(RemoveEach(keys, toDelete), keys)
    decreases |toDelete|
  {
    if |toDelete| == 0 {
      SubsequenceRefl(keys);
    } else {
      var next := RemoveFirst(keys, toDelete[0]);
      RemoveEachIsSubsequence(next, toDelete[1..]);
      RemoveFirstIsSubsequence(keys, toDelete[0]);
      SubsequenceTrans(RemoveEach(next, toDelete[1..]), next, keys);
    }
  }

  /** `_set_not_renderable_events` on the persisted list, as a value. */
  function Reconciled(keys: seq<string>, known: set<string>): (r: Result<seq<string>>)
    ensures r.Ok? <==> ParseKeys(keys).Ok?
    ensures r.Err? ==> r.error == ParseKeys(keys).error
  {
    match ParseKeys(keys)
    case Err(err) => Err(err)
    case Ok(entries) => Ok(RemoveEach(keys, StaleKeys(entries, known)))
  }

  /** The collected stale keys are exactly the stored keys that are stale. */
  lemma StaleKeysOfStoredList(keys: seq<string>, known: set<string>)
    requires ParseKeys(keys).Ok?
    ensures forall k :: k in StaleKeys(ParseKeys(keys).value, known) <==> k in keys && IsStale(k, known)
  {
    var entries := ParseKeys(keys).value;
    forall k
      ensures k in StaleKeys(entries, known) <==> k in keys && IsStale(k, known)
    {
      if k in StaleKeys(entries, known) {
        var i :| 0 <= i < |entries| && entries[i].event !in known && EncodeKey(entries[i].renderer, entries[i].event) == k;
        assert keys[i] == k;
      }
      if k in keys && IsStale(k, known) {
        var i :| 0 <= i < |keys| && keys[i] == k;
        assert entries[i] == ParseKey(k).value;
      }
    }
  }

  /** The set of collected stale keys, as the pass over the stored list takes it. */
  lemma StaleSetOfStoredList(keys: seq<string>, known: set<string>)
    requires ParseKeys(keys).Ok?
    ensures (set k | k in StaleKeys(ParseKeys(keys).value, known)) == set k | k in keys && IsStale(k, known)
  {
    StaleKeysOfStoredList(keys, known);
  }

  /**
   * Reconciliation keeps every live key, drops exactly one copy of each stale key
   * (so a duplicated stale key leaves one copy), and keeps the survivors in order.
   * It fails only when the stored list does not read back.
   */
  lemma ReconcileDropsOneCopyOfEachStaleKey(keys: seq<string>, known: set<string>)
    ensures Reconciled(keys, known).Ok? <==> ParseKeys(keys).Ok?
    ensures Reconciled(keys, known).Ok? ==>
      && IsSubsequence(Reconciled(keys, known).value, keys)
      && (forall k :: multiset(Reconciled(keys, known).value)[k]
                    == multiset(keys)[k] - (if k in keys && IsStale(k, known) then 1 else 0))
      && Reconciled(keys, known).value == DropFirstCopies(keys, set k | k in keys && IsStale(k, known))
  {
    if ParseKeys(keys).Ok? {
      var stale := StaleKeys(ParseKeys(keys).value, known);
      StaleKeysOfStoredList(keys, known);
      RemoveEachCounts(keys, stale);
      RemoveEachIsSubsequence(keys, stale);
      RemoveEachDropsFirstCopies(keys, stale);
      StaleSetOfStoredList(keys, known);
    }
  }

  /** A stale key stored twice is left once, as the reconciliation of a duplicated key shows. */
  lemma DuplicatedStaleKeyLeavesOneCopy()
    ensures Reconciled(["r1__e1", "r1__e1"], {}) == Ok(["r1__e1"])
  {
    ParseEncodedKey("r1", "e1");
    assert EncodeKey("r1", "e1") == "r1__e1";
    var entries := ParseKeys(["r1__e1", "r1__e1"]).value;
    assert entries == [Entry("r1", "e1"), Entry("r1", "e1")];
    assert StaleKeys(entries, {}) == ["r1__e1"];
  }
}
