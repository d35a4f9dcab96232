/** The cache as the daemon keeps it: refreshed and extended in place. */
module CacheList {
  import opened Bytes
  import opened Cache
  import opened CacheHistory
  import opened CacheNodes
  import opened PolicyIr

  /** One more request, and what it adds to the counters. */
  lemma {:induction false} Counted(load: Load, requests: seq<Request>, r: Request, result: Option<Ir>)
    requires result == Get(load, SlotsAfter(load, requests), r.path, r.stat, r.memory).result
    ensures var o, run := Get(load, SlotsAfter(load, requests), r.path, r.stat, r.memory), requests + [r];
      && SlotsAfter(load, run) == o.slots
      && (o.hit <==> IsHit(load, requests, r)) && (o.result.Some? && !o.hit <==> IsLoad(load, requests, r))
      && HitCount(load, run) == HitCount(load, requests) + (if o.hit then 1 else 0)
      && LoadCount(load, run) == LoadCount(load, requests) + (if o.result.Some? && !o.hit then 1 else 0)
    ensures result.Some? ==> r.stat.Some? && result == load(r.path, r.stat.value)
  {
    var run := requests + [r];
    assert run[..|requests|] == requests && run[|requests|] == r;
    RunNext(load, requests, r);
    AnswersFromRequests(load, run, |requests|);
  }

  /** struct landlockd_daemon_state. */
  class State {
    const load: Load
    var head: Entry?
    var entries: nat
    var hits: nat
    var misses: nat
    ghost var spine: seq<Entry>
    ghost var slots: seq<Slot>
    ghost var requests: seq<Request>

    ghost predicate Valid()
      reads this, spine
    {
      && Linked(head, spine, slots) && entries == |slots| && slots == SlotsAfter(load, requests)
      && hits == HitCount(load, requests) && misses == LoadCount(load, requests)
    }

    constructor (load: Load)
      ensures Valid() && this.load == load && requests == [] && slots == [] && spine == [] && hits == 0 && misses == 0
    {
      this.load := load;
      head, entries, hits, misses := null, 0, 0, 0;
      spine, slots, requests := [], [], [];
    }

    /** The search of landlockd_daemon_cache_get_policy. */
    method FindEntry(path: Str) returns (entry: Entry?, ghost at: nat)
      requires Linked(head, spine, slots)
      ensures at == Find(slots, path)
      ensures entry == if at < |spine| then spine[at] else null
    {
      entry, at := head, 0;
      assert slots[0..] == slots;
      while entry != null
        invariant at <= |spine| && entry == if at < |spine| then spine[at] else null
        invariant Find(slots, path) == at + Find(slots[at..], path)
        decreases |spine| - at
      {
        assert slots[at..][1..] == slots[at + 1..];
        assert NodeAt(spine, slots, at);
        if entry.policyFile == Some(path) {
          return;
        }
        entry, at := entry.next, at + 1;
      }
    }

    /** The walk of landlockd_daemon_cache_evict_tail to the last two entries. */
    method Tail() returns (prev: Entry?, entry: Entry)
      requires Linked(head, spine, slots) && spine != []
      ensures entry == spine[|spine| - 1]
      ensures prev == if |spine| == 1 then null else spine[|spine| - 2]
    {
      prev, entry := null, head;
      ghost var at := 0;
      assert NodeAt(spine, slots, 0);
      while entry.next != null
        invariant at < |spine| && entry == spine[at] && NodeAt(spine, slots, at)
        invariant prev == if at == 0 then null else spine[at - 1]
        decreases |spine| - at
      {
        assert NodeAt(spine, slots, at + 1);
        prev, entry := entry, entry.next;
        at := at + 1;
      }
    }

    /** landlockd_daemon_cache_evict_tail. With MAX_ENTRIES entries there is
        always one before the last. */
    method EvictTail()
      requires Linked(head, spine, slots) && entries == |slots|
      modifies this`entries, this`spine, this`slots, spine
      ensures Linked(head, spine, slots) && entries == |slots|
      ensures slots == Evicted(old(slots)) && spine <= old(spine)
    {
      if entries < MAX_ENTRIES {
        return;
      }
      var prev, entry := Tail();
      ghost var nodes, before := spine, slots;
      ghost var n := |spine| - 1;
      assert prev == nodes[n - 1];
      prev.next := null;
      entries := entries - 1;
      spine, slots := nodes[..n], before[..n];
      forall i: nat ensures NodeAt(spine, slots, i) {
        if i < n {
          assert DifferAt(nodes, i, n - 1);
          assert old(NodeAt(nodes, before, i));
        }
      }
      forall i: nat, j: nat ensures DifferAt(spine, i, j) {
        assert DifferAt(nodes, i, j);
      }
    }

    /** The stale branch of landlockd_daemon_cache_get_policy: refresh in place. */
    method Refresh(entry: Entry, ghost at: nat, path: Str, stamp: Stamp, memory: Memory) returns (r: Option<Ir>)
      requires Linked(head, spine, slots) && at < |spine| && entry == spine[at]
      modifies entry, this`slots
      ensures Linked(head, spine, slots)
      ensures var slot := LoadEntry(load, path, stamp, memory);
        slots == old(slots)[at := if slot.Some? then slot.value else EMPTY_SLOT]
        && r == if slot.Some? then Some(slot.value.ir) else None
    {
      var slot := LoadEntry(load, path, stamp, memory);
      var contents := if slot.Some? then slot.value else EMPTY_SLOT;
      entry.Set(contents);
      slots := slots[at := contents];
      forall i: nat ensures NodeAt(spine, slots, i) {
        assert old(NodeAt(spine, slots, i));
        assert DifferAt(spine, i, at) && DifferAt(spine, at, i);
      }
      r := if slot.Some? then Some(slot.value.ir) else None;
    }

    /** A new entry at the head of the list. */
    method Push(slot: Slot)
      requires Linked(head, spine, slots) && entries == |slots|
      modifies this`head, this`entries, this`spine, this`slots
      ensures Linked(head, spine, slots) && entries == |slots|
      ensures slots == [slot] + old(slots)
      ensures spine != [] && fresh(spine[0]) && spine[1..] == old(spine)
    {
      var entry := new Entry(slot, head);
      ghost var nodes, before := spine, slots;
      head := entry;
      entries := entries + 1;
      spine, slots := [entry] + nodes, [slot] + before;
      forall i: nat ensures NodeAt(spine, slots, i) {
        if 0 < i < |spine| {
          assert old(NodeAt(nodes, before, i - 1));
          assert spine[i] == nodes[i - 1] && NextOf(spine, i) == NextOf(nodes, i - 1);
        }
      }
      forall i: nat, j: nat ensures DifferAt(spine, i, j) {
        if 0 < i < j {
          assert DifferAt(nodes, i - 1, j - 1);
        }
      }
    }

    /** landlockd_daemon_cache_get_policy. The counters of the status reply are the
        hits and the loads of all requests so far. */
    method GetPolicy(path: Str, stat: Option<Stamp>, memory: Memory) returns (r: Option<Ir>)
      requires Valid()
      modifies this, spine
      ensures Valid() && forall e :: e in spine ==> e in old(spine) || fresh(e)
      ensures requests == old(requests) + [Request(path, stat, memory)]
      ensures r == Get(load, old(slots), path, stat, memory).result
      ensures var hit, loaded := IsHit(load, old(requests), Request(path, stat, memory)),
                                 IsLoad(load, old(requests), Request(path, stat, memory));
        && (r.Some? <==> hit || loaded) && (r.Some? ==> stat.Some? && r == load(path, stat.value))
        && hits == old(hits) + (if hit then 1 else 0) && misses == old(misses) + (if loaded then 1 else 0)
    {
      r := Search(path, stat, memory);
      Counted(load, requests, Request(path, stat, memory), r);
      requests := requests + [Request(path, stat, memory)];
    }

    /** The lookup without the ghost record of requests. */
    method Search(path: Str, stat: Option<Stamp>, memory: Memory) returns (r: Option<Ir>)
      requires Linked(head, spine, slots) && entries == |slots|
      modifies this`head, this`entries, this`hits, this`misses, this`spine, this`slots, spine
      ensures Linked(head, spine, slots) && entries == |slots|
      ensures forall e :: e in spine ==> e in old(spine) || fresh(e)
      ensures var o := Get(load, old(slots), path, stat, memory);
        && r == o.result && slots == o.slots && hits == old(hits) + (if o.hit then 1 else 0)
        && misses == old(misses) + (if o.result.Some? && !o.hit then 1 else 0)
    {
      if stat.None? {
        return None;
      }
      var entry, at := FindEntry(path);
      if entry != null {
        assert NodeAt(spine, slots, at);
        if entry.stamp == stat.value {
          hits := hits + 1;
          return Some(entry.ir);
        }
        r := Refresh(entry, at, path, stat.value, memory);
      } else {
        r := Insert(path, stat.value, memory);
      }
      if r.Some? {
        misses := misses + 1;
      }
    }

    /** The path was not found: make room, load, and put the entry first. */
    method Insert(path: Str, stamp: Stamp, memory: Memory) returns (r: Option<Ir>)
      requires Linked(head, spine, slots) && entries == |slots|
      modifies this`head, this`entries, this`spine, this`slots, spine
      ensures Linked(head, spine, slots) && entries == |slots|
      ensures forall e :: e in spine ==> e in old(spine) || fresh(e)
      ensures var slot := LoadEntry(load, path, stamp, memory);
        if memory.calloc && slot.Some? then r == Some(slot.value.ir) && slots == [slot.value] + Evicted(old(slots))
        else r == None && slots == Evicted(old(slots))
    {
      EvictTail();
      if !memory.calloc {
        return None;
      }
      var slot := LoadEntry(load, path, stamp, memory);
      if slot.None? {
        return None;
      }
      ghost var kept := spine;
      Push(slot.value);
      assert spine == [spine[0]] + kept;
      r := Some(slot.value.ir);
    }
  }
}
