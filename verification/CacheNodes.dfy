/** The linked list of cache entries. */
module CacheNodes {
  import opened Bytes
  import opened Cache
  import opened PolicyIr

  /** struct landlockd_daemon_cache_entry. */
  class Entry {
    var policyFile: Option<Str>
    var stamp: Stamp
    var ir: Ir
    var next: Entry?

    constructor (slot: Slot, next: Entry?)
      ensures Contents() == slot && this.next == next
    {
      policyFile, stamp, ir, this.next := slot.name, slot.stamp, slot.ir, next;
    }

    function Contents(): Slot
      reads this
    {
      Slot(policyFile, stamp, ir)
    }

    method Set(slot: Slot)
      modifies this
      ensures Contents() == slot && next == old(next)
    {
      policyFile, stamp, ir := slot.name, slot.stamp, slot.ir;
    }
  }

  /** The entry after position i. */
  function NextOf(spine: seq<Entry>, i: nat): Entry? {
    if i + 1 < |spine| then spine[i + 1] else null
  }

  /** Position i of the list holds slot i and leads to position i + 1. */
  ghost predicate NodeAt(spine: seq<Entry>, slots: seq<Slot>, i: nat)
    reads spine
  {
    i < |spine| == |slots| ==> spine[i].Contents() == slots[i] && spine[i].next == NextOf(spine, i)
  }

  predicate DifferAt(spine: seq<Entry>, i: nat, j: nat) {
    i < j < |spine| ==> spine[i] != spine[j]
  }

  /** The entries reachable from head are spine, without repetition, and hold slots. */
  ghost predicate Linked(head: Entry?, spine: seq<Entry>, slots: seq<Slot>)
    reads spine
  {
    && |spine| == |slots|
    && head == (if spine == [] then null else spine[0])
    && (forall i: nat, j: nat {:trigger DifferAt(spine, i, j)} :: DifferAt(spine, i, j))
    && (forall i: nat {:trigger NodeAt(spine, slots, i)} :: NodeAt(spine, slots, i))
  }
}
