/** Open descriptors as a table, and what it means that some were added. */
module Descriptors {
  import opened Bytes
  import opened PolicyIr

  /** What an open descriptor refers to. */
  datatype File = FsRuleset(handled: u64, fsRules: seq<FsRule>) | NetRuleset(allowed: u64, netRules: seq<NetRule>)
                | Path(path: Str) | Unrelated

  type Table = map<nat, File>

  /** table is start with the descriptors fds opened on top of it, one after the
      other, and they refer to files. HoldsMeans spells this out. */
  ghost predicate Holds(start: Table, table: Table, fds: seq<nat>, files: seq<File>)
    decreases |fds|
  {
    && |fds| == |files|
    && if fds == [] then table == start
       else
         var last := |fds| - 1;
         && fds[last] in table && table[fds[last]] == files[last]
         && Holds(start, table - {fds[last]}, fds[..last], files[..last])
  }

  /** Distinct new descriptors in that order, the old ones untouched, nothing
      else open. */
  lemma {:induction false} HoldsMeans(start: Table, table: Table, fds: seq<nat>, files: seq<File>)
    requires Holds(start, table, fds, files)
    ensures |fds| == |files|
    ensures forall i, j :: 0 <= i < j < |fds| ==> fds[i] != fds[j]
    ensures forall i :: 0 <= i < |fds| ==> fds[i] !in start && fds[i] in table && table[fds[i]] == files[i]
    ensures forall k :: k in start ==> k in table && table[k] == start[k]
    ensures forall k :: k in table ==> k in start || k in fds
    decreases |fds|
  {
    if fds != [] {
      var last := |fds| - 1;
      HoldsMeans(start, table - {fds[last]}, fds[..last], files[..last]);
      assert forall k :: k in fds <==> k == fds[last] || k in fds[..last];
    }
  }

  lemma {:induction false} HoldsOneMore(start: Table, table: Table, fds: seq<nat>, files: seq<File>, fd: nat, file: File)
    requires Holds(start, table, fds, files) && fd !in table
    ensures Holds(start, table[fd := file], fds + [fd], files + [file])
  {
    assert (fds + [fd])[..|fds|] == fds && (files + [file])[..|fds|] == files;
    assert table[fd := file] - {fd} == table;
  }

  lemma {:induction false} HoldsOneLess(start: Table, table: Table, fds: seq<nat>, files: seq<File>)
    requires Holds(start, table, fds, files) && fds != []
    ensures fds[0] in table && Holds(start, table - {fds[0]}, fds[1..], files[1..])
    decreases |fds|
  {
    var last := |fds| - 1;
    if last > 0 {
      HoldsOneLess(start, table - {fds[last]}, fds[..last], files[..last]);
      assert fds[1..][..last - 1] == fds[..last][1..] && files[1..][..last - 1] == files[..last][1..];
      assert table - {fds[0]} - {fds[last]} == table - {fds[last]} - {fds[0]};
    }
  }

  /** slots holds the open descriptors fds first, then -1. */
  predicate Slots(slots: seq<int>, fds: seq<nat>) {
    && |fds| <= |slots|
    && (forall i :: 0 <= i < |fds| ==> slots[i] == fds[i])
    && (forall i :: |fds| <= i < |slots| ==> slots[i] == -1)
  }

  lemma {:induction false} SlotFilled(slots: seq<int>, fds: seq<nat>, fd: nat)
    requires Slots(slots, fds) && |fds| < |slots|
    ensures Slots(slots[|fds| := fd], fds + [fd])
  {
    assert fds + [fd] == (fds + [fd])[..|fds|] + [fd];
  }
}
