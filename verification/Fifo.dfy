/** Per-key queues seen through a history of additions and removals. A table
    whose lookups return the first match and whose additions go to the end is
    such a queue for every key, even when keys repeat. */
module Fifo {

  datatype Op<+T> = Add(key: int, item: T) | Take(key: int, item: T) | Skip

  function Added<T>(ops: seq<Op<T>>, key: int): seq<T> {
    if ops == [] then []
    else
      var last := ops[|ops| - 1];
      Added(ops[..|ops| - 1], key) + if last.Add? && last.key == key then [last.item] else []
  }

  function Taken<T>(ops: seq<Op<T>>, key: int): seq<T> {
    if ops == [] then []
    else
      var last := ops[|ops| - 1];
      Taken(ops[..|ops| - 1], key) + if last.Take? && last.key == key then [last.item] else []
  }

  /** What has been added for the key and not yet taken, oldest first. */
  ghost function Pending<T>(ops: seq<Op<T>>, key: int): seq<T> {
    if |Taken(ops, key)| <= |Added(ops, key)| then Added(ops, key)[|Taken(ops, key)|..] else []
  }

  /** The removal at index i takes the oldest pending item for its key. */
  ghost predicate TakesOldest<T>(ops: seq<Op<T>>, i: nat)
    requires i < |ops|
  {
    ops[i].Take? ==>
      var p := Pending(ops[..i], ops[i].key);
      p != [] && p[0] == ops[i].item
  }

  ghost predicate Lawful<T>(ops: seq<Op<T>>) {
    forall i :: 0 <= i < |ops| ==> TakesOldest(ops, i)
  }

  lemma {:induction false} LawfulPrefix<T>(ops: seq<Op<T>>, n: nat)
    requires Lawful(ops) && n <= |ops|
    ensures Lawful(ops[..n])
  {
    forall i | 0 <= i < n ensures TakesOldest(ops[..n], i) {
      assert TakesOldest(ops, i);
      assert ops[..n][..i] == ops[..i];
    }
  }

  /** Conservation: what was added is what was taken, in order, followed by
      what is still pending. */
  lemma {:induction false} Conservation<T>(ops: seq<Op<T>>, key: int)
    requires Lawful(ops)
    ensures Added(ops, key) == Taken(ops, key) + Pending(ops, key)
  {
    if ops != [] {
      var n := |ops| - 1;
      LawfulPrefix(ops, n);
      Conservation(ops[..n], key);
      assert TakesOldest(ops, n);
      ConservationStep(ops[..n], ops[n], key);
      assert ops == ops[..n] + [ops[n]];
    }
  }

  lemma {:induction false} CountsSnoc<T>(ops: seq<Op<T>>, e: Op<T>, key: int)
    ensures Added(ops + [e], key) == Added(ops, key) + if e.Add? && e.key == key then [e.item] else []
    ensures Taken(ops + [e], key) == Taken(ops, key) + if e.Take? && e.key == key then [e.item] else []
  {
    assert (ops + [e])[..|ops|] == ops;
  }

  lemma {:induction false} ConservationStep<T>(ops: seq<Op<T>>, e: Op<T>, key: int)
    requires Added(ops, key) == Taken(ops, key) + Pending(ops, key)
    requires e.Take? && e.key == key ==> Pending(ops, key) != [] && Pending(ops, key)[0] == e.item
    ensures Added(ops + [e], key) == Taken(ops + [e], key) + Pending(ops + [e], key)
    ensures Pending(ops + [e], key)
         == if e.Skip? || e.key != key then Pending(ops, key)
            else if e.Add? then Pending(ops, key) + [e.item]
            else Pending(ops, key)[1..]
  {
    CountsSnoc(ops, e, key);
  }

  lemma {:induction false} PendingSnoc<T>(ops: seq<Op<T>>, e: Op<T>, key: int)
    requires Lawful(ops) && Lawful(ops + [e])
    ensures e.Take? ==> Pending(ops, e.key) != [] && Pending(ops, e.key)[0] == e.item
    ensures Pending(ops + [e], key)
         == if e.Skip? || e.key != key then Pending(ops, key)
            else if e.Add? then Pending(ops, key) + [e.item]
            else Pending(ops, key)[1..]
  {
    assert (ops + [e])[..|ops|] == ops;
    assert TakesOldest(ops + [e], |ops|);
    Conservation(ops, key);
    ConservationStep(ops, e, key);
  }

  // ----- every removal has its own addition

  lemma {:induction false} CountsStep<T>(ops: seq<Op<T>>, i: nat, key: int)
    requires i < |ops|
    ensures Added(ops[..i + 1], key) == Added(ops[..i], key) + if ops[i].Add? && ops[i].key == key then [ops[i].item] else []
    ensures Taken(ops[..i + 1], key) == Taken(ops[..i], key) + if ops[i].Take? && ops[i].key == key then [ops[i].item] else []
  {
    assert ops[..i + 1] == ops[..i] + [ops[i]];
    CountsSnoc(ops[..i], ops[i], key);
  }

  lemma {:induction false} CountsGrow<T>(ops: seq<Op<T>>, i: nat, j: nat, key: int)
    requires i <= j <= |ops|
    ensures |Added(ops[..i], key)| <= |Added(ops[..j], key)|
    ensures |Taken(ops[..i], key)| <= |Taken(ops[..j], key)|
    decreases j
  {
    if i < j {
      CountsGrow(ops, i, j - 1, key);
      CountsStep(ops, j - 1, key);
    }
  }

  /** Index i holds the n-th addition for the key. */
  ghost predicate IsAddition<T>(ops: seq<Op<T>>, key: int, n: nat, i: nat) {
    i < |ops| && n < |Added(ops, key)| && ops[i] == Add(key, Added(ops, key)[n]) && |Added(ops[..i], key)| == n
  }

  lemma {:induction false} AdditionExists<T>(ops: seq<Op<T>>, key: int, n: nat) returns (i: nat)
    requires n < |Added(ops, key)|
    ensures IsAddition(ops, key, n, i)
  {
    var last := |ops| - 1;
    if n < |Added(ops[..last], key)| {
      i := AdditionExists(ops[..last], key, n);
      assert ops[..last][..i] == ops[..i];
    } else {
      i := last;
    }
  }

  /** The addition whose item the removal at index t takes. */
  ghost function Source<T>(ops: seq<Op<T>>, t: nat): (i: nat)
    requires Lawful(ops) && t < |ops| && ops[t].Take?
    ensures i < t && ops[i] == Add(ops[t].key, ops[t].item)
    ensures |Added(ops[..i], ops[t].key)| == |Taken(ops[..t], ops[t].key)|
  {
    SourceExists(ops, t);
    var i: nat :| i < t && ops[i] == Add(ops[t].key, ops[t].item)
      && |Added(ops[..i], ops[t].key)| == |Taken(ops[..t], ops[t].key)|;
    i
  }

  lemma {:induction false} SourceExists<T>(ops: seq<Op<T>>, t: nat)
    requires Lawful(ops) && t < |ops| && ops[t].Take?
    ensures exists i: nat :: (i < t && ops[i] == Add(ops[t].key, ops[t].item)
                              && |Added(ops[..i], ops[t].key)| == |Taken(ops[..t], ops[t].key)|)
  {
    var key := ops[t].key;
    assert TakesOldest(ops, t);
    LawfulPrefix(ops, t);
    Conservation(ops[..t], key);
    var i := AdditionExists(ops[..t], key, |Taken(ops[..t], key)|);
    assert ops[..t][..i] == ops[..i];
  }

  /** No addition is taken twice. */
  lemma {:induction false} SourcesDiffer<T>(ops: seq<Op<T>>, t: nat, u: nat)
    requires Lawful(ops) && t < u < |ops| && ops[t].Take? && ops[u].Take?
    ensures Source(ops, t) != Source(ops, u)
  {
    if ops[t].key == ops[u].key {
      CountsStep(ops, t, ops[t].key);
      CountsGrow(ops, t + 1, u, ops[t].key);
    }
  }

  /** The n-th addition comes before any point where more than n were added. */
  lemma {:induction false} AddIndexBefore<T>(ops: seq<Op<T>>, i: nat, c: nat, key: int)
    requires i < |ops| && c <= |ops|
    requires |Added(ops[..i], key)| < |Added(ops[..c], key)|
    ensures i < c
  {
    if c <= i {
      CountsGrow(ops, c, i, key);
    }
  }

  /** An item added to an empty queue stays pending until the removal that
      takes it, and nothing else is removed for its key in between. */
  lemma {:induction false} StaysPending<T>(ops: seq<Op<T>>, j: nat, t: nat)
    requires Lawful(ops) && t < |ops| && ops[t].Take?
    requires Pending(ops[..Source(ops, t)], ops[t].key) == []
    requires Source(ops, t) < j < t
    ensures Pending(ops[..j], ops[t].key) != []
    ensures !(ops[j].Take? && ops[j].key == ops[t].key)
  {
    var c, key := Source(ops, t), ops[t].key;
    NothingPending(ops, c, key);
    CountsStep(ops, c, key);
    CountsGrow(ops, c + 1, j, key);
    CountsStep(ops, j, key);
    CountsGrow(ops, j + 1, t, key);
  }

  lemma {:induction false} NothingPending<T>(ops: seq<Op<T>>, c: nat, key: int)
    requires Lawful(ops) && c <= |ops| && Pending(ops[..c], key) == []
    ensures |Added(ops[..c], key)| == |Taken(ops[..c], key)|
  {
    LawfulPrefix(ops, c);
    Conservation(ops[..c], key);
  }

  // ----- tables searched from the front

  /** The entries of a table for one key, in table order. */
  function ForKey<T>(table: seq<(int, T)>, key: int): seq<T> {
    if table == [] then []
    else
      var last := table[|table| - 1];
      ForKey(table[..|table| - 1], key) + if last.0 == key then [last.1] else []
  }

  lemma {:induction false} ForKeyConcat<T>(a: seq<(int, T)>, b: seq<(int, T)>, key: int)
    ensures ForKey(a + b, key) == ForKey(a, key) + ForKey(b, key)
  {
    if b == [] {
      assert a + b == a;
    } else {
      assert (a + b)[..|a + b| - 1] == a + b[..|b| - 1];
      ForKeyConcat(a, b[..|b| - 1], key);
    }
  }

  lemma {:induction false} ForKeyOfOne<T>(entry: (int, T), key: int)
    ensures ForKey([entry], key) == if entry.0 == key then [entry.1] else []
  {
    assert [entry][..0] == [];
  }

  ghost predicate FirstFor<T>(table: seq<(int, T)>, i: nat) {
    i < |table| && forall j :: 0 <= j < i ==> table[j].0 != table[i].0
  }

  lemma {:induction false} NoneForKey<T>(table: seq<(int, T)>, key: int)
    requires forall j :: 0 <= j < |table| ==> table[j].0 != key
    ensures ForKey(table, key) == []
  {
    if table != [] {
      NoneForKey(table[..|table| - 1], key);
    }
  }

  lemma {:induction false} SplitAt<T>(table: seq<(int, T)>, i: nat, key: int)
    requires i < |table|
    ensures ForKey(table, key) == ForKey(table[..i], key)
      + (if table[i].0 == key then [table[i].1] else []) + ForKey(table[i + 1..], key)
  {
    assert table == table[..i] + ([table[i]] + table[i + 1..]);
    ForKeyConcat(table[..i], [table[i]] + table[i + 1..], key);
    ForKeyConcat([table[i]], table[i + 1..], key);
    ForKeyOfOne(table[i], key);
  }

  /** Removing the first match removes the head of that key's queue only. */
  lemma {:induction false} RemoveFirst<T>(table: seq<(int, T)>, i: nat, key: int)
    requires FirstFor(table, i)
    ensures var q := ForKey(table, table[i].0);
      q != [] && q[0] == table[i].1
    ensures ForKey(table[..i] + table[i + 1..], key)
         == if key == table[i].0 then ForKey(table, key)[1..] else ForKey(table, key)
  {
    SplitAt(table, i, key);
    SplitAt(table, i, table[i].0);
    NoneForKey(table[..i], table[i].0);
    ForKeyConcat(table[..i], table[i + 1..], key);
  }

  /** Replacing the first match replaces the head of that key's queue only. */
  lemma {:induction false} ReplaceFirst<T>(table: seq<(int, T)>, i: nat, item: T, key: int)
    requires FirstFor(table, i)
    ensures var q := ForKey(table, table[i].0);
      q != [] && q[0] == table[i].1
    ensures ForKey(table[i := (table[i].0, item)], key)
         == if key == table[i].0 then [item] + ForKey(table, key)[1..] else ForKey(table, key)
  {
    var changed := table[i := (table[i].0, item)];
    SplitAt(table, i, key);
    SplitAt(table, i, table[i].0);
    NoneForKey(table[..i], table[i].0);
    SplitAt(changed, i, key);
    assert changed[..i] == table[..i] && changed[i + 1..] == table[i + 1..];
  }

  lemma {:induction false} AppendEntry<T>(table: seq<(int, T)>, entry: (int, T), key: int)
    ensures ForKey(table + [entry], key)
         == ForKey(table, key) + if entry.0 == key then [entry.1] else []
  {
    ForKeyConcat(table, [entry], key);
    ForKeyOfOne(entry, key);
  }
}
