/** Calls that fail as a list of errnos says, and numbers not in use. */
module Answers {
  const ENOMEM: int := 12

  /** What the n-th call answers: an errno, or 0 for success. */
  function ErrnoAt(failures: seq<int>, n: nat): int {
    if n < |failures| then failures[n] else 0
  }

  /** What the latest of the given number of calls answered. */
  function LastErrno(failures: seq<int>, calls: nat): int {
    if calls == 0 then 0 else ErrnoAt(failures, calls - 1)
  }

  /** No call from number from up to number to failed. */
  predicate Quiet(failures: seq<int>, from: nat, to: nat) {
    forall n {:trigger ErrnoAt(failures, n)} :: from <= n < to ==> ErrnoAt(failures, n) == 0
  }

  /** The calls in between, and whether none of them failed. */
  predicate Ran(failures: seq<int>, from: nat, to: nat, ok: bool) {
    from <= to && (ok <==> Quiet(failures, from, to))
  }

  lemma {:induction false} RanNone(failures: seq<int>, from: nat)
    ensures Ran(failures, from, from, true)
  {
  }

  lemma {:induction false} RanOne(failures: seq<int>, from: nat)
    ensures Ran(failures, from, from + 1, ErrnoAt(failures, from) == 0)
  {
  }

  /** More calls after calls that went well. */
  lemma {:induction false} RanThen(failures: seq<int>, from: nat, mid: nat, to: nat, ok: bool)
    requires Ran(failures, from, mid, true) && Ran(failures, mid, to, ok)
    ensures Ran(failures, from, to, ok)
  {
  }

  /** Some number is above all that are in use. */
  lemma {:induction false} Unused(used: set<nat>) returns (n: nat)
    ensures n !in used && forall k :: k in used ==> k < n
  {
    if used == {} {
      n := 0;
    } else {
      var k :| k in used;
      var rest := Unused(used - {k});
      n := if rest > k then rest else k + 1;
      assert forall j :: j in used ==> j == k || j in used - {k};
    }
  }
}
