/** The classic BPF subset that the filters use, and what the two filter
    layouts compute. */
module Bpf {
  import opened Bytes

  const RET_ERRNO: u32 := 0x0005_0000
  const RET_USER_NOTIF: u32 := 0x7fc0_0000
  const RET_ALLOW: u32 := 0x7fff_0000

  /** struct sock_filter: load a word of seccomp_data, jump if equal, return. */
  datatype Insn = Ld(offset: u32) | Jeq(k: u32, jt: nat, jf: nat) | Ret(k: u32)

  type Program = seq<Insn>

  /** The value that the program returns for a system call, from instruction pc
      with accumulator a; None if control leaves the program. The number of the
      call is the word at offset 0 of seccomp_data. */
  function Run(p: Program, pc: nat, a: u32, nr: u32): Option<u32>
    decreases |p| - pc
  {
    if pc >= |p| then None
    else
      match p[pc]
      case Ld(offset) => if offset == 0 then Run(p, pc + 1, nr, nr) else None
      case Jeq(k, jt, jf) => Run(p, pc + 1 + (if a == k then jt else jf), a, nr)
      case Ret(k) => Some(k)
  }

  /** Both targets of every jump are instructions, and both offsets fit a byte. */
  predicate JumpsLand(p: Program) {
    forall pc :: 0 <= pc < |p| && p[pc].Jeq? ==>
      pc + 1 + p[pc].jt < |p| && pc + 1 + p[pc].jf < |p| && p[pc].jt < 256 && p[pc].jf < 256
  }

  type Numbers = s: seq<u32> | |s| <= 32

  /** One test per number, all jumping to the last instruction. */
  function NotifyProgram(nrs: Numbers): Program {
    [Ld(0)] + seq(|nrs|, i requires 0 <= i < |nrs| => Jeq(nrs[i], |nrs| - i, 0)) + [Ret(RET_ALLOW), Ret(RET_USER_NOTIF)]
  }

  /** One test per number, each followed by its own return. */
  function DenyProgram(nrs: Numbers, e: u16): Program {
    [Ld(0)]
    + seq(2 * |nrs|, i requires 0 <= i < 2 * |nrs| => if i % 2 == 0 then Jeq(nrs[i / 2], 0, 1) else Ret(RET_ERRNO + e))
    + [Ret(RET_ALLOW)]
  }

  lemma {:induction false} NotifyParts(p: Program, nrs: Numbers)
    requires |p| == |nrs| + 3 && p[0] == Ld(0)
    requires forall k :: 0 <= k < |nrs| ==> p[1 + k] == Jeq(nrs[k], |nrs| - k, 0)
    requires p[|nrs| + 1] == Ret(RET_ALLOW) && p[|nrs| + 2] == Ret(RET_USER_NOTIF)
    ensures p == NotifyProgram(nrs)
  {
    forall j | 0 <= j < |p| ensures p[j] == NotifyProgram(nrs)[j] {
      if 1 <= j <= |nrs| {
        assert p[1 + (j - 1)] == Jeq(nrs[j - 1], |nrs| - (j - 1), 0);
      }
    }
  }

  lemma {:induction false} DenyParts(p: Program, nrs: Numbers, e: u16)
    requires |p| == 2 * |nrs| + 2 && p[0] == Ld(0) && p[2 * |nrs| + 1] == Ret(RET_ALLOW)
    requires forall k :: 0 <= k < |nrs| ==> p[1 + 2 * k] == Jeq(nrs[k], 0, 1)
    requires forall k :: 0 <= k < |nrs| ==> p[2 + 2 * k] == Ret(RET_ERRNO + e)
    ensures p == DenyProgram(nrs, e)
  {
    forall j | 0 <= j < |p| ensures p[j] == DenyProgram(nrs, e)[j] {
      if 1 <= j <= 2 * |nrs| {
        var k := (j - 1) / 2;
        assert j == 1 + 2 * k || j == 2 + 2 * k;
      }
    }
  }

  lemma {:induction false} NotifyFrom(nrs: Numbers, i: nat, nr: u32)
    requires i <= |nrs|
    ensures Run(NotifyProgram(nrs), 1 + i, nr, nr) == Some(if nr in nrs[i..] then RET_USER_NOTIF else RET_ALLOW)
    decreases |nrs| - i
  {
    var p := NotifyProgram(nrs);
    if i < |nrs| {
      assert p[1 + i] == Jeq(nrs[i], |nrs| - i, 0);
      assert nrs[i..] == [nrs[i]] + nrs[i + 1..];
      assert p[|nrs| + 2] == Ret(RET_USER_NOTIF);
      NotifyFrom(nrs, i + 1, nr);
    } else {
      assert p[1 + i] == Ret(RET_ALLOW);
    }
  }

  /** The notify filter asks the broker about exactly the planned calls. */
  lemma {:induction false} NotifyCorrect(nrs: Numbers, nr: u32)
    ensures Run(NotifyProgram(nrs), 0, 0, nr) == Some(if nr in nrs then RET_USER_NOTIF else RET_ALLOW)
    ensures JumpsLand(NotifyProgram(nrs))
  {
    var p := NotifyProgram(nrs);
    assert p[0] == Ld(0);
    NotifyFrom(nrs, 0, nr);
    assert nrs[0..] == nrs;
    forall pc | 0 <= pc < |p| && p[pc].Jeq?
      ensures pc + 1 + p[pc].jt < |p| && pc + 1 + p[pc].jf < |p| && p[pc].jt < 256 && p[pc].jf < 256
    {
      assert 1 <= pc <= |nrs|;
    }
  }

  lemma {:induction false} DenyFrom(nrs: Numbers, e: u16, i: nat, nr: u32)
    requires i <= |nrs|
    ensures Run(DenyProgram(nrs, e), 1 + 2 * i, nr, nr) == Some(if nr in nrs[i..] then RET_ERRNO + e else RET_ALLOW)
    decreases |nrs| - i
  {
    var p := DenyProgram(nrs, e);
    if i < |nrs| {
      assert (2 * i) % 2 == 0 && (2 * i) / 2 == i && (2 * i + 1) % 2 == 1;
      assert p[1 + 2 * i] == Jeq(nrs[i], 0, 1) && p[2 + 2 * i] == Ret(RET_ERRNO + e);
      assert nrs[i..] == [nrs[i]] + nrs[i + 1..];
      DenyFrom(nrs, e, i + 1, nr);
    } else {
      assert p[1 + 2 * i] == Ret(RET_ALLOW);
    }
  }

  /** The deny filter fails exactly the planned calls, with the given errno. */
  lemma {:induction false} DenyCorrect(nrs: Numbers, e: u16, nr: u32)
    ensures Run(DenyProgram(nrs, e), 0, 0, nr) == Some(if nr in nrs then RET_ERRNO + e else RET_ALLOW)
    ensures JumpsLand(DenyProgram(nrs, e))
  {
    var p := DenyProgram(nrs, e);
    assert p[0] == Ld(0);
    DenyFrom(nrs, e, 0, nr);
    assert nrs[0..] == nrs;
  }

  // ----- several filters on one process

  /** The action part of a return value as a signed 32-bit number: the lower,
      the stronger. */
  function Rank(ret: u32): int {
    var action := ret - ret % 0x1_0000;
    if action >= 0x8000_0000 then action - 0x1_0000_0000 else action
  }

  /** The kernel runs every filter, the newest first, and keeps the strongest
      action, the first one seen among equals. */
  function Decide(filters: seq<Program>, nr: u32): Option<u32> {
    if filters == [] then Some(RET_ALLOW)
    else
      var newest :- Run(filters[|filters| - 1], 0, 0, nr);
      var older :- Decide(filters[..|filters| - 1], nr);
      Some(if Rank(older) < Rank(newest) then older else newest)
  }

  /** The two filters together: ERRNO for denied calls, then USER_NOTIF. */
  lemma {:induction false} TwoFilters(deny: Numbers, e: u16, notify: Numbers, nr: u32)
    ensures Decide([DenyProgram(deny, e), NotifyProgram(notify)], nr)
         == Some(if nr in deny then RET_ERRNO + e else if nr in notify then RET_USER_NOTIF else RET_ALLOW)
  {
    DenyCorrect(deny, e, nr);
    NotifyCorrect(notify, nr);
    var filters := [DenyProgram(deny, e), NotifyProgram(notify)];
    assert filters[..1] == [DenyProgram(deny, e)];
    OneFilter(DenyProgram(deny, e), nr);
  }

  lemma {:induction false} OneFilter(p: Program, nr: u32)
    requires Run(p, 0, 0, nr).Some? && Rank(Run(p, 0, 0, nr).value) <= Rank(RET_ALLOW)
    ensures Decide([p], nr) == Run(p, 0, 0, nr)
  {
    assert [p][..0] == [];
  }
}
