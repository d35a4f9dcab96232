/** Seccomp plans and the filters installed from them. */
module Seccomp {
  import opened Answers
  import opened Bpf
  import opened Bytes

  const MAX_EXCEPTIONS: nat := 32

  function Status(errno: int): Result<()> {
    if errno == 0 then Ok(()) else Err(errno)
  }

  /** The calling process as the kernel sees it. failures lists which of its
      next calls fail, and with which errno; 0 stands for success. */
  class Process {
    const failures: seq<int>
    var calls: nat
    var filters: seq<Program>

    constructor (failures: seq<int>)
      ensures this.failures == failures && filters == [] && calls == 0
    {
      this.failures := failures;
      calls := 0;
      filters := [];
    }

    /** A call that changes nothing this model can see. */
    method Call() returns (errno: int)
      modifies this`calls
      ensures calls == old(calls) + 1 && errno == ErrnoAt(failures, old(calls))
    {
      errno := ErrnoAt(failures, calls);
      calls := calls + 1;
    }

    /** seccomp(SECCOMP_SET_MODE_FILTER). */
    method SetFilter(p: Program) returns (errno: int)
      modifies this
      ensures calls == old(calls) + 1 && errno == ErrnoAt(failures, old(calls))
      ensures filters == if errno == 0 then old(filters) + [p] else old(filters)
    {
      errno := Call();
      if errno == 0 {
        filters := filters + [p];
      }
    }
  }

  /** struct landlockd_seccomp_plan. */
  class Plan {
    const nrs: array<u32>
    var count: nat

    ghost predicate Valid()
      reads this
    {
      nrs.Length == MAX_EXCEPTIONS && count <= MAX_EXCEPTIONS
    }

    ghost function Contents(): (s: Numbers)
      requires Valid()
      reads this, nrs
      ensures |s| == count
    {
      nrs[..count]
    }

    /** landlockd_seccomp_plan_init. */
    constructor ()
      ensures Valid() && fresh(nrs) && Contents() == []
    {
      nrs := new u32[MAX_EXCEPTIONS](_ => 0);
      count := 0;
    }

    method Reset()
      requires Valid()
      modifies this, nrs
      ensures Valid() && Contents() == []
    {
      count := 0;
      for i := 0 to MAX_EXCEPTIONS
        invariant Valid() && count == 0
      {
        nrs[i] := 0;
      }
    }

    /** landlockd_seccomp_plan_add. */
    method Add(nr: int) returns (r: Result<()>)
      requires Valid() && nr < 0x8000_0000
      modifies this`count, nrs
      ensures Valid()
      ensures r == if nr < 0 then Err(EINVAL) else if old(count) >= MAX_EXCEPTIONS then Err(ENOSPC) else Ok(())
      ensures Contents() == if r.Ok? then old(Contents()) + [nr] else old(Contents())
    {
      if nr < 0 {
        return Err(EINVAL);
      }
      if count >= MAX_EXCEPTIONS {
        return Err(ENOSPC);
      }
      nrs[count] := nr;
      count := count + 1;
      return Ok(());
    }

    /** landlockd_seccomp_install: the listener descriptor is not modelled. */
    method Install(process: Process) returns (r: Result<()>)
      requires Valid()
      modifies process
      ensures Valid() && count == old(count) && Contents() == old(Contents())
      ensures count == 0 ==> r == Err(EINVAL) && process.calls == old(process.calls)
      ensures count > 0 ==> process.calls == old(process.calls) + 1
      ensures count > 0 ==> r == Status(ErrnoAt(process.failures, old(process.calls)))
      ensures process.filters == if r.Ok? then old(process.filters) + [NotifyProgram(Contents())] else old(process.filters)
    {
      if count <= 0 || count > MAX_EXCEPTIONS {
        return Err(EINVAL);
      }
      var filter := new Insn[MAX_EXCEPTIONS + 3](_ => Ret(0));
      filter[0] := Ld(0);
      var n := 1;
      for i := 0 to count
        invariant n == 1 + i && filter[0] == Ld(0)
        invariant process.filters == old(process.filters) && process.calls == old(process.calls)
        invariant forall k :: 0 <= k < i ==> filter[1 + k] == Jeq(nrs[k], count - k, 0)
      {
        filter[n] := Jeq(nrs[i], (count - i) % 256, 0);
        n := n + 1;
      }
      filter[n] := Ret(RET_ALLOW);
      n := n + 1;
      filter[n] := Ret(RET_USER_NOTIF);
      n := n + 1;
      NotifyParts(filter[..n], nrs[..count]);
      var errno := process.SetFilter(filter[..n]);
      return Status(errno);
    }

    /** landlockd_seccomp_install_denylist. */
    method InstallDenylist(e: u16, process: Process) returns (r: Result<()>)
      requires Valid()
      modifies process
      ensures Valid() && count == old(count) && Contents() == old(Contents())
      ensures count == 0 ==> r == Err(EINVAL) && process.calls == old(process.calls)
      ensures count > 0 ==> process.calls == old(process.calls) + 1
      ensures count > 0 ==> r == Status(ErrnoAt(process.failures, old(process.calls)))
      ensures process.filters == if r.Ok? then old(process.filters) + [DenyProgram(Contents(), e)] else old(process.filters)
    {
      if count <= 0 || count > MAX_EXCEPTIONS {
        return Err(EINVAL);
      }
      var filter := new Insn[MAX_EXCEPTIONS * 2 + 2](_ => Ret(0));
      filter[0] := Ld(0);
      var n := 1;
      for i := 0 to count
        invariant n == 1 + 2 * i && filter[0] == Ld(0)
        invariant process.filters == old(process.filters) && process.calls == old(process.calls)
        invariant forall k :: 0 <= k < i ==> filter[1 + 2 * k] == Jeq(nrs[k], 0, 1)
        invariant forall k :: 0 <= k < i ==> filter[2 + 2 * k] == Ret(RET_ERRNO + e)
      {
        filter[n] := Jeq(nrs[i], 0, 1);
        n := n + 1;
        filter[n] := Ret(RET_ERRNO + e);
        n := n + 1;
      }
      filter[n] := Ret(RET_ALLOW);
      n := n + 1;
      DenyParts(filter[..n], nrs[..count], e);
      var errno := process.SetFilter(filter[..n]);
      return Status(errno);
    }
  }
}
