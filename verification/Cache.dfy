/** The daemon's policy cache: what a lookup does to the list of entries, and
    what holds in every run. */
module Cache {
  import opened Bytes
  import opened PolicyIr

  const MAX_ENTRIES: nat := 16

  /** The fields of stat(2) that the cache compares: device, inode, size, mtime. */
  datatype Stamp = Stamp(dev: int, ino: int, size: int, seconds: int, nanoseconds: int)

  const NO_STAMP: Stamp := Stamp(0, 0, 0, 0, 0)

  /** What landlockd_policy_load_file makes of a file with a given stamp. */
  type Load = (Str, Stamp) -> Option<Ir>

  /** The contents of one entry; an entry whose refresh failed has no name. */
  datatype Slot = Slot(name: Option<Str>, stamp: Stamp, ir: Ir)

  const EMPTY_SLOT: Slot := Slot(None, NO_STAMP, EMPTY)

  /** Whether calloc of an entry and strdup of its name succeed. */
  datatype Memory = Memory(calloc: bool, strdup: bool)

  // ----- one lookup as a function

  function Find(slots: seq<Slot>, path: Str): (i: nat)
    ensures i <= |slots|
  {
    if slots == [] || slots[0].name == Some(path) then 0 else 1 + Find(slots[1..], path)
  }

  /** landlockd_daemon_cache_load_entry. */
  function LoadEntry(load: Load, path: Str, stamp: Stamp, memory: Memory): Option<Slot> {
    var ir :- load(path, stamp);
    if memory.strdup then Some(Slot(Some(path), stamp, ir)) else None
  }

  function Evicted(slots: seq<Slot>): seq<Slot> {
    if |slots| < MAX_ENTRIES then slots else slots[..|slots| - 1]
  }

  datatype Outcome = Outcome(result: Option<Ir>, slots: seq<Slot>, hit: bool)

  /** landlockd_daemon_cache_get_policy; a failed stat(2) gives no stamp. */
  function Get(load: Load, slots: seq<Slot>, path: Str, stat: Option<Stamp>, memory: Memory): Outcome {
    var i := Find(slots, path);
    if stat.None? then Outcome(None, slots, false)
    else if i < |slots| && slots[i].stamp == stat.value then Outcome(Some(slots[i].ir), slots, true)
    else if i < |slots| then
      match LoadEntry(load, path, stat.value, memory)
      case None => Outcome(None, slots[i := EMPTY_SLOT], false)
      case Some(slot) => Outcome(Some(slot.ir), slots[i := slot], false)
    else if !memory.calloc then Outcome(None, Evicted(slots), false)
    else
      match LoadEntry(load, path, stat.value, memory)
      case None => Outcome(None, Evicted(slots), false)
      case Some(slot) => Outcome(Some(slot.ir), [slot] + Evicted(slots), false)
  }

  // ----- what every reachable cache satisfies

  predicate Fresh(load: Load, slots: seq<Slot>) {
    forall i :: 0 <= i < |slots| && slots[i].name.Some? ==> load(slots[i].name.value, slots[i].stamp) == Some(slots[i].ir)
  }

  predicate DistinctNames(slots: seq<Slot>) {
    forall i, j :: 0 <= i < j < |slots| && slots[i].name.Some? ==> slots[i].name != slots[j].name
  }

  predicate Sound(load: Load, slots: seq<Slot>) {
    Fresh(load, slots) && DistinctNames(slots) && |slots| <= MAX_ENTRIES
  }

  lemma {:induction false} FindFirst(slots: seq<Slot>, path: Str)
    ensures Find(slots, path) < |slots| ==> slots[Find(slots, path)].name == Some(path)
    ensures forall j :: 0 <= j < Find(slots, path) ==> slots[j].name != Some(path)
  {
    if slots != [] && slots[0].name != Some(path) {
      FindFirst(slots[1..], path);
      forall j | 0 <= j < Find(slots, path) ensures slots[j].name != Some(path) {
        assert j > 0 ==> slots[j] == slots[1..][j - 1];
      }
    }
  }

  /** A lookup keeps the cache sound, and what it returns is what loading the
      file afresh would return. */
  lemma {:induction false} GetIsSound(load: Load, slots: seq<Slot>, path: Str, stat: Option<Stamp>, memory: Memory)
    requires Sound(load, slots)
    ensures Sound(load, Get(load, slots, path, stat, memory).slots)
    ensures var r := Get(load, slots, path, stat, memory).result;
      r.Some? ==> stat.Some? && r == load(path, stat.value)
    ensures var o := Get(load, slots, path, stat, memory);
      o.hit ==> o.result.Some? && o.slots == slots
  {
    FindFirst(slots, path);
  }

  // ----- whole runs

  datatype Request = Request(path: Str, stat: Option<Stamp>, memory: Memory)

  function SlotsAfter(load: Load, requests: seq<Request>): seq<Slot> {
    if requests == [] then []
    else
      var last := requests[|requests| - 1];
      Get(load, SlotsAfter(load, requests[..|requests| - 1]), last.path, last.stat, last.memory).slots
  }

  function Answer(load: Load, requests: seq<Request>, k: nat): Outcome
    requires k < |requests|
  {
    Get(load, SlotsAfter(load, requests[..k]), requests[k].path, requests[k].stat, requests[k].memory)
  }

  /** In every run from the empty cache, at most 16 entries, distinct names, and
      every successful lookup agrees with a fresh load. */
  lemma {:induction false} RunIsSound(load: Load, requests: seq<Request>)
    ensures Sound(load, SlotsAfter(load, requests))
    ensures forall k :: 0 <= k < |requests| && Answer(load, requests, k).result.Some? ==>
      requests[k].stat.Some? && Answer(load, requests, k).result == load(requests[k].path, requests[k].stat.value)
  {
    if requests != [] {
      var n := |requests| - 1;
      RunIsSound(load, requests[..n]);
      GetIsSound(load, SlotsAfter(load, requests[..n]), requests[n].path, requests[n].stat, requests[n].memory);
      forall k | 0 <= k < |requests| && Answer(load, requests, k).result.Some?
        ensures requests[k].stat.Some? && Answer(load, requests, k).result == load(requests[k].path, requests[k].stat.value)
      {
        if k < n {
          assert requests[..n][..k] == requests[..k] && requests[..n][k] == requests[k];
          assert Answer(load, requests[..n], k) == Answer(load, requests, k);
        }
      }
    }
  }

  // ----- which entries are held, told from the requests alone

  /** Whether a request looks for an entry that is not there. */
  predicate Misses(slots: seq<Slot>, r: Request) {
    r.stat.Some? && Find(slots, r.path) == |slots|
  }

  /** Request k finds no entry of its name and loads one. */
  predicate Inserts(load: Load, requests: seq<Request>, k: nat)
    requires k < |requests|
  {
    Misses(SlotsAfter(load, requests[..k]), requests[k]) && Answer(load, requests, k).result.Some?
  }

  /** The requests that inserted an entry, the latest first. */
  function Insertions(load: Load, requests: seq<Request>): (births: seq<nat>)
    ensures forall i :: 0 <= i < |births| ==> births[i] < |requests| && Inserts(load, requests, births[i])
    ensures forall i, j :: 0 <= i < j < |births| ==> births[i] > births[j]
  {
    if requests == [] then []
    else
      var n := |requests| - 1;
      var births := Insertions(load, requests[..n]);
      assert forall i :: 0 <= i < |births| ==> Inserts(load, requests, births[i]) by {
        forall i | 0 <= i < |births| ensures Inserts(load, requests, births[i]) {
          InsertsEarlier(load, requests, n, births[i]);
        }
      }
      if Inserts(load, requests, n) then [n] + births else births
  }

  lemma {:induction false} InsertsEarlier(load: Load, requests: seq<Request>, n: nat, k: nat)
    requires k < n <= |requests|
    ensures Inserts(load, requests[..n], k) <==> Inserts(load, requests, k)
  {
    assert requests[..n][..k] == requests[..k] && requests[..n][k] == requests[k];
  }

  /** What a successful load of this request makes of a new entry. */
  function Born(load: Load, r: Request): Slot {
    if r.stat.None? then EMPTY_SLOT
    else match LoadEntry(load, r.path, r.stat.value, r.memory)
      case None => EMPTY_SLOT
      case Some(slot) => slot
  }

  /** What a request does to an entry that is looked at alone: it is loaded anew
      when the request has its name and another stamp. */
  function Aged(load: Load, slot: Slot, r: Request): Slot {
    if r.stat.None? || slot.name != Some(r.path) || slot.stamp == r.stat.value then slot else Born(load, r)
  }

  /** The contents of the entry that request b inserted, after all requests. */
  function Life(load: Load, requests: seq<Request>, b: nat): Slot
    requires b < |requests|
  {
    var n := |requests| - 1;
    if b == n then Born(load, requests[n]) else Aged(load, Life(load, requests[..n], b), requests[n])
  }

  /** A request that misses changes no entry and evicts at most the last; any other
      changes each entry as if it were alone. */
  lemma {:induction false} GetAges(load: Load, slots: seq<Slot>, r: Request)
    requires DistinctNames(slots)
    ensures var o := Get(load, slots, r.path, r.stat, r.memory);
      if Misses(slots, r) then o.slots == if o.result.Some? then [Born(load, r)] + Evicted(slots) else Evicted(slots)
      else |o.slots| == |slots| && forall i :: 0 <= i < |slots| ==> o.slots[i] == Aged(load, slots[i], r)
    ensures Misses(slots, r) ==> forall i :: 0 <= i < |slots| ==> Aged(load, slots[i], r) == slots[i]
  {
    FindFirst(slots, r.path);
    var at := Find(slots, r.path);
    assert forall i :: 0 <= i < |slots| && at < |slots| && i != at ==> slots[i].name != Some(r.path);
  }

  /** The slots are what the first of these insertions have become. */
  ghost predicate Held(load: Load, requests: seq<Request>, slots: seq<Slot>, births: seq<nat>) {
    |slots| <= |births| && forall i :: 0 <= i < |slots| ==> births[i] < |requests| && slots[i] == Life(load, requests, births[i])
  }

  lemma {:induction false} HeldLater(load: Load, requests: seq<Request>, r: Request, slots: seq<Slot>, births: seq<nat>, later: seq<Slot>)
    requires Held(load, requests, slots, births)
    requires |later| <= |slots| && forall i :: 0 <= i < |later| ==> later[i] == Aged(load, slots[i], r)
    ensures Held(load, requests + [r], later, births)
  {
    var run := requests + [r];
    assert run[..|requests|] == requests;
    forall i | 0 <= i < |later| ensures later[i] == Life(load, run, births[i]) {
      assert Life(load, run, births[i]) == Aged(load, Life(load, requests, births[i]), r);
    }
  }

  /** What the cache holds after a run: its |slots| entries are those of the latest
      |slots| insertions, the latest first, and each is what its own insertion and
      the later requests of its name have made of it. */
  lemma {:induction false} HoldsLatestInsertions(load: Load, requests: seq<Request>)
    ensures Held(load, requests, SlotsAfter(load, requests), Insertions(load, requests))
  {
    if requests != [] {
      var n := |requests| - 1;
      var earlier, r := requests[..n], requests[n];
      HoldsLatestInsertions(load, earlier);
      RunIsSound(load, earlier);
      assert requests == earlier + [r];
      HoldsNext(load, earlier, r);
    }
  }

  lemma {:induction false} HoldsNext(load: Load, earlier: seq<Request>, r: Request)
    requires Held(load, earlier, SlotsAfter(load, earlier), Insertions(load, earlier))
    requires DistinctNames(SlotsAfter(load, earlier))
    ensures Held(load, earlier + [r], SlotsAfter(load, earlier + [r]), Insertions(load, earlier + [r]))
  {
    var before, births := SlotsAfter(load, earlier), Insertions(load, earlier);
    RunNext(load, earlier, r);
    GetAges(load, before, r);
    var later := if Misses(before, r) then Evicted(before) else SlotsAfter(load, earlier + [r]);
    HeldLater(load, earlier, r, before, births, later);
    if Insertions(load, earlier + [r]) != births {
      var run, slots := earlier + [r], SlotsAfter(load, earlier + [r]);
      forall i | 0 <= i < |slots| ensures slots[i] == Life(load, run, ([|earlier|] + births)[i]) {
        assert i > 0 ==> slots[i] == later[i - 1];
      }
    }
  }

  lemma {:induction false} RunNext(load: Load, earlier: seq<Request>, r: Request)
    ensures var before := SlotsAfter(load, earlier);
      var o := Get(load, before, r.path, r.stat, r.memory);
      && SlotsAfter(load, earlier + [r]) == o.slots
      && Insertions(load, earlier + [r])
         == (if Misses(before, r) && o.result.Some? then [|earlier|] else []) + Insertions(load, earlier)
  {
    var run := earlier + [r];
    assert run[..|earlier|] == earlier && run[|earlier|] == r;
  }

  /** The insertions whose entries are held. */
  function Births(load: Load, requests: seq<Request>): seq<nat> {
    Take(Insertions(load, requests), |SlotsAfter(load, requests)|)
  }

  function Take(births: seq<nat>, n: nat): seq<nat> {
    if n <= |births| then births[..n] else births
  }

  lemma {:induction false} TakeAfter(added: seq<nat>, births: seq<nat>, n: nat)
    requires n + 1 <= |births|
    ensures Take(added + births, n + |added|) == added + Take(births, n + 1)[..n]
  {
  }

  lemma {:induction false} LifeHasName(load: Load, requests: seq<Request>, b: nat)
    requires b < |requests| && Inserts(load, requests, b)
    ensures Life(load, requests, b).name in {None, Some(requests[b].path)}
  {
    var n := |requests| - 1;
    if b < n {
      InsertsEarlier(load, requests, n, b);
      LifeHasName(load, requests[..n], b);
    }
  }

  /** Nobody asked for the entry's file under another stamp after request b. */
  predicate Untouched(requests: seq<Request>, b: nat)
    requires b < |requests|
  {
    forall k :: b < k < |requests| && requests[k].path == requests[b].path ==>
      requests[k].stat in {None, requests[b].stat}
  }

  lemma {:induction false} LifeUntouched(load: Load, requests: seq<Request>, b: nat)
    requires b < |requests| && Inserts(load, requests, b) && Untouched(requests, b)
    ensures Life(load, requests, b) == Born(load, requests[b]) && Life(load, requests, b).name == Some(requests[b].path)
    ensures Some(Life(load, requests, b).ir) == Answer(load, requests, b).result
  {
    var n := |requests| - 1;
    if b < n {
      var earlier := requests[..n];
      InsertsEarlier(load, requests, n, b);
      assert Untouched(earlier, b);
      assert earlier[..b] == requests[..b];
      LifeUntouched(load, earlier, b);
    }
  }

  /** Slots stand in order of insertion, the newest first. A slot carries the name
      of the request that inserted it, or none after a failed refresh, and holds
      what that request loaded unless the file was asked for under another stamp. */
  lemma {:induction false} OldestIsLast(load: Load, requests: seq<Request>)
    ensures var slots, births := SlotsAfter(load, requests), Births(load, requests);
      && |births| == |slots|
      && (forall i, j :: 0 <= i < j < |births| ==> births[i] > births[j])
      && (forall i :: 0 <= i < |births| ==>
            && births[i] < |requests| && Inserts(load, requests, births[i])
            && slots[i].name in {None, Some(requests[births[i]].path)}
            && (Untouched(requests, births[i]) ==> slots[i] == Born(load, requests[births[i]])
                                                   && slots[i].name == Some(requests[births[i]].path)))
  {
    HoldsLatestInsertions(load, requests);
    var births := Births(load, requests);
    forall i | 0 <= i < |births|
      ensures Life(load, requests, births[i]).name in {None, Some(requests[births[i]].path)}
      ensures Untouched(requests, births[i]) ==>
        Life(load, requests, births[i]) == Born(load, requests[births[i]]) && Life(load, requests, births[i]).name == Some(requests[births[i]].path)
    {
      LifeHasName(load, requests, births[i]);
      if Untouched(requests, births[i]) {
        LifeUntouched(load, requests, births[i]);
      }
    }
  }

  predicate FullMiss(load: Load, requests: seq<Request>, r: Request) {
    |SlotsAfter(load, requests)| == MAX_ENTRIES && Misses(SlotsAfter(load, requests), r)
  }

  /** A lookup that finds no entry in a full cache keeps the other entries. */
  lemma {:induction false} EvictionKeepsOthers(load: Load, requests: seq<Request>, r: Request)
    requires FullMiss(load, requests, r)
    ensures var slots, after := SlotsAfter(load, requests), SlotsAfter(load, requests + [r]);
      |after| >= MAX_ENTRIES - 1 && after[|after| - (MAX_ENTRIES - 1)..] == slots[..MAX_ENTRIES - 1]
    ensures |SlotsAfter(load, requests + [r])| ==
      MAX_ENTRIES - 1 + |Insertions(load, requests + [r])| - |Insertions(load, requests)|
  {
    RunIsSound(load, requests);
    RunNext(load, requests, r);
    GetAges(load, SlotsAfter(load, requests), r);
  }

  lemma {:induction false} AddedBirths(load: Load, requests: seq<Request>, r: Request) returns (added: seq<nat>)
    ensures added in [[], [|requests|]] && Insertions(load, requests + [r]) == added + Insertions(load, requests)
  {
    RunNext(load, requests, r);
    added := if Insertions(load, requests + [r]) == Insertions(load, requests) then [] else [|requests|];
  }

  lemma {:induction false} EvictedBirths(load: Load, requests: seq<Request>, r: Request) returns (added: seq<nat>)
    requires FullMiss(load, requests, r)
    ensures |Births(load, requests)| == MAX_ENTRIES && added in [[], [|requests|]]
    ensures Births(load, requests + [r]) == added + Births(load, requests)[..MAX_ENTRIES - 1]
  {
    HoldsLatestInsertions(load, requests);
    EvictionKeepsOthers(load, requests, r);
    added := AddedBirths(load, requests, r);
    TakeAfter(added, Insertions(load, requests), MAX_ENTRIES - 1);
  }

  /** And it drops the entry that was inserted first. */
  lemma {:induction false} EvictionDropsOldest(load: Load, requests: seq<Request>, r: Request)
    requires FullMiss(load, requests, r)
    ensures var before, after := Births(load, requests), Births(load, requests + [r]);
      forall b :: b in before ==> (b in after <==> exists c :: c in before && c < b)
  {
    var added := EvictedBirths(load, requests, r);
    LastIsLeast(added, Births(load, requests), |requests|);
  }

  lemma {:induction false} LastIsLeast(added: seq<nat>, births: seq<nat>, n: nat)
    requires births != [] && (forall i, j :: 0 <= i < j < |births| ==> births[i] > births[j])
    requires (forall b :: b in births ==> b < n) && (forall b :: b in added ==> b == n)
    ensures forall b :: b in births ==> (b in added + births[..|births| - 1] <==> exists c :: c in births && c < b)
  {
    var kept := births[..|births| - 1];
    forall b | b in births ensures b in added + kept <==> exists c :: c in births && c < b {
      var i :| 0 <= i < |births| && births[i] == b;
      if i < |kept| {
        assert kept[i] == b && births[|kept|] in births && births[|kept|] < b;
      } else {
        assert forall j :: 0 <= j < |kept| ==> kept[j] == births[j] > b;
        assert forall c :: c in births ==> c >= b;
      }
    }
  }
}
