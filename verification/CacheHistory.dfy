/** Which lookups are hits, which load, and which entries are held, told from the
    requests alone. */
module CacheHistory {
  import opened Bytes
  import opened Cache
  import opened PolicyIr

  /** The stamp under which the file was last found. */
  function LastStamp(requests: seq<Request>, path: Str): Option<Stamp> {
    if requests == [] then None
    else
      var r := requests[|requests| - 1];
      if r.path == path && r.stat.Some? then r.stat else LastStamp(requests[..|requests| - 1], path)
  }

  /** The file of the request can be loaded under its stamp, and its name stored. */
  predicate CanLoad(load: Load, r: Request) {
    r.stat.Some? && load(r.path, r.stat.value).Some? && r.memory.strdup
  }

  /** The file was found under a stamp that is not the last one. */
  predicate Changed(requests: seq<Request>, m: nat)
    requires m < |requests|
  {
    requests[m].stat.Some? && requests[m].stat != LastStamp(requests[..m], requests[m].path)
  }

  /** Whenever the file changed after request b, it could be loaded anew. */
  predicate NeverLost(load: Load, requests: seq<Request>, b: nat)
    requires b < |requests|
  {
    forall m :: b < m < |requests| && requests[m].path == requests[b].path && Changed(requests, m) ==> CanLoad(load, requests[m])
  }

  /** The requests whose entries are held, the latest first: a lookup whose file has
      no entry makes room, dropping the oldest of 16, and adds its own if it can. */
  function Book(load: Load, requests: seq<Request>): (births: seq<nat>)
    ensures forall b :: b in births ==> b < |requests|
  {
    if requests == [] then []
    else
      var n := |requests| - 1;
      var births, r := Book(load, requests[..n]), requests[n];
      if r.stat.None? || Finds(load, requests[..n], births, r.path) then births
      else
        var kept := if |births| < 16 then births else births[..15];
        assert forall b :: b in kept ==> b in births;
        if r.memory.calloc && CanLoad(load, r) then [n] + kept else kept
  }

  /** One of the held entries is for the file and was never lost. */
  predicate Finds(load: Load, requests: seq<Request>, births: seq<nat>, path: Str)
    requires forall b :: b in births ==> b < |requests|
  {
    exists b :: b in births && requests[b].path == path && NeverLost(load, requests, b)
  }

  /** The file has an entry and is still as it was when it was last found. */
  predicate IsHit(load: Load, requests: seq<Request>, r: Request) {
    r.stat.Some? && Finds(load, requests, Book(load, requests), r.path) && r.stat == LastStamp(requests, r.path)
  }

  /** The lookup is no hit and loads the file, into its entry or into a new one. */
  predicate IsLoad(load: Load, requests: seq<Request>, r: Request) {
    && !IsHit(load, requests, r) && CanLoad(load, r)
    && (Finds(load, requests, Book(load, requests), r.path) || r.memory.calloc)
  }

  function HitCount(load: Load, requests: seq<Request>): nat {
    if requests == [] then 0
    else
      var n := |requests| - 1;
      HitCount(load, requests[..n]) + if IsHit(load, requests[..n], requests[n]) then 1 else 0
  }

  function LoadCount(load: Load, requests: seq<Request>): nat {
    if requests == [] then 0
    else
      var n := |requests| - 1;
      LoadCount(load, requests[..n]) + if IsLoad(load, requests[..n], requests[n]) then 1 else 0
  }

  // ----- one entry

  lemma {:induction false} NeverLostNext(load: Load, requests: seq<Request>, r: Request, b: nat)
    requires b < |requests|
    ensures NeverLost(load, requests + [r], b) <==>
      NeverLost(load, requests, b)
      && (r.path == requests[b].path && r.stat.Some? && r.stat != LastStamp(requests, r.path) ==> CanLoad(load, r))
  {
    var run, n := requests + [r], |requests|;
    assert run[..n] == requests;
    forall m | b < m < n ensures run[m] == requests[m] && Changed(run, m) == Changed(requests, m) {
      assert run[..m] == requests[..m];
    }
    assert Changed(run, n) == (r.stat.Some? && r.stat != LastStamp(requests, r.path));
    if NeverLost(load, run, b) {
      forall m | b < m < n && requests[m].path == requests[b].path && Changed(requests, m) ensures CanLoad(load, requests[m]) {
        assert run[m].path == run[b].path && Changed(run, m);
      }
      assert run[n] == r;
    }
  }

  /** The entry that request b inserted, if it could load: as loaded under the last
      stamp of its file, or nameless once it was lost. */
  function EntryNow(load: Load, requests: seq<Request>, b: nat): Slot
    requires b < |requests|
  {
    var path := requests[b].path;
    var stamp := LastStamp(requests, path);
    if !NeverLost(load, requests, b) || stamp.None? || load(path, stamp.value).None? then EMPTY_SLOT
    else Slot(Some(path), stamp.value, load(path, stamp.value).value)
  }

  /** The last stamp of an entry that is not lost is one that loads. */
  predicate Loadable(load: Load, requests: seq<Request>, b: nat)
    requires b < |requests|
  {
    NeverLost(load, requests, b) ==>
      LastStamp(requests, requests[b].path).Some? && load(requests[b].path, LastStamp(requests, requests[b].path).value).Some?
  }

  lemma {:induction false} LifeIs(load: Load, requests: seq<Request>, b: nat)
    requires b < |requests| && CanLoad(load, requests[b])
    ensures Life(load, requests, b) == EntryNow(load, requests, b) && Loadable(load, requests, b)
  {
    var n := |requests| - 1;
    if b == n {
      assert NeverLost(load, requests, b);
    } else {
      assert requests == requests[..n] + [requests[n]];
      LifeIs(load, requests[..n], b);
      LifeNext(load, requests[..n], requests[n], b);
    }
  }

  lemma {:induction false} LifeNext(load: Load, requests: seq<Request>, r: Request, b: nat)
    requires b < |requests| && Loadable(load, requests, b)
    ensures Aged(load, EntryNow(load, requests, b), r) == EntryNow(load, requests + [r], b)
    ensures Loadable(load, requests + [r], b)
  {
    NeverLostNext(load, requests, r, b);
    assert (requests + [r])[..|requests|] == requests;
  }

  // ----- the whole cache

  /** The slots are the entries of the book. */
  ghost predicate Mirrors(load: Load, requests: seq<Request>, slots: seq<Slot>, births: seq<nat>) {
    && |slots| == |births| <= 16
    && forall i :: 0 <= i < |births| ==>
         births[i] < |requests| && CanLoad(load, requests[births[i]]) && slots[i] == EntryNow(load, requests, births[i])
  }

  lemma {:induction false} FoundIff(load: Load, requests: seq<Request>, slots: seq<Slot>, births: seq<nat>, path: Str)
    requires Mirrors(load, requests, slots, births) && forall b :: b in births ==> b < |requests|
    ensures Find(slots, path) < |slots| <==> Finds(load, requests, births, path)
    ensures var i := Find(slots, path);
      i < |slots| ==> Some(slots[i].stamp) == LastStamp(requests, path)
  {
    FindFirst(slots, path);
    var i := Find(slots, path);
    if i < |slots| {
      assert slots[i] == EntryNow(load, requests, births[i]) && births[i] in births;
      assert requests[births[i]].path == path;
    }
    if b :| b in births && requests[b].path == path && NeverLost(load, requests, b) {
      var j :| 0 <= j < |births| && births[j] == b;
      LifeIs(load, requests, b);
      assert slots[j].name == Some(path);
    }
  }

  lemma {:induction false} MirrorsLater(load: Load, requests: seq<Request>, r: Request, slots: seq<Slot>, births: seq<nat>, later: seq<Slot>)
    requires Mirrors(load, requests, slots, births)
    requires |later| == |slots| && forall i :: 0 <= i < |later| ==> later[i] == Aged(load, slots[i], r)
    ensures Mirrors(load, requests + [r], later, births)
  {
    forall i | 0 <= i < |births| ensures later[i] == EntryNow(load, requests + [r], births[i]) {
      LifeIs(load, requests, births[i]);
      LifeNext(load, requests, r, births[i]);
    }
  }

  lemma {:induction false} BornIs(load: Load, requests: seq<Request>, r: Request)
    ensures CanLoad(load, r) ==> Born(load, r) == EntryNow(load, requests + [r], |requests|)
  {
    if CanLoad(load, r) {
      assert NeverLost(load, requests + [r], |requests|);
    }
  }

  function Room<T>(xs: seq<T>): seq<T> {
    if |xs| < 16 then xs else xs[..15]
  }

  lemma {:induction false} BookAfter(load: Load, earlier: seq<Request>, r: Request)
    ensures var births := Book(load, earlier);
      Book(load, earlier + [r]) ==
        if r.stat.None? || Finds(load, earlier, births, r.path) then births
        else (if r.memory.calloc && CanLoad(load, r) then [|earlier|] else []) + Room(births)
  {
    var run := earlier + [r];
    assert run[..|earlier|] == earlier && run[|earlier|] == r;
  }

  lemma {:induction false} MirrorsFewer(load: Load, requests: seq<Request>, slots: seq<Slot>, births: seq<nat>)
    requires Mirrors(load, requests, slots, births)
    ensures Mirrors(load, requests, Room(slots), Room(births))
  {
  }

  lemma {:induction false} MirrorsMore(load: Load, requests: seq<Request>, slots: seq<Slot>, births: seq<nat>, b: nat)
    requires Mirrors(load, requests, slots, births) && |births| < 16 && b < |requests| && CanLoad(load, requests[b])
    ensures Mirrors(load, requests, [EntryNow(load, requests, b)] + slots, [b] + births)
  {
  }

  lemma {:induction false} MissResult(load: Load, slots: seq<Slot>, r: Request)
    requires Misses(slots, r) && |slots| <= 16
    ensures Get(load, slots, r.path, r.stat, r.memory).slots
         == (if r.memory.calloc && CanLoad(load, r) then [Born(load, r)] else []) + Room(slots)
    ensures Get(load, slots, r.path, r.stat, r.memory).result.Some? <==> r.memory.calloc && CanLoad(load, r)
  {
  }

  lemma {:induction false} MissAges(load: Load, slots: seq<Slot>, r: Request)
    requires DistinctNames(slots) && Misses(slots, r)
    ensures forall i :: 0 <= i < |slots| ==> slots[i] == Aged(load, slots[i], r)
  {
    GetAges(load, slots, r);
  }

  lemma {:induction false} MissNext(load: Load, earlier: seq<Request>, r: Request)
    requires Mirrors(load, earlier, SlotsAfter(load, earlier), Book(load, earlier))
    requires DistinctNames(SlotsAfter(load, earlier)) && Misses(SlotsAfter(load, earlier), r)
    ensures Mirrors(load, earlier + [r], SlotsAfter(load, earlier + [r]), Book(load, earlier + [r]))
  {
    var slots, births := SlotsAfter(load, earlier), Book(load, earlier);
    RunNext(load, earlier, r);
    MissResult(load, slots, r);
    FoundIff(load, earlier, slots, births, r.path);
    BookAfter(load, earlier, r);
    MissAges(load, slots, r);
    MirrorsLater(load, earlier, r, slots, births, slots);
    MirrorsFewer(load, earlier + [r], slots, births);
    if r.memory.calloc && CanLoad(load, r) {
      assert (earlier + [r])[|earlier|] == r;
      BornIs(load, earlier, r);
      MirrorsMore(load, earlier + [r], Room(slots), Room(births), |earlier|);
    }
  }

  lemma {:induction false} FoundNext(load: Load, earlier: seq<Request>, r: Request)
    requires Mirrors(load, earlier, SlotsAfter(load, earlier), Book(load, earlier))
    requires DistinctNames(SlotsAfter(load, earlier)) && !Misses(SlotsAfter(load, earlier), r)
    ensures Mirrors(load, earlier + [r], SlotsAfter(load, earlier + [r]), Book(load, earlier + [r]))
  {
    var slots, births := SlotsAfter(load, earlier), Book(load, earlier);
    RunNext(load, earlier, r);
    GetAges(load, slots, r);
    FoundIff(load, earlier, slots, births, r.path);
    BookAfter(load, earlier, r);
    MirrorsLater(load, earlier, r, slots, births, SlotsAfter(load, earlier + [r]));
  }

  /** In every run the slots are the entries of the book: which requests hold an entry,
      and what it holds, follows from the requests alone. */
  lemma {:induction false} SlotsMirrorBook(load: Load, requests: seq<Request>)
    ensures Mirrors(load, requests, SlotsAfter(load, requests), Book(load, requests))
  {
    if requests != [] {
      var n := |requests| - 1;
      assert requests == requests[..n] + [requests[n]];
      SlotsMirrorBook(load, requests[..n]);
      RunIsSound(load, requests[..n]);
      if Misses(SlotsAfter(load, requests[..n]), requests[n]) {
        MissNext(load, requests[..n], requests[n]);
      } else {
        FoundNext(load, requests[..n], requests[n]);
      }
    }
  }

  /** A lookup is a hit exactly when its file has a held entry that was never lost and
      is as it was when last found; otherwise it succeeds exactly when it loads the
      file; and what it returns is what loading the file would return. */
  lemma {:induction false} AnswersFromRequests(load: Load, requests: seq<Request>, k: nat)
    requires k < |requests|
    ensures var r, o := requests[k], Answer(load, requests, k);
      && (o.hit <==> IsHit(load, requests[..k], r))
      && (o.result.Some? <==> IsHit(load, requests[..k], r) || IsLoad(load, requests[..k], r))
      && (o.result.Some? ==> r.stat.Some? && o.result == load(r.path, r.stat.value))
  {
    var earlier, r := requests[..k], requests[k];
    SlotsMirrorBook(load, earlier);
    RunIsSound(load, requests);
    FoundIff(load, earlier, SlotsAfter(load, earlier), Book(load, earlier), r.path);
  }

  /** The book lists the latest insertions, as many as there are slots. */
  lemma {:induction false} BookIsBirths(load: Load, requests: seq<Request>)
    ensures Book(load, requests) == Births(load, requests)
  {
    SlotsMirrorBook(load, requests);
    HoldsLatestInsertions(load, requests);
    BookIsPrefix(load, requests);
  }

  lemma {:induction false} PrefixAfter(added: seq<nat>, a: seq<nat>, b: seq<nat>)
    requires a <= b
    ensures added + Room(a) <= added + b
  {
  }

  lemma {:induction false} BookIsPrefix(load: Load, requests: seq<Request>)
    ensures Book(load, requests) <= Insertions(load, requests)
  {
    if requests != [] {
      var n := |requests| - 1;
      var earlier, r := requests[..n], requests[n];
      assert requests == earlier + [r];
      var slots := SlotsAfter(load, earlier);
      BookIsPrefix(load, earlier);
      SlotsMirrorBook(load, earlier);
      FoundIff(load, earlier, slots, Book(load, earlier), r.path);
      RunNext(load, earlier, r);
      BookAfter(load, earlier, r);
      if Misses(slots, r) {
        MissResult(load, slots, r);
        PrefixAfter(if r.memory.calloc && CanLoad(load, r) then [n] else [], Book(load, earlier), Insertions(load, earlier));
      }
    }
  }
}
