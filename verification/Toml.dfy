/** Parsed TOML documents, read the way tomlc99 lets the loader read them. */
module Toml {
  import opened Bytes

  /** Floats and timestamps are Other: no policy key takes them. */
  datatype Value = String(s: Str) | Int(i: int) | Bool(b: bool) | Other | Array(items: seq<Value>) | Table(entries: Entries)

  type Entries = map<string, Value>

  /** toml_string_in and toml_string_at give C strings: the bytes before a NUL. */
  function StringOf(v: Value): (r: Option<Str>)
    ensures r.Some? ==> NulFree(r.value)
  {
    if v.String? then Some(CStr(v.s)) else None
  }

  /** A key with a value of another kind is as good as absent. */
  function StringIn(t: Entries, key: string): (r: Option<Str>)
    ensures r.Some? ==> NulFree(r.value)
  {
    if key in t then StringOf(t[key]) else None
  }

  function IntIn(t: Entries, key: string): Option<int> {
    if key in t && t[key].Int? then Some(t[key].i) else None
  }

  function BoolIn(t: Entries, key: string): Option<bool> {
    if key in t && t[key].Bool? then Some(t[key].b) else None
  }

  function ArrayIn(t: Entries, key: string): Option<seq<Value>> {
    if key in t && t[key].Array? then Some(t[key].items) else None
  }

  function TableIn(t: Entries, key: string): Option<Entries> {
    if key in t && t[key].Table? then Some(t[key].entries) else None
  }

  /** table_has_only_keys. */
  predicate OnlyKeys(t: Entries, allowed: set<string>) {
    t.Keys <= allowed
  }

  // ----- documents without surprises

  /** No string holds a NUL. */
  predicate NulFreeValue(v: Value) {
    match v
    case String(s) => NulFree(s)
    case Array(items) => forall i :: 0 <= i < |items| ==> NulFreeValue(items[i])
    case Table(t) => forall k :: k in t ==> NulFreeValue(t[k])
    case _ => true
  }

  predicate NulFreeEntries(t: Entries) {
    forall k :: k in t ==> NulFreeValue(t[k])
  }

  /** Every length fits 32 bits. */
  predicate Small(v: Value) {
    match v
    case String(s) => |s| < TWO_32
    case Array(items) => |items| < TWO_32 && forall i :: 0 <= i < |items| ==> Small(items[i])
    case Table(t) => forall k :: k in t ==> Small(t[k])
    case _ => true
  }

  predicate SmallEntries(t: Entries) {
    forall k :: k in t ==> Small(t[k])
  }

  // ----- lists whose elements may be rejected

  function MapAll<A, B>(f: A -> Option<B>, xs: seq<A>): Option<seq<B>> {
    if xs == [] then Some([])
    else
      var init :- MapAll(f, xs[..|xs| - 1]);
      var last :- f(xs[|xs| - 1]);
      Some(init + [last])
  }

  lemma {:induction false} MapAllAt<A, B>(f: A -> Option<B>, xs: seq<A>)
    ensures MapAll(f, xs).Some? <==> forall i :: 0 <= i < |xs| ==> f(xs[i]).Some?
    ensures MapAll(f, xs).Some? ==>
      |MapAll(f, xs).value| == |xs| && forall i :: 0 <= i < |xs| ==> f(xs[i]) == Some(MapAll(f, xs).value[i])
  {
    if xs != [] {
      var n := |xs| - 1;
      MapAllAt(f, xs[..n]);
      assert forall i :: 0 <= i < n ==> xs[..n][i] == xs[i];
    }
  }

  lemma {:induction false} MapAllStep<A, B>(f: A -> Option<B>, xs: seq<A>, i: nat)
    requires i < |xs|
    ensures MapAll(f, xs[..i + 1]) ==
      if MapAll(f, xs[..i]).Some? && f(xs[i]).Some? then Some(MapAll(f, xs[..i]).value + [f(xs[i]).value]) else None
  {
    assert xs[..i + 1][..i] == xs[..i];
  }

  lemma {:induction false} MapAllFails<A, B>(f: A -> Option<B>, xs: seq<A>, i: nat)
    requires i < |xs| && f(xs[i]).None?
    ensures MapAll(f, xs).None?
  {
    MapAllAt(f, xs);
  }

  lemma {:induction false} MapAllIs<A, B>(f: A -> Option<B>, xs: seq<A>, ys: seq<B>)
    requires |xs| == |ys| && forall i :: 0 <= i < |xs| ==> f(xs[i]) == Some(ys[i])
    ensures MapAll(f, xs) == Some(ys)
  {
    MapAllAt(f, xs);
    assert MapAll(f, xs).value == ys;
  }
}
