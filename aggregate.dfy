/**
 * The entry aggregator: how the middleware folds the values that arrive
 * under one form name into a single entry of a flat dictionary, one
 * dictionary for fields and one for files.
 */
module Aggregate {
  import opened Values

  /** What a flat dictionary holds under a name: one value, or an array of them. */
  datatype Slot = One(value: Value) | Many(values: seq<Value>)

  /** The flat name-to-entry dictionary built while the form streams in. */
  type FlatMap = map<string, Slot>

  /** The values a slot holds, in arrival order. */
  function Entries(s: Slot): seq<Value>
  {
    match s
    case One(v) => [v]
    case Many(vs) => vs
  }

  /**
   * Whether the entry under `name` survives the next value: it does when it
   * is an array or a truthy value, and not when it is missing or the empty
   * string.
   */
  predicate Kept(m: FlatMap, name: string)
  {
    name in m && (m[name].Many? || Truthy(m[name].value))
  }

  /**
   * One value arriving under `name`: it is appended to what the entry
   * holds, which becomes an array as soon as two values are kept; an entry
   * that is missing or falsy is replaced instead. No other name changes.
   */
  function AddValue(m: FlatMap, name: string, val: Value): (r: FlatMap)
    ensures r.Keys == m.Keys + {name}
    ensures forall k :: k in m && k != name ==> r[k] == m[k]
    ensures r[name].Many? <==> Kept(m, name)
    ensures Entries(r[name]) == (if Kept(m, name) then Entries(m[name]) else []) + [val]
  {
    if name in m && m[name].Many? then
      m[name := Many(m[name].values + [val])]
    else if name in m && Truthy(m[name].value) then
      m[name := Many([m[name].value, val])]
    else
      m[name := One(val)]
  }

  /** A sequence of (name, value) arrivals folded into the dictionary in order. */
  function AddAll(m: FlatMap, arrivals: seq<(string, Value)>): FlatMap
    decreases |arrivals|
  {
    if arrivals == [] then m
    else
      var last := arrivals[|arrivals| - 1];
      AddValue(AddAll(m, arrivals[..|arrivals| - 1]), last.0, last.1)
  }

  /** At most one more arrival: the fold takes one more step. */
  lemma AddAllStep(m: FlatMap, arrivals: seq<(string, Value)>, next: seq<(string, Value)>)
    requires |next| <= 1
    ensures AddAll(m, arrivals + next) ==
      if next == [] then AddAll(m, arrivals) else AddValue(AddAll(m, arrivals), next[0].0, next[0].1)
  {
    if next == [] {
      assert arrivals + next == arrivals;
    } else {
      assert (arrivals + next)[..|arrivals|] == arrivals;
    }
  }

  /** The values among `arrivals` that arrive under `name`, in order. */
  function ValuesOf(arrivals: seq<(string, Value)>, name: string): seq<Value>
    decreases |arrivals|
  {
    if arrivals == [] then []
    else
      var last := arrivals[|arrivals| - 1];
      ValuesOf(arrivals[..|arrivals| - 1], name) + (if last.0 == name then [last.1] else [])
  }

  /** Folding two runs of arrivals one after the other is folding their concatenation. */
  lemma {:induction false} AddAllAppend(m: FlatMap, a: seq<(string, Value)>, b: seq<(string, Value)>)
    ensures AddAll(m, a + b) == AddAll(AddAll(m, a), b)
    decreases |b|
  {
    if b == [] {
      assert a + b == a;
    } else {
      var b' := b[..|b| - 1];
      assert (a + b)[..|a + b| - 1] == a + b';
      assert (a + b)[|a + b| - 1] == b[|b| - 1];
      AddAllAppend(m, a, b');
    }
  }

  /** Arrivals under other names leave the entry under `name` as it was. */
  lemma {:induction false} OtherNamesUntouched(m: FlatMap, arrivals: seq<(string, Value)>, name: string)
    requires ValuesOf(arrivals, name) == []
    ensures name in AddAll(m, arrivals) <==> name in m
    ensures name in m ==> AddAll(m, arrivals)[name] == m[name]
    decreases |arrivals|
  {
    if arrivals != [] {
      OtherNamesUntouched(m, arrivals[..|arrivals| - 1], name);
    }
  }

  /**
   * Repeats of a name collect in arrival order: starting from no entry (or
   * a falsy one), n truthy values give the value itself when n is 1 and an
   * array of all n values when n is 2 or more, whatever arrives under other
   * names in between.
   */
  lemma {:induction false} RepeatsCollect(m: FlatMap, arrivals: seq<(string, Value)>, name: string)
    requires !Kept(m, name)
    requires forall i :: 0 <= i < |arrivals| && arrivals[i].0 == name ==> Truthy(arrivals[i].1)
    requires ValuesOf(arrivals, name) != []
    ensures Kept(AddAll(m, arrivals), name)
    ensures var vs := ValuesOf(arrivals, name);
      AddAll(m, arrivals)[name] == if |vs| == 1 then One(vs[0]) else Many(vs)
    decreases |arrivals|
  {
    var pre := arrivals[..|arrivals| - 1];
    var last := arrivals[|arrivals| - 1];
    var vs := ValuesOf(pre, name);
    assert forall i :: 0 <= i < |pre| && pre[i].0 == name ==> Truthy(pre[i].1) by {
      forall i | 0 <= i < |pre| ensures pre[i] == arrivals[i] { }
    }
    if last.0 != name {
      RepeatsCollect(m, pre, name);
    } else {
      if vs == [] {
        OtherNamesUntouched(m, pre, name);
      } else {
        RepeatsCollect(m, pre, name);
      }
      ExtendEntry(AddAll(m, pre), name, vs, last.1);
    }
  }

  /** One step of RepeatsCollect: a truthy value extends the collected entry. */
  lemma ExtendEntry(m: FlatMap, name: string, vs: seq<Value>, v: Value)
    requires Truthy(v)
    requires vs == [] ==> !Kept(m, name)
    requires vs != [] ==> Kept(m, name) && m[name] == if |vs| == 1 then One(vs[0]) else Many(vs)
    ensures Kept(AddValue(m, name, v), name)
    ensures AddValue(m, name, v)[name] == if vs == [] then One(v) else Many(vs + [v])
  {
  }

  /**
   * The truthiness quirk: when the first value under a name is the empty
   * string, the next value overwrites it, so "" followed by n truthy values
   * gives the same entry as the n values alone.
   */
  lemma {:induction false} EmptyFirstValueIsLost(m: FlatMap, arrivals: seq<(string, Value)>, name: string)
    requires name !in m
    requires forall i :: 0 <= i < |arrivals| && arrivals[i].0 == name ==> Truthy(arrivals[i].1)
    requires ValuesOf(arrivals, name) != []
    ensures name in AddAll(m, [(name, Text(""))] + arrivals)
    ensures var vs := ValuesOf(arrivals, name);
      AddAll(m, [(name, Text(""))] + arrivals)[name] == if |vs| == 1 then One(vs[0]) else Many(vs)
  {
    var first: seq<(string, Value)> := [(name, Text(""))];
    AddAllAppend(m, first, arrivals);
    assert first[..0] == [];
    assert AddAll(m, first) == AddValue(m, name, Text(""));
    RepeatsCollect(AddAll(m, first), arrivals, name);
  }
}
