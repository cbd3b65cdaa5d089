/**
 * `flatten_dict` of mlflow_observer.py: a nested mapping becomes a single-level
 * mapping whose keys are the paths of keys joined by a separator.
 *
 * A Python mapping is an ordered association list (`Node`), so that the
 * iteration order of `d.items()` is kept; every other Python value is a
 * `Leaf`. The recursive generator `_flatten_dict` is `Emit`, and the final
 * `dict(...)` is `AssocList.ToMap`, in which a later duplicate key wins.
 */
module Flatten {
  import opened AssocList

  datatype Value<T> = Leaf(x: T) | Node(entries: seq<(string, Value<T>)>)
  {
    /** `isinstance(v, Mapping) and v`: the values the flattener descends into. */
    predicate IsNonEmptyMapping()
    {
      Node? && entries != []
    }
  }

  /** A value the flattener keeps as it is: anything but a non-empty mapping. */
  predicate IsTerminal<T>(v: Value<T>)
  {
    !v.IsNonEmptyMapping()
  }

  /** The default separator of `flatten_dict`. */
  const DefaultSep: string := "."

  /**
   * The prefix of the keys generated under `parent`: nothing when `parent` is
   * falsy (Python's `None` at the top level and `''` both are), otherwise
   * `parent` followed by the separator.
   */
  function Prefix(parent: string, sep: string): string
  {
    if parent == "" then "" else parent + sep
  }

  /**
   * The pairs `_flatten_dict(d, parent)` yields, in order. A value that is a
   * non-empty mapping is descended into; any other value, the empty mapping
   * included, is yielded under its full key.
   */
  function Emit<T>(d: seq<(string, Value<T>)>, parent: string, sep: string): (out: seq<(string, Value<T>)>)
    ensures forall i :: 0 <= i < |out| ==> IsTerminal(out[i].1)
    decreases d
  {
    if d == [] then []
    else
      var k, v := d[0].0, d[0].1;
      assert v < d[0];
      var key := Prefix(parent, sep) + k;
      (if v.IsNonEmptyMapping() then Emit(v.entries, key, sep) else [(key, v)])
      + Emit(d[1..], parent, sep)
  }

  /** `flatten_dict(d, sep)`. */
  function FlattenDict<T>(d: seq<(string, Value<T>)>, sep: string): (m: map<string, Value<T>>)
    ensures forall key :: key in m ==> IsTerminal(m[key])
    ensures d == [] ==> m == map[]
  {
    var out := Emit(d, "", sep);
    var m := ToMap(out);
    assert forall key :: key in m ==> IsTerminal(m[key]) by {
      forall key | key in m ensures IsTerminal(m[key]) {
        ToMapLastOccurrence(out, key);
      }
    }
    m
  }

  // ---------------------------------------------------------------------------
  // An independent description of the result: the paths to the terminal values
  // of the input, and the key each path is given.
  // ---------------------------------------------------------------------------

  /**
   * `path` leads from the mapping `d` to the value `v`: each key of the path
   * names an entry of the mapping reached so far.
   */
  ghost predicate Reaches<T>(d: seq<(string, Value<T>)>, path: seq<string>, v: Value<T>)
    decreases |path|
  {
    |path| > 0 &&
    exists j :: 0 <= j < |d| && d[j].0 == path[0] &&
      if |path| == 1 then d[j].1 == v
      else d[j].1.Node? && Reaches(d[j].1.entries, path[1..], v)
  }

  /** Puts `k` in front of every path of `ts`. */
  function Under<T>(k: string, ts: seq<(seq<string>, Value<T>)>): (r: seq<(seq<string>, Value<T>)>)
    ensures |r| == |ts|
    ensures forall i :: 0 <= i < |ts| ==> r[i] == ([k] + ts[i].0, ts[i].1)
  {
    seq(|ts|, i requires 0 <= i < |ts| => ([k] + ts[i].0, ts[i].1))
  }

  /** The terminal values of `d` with their paths, in depth-first key order. */
  function Terminals<T>(d: seq<(string, Value<T>)>): (ts: seq<(seq<string>, Value<T>)>)
    decreases d
  {
    if d == [] then []
    else
      var k, v := d[0].0, d[0].1;
      assert v < d[0];
      (if v.IsNonEmptyMapping() then Under(k, Terminals(v.entries)) else [([k], v)])
      + Terminals(d[1..])
  }

  /** The keys of a path joined by the separator. */
  function JoinWith(sep: string, ks: seq<string>): string
  {
    if ks == [] then ""
    else if |ks| == 1 then ks[0]
    else ks[0] + sep + JoinWith(sep, ks[1..])
  }

  /** The path without its leading empty keys. */
  function DropLeadingEmpty(ks: seq<string>): (r: seq<string>)
    ensures r == [] || r[0] != ""
  {
    if ks != [] && ks[0] == "" then DropLeadingEmpty(ks[1..]) else ks
  }

  /**
   * The key a path is given: its keys joined by the separator, except that
   * empty keys at the head of the path contribute no separator.
   */
  function FlatKey(path: seq<string>, sep: string): string
  {
    JoinWith(sep, DropLeadingEmpty(path))
  }

  /** The pairs that `flatten_dict` is meant to collect, in order. */
  function Expected<T>(d: seq<(string, Value<T>)>, sep: string): (r: seq<(string, Value<T>)>)
  {
    var ts := Terminals(d);
    seq(|ts|, i requires 0 <= i < |ts| => (FlatKey(ts[i].0, sep), ts[i].1))
  }

  // ---------------------------------------------------------------------------
  // Keys: how the accumulated `parent_key` of `_flatten_dict` builds a key.
  // ---------------------------------------------------------------------------

  /** The key that `_flatten_dict` builds for `path` below the parent key `acc`. */
  function KeyFrom(acc: string, path: seq<string>, sep: string): string
    decreases |path|
  {
    if path == [] then acc else KeyFrom(Prefix(acc, sep) + path[0], path[1..], sep)
  }

  /** Below a non-empty parent key every key of the path is preceded by the separator. */
  lemma {:induction false} KeyFromNonEmpty(acc: string, path: seq<string>, sep: string)
    requires acc != ""
    ensures KeyFrom(acc, path, sep) == if path == [] then acc else acc + sep + JoinWith(sep, path)
    decreases |path|
  {
    if path != [] {
      var next := acc + sep + path[0];
      assert next != "";
      KeyFromNonEmpty(next, path[1..], sep);
      if |path| > 1 {
        assert next + sep + JoinWith(sep, path[1..]) == acc + sep + (path[0] + sep + JoinWith(sep, path[1..]));
      }
    }
  }

  /** From the top level (no parent key) a path gets exactly its `FlatKey`. */
  lemma {:induction false} KeyFromTop(path: seq<string>, sep: string)
    ensures KeyFrom("", path, sep) == FlatKey(path, sep)
    decreases |path|
  {
    if path != [] {
      if path[0] == "" {
        assert Prefix("", sep) + path[0] == "";
        KeyFromTop(path[1..], sep);
      } else {
        assert Prefix("", sep) + path[0] == path[0];
        assert DropLeadingEmpty(path) == path;
        KeyFromNonEmpty(path[0], path[1..], sep);
      }
    }
  }

  /** Gives each path of `ts` the key `_flatten_dict` builds for it below `parent`. */
  function KeyAll<T>(parent: string, ts: seq<(seq<string>, Value<T>)>, sep: string): (r: seq<(string, Value<T>)>)
    ensures |r| == |ts|
    ensures forall i :: 0 <= i < |ts| ==> r[i] == (KeyFrom(parent, ts[i].0, sep), ts[i].1)
  {
    seq(|ts|, i requires 0 <= i < |ts| => (KeyFrom(parent, ts[i].0, sep), ts[i].1))
  }

  lemma KeyAllAppend<T>(parent: string, a: seq<(seq<string>, Value<T>)>, b: seq<(seq<string>, Value<T>)>, sep: string)
    ensures KeyAll(parent, a + b, sep) == KeyAll(parent, a, sep) + KeyAll(parent, b, sep)
  {
  }

  lemma KeyAllUnder<T>(parent: string, k: string, ts: seq<(seq<string>, Value<T>)>, sep: string)
    ensures KeyAll(parent, Under(k, ts), sep) == KeyAll(Prefix(parent, sep) + k, ts, sep)
  {
    forall i | 0 <= i < |ts|
      ensures KeyFrom(parent, [k] + ts[i].0, sep) == KeyFrom(Prefix(parent, sep) + k, ts[i].0, sep)
    {
      assert ([k] + ts[i].0)[1..] == ts[i].0;
    }
  }

  /** The pairs `_flatten_dict(d, parent)` yields are the terminals of `d`, keyed below `parent`. */
  lemma {:induction false} EmitIsKeyed<T>(d: seq<(string, Value<T>)>, parent: string, sep: string)
    ensures Emit(d, parent, sep) == KeyAll(parent, Terminals(d), sep)
    decreases d
  {
    if d != [] {
      var k, v := d[0].0, d[0].1;
      assert v < d[0];
      var key := Prefix(parent, sep) + k;
      EmitIsKeyed(d[1..], parent, sep);
      var headT := if v.IsNonEmptyMapping() then Under(k, Terminals(v.entries)) else [([k], v)];
      KeyAllAppend(parent, headT, Terminals(d[1..]), sep);
      if v.IsNonEmptyMapping() {
        EmitIsKeyed(v.entries, key, sep);
        KeyAllUnder(parent, k, Terminals(v.entries), sep);
      } else {
        assert KeyFrom(parent, [k], sep) == KeyFrom(key, [], sep);
      }
    }
  }

  /** The result of `flatten_dict` is `dict` of the expected pairs. */
  lemma FlattenDictIsExpected<T>(d: seq<(string, Value<T>)>, sep: string)
    ensures Emit(d, "", sep) == Expected(d, sep)
    ensures FlattenDict(d, sep) == ToMap(Expected(d, sep))
  {
    EmitIsKeyed(d, "", sep);
    var ts := Terminals(d);
    forall i | 0 <= i < |ts| ensures KeyFrom("", ts[i].0, sep) == FlatKey(ts[i].0, sep) {
      KeyFromTop(ts[i].0, sep);
    }
  }

  // ---------------------------------------------------------------------------
  // The terminals are exactly the values reached by a path that stops at a
  // terminal value, one per path.
  // ---------------------------------------------------------------------------

  /** A Python mapping: no key occurs twice in any mapping of the nesting. */
  ghost predicate WellFormed<T>(d: seq<(string, Value<T>)>)
    decreases d
  {
    d == [] ||
    var v := d[0].1;
    assert v < d[0];
    (forall j :: 1 <= j < |d| ==> d[j].0 != d[0].0) &&
    (v.Node? ==> WellFormed(v.entries)) &&
    WellFormed(d[1..])
  }

  lemma ReachesTail<T>(d: seq<(string, Value<T>)>, path: seq<string>, v: Value<T>)
    requires d != [] && Reaches(d[1..], path, v)
    ensures Reaches(d, path, v)
  {
    var j :| 0 <= j < |d[1..]| && d[1..][j].0 == path[0] &&
      if |path| == 1 then d[1..][j].1 == v
      else d[1..][j].1.Node? && Reaches(d[1..][j].1.entries, path[1..], v);
    assert d[j + 1] == d[1..][j];
  }

  lemma ReachesHead<T>(d: seq<(string, Value<T>)>, path: seq<string>, v: Value<T>)
    requires d != [] && d[0].1.Node? && Reaches(d[0].1.entries, path, v)
    ensures Reaches(d, [d[0].0] + path, v)
  {
    assert ([d[0].0] + path)[1..] == path;
  }

  /** Every path of `Terminals(d)` leads in `d` to its value, which is terminal. */
  lemma {:induction false} TerminalsSound<T>(d: seq<(string, Value<T>)>)
    ensures forall i :: 0 <= i < |Terminals(d)| ==>
      IsTerminal(Terminals(d)[i].1) && Reaches(d, Terminals(d)[i].0, Terminals(d)[i].1)
    decreases d
  {
    if d != [] {
      var k, v := d[0].0, d[0].1;
      assert v < d[0];
      var ts := Terminals(d);
      var headT := if v.IsNonEmptyMapping() then Under(k, Terminals(v.entries)) else [([k], v)];
      var tail := Terminals(d[1..]);
      assert ts == headT + tail;
      TerminalsSound(d[1..]);
      if v.IsNonEmptyMapping() {
        TerminalsSound(v.entries);
      }
      forall i | 0 <= i < |ts| ensures IsTerminal(ts[i].1) && Reaches(d, ts[i].0, ts[i].1) {
        if i < |headT| {
          if v.IsNonEmptyMapping() {
            var inner := Terminals(v.entries);
            assert ts[i] == ([k] + inner[i].0, inner[i].1);
            ReachesHead(d, inner[i].0, inner[i].1);
          } else {
            assert ts[i] == ([k], v);
          }
        } else {
          assert ts[i] == tail[i - |headT|];
          ReachesTail(d, ts[i].0, ts[i].1);
        }
      }
    }
  }

  /** Every path that leads in `d` to a terminal value is one of `Terminals(d)`. */
  lemma {:induction false} TerminalsComplete<T>(d: seq<(string, Value<T>)>, path: seq<string>, v: Value<T>)
    requires Reaches(d, path, v) && IsTerminal(v)
    ensures (path, v) in Terminals(d)
    decreases d
  {
    var k, w := d[0].0, d[0].1;
    assert w < d[0];
    var headT := if w.IsNonEmptyMapping() then Under(k, Terminals(w.entries)) else [([k], w)];
    var tail := Terminals(d[1..]);
    assert Terminals(d) == headT + tail;
    var j :| 0 <= j < |d| && d[j].0 == path[0] &&
      if |path| == 1 then d[j].1 == v
      else d[j].1.Node? && Reaches(d[j].1.entries, path[1..], v);
    if j == 0 {
      if |path| == 1 {
        assert path == [k];
        assert headT[0] == (path, v);
      } else {
        assert w.IsNonEmptyMapping();
        TerminalsComplete(w.entries, path[1..], v);
        var inner := Terminals(w.entries);
        var i :| 0 <= i < |inner| && inner[i] == (path[1..], v);
        assert [k] + path[1..] == path;
        assert headT[i] == (path, v);
      }
    } else {
      assert d[1..][j - 1] == d[j];
      TerminalsComplete(d[1..], path, v);
    }
  }

  /** In a well-formed mapping no two terminals share a path: one pair per leaf. */
  lemma {:induction false} TerminalPathsDistinct<T>(d: seq<(string, Value<T>)>)
    requires WellFormed(d)
    ensures forall i, j :: 0 <= i < j < |Terminals(d)| ==> Terminals(d)[i].0 != Terminals(d)[j].0
    decreases d
  {
    if d != [] {
      var k, v := d[0].0, d[0].1;
      assert v < d[0];
      var ts := Terminals(d);
      var headT := if v.IsNonEmptyMapping() then Under(k, Terminals(v.entries)) else [([k], v)];
      var tail := Terminals(d[1..]);
      assert ts == headT + tail;
      TerminalPathsDistinct(d[1..]);
      TerminalsSound(d[1..]);
      if v.IsNonEmptyMapping() {
        TerminalPathsDistinct(v.entries);
      }
      forall i, j | 0 <= i < j < |ts| ensures ts[i].0 != ts[j].0 {
        if j < |headT| {
          if v.IsNonEmptyMapping() {
            var inner := Terminals(v.entries);
            assert inner[i].0 != inner[j].0;
            assert ts[i].0[1..] == inner[i].0 && ts[j].0[1..] == inner[j].0;
          }
        } else if i >= |headT| {
          assert ts[i] == tail[i - |headT|] && ts[j] == tail[j - |headT|];
        } else {
          assert ts[i].0[0] == k;
          var p := tail[j - |headT|].0;
          assert ts[j].0 == p;
          assert Reaches(d[1..], p, tail[j - |headT|].1);
          var m :| 0 <= m < |d[1..]| && d[1..][m].0 == p[0] &&
            if |p| == 1 then d[1..][m].1 == tail[j - |headT|].1
            else d[1..][m].1.Node? && Reaches(d[1..][m].1.entries, p[1..], tail[j - |headT|].1);
          assert d[m + 1].0 != k;
        }
      }
    }
  }

  // ---------------------------------------------------------------------------
  // What `flatten_dict` promises.
  // ---------------------------------------------------------------------------

  /**
   * Every terminal value is yielded under the key of its path. In particular a
   * value equal to the empty mapping is yielded as it is, under its full path.
   */
  lemma YieldedUnderFlatKey<T>(d: seq<(string, Value<T>)>, path: seq<string>, v: Value<T>, sep: string)
    requires Reaches(d, path, v) && IsTerminal(v)
    ensures (FlatKey(path, sep), v) in Emit(d, "", sep)
  {
    FlattenDictIsExpected(d, sep);
    TerminalsComplete(d, path, v);
    var ts := Terminals(d);
    var i :| 0 <= i < |ts| && ts[i] == (path, v);
    assert Expected(d, sep)[i] == (FlatKey(path, sep), v);
  }

  /** A path of one key is given that key. */
  lemma FlatKeySingle(k: string, sep: string)
    ensures FlatKey([k], sep) == k
  {
    if k == "" {
      assert [k][1..] == [];
      assert DropLeadingEmpty([k]) == [];
    }
  }

  /** A top-level key carries no prefix. */
  lemma TopLevelKey<T>(d: seq<(string, Value<T>)>, j: int, sep: string)
    requires 0 <= j < |d| && IsTerminal(d[j].1)
    ensures d[j] in Emit(d, "", sep)
  {
    assert Reaches(d, [d[j].0], d[j].1);
    YieldedUnderFlatKey(d, [d[j].0], d[j].1, sep);
    FlatKeySingle(d[j].0, sep);
  }

  /**
   * A terminal value one level down gets the parent key, the separator and its
   * own key, except that an empty parent key adds no separator.
   */
  lemma NestedKey<T>(d: seq<(string, Value<T>)>, j: int, c: int, sep: string)
    requires 0 <= j < |d| && d[j].1.Node? && 0 <= c < |d[j].1.entries|
    requires IsTerminal(d[j].1.entries[c].1)
    ensures var k, e := d[j].0, d[j].1.entries[c];
      (if k == "" then e.0 else k + sep + e.0, e.1) in Emit(d, "", sep)
  {
    var k, e := d[j].0, d[j].1.entries[c];
    var path := [k, e.0];
    assert path[1..] == [e.0];
    assert Reaches(d[j].1.entries, [e.0], e.1);
    assert Reaches(d, path, e.1);
    YieldedUnderFlatKey(d, path, e.1, sep);
    if k == "" {
      assert DropLeadingEmpty(path) == DropLeadingEmpty([e.0]);
      FlatKeySingle(e.0, sep);
    } else {
      assert DropLeadingEmpty(path) == path;
      assert JoinWith(sep, path) == k + sep + JoinWith(sep, [e.0]);
    }
  }

  /** The keys of the result are exactly the keys of the paths to terminal values. */
  lemma FlattenDictKeys<T>(d: seq<(string, Value<T>)>, sep: string, key: string)
    ensures key in FlattenDict(d, sep) <==>
      exists path, v :: Reaches(d, path, v) && IsTerminal(v) && FlatKey(path, sep) == key
  {
    FlattenDictIsExpected(d, sep);
    var e := Expected(d, sep);
    var ts := Terminals(d);
    if key in FlattenDict(d, sep) {
      assert key in Keys(e);
      var i :| 0 <= i < |e| && e[i].0 == key;
      TerminalsSound(d);
      assert Reaches(d, ts[i].0, ts[i].1) && IsTerminal(ts[i].1);
    }
    if exists path, v :: Reaches(d, path, v) && IsTerminal(v) && FlatKey(path, sep) == key {
      var path, v :| Reaches(d, path, v) && IsTerminal(v) && FlatKey(path, sep) == key;
      YieldedUnderFlatKey(d, path, v, sep);
      var i :| 0 <= i < |e| && e[i] == (key, v);
      assert key in Keys(e);
    }
  }

  /**
   * Values pass through unchanged: each value of the result is the value that
   * some path with that key reaches, and it is the last such value in
   * depth-first order, so when two paths produce the same key the later wins.
   */
  lemma FlattenDictValue<T>(d: seq<(string, Value<T>)>, sep: string, key: string)
    ensures key in FlattenDict(d, sep) ==>
      exists i :: (0 <= i < |Terminals(d)| && IsLastKey(d, sep, i) &&
                         FlatKey(Terminals(d)[i].0, sep) == key &&
                         Terminals(d)[i].1 == FlattenDict(d, sep)[key] &&
                         Reaches(d, Terminals(d)[i].0, Terminals(d)[i].1))
  {
    if key !in FlattenDict(d, sep) {
      return;
    }
    FlattenDictIsExpected(d, sep);
    var e := Expected(d, sep);
    var ts := Terminals(d);
    ToMapLastOccurrence(e, key);
    var i :| IsLastFor(e, i) && e[i].0 == key && ToMap(e)[key] == e[i].1;
    assert IsLastKey(d, sep, i) by {
      forall j | i < j < |ts| ensures FlatKey(ts[j].0, sep) != FlatKey(ts[i].0, sep) {
        assert e[j].0 == FlatKey(ts[j].0, sep);
      }
    }
    TerminalsSound(d);
    assert Reaches(d, ts[i].0, ts[i].1);
  }

  /** No terminal after the `i`-th is given the same key. */
  ghost predicate IsLastKey<T>(d: seq<(string, Value<T>)>, sep: string, i: int)
    requires 0 <= i < |Terminals(d)|
  {
    var ts := Terminals(d);
    forall j :: i < j < |ts| ==> FlatKey(ts[j].0, sep) != FlatKey(ts[i].0, sep)
  }

  /** The value of a key in the result is that of the last terminal with that key. */
  lemma LaterKeyWins<T>(d: seq<(string, Value<T>)>, sep: string, i: int)
    requires 0 <= i < |Terminals(d)| && IsLastKey(d, sep, i)
    ensures FlatKey(Terminals(d)[i].0, sep) in FlattenDict(d, sep)
    ensures FlattenDict(d, sep)[FlatKey(Terminals(d)[i].0, sep)] == Terminals(d)[i].1
  {
    FlattenDictIsExpected(d, sep);
    var e := Expected(d, sep);
    assert IsLastFor(e, i);
  }

  /**
   * In a Python mapping every path to a terminal value yields exactly one
   * pair, and the pairs come in depth-first order of the keys.
   */
  lemma OnePairPerLeaf<T>(d: seq<(string, Value<T>)>, path: seq<string>, v: Value<T>)
    requires WellFormed(d) && Reaches(d, path, v) && IsTerminal(v)
    ensures exists i :: (0 <= i < |Terminals(d)| && Terminals(d)[i] == (path, v) &&
                         forall j :: 0 <= j < |Terminals(d)| && j != i ==> Terminals(d)[j].0 != path)
  {
    TerminalsComplete(d, path, v);
    TerminalPathsDistinct(d);
    var ts := Terminals(d);
    var i :| 0 <= i < |ts| && ts[i] == (path, v);
    assert forall j :: 0 <= j < |ts| && j != i ==> ts[j].0 != path;
  }

  /** `flatten_dict({})` is `{}`. */
  lemma FlattenEmpty<T>(sep: string)
    ensures FlattenDict<T>([], sep) == map[]
  {
  }

  /** One step of `_flatten_dict`: the first entry's pairs, then the rest's. */
  lemma EmitStep<T>(d: seq<(string, Value<T>)>, parent: string, sep: string)
    requires d != []
    ensures var key := Prefix(parent, sep) + d[0].0;
      Emit(d, parent, sep) ==
        (if d[0].1.IsNonEmptyMapping() then Emit(d[0].1.entries, key, sep) else [(key, d[0].1)])
        + Emit(d[1..], parent, sep)
  {
  }

  /** `flatten_dict({'a': {}})` keeps the empty mapping. */
  lemma ExampleEmptyMappingKept()
    ensures FlattenDict<int>([("a", Node([]))], DefaultSep) == map["a" := Node([])]
  {
    var d: seq<(string, Value<int>)> := [("a", Node([]))];
    EmitStep(d, "", DefaultSep);
    assert d[1..] == [];
    assert !d[0].1.IsNonEmptyMapping();
    assert Prefix("", DefaultSep) + "a" == "a";
    assert Emit(d, "", DefaultSep) == [("a", Node([]))];
    ToMapSnoc([], ("a", d[0].1));
  }

  /** `flatten_dict({'a': {'b': 1, 'c': {'d': 2}}})` is `{'a.b': 1, 'a.c.d': 2}`. */
  lemma ExampleNested()
    ensures FlattenDict([("a", Node([("b", Leaf(1)), ("c", Node([("d", Leaf(2))]))]))], DefaultSep)
      == map["a.b" := Leaf(1), "a.c.d" := Leaf(2)]
  {
    var cd: seq<(string, Value<int>)> := [("d", Leaf(2))];
    var a: seq<(string, Value<int>)> := [("b", Leaf(1)), ("c", Node(cd))];
    var d := [("a", Node(a))];
    var out := [("a.b", Leaf(1)), ("a.c.d", Leaf(2))];
    assert Emit(cd, "a.c", DefaultSep) == out[1..] by {
      EmitStep(cd, "a.c", DefaultSep);
      assert cd[1..] == [];
      assert Prefix("a.c", DefaultSep) + "d" == "a.c.d";
    }
    assert Emit(a[1..], "a", DefaultSep) == out[1..] by {
      EmitStep(a[1..], "a", DefaultSep);
      assert a[1..][1..] == [];
      assert Prefix("a", DefaultSep) + "c" == "a.c";
    }
    assert Emit(a, "a", DefaultSep) == out by {
      EmitStep(a, "a", DefaultSep);
      assert Prefix("a", DefaultSep) + "b" == "a.b";
      assert out == [out[0]] + out[1..];
    }
    assert Emit(d, "", DefaultSep) == out by {
      EmitStep(d, "", DefaultSep);
      assert d[1..] == [];
      assert Prefix("", DefaultSep) + "a" == "a";
    }
    ToMapSnoc([], ("a.b", Leaf(1)));
    ToMapSnoc([("a.b", Leaf(1))], ("a.c.d", Leaf(2)));
  }

  /** `flatten_dict({'a': 1, 'b': {'a': 2}})` is `{'a': 1, 'b.a': 2}`. */
  lemma ExampleDistinctPrefixes()
    ensures FlattenDict([("a", Leaf(1)), ("b", Node([("a", Leaf(2))]))], DefaultSep)
      == map["a" := Leaf(1), "b.a" := Leaf(2)]
  {
    var b: seq<(string, Value<int>)> := [("a", Leaf(2))];
    var d := [("a", Leaf(1)), ("b", Node(b))];
    EmitStep(b, "b", DefaultSep);
    assert b[1..] == [];
    assert Prefix("b", DefaultSep) + "a" == "b.a";
    EmitStep(d[1..], "", DefaultSep);
    assert d[1..][1..] == [];
    EmitStep(d, "", DefaultSep);
    assert Prefix("", DefaultSep) + "a" == "a";
    assert Prefix("", DefaultSep) + "b" == "b";
    assert Emit(d, "", DefaultSep) == [("a", Leaf(1)), ("b.a", Leaf(2))];
    ToMapSnoc([], ("a", Leaf(1)));
    ToMapSnoc([("a", Leaf(1))], ("b.a", Leaf(2)));
  }

  /** `flatten_dict({'': {'a': 1}})` is `{'a': 1}`: the empty parent key adds no separator. */
  lemma ExampleEmptyParentKey()
    ensures FlattenDict([("", Node([("a", Leaf(1))]))], DefaultSep) == map["a" := Leaf(1)]
  {
    var inner: seq<(string, Value<int>)> := [("a", Leaf(1))];
    var d := [("", Node(inner))];
    EmitStep(inner, "", DefaultSep);
    assert inner[1..] == [];
    assert Prefix("", DefaultSep) + "a" == "a";
    EmitStep(d, "", DefaultSep);
    assert d[1..] == [];
    assert Prefix("", DefaultSep) + "" == "";
    assert Emit(d, "", DefaultSep) == [("a", Leaf(1))];
    ToMapSnoc([], ("a", Leaf(1)));
  }

  /** `flatten_dict({'a.b': 1, 'a': {'b': 2}})` is `{'a.b': 2}`: the later pair wins. */
  lemma ExampleCollisionLastWins()
    ensures FlattenDict([("a.b", Leaf(1)), ("a", Node([("b", Leaf(2))]))], DefaultSep) == map["a.b" := Leaf(2)]
  {
    var inner: seq<(string, Value<int>)> := [("b", Leaf(2))];
    var d := [("a.b", Leaf(1)), ("a", Node(inner))];
    EmitStep(inner, "a", DefaultSep);
    assert inner[1..] == [];
    assert Prefix("a", DefaultSep) + "b" == "a.b";
    EmitStep(d[1..], "", DefaultSep);
    assert d[1..][1..] == [];
    EmitStep(d, "", DefaultSep);
    assert Prefix("", DefaultSep) + "a.b" == "a.b";
    assert Prefix("", DefaultSep) + "a" == "a";
    assert Emit(d, "", DefaultSep) == [("a.b", Leaf(1)), ("a.b", Leaf(2))];
    ToMapSnoc([], ("a.b", Leaf(1)));
    ToMapSnoc([("a.b", Leaf(1))], ("a.b", Leaf(2)));
  }

  /**
   * Flattening loses the nesting: `{'a.b': 1}` and `{'a': {'b': 1}}` flatten to
   * the same mapping, so no re-nesting of the result can give back both.
   */
  lemma FlattenNotInjective()
    ensures var flat: seq<(string, Value<int>)> := [("a.b", Leaf(1))];
      var nested: seq<(string, Value<int>)> := [("a", Node([("b", Leaf(1))]))];
      flat != nested && FlattenDict(flat, DefaultSep) == FlattenDict(nested, DefaultSep)
  {
    var flat: seq<(string, Value<int>)> := [("a.b", Leaf(1))];
    var inner: seq<(string, Value<int>)> := [("b", Leaf(1))];
    var nested := [("a", Node(inner))];
    assert flat[0].0 != nested[0].0;
    assert Emit(flat, "", DefaultSep) == [("a.b", Leaf(1))] by {
      EmitStep(flat, "", DefaultSep);
      assert flat[1..] == [];
      assert Prefix("", DefaultSep) + "a.b" == "a.b";
    }
    assert Emit(nested, "", DefaultSep) == [("a.b", Leaf(1))] by {
      EmitStep(inner, "a", DefaultSep);
      assert inner[1..] == [];
      assert Prefix("a", DefaultSep) + "b" == "a.b";
      EmitStep(nested, "", DefaultSep);
      assert nested[1..] == [];
      assert Prefix("", DefaultSep) + "a" == "a";
    }
  }
}
