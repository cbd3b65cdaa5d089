/**
 * Ordered association lists and the way Python's `dict(...)` constructor (and a
 * dict comprehension) turns a sequence of key/value pairs into a mapping:
 * every key that occurs becomes a key of the mapping, and when a key occurs
 * more than once the value of its LAST occurrence wins.
 */
module AssocList {

  /** Index `i` holds the last pair of `ps` whose key is `ps[i].0`. */
  ghost predicate IsLastFor<K, V>(ps: seq<(K, V)>, i: int)
  {
    0 <= i < |ps| && forall j :: i < j < |ps| ==> ps[j].0 != ps[i].0
  }

  /** The keys that occur in `ps`. */
  function Keys<K, V>(ps: seq<(K, V)>): set<K>
  {
    set i | 0 <= i < |ps| :: ps[i].0
  }

  /** `dict(ps)`: the mapping built from the pairs of `ps`, left to right. */
  function ToMap<K, V>(ps: seq<(K, V)>): (m: map<K, V>)
    ensures m.Keys == Keys(ps)
    ensures forall i :: IsLastFor(ps, i) ==> m[ps[i].0] == ps[i].1
  {
    if ps == [] then map[]
    else
      var init, last := ps[..|ps| - 1], ps[|ps| - 1];
      KeysSnoc(init, last);
      LastForInit(ps);
      ToMap(init)[last.0 := last.1]
  }

  lemma KeysSnoc<K, V>(ps: seq<(K, V)>, p: (K, V))
    ensures Keys(ps + [p]) == Keys(ps) + {p.0}
  {
    var qs := ps + [p];
    forall k | k in Keys(qs) ensures k in Keys(ps) + {p.0} {
      var i :| 0 <= i < |qs| && qs[i].0 == k;
      if i < |ps| {
        assert qs[i] == ps[i];
      }
    }
    forall k | k in Keys(ps) + {p.0} ensures k in Keys(qs) {
      if k in Keys(ps) {
        var i :| 0 <= i < |ps| && ps[i].0 == k;
        assert qs[i] == ps[i];
      } else {
        assert qs[|ps|] == p;
      }
    }
  }

  lemma LastForInit<K, V>(ps: seq<(K, V)>)
    requires ps != []
    ensures ps == ps[..|ps| - 1] + [ps[|ps| - 1]]
    ensures forall i :: IsLastFor(ps, i) && i < |ps| - 1 ==>
      IsLastFor(ps[..|ps| - 1], i) && ps[i].0 != ps[|ps| - 1].0
  {
  }

  /** Every key of `dict(ps)` is held by a last occurrence, whose value it maps to. */
  lemma {:induction false} ToMapLastOccurrence<K, V>(ps: seq<(K, V)>, k: K)
    ensures k in ToMap(ps) <==> exists i :: IsLastFor(ps, i) && ps[i].0 == k && ToMap(ps)[k] == ps[i].1
  {
    if k !in ToMap(ps) {
      return;
    }
    assert k in Keys(ps);
    var i :| 0 <= i < |ps| && ps[i].0 == k;
    while !IsLastFor(ps, i)
      invariant 0 <= i < |ps| && ps[i].0 == k
      decreases |ps| - i
    {
      var j :| i < j < |ps| && ps[j].0 == k;
      i := j;
    }
  }

  /** Adding a pair at the end overrides any earlier pair with its key. */
  lemma ToMapSnoc<K, V>(ps: seq<(K, V)>, p: (K, V))
    ensures ToMap(ps + [p]) == ToMap(ps)[p.0 := p.1]
  {
    assert (ps + [p])[..|ps|] == ps;
  }
}
