/** Searching a record whose keys are day numbers.

    The components keep their columns in a `Record<string, ...>` whose keys
    are the canonical integer strings "1", "2", ...; `Object.keys` lists such
    keys in ascending numeric order. The model keys these maps by `nat`, so
    "the first key `Object.keys(...).find` meets" is the smallest key. */
module Keys {
  import opened Seqs

  /** A set of naturals holding `x` has a least element: descend from `x`
      while a smaller element exists. */
  lemma {:induction false} HasLeast(s: set<nat>, x: nat)
    requires x in s
    ensures exists r :: r in s && forall k :: k in s ==> r <= k
    decreases x
  {
    if exists k :: k in s && k < x {
      var k :| k in s && k < x;
      HasLeast(s, k);
    } else {
      assert forall k :: k in s ==> x <= k;
    }
  }

  /** The smallest key, i.e. the one `Object.keys` lists first. */
  function MinKey(s: set<nat>): (r: nat)
    requires s != {}
    ensures r in s && forall k :: k in s ==> r <= k
  {
    var x :| x in s;
    HasLeast(s, x);
    var r :| r in s && forall k :: k in s ==> r <= k; r
  }

  /** `Object.keys(m).find(key => holds(m[key]))`: the first key, in
      ascending order, whose entry satisfies `holds`; `None` when no entry does. */
  function FirstKeyWhere<V>(m: map<nat, V>, holds: V -> bool): (r: Option<nat>)
    ensures r.Some? ==> r.value in m && holds(m[r.value])
    ensures r.Some? ==> forall k :: k in m && k < r.value ==> !holds(m[k])
    ensures r.None? <==> forall k :: k in m ==> !holds(m[k])
    decreases |m|
  {
    if |m| == 0 then None
    else
      var k := MinKey(m.Keys);
      if holds(m[k]) then Some(k)
      else
        var rest := m - {k};
        assert forall j :: j in m ==> j == k || (j in rest && rest[j] == m[j]);
        FirstKeyWhere(rest, holds)
  }
}
