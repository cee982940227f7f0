/**
 * Status conditions as a list-map keyed by condition type, and the
 * upsert-by-type that the operator uses to record one condition.
 */
module StatusConditions {
  import opened Kube

  /** At most one condition per type: the list-map invariant. */
  predicate UniqueTypes(cs: seq<Condition>) {
    forall i, j :: 0 <= i < j < |cs| ==> cs[i].condType != cs[j].condType
  }

  /** Whether some condition of type t is present. */
  predicate HasType(cs: seq<Condition>, t: string) {
    exists i :: 0 <= i < |cs| && cs[i].condType == t
  }

  /** The position of the first condition of type t, or |cs| when there is none. */
  function IndexOf(cs: seq<Condition>, t: string): (k: nat)
    ensures k <= |cs|
    ensures k < |cs| ==> cs[k].condType == t
    ensures forall i :: 0 <= i < k ==> cs[i].condType != t
    ensures k == |cs| <==> !HasType(cs, t)
  {
    if cs == [] then 0
    else if cs[0].condType == t then 0
    else 1 + IndexOf(cs[1..], t)
  }

  /** The condition of type t, when there is one. */
  function Find(cs: seq<Condition>, t: string): (r: Option<Condition>)
    ensures r.Some? <==> HasType(cs, t)
    ensures r.Some? ==> r.value.condType == t && r.value in cs
  {
    var k := IndexOf(cs, t);
    if k < |cs| then Some(cs[k]) else None
  }

  /**
   * Records c: the first condition of c's type is replaced in place by c when
   * there is one, otherwise c is appended. Every other entry keeps its value
   * and its position.
   */
  function Upsert(cs: seq<Condition>, c: Condition): (r: seq<Condition>)
    ensures |r| == if HasType(cs, c.condType) then |cs| else |cs| + 1
    ensures r[IndexOf(cs, c.condType)] == c
    ensures forall i :: 0 <= i < |cs| && i != IndexOf(cs, c.condType) ==> r[i] == cs[i]
  {
    var k := IndexOf(cs, c.condType);
    if k < |cs| then cs[k := c] else cs + [c]
  }

  /** After an upsert of c, looking up c's type yields c, and every other lookup is unchanged. */
  lemma FindAfterUpsert(cs: seq<Condition>, c: Condition, t: string)
    ensures Find(Upsert(cs, c), t) == if t == c.condType then Some(c) else Find(cs, t)
  {
    var r := Upsert(cs, c);
    var k := IndexOf(cs, c.condType);
    var j := IndexOf(cs, t);
    if t == c.condType {
      assert IndexOf(r, t) == k;
    } else if j < |cs| {
      assert j != k;
      assert IndexOf(r, t) == j;
    } else {
      assert !HasType(r, t);
    }
  }

  /** An upsert keeps the list-map invariant, and the types present grow by at most c's type. */
  lemma UpsertKeepsUniqueTypes(cs: seq<Condition>, c: Condition)
    requires UniqueTypes(cs)
    ensures UniqueTypes(Upsert(cs, c))
    ensures forall t :: HasType(Upsert(cs, c), t) <==> HasType(cs, t) || t == c.condType
  {
    var r := Upsert(cs, c);
    var k := IndexOf(cs, c.condType);
    forall i, j | 0 <= i < j < |r| ensures r[i].condType != r[j].condType {
      if i != k && j != k {
        assert r[i] == cs[i];
        if j < |cs| { assert r[j] == cs[j]; }
      } else if i == k {
        if j < |cs| { assert r[j] == cs[j]; }
      } else {
        assert r[i] == cs[i];
      }
    }
    forall t ensures HasType(r, t) <==> HasType(cs, t) || t == c.condType {
      FindAfterUpsert(cs, c, t);
    }
  }

  /** Every recorded condition was observed at generation g or earlier. */
  predicate ObservedAtMost(cs: seq<Condition>, g: int) {
    forall i :: 0 <= i < |cs| ==> cs[i].observedGeneration <= g
  }

  /** Upserting a condition observed at g or earlier keeps every condition observed at g or earlier. */
  lemma UpsertKeepsObservedAtMost(cs: seq<Condition>, c: Condition, g: int)
    requires ObservedAtMost(cs, g) && c.observedGeneration <= g
    ensures ObservedAtMost(Upsert(cs, c), g)
  {
    var r := Upsert(cs, c);
    var k := IndexOf(cs, c.condType);
    forall i | 0 <= i < |r| ensures r[i].observedGeneration <= g {
      if i != k {
        assert r[i] == cs[i];
      }
    }
  }

  /** Upserting a condition that is already recorded changes nothing. */
  lemma UpsertPresent(cs: seq<Condition>, c: Condition)
    requires UniqueTypes(cs) && c in cs
    ensures Upsert(cs, c) == cs
  {
    var m :| 0 <= m < |cs| && cs[m] == c;
    assert IndexOf(cs, c.condType) == m;
  }

  /** Upserting the condition already found for its type changes nothing. */
  lemma UpsertFound(cs: seq<Condition>, c: Condition)
    requires Find(cs, c.condType) == Some(c)
    ensures Upsert(cs, c) == cs
  {
  }

  /** A later upsert of the same type overrides an earlier one. */
  lemma UpsertOverrides(cs: seq<Condition>, a: Condition, b: Condition)
    requires a.condType == b.condType
    ensures Upsert(Upsert(cs, a), b) == Upsert(cs, b)
  {
    var ra := Upsert(cs, a);
    var k := IndexOf(cs, a.condType);
    assert IndexOf(ra, a.condType) == k;
  }

  /** An upsert keeps every recorded condition of another type. */
  lemma UpsertKeepsOthers(cs: seq<Condition>, c: Condition, x: Condition)
    requires x in cs && x.condType != c.condType
    ensures x in Upsert(cs, c)
  {
    var m :| 0 <= m < |cs| && cs[m] == x;
    assert Upsert(cs, c)[m] == x;
  }
}
