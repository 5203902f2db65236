/** The flat constant-propagation lattice and the variable environments
    ("lattice element maps") threaded through the analysis.

    The bodies of the join, the map join and the map equality live in a
    header that is not part of this model; they are defined here by their
    documented meaning: BOTTOM is the identity of the join, TOP absorbs, two
    equal constants join to themselves and two different constants to TOP.
    A key missing from a map counts as BOTTOM in joins and comparisons. */
module Lattice {

  datatype LatticeElem = Top | Bottom | Const(value: int)

  /** The lattice order: BOTTOM below every constant, every constant below TOP,
      distinct constants incomparable. */
  predicate Leq(a: LatticeElem, b: LatticeElem)
  {
    a == Bottom || b == Top || a == b
  }

  /** Least upper bound of two lattice elements. */
  function Join(a: LatticeElem, b: LatticeElem): (r: LatticeElem)
    ensures Leq(a, r) && Leq(b, r)
    ensures forall c :: Leq(a, c) && Leq(b, c) ==> Leq(r, c)
  {
    if a == Bottom then b
    else if b == Bottom then a
    else if a == b then a
    else Top
  }

  lemma LeqIsPartialOrder(a: LatticeElem, b: LatticeElem, c: LatticeElem)
    ensures Leq(a, a)
    ensures Leq(a, b) && Leq(b, a) ==> a == b
    ensures Leq(a, b) && Leq(b, c) ==> Leq(a, c)
  {
  }

  lemma JoinAlgebra(a: LatticeElem, b: LatticeElem, c: LatticeElem)
    ensures Join(a, b) == Join(b, a)
    ensures Join(Join(a, b), c) == Join(a, Join(b, c))
    ensures Join(a, a) == a
    ensures Join(Bottom, a) == a && Join(a, Bottom) == a
    ensures Join(Top, a) == Top && Join(a, Top) == Top
  {
  }

  /** Two different constants are incomparable, so their join gives up. */
  lemma JoinDistinctConstants(v: int, w: int)
    requires v != w
    ensures Join(Const(v), Const(w)) == Top
    ensures !Leq(Const(v), Const(w)) && !Leq(Const(w), Const(v))
  {
  }

  /** Abstract program state at a program point: variable name to lattice element. */
  type Env = map<string, LatticeElem>

  /** Value of a name for joins and comparisons: a missing key is BOTTOM. */
  function Get(m: Env, x: string): (r: LatticeElem)
    ensures x !in m ==> r == Bottom
    ensures x in m ==> r == m[x]
  {
    if x in m then m[x] else Bottom
  }

  /** The map join: `dst` receives, for every name of either map, the join of
      the two values. */
  function JoinMaps(dst: Env, src: Env): (r: Env)
    ensures r.Keys == dst.Keys + src.Keys
    ensures forall x :: Get(r, x) == Join(Get(dst, x), Get(src, x))
  {
    map x | x in dst.Keys + src.Keys :: Join(Get(dst, x), Get(src, x))
  }

  /** Equality of two maps over the union of their keys, with missing keys as BOTTOM. */
  predicate MapsEqual(a: Env, b: Env)
  {
    forall x :: x in a.Keys + b.Keys ==> Get(a, x) == Get(b, x)
  }

  /** Pointwise order on maps (outside both key sets both values are BOTTOM). */
  predicate EnvLeq(a: Env, b: Env)
  {
    forall x :: x in a.Keys + b.Keys ==> Leq(Get(a, x), Get(b, x))
  }

  lemma MapsEqualMeansSameValues(a: Env, b: Env)
    ensures MapsEqual(a, b) <==> forall x :: Get(a, x) == Get(b, x)
  {
  }

  /** The map join is an upper bound of both maps, and the least one. */
  lemma JoinMapsIsLub(a: Env, b: Env, c: Env)
    ensures EnvLeq(a, JoinMaps(a, b)) && EnvLeq(b, JoinMaps(a, b))
    ensures EnvLeq(a, c) && EnvLeq(b, c) ==> EnvLeq(JoinMaps(a, b), c)
  {
    if EnvLeq(a, c) && EnvLeq(b, c) {
      forall x ensures Leq(Get(JoinMaps(a, b), x), Get(c, x)) {
        assert Leq(Get(a, x), Get(c, x)) && Leq(Get(b, x), Get(c, x));
      }
    }
  }

  lemma JoinMapsCommutes(a: Env, b: Env)
    ensures JoinMaps(a, b) == JoinMaps(b, a)
  {
    var l, r := JoinMaps(a, b), JoinMaps(b, a);
    forall x | x in l.Keys ensures l[x] == r[x] {
      assert Get(l, x) == Join(Get(a, x), Get(b, x));
      JoinAlgebra(Get(a, x), Get(b, x), Bottom);
    }
  }

  /** Joining a map with itself changes no value. */
  lemma JoinMapsIdempotent(a: Env)
    ensures JoinMaps(a, a) == a
  {
    var r := JoinMaps(a, a);
    forall x | x in r.Keys ensures r[x] == a[x] {
      assert Get(r, x) == Join(Get(a, x), Get(a, x));
    }
  }
}
