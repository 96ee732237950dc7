/**
 Symbolic links as a graph: a name leads to the name its link points at, or is
 a regular file. os.Stat follows links; what happens to its answer when files
 are moved is decided by the names on the way.
 */
module Links {
  import opened Wrappers

  /** A link leads to a name, a regular file nowhere. */
  type Graph<K> = map<K, Option<K>>

  /** The regular file a name leads to over at most `hops` links. */
  function Follow<K>(g: Graph<K>, p: K, hops: nat): (r: Option<K>)
    ensures r.Some? ==> r.value in g && g[r.value].None?
    decreases hops
  {
    if p !in g then None
    else if g[p].None? then Some(p)
    else if hops == 0 then None
    else Follow(g, g[p].value, hops - 1)
  }

  /** The way from p to a regular file avoids these names. */
  predicate Steady<K>(g: Graph<K>, risky: set<K>, p: K, hops: nat)
    decreases hops
  {
    p in g && p !in risky && (g[p].None? || (hops > 0 && Steady(g, risky, g[p].value, hops - 1)))
  }

  /** The way from p comes past w. */
  predicate Visits<K(==)>(g: Graph<K>, p: K, hops: nat, w: K)
    decreases hops
  {
    p == w || (p in g && g[p].Some? && hops > 0 && Visits(g, g[p].value, hops - 1, w))
  }

  /** Where the way from p ends, in a regular file or not. */
  function End<K>(g: Graph<K>, p: K, hops: nat): K
    decreases hops
  {
    if p !in g || g[p].None? || hops == 0 then p else End(g, g[p].value, hops - 1)
  }

  /** Every name but the risky ones leads where it led. */
  ghost predicate Agree<K>(g: Graph<K>, g': Graph<K>, risky: set<K>) {
    forall q | q in g && q !in risky :: q in g' && g'[q] == g[q]
  }

  lemma {:induction false} SteadyFollows<K>(g: Graph<K>, g': Graph<K>, risky: set<K>, p: K, hops: nat)
    requires Steady(g, risky, p, hops) && Agree(g, g', risky)
    ensures Follow(g', p, hops).Some?
    decreases hops
  {
    if g[p].Some? {
      SteadyFollows(g, g', risky, g[p].value, hops - 1);
    }
  }

  lemma {:induction false} SteadyStays<K>(g: Graph<K>, g': Graph<K>, risky: set<K>, risky': set<K>, p: K, hops: nat)
    requires Steady(g, risky, p, hops) && Agree(g, g', risky)
    requires forall q | q in g && q in risky' :: q in risky
    ensures Steady(g', risky', p, hops)
    decreases hops
  {
    if g[p].Some? {
      SteadyStays(g, g', risky, risky', g[p].value, hops - 1);
    }
  }

  /** Taking away a name on the way breaks it. */
  lemma {:induction false} BreaksAt<K>(g: Graph<K>, g': Graph<K>, p: K, hops: nat, w: K)
    requires Visits(g, p, hops, w) && w !in g' && Agree(g, g', {w})
    ensures Follow(g', p, hops).None?
    decreases hops
  {
    if p != w {
      BreaksAt(g, g', g[p].value, hops - 1, w);
    }
  }

  lemma {:induction false} FewerHops<K>(g: Graph<K>, p: K, fewer: nat, hops: nat, w: K)
    requires fewer <= hops && Follow(g, p, fewer).Some?
    ensures Follow(g, p, hops) == Follow(g, p, fewer) && (Visits(g, p, hops, w) <==> Visits(g, p, fewer, w))
    decreases hops
  {
    if g[p].Some? {
      FewerHops(g, g[p].value, fewer - 1, hops - 1, w);
    }
  }

  lemma {:induction false} FromThere<K>(g: Graph<K>, p: K, hops: nat, w: K) returns (left: nat)
    requires Visits(g, p, hops, w) && Follow(g, p, hops).Some?
    ensures left <= hops && Follow(g, w, left).Some?
    decreases hops
  {
    if p == w {
      left := hops;
    } else {
      left := FromThere(g, g[p].value, hops - 1, w);
    }
  }

  /** A way that ends never comes back to the link it started from. */
  lemma {:induction false} NoReturn<K>(g: Graph<K>, p: K, hops: nat)
    requires p in g && g[p].Some? && Follow(g, g[p].value, hops).Some?
    ensures !Visits(g, g[p].value, hops, p)
    decreases hops
  {
    var q := g[p].value;
    if Visits(g, q, hops, p) {
      var left := FromThere(g, q, hops, p);
      NoReturn(g, p, left - 1);
      FewerHops(g, q, left - 1, hops, p);
    }
  }

  /** A way that ends is steady, or comes past a risky name. */
  lemma {:induction false} SteadyOrVisits<K>(g: Graph<K>, risky: set<K>, p: K, hops: nat) returns (w: K)
    requires Follow(g, p, hops).Some? && !Steady(g, risky, p, hops)
    ensures w in risky && w in g && Visits(g, p, hops, w)
    decreases hops
  {
    if p in risky {
      w := p;
    } else {
      w := SteadyOrVisits(g, risky, g[p].value, hops - 1);
    }
  }

  /** A way that comes past neither is there in a graph that has all the names but x, whose names do not matter. */
  lemma {:induction false} SteadyWithout<K>(g: Graph<K>, g': Graph<K>, risky: set<K>, p: K, hops: nat, x: K)
    requires Steady(g, risky, p, hops) && !Visits(g, p, hops, x) && Agree(g, g', {x})
    ensures Steady(g', risky, p, hops)
    decreases hops
  {
    if g[p].Some? {
      SteadyWithout(g, g', risky, g[p].value, hops - 1, x);
    }
  }

  /** A new regular file makes a way steady only if it is put where the way ended. */
  lemma {:induction false} SteadyThroughNew<K>(g: Graph<K>, risky: set<K>, p: K, hops: nat, y: K)
    requires y !in g && y != End(g, p, hops) && Steady(g[y := None], risky, p, hops)
    ensures Steady(g, risky, p, hops)
    decreases hops
  {
    if p in g && g[p].Some? {
      SteadyThroughNew(g, risky, g[p].value, hops - 1, y);
    }
  }
}
