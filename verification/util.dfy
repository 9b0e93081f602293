/**
 * The two small containers of the solver's utilities: a disjoint-set
 * forest over block ids with path halving, and the stack of block ids
 * that tracks the current scope.
 */
module Util {
  import opened Common

  /**
   * A forest: every key's parent is a key, and walking to a parent
   * strictly raises a ghost rank, so every walk ends at a root.
   */
  ghost predicate Forest(parent: map<int, int>, rank: map<int, nat>)
  {
    rank.Keys == parent.Keys &&
    forall x {:trigger parent[x]} | x in parent :: parent[x] in parent && (parent[x] != x ==> rank[x] < rank[parent[x]])
  }

  /** The keys ranked above x; it shrinks on every step towards the root. */
  ghost function Above(rank: map<int, nat>, x: int): set<int>
    requires x in rank
  {
    set y | y in rank && rank[y] > rank[x]
  }

  lemma AboveShrinks(rank: map<int, nat>, x: int, p: int)
    requires x in rank && p in rank && rank[x] < rank[p]
    ensures Above(rank, p) < Above(rank, x)
  {
    assert p in Above(rank, x) && p !in Above(rank, p);
  }

  /** The root reached from x by following parents. */
  ghost function RootOf(parent: map<int, int>, rank: map<int, nat>, x: int): (r: int)
    requires Forest(parent, rank) && x in parent
    ensures r in parent && parent[r] == r
    decreases Above(rank, x)
  {
    if parent[x] == x then x
    else
      AboveShrinks(rank, x, parent[x]);
      RootOf(parent, rank, parent[x])
  }

  /** Pointing l at its grandparent keeps every element's root. */
  lemma {:induction false} HalvingKeepsRoot(parent: map<int, int>, rank: map<int, nat>, l: int, x: int)
    requires Forest(parent, rank) && l in parent && parent[l] != l && x in parent
    ensures Forest(parent[l := parent[parent[l]]], rank)
    ensures RootOf(parent[l := parent[parent[l]]], rank, x) == RootOf(parent, rank, x)
    decreases Above(rank, x)
  {
    var p' := parent[l := parent[parent[l]]];
    assert Forest(p', rank);
    if x == l {
      var g := parent[parent[l]];
      AboveShrinks(rank, x, parent[x]);
      if parent[parent[l]] != parent[l] {
        AboveShrinks(rank, parent[x], g);
      }
      assert Above(rank, g) < Above(rank, x);
      HalvingKeepsRoot(parent, rank, l, g);
    } else if parent[x] != x {
      AboveShrinks(rank, x, parent[x]);
      HalvingKeepsRoot(parent, rank, l, parent[x]);
    }
  }

  /** Two forests over the same keys that send every key to the same root. */
  ghost predicate SameRoots(p1: map<int, int>, p2: map<int, int>, rank: map<int, nat>)
    requires Forest(p1, rank) && Forest(p2, rank)
  {
    p1.Keys == p2.Keys && forall x {:trigger RootOf(p1, rank, x)} | x in p1 :: RootOf(p1, rank, x) == RootOf(p2, rank, x)
  }

  lemma HalvingKeepsRoots(parent: map<int, int>, rank: map<int, nat>, l: int)
    requires Forest(parent, rank) && l in parent && parent[l] != l
    ensures Forest(parent[l := parent[parent[l]]], rank)
    ensures SameRoots(parent[l := parent[parent[l]]], parent, rank)
  {
    HalvingKeepsRoot(parent, rank, l, l);
    forall x | x in parent
      ensures RootOf(parent[l := parent[parent[l]]], rank, x) == RootOf(parent, rank, x)
    {
      HalvingKeepsRoot(parent, rank, l, x);
    }
  }

  /** Linking root x under root y moves exactly the elements rooted at x. */
  lemma {:induction false} LinkMovesRoot(parent: map<int, int>, rank: map<int, nat>, rank': map<int, nat>,
                                         x: int, y: int, z: int)
    requires Forest(parent, rank) && Forest(parent[x := y], rank')
    requires x in parent && parent[x] == x && y in parent && parent[y] == y && z in parent
    ensures RootOf(parent[x := y], rank', z) == if RootOf(parent, rank, z) == x then y else RootOf(parent, rank, z)
    decreases Above(rank, z)
  {
    if z != x && parent[z] != z {
      AboveShrinks(rank, z, parent[z]);
      LinkMovesRoot(parent, rank, rank', x, y, parent[z]);
    }
  }

  /** Ranks under which the linked forest is still a forest: y is raised above x if needed. */
  ghost function LinkRank(parent: map<int, int>, rank: map<int, nat>, x: int, y: int): (rank': map<int, nat>)
    requires Forest(parent, rank) && x in parent && parent[x] == x && y in parent && parent[y] == y
    ensures Forest(parent[x := y], rank')
  {
    var rank' := if x == y then rank else rank[y := if rank[y] > rank[x] then rank[y] else rank[x] + 1];
    assert forall z | z in parent && z != x && parent[z] != z :: rank'[z] < rank'[parent[z]];
    rank'
  }

  lemma LinkRoots(parent: map<int, int>, rank: map<int, nat>, x: int, y: int, parent': map<int, int>, rank': map<int, nat>)
    requires Forest(parent, rank) && x in parent && parent[x] == x && y in parent && parent[y] == y
    requires parent' == parent[x := y] && rank' == LinkRank(parent, rank, x, y)
    ensures forall z {:trigger RootOf(parent', rank', z)} | z in parent ::
      RootOf(parent', rank', z) == (if RootOf(parent, rank, z) == x then y else RootOf(parent, rank, z))
  {
    forall z | z in parent
      ensures RootOf(parent', rank', z) == if RootOf(parent, rank, z) == x then y else RootOf(parent, rank, z)
    {
      LinkMovesRoot(parent, rank, rank', x, y, z);
    }
  }

  /** Adding an unseen element as its own parent keeps every other root. */
  lemma {:induction false} AddSingletonKeepsRoot(parent: map<int, int>, rank: map<int, nat>, l: int, x: int)
    requires Forest(parent, rank) && l !in parent && x in parent
    ensures Forest(parent[l := l], rank[l := 0])
    ensures RootOf(parent[l := l], rank[l := 0], x) == RootOf(parent, rank, x)
    decreases Above(rank, x)
  {
    if parent[x] != x {
      AboveShrinks(rank, x, parent[x]);
      AddSingletonKeepsRoot(parent, rank, l, parent[x]);
    }
  }

  lemma AddSingletonKeepsRoots(parent: map<int, int>, rank: map<int, nat>, l: int)
    requires Forest(parent, rank) && l !in parent
    ensures Forest(parent[l := l], rank[l := 0])
    ensures forall x | x in parent :: RootOf(parent[l := l], rank[l := 0], x) == RootOf(parent, rank, x)
    ensures RootOf(parent[l := l], rank[l := 0], l) == l
  {
    forall x | x in parent
      ensures RootOf(parent[l := l], rank[l := 0], x) == RootOf(parent, rank, x)
    {
      AddSingletonKeepsRoot(parent, rank, l, x);
    }
  }

  class DisjointSet {
    var parent: map<int, int>
    ghost var rank: map<int, nat>

    ghost predicate Valid()
      reads this
    {
      Forest(parent, rank)
    }

    constructor ()
      ensures Valid() && parent == map[]
    {
      parent := map[];
      rank := map[];
    }

    /**
     * Returns the representative of l0, adding l0 as a singleton when it
     * is new; path halving reshapes the forest but keeps every root.
     */
    method Find(l0: int) returns (r: int)
      requires Valid()
      modifies this
      ensures Valid()
      ensures r == RootOrSelf(old(parent), old(rank), l0)
      ensures r in parent && parent[r] == r
      ensures l0 !in old(parent) ==> parent == old(parent)[l0 := l0]
      ensures parent.Keys == old(parent.Keys) + {l0}
      ensures forall x {:trigger RootOf(parent, rank, x)} | x in parent ::
        RootOf(parent, rank, x) == RootOrSelf(old(parent), old(rank), x)
    {
      var l := l0;
      if l !in parent {
        AddSingletonKeepsRoots(parent, rank, l);
        parent := parent[l := l];
        rank := rank[l := 0];
        return l;
      }
      ghost var parent0 := parent;
      while parent[l] != l
        invariant Valid() && l in parent && rank == old(rank)
        invariant SameRoots(parent, parent0, rank)
        invariant RootOf(parent, rank, l) == RootOf(parent0, rank, l0)
        decreases Above(rank, l)
      {
        HalvingKeepsRoots(parent, rank, l);
        var g := parent[parent[l]];
        AboveShrinks(rank, l, parent[l]);
        if g != parent[l] {
          AboveShrinks(rank, parent[l], g);
        }
        parent := parent[l := g];
        l := g;
      }
      r := l;
    }

    /** Links the root of m's set under the root of n's set. */
    method Union(m: int, n: int)
      requires Valid()
      modifies this
      ensures Valid()
      ensures parent.Keys == old(parent.Keys) + {m, n}
      ensures forall z {:trigger RootOf(parent, rank, z)} | z in parent ::
        RootOf(parent, rank, z) ==
          var was := RootOrSelf(old(parent), old(rank), z);
          if was == RootOrSelf(old(parent), old(rank), m) then RootOrSelf(old(parent), old(rank), n) else was
      ensures RootOf(parent, rank, m) == RootOf(parent, rank, n)
    {
      ghost var p0, r0 := parent, rank;
      var x := Find(m);
      ghost var p1, r1 := parent, rank;
      var y := Find(n);
      ghost var p2, r2 := parent, rank;
      assert RootOf(p2, r2, x) == x;
      UnionRoots(p0, r0, p1, r1, p2, r2, m, n, x, y);
      rank := LinkRank(p2, r2, x, y);
      parent := parent[x := y];
    }
  }

  /** The root of x, or x itself when x is not in the forest yet. */
  ghost function RootOrSelf(parent: map<int, int>, rank: map<int, nat>, x: int): int
    requires Forest(parent, rank)
  {
    if x in parent then RootOf(parent, rank, x) else x
  }

  /** The net effect of Union's two finds and its link, in terms of the roots before it. */
  lemma UnionRoots(p0: map<int, int>, r0: map<int, nat>, p1: map<int, int>, r1: map<int, nat>,
                   p2: map<int, int>, r2: map<int, nat>, m: int, n: int, x: int, y: int)
    requires Forest(p0, r0) && Forest(p1, r1) && Forest(p2, r2)
    requires p1.Keys == p0.Keys + {m} && p2.Keys == p1.Keys + {n}
    requires x == RootOrSelf(p0, r0, m) && y == RootOrSelf(p1, r1, n)
    requires forall z {:trigger RootOf(p1, r1, z)} | z in p1 :: RootOf(p1, r1, z) == RootOrSelf(p0, r0, z)
    requires forall z {:trigger RootOf(p2, r2, z)} | z in p2 :: RootOf(p2, r2, z) == RootOrSelf(p1, r1, z)
    requires x in p2 && p2[x] == x && y in p2 && p2[y] == y
    ensures forall z {:trigger RootOf(p2[x := y], LinkRank(p2, r2, x, y), z)} | z in p2 ::
      RootOf(p2[x := y], LinkRank(p2, r2, x, y), z) ==
        var was := RootOrSelf(p0, r0, z);
        if was == RootOrSelf(p0, r0, m) then RootOrSelf(p0, r0, n) else was
  {
    var r' := LinkRank(p2, r2, x, y);
    LinkRoots(p2, r2, x, y, p2[x := y], r');
    forall z | z in p2
      ensures RootOf(p2[x := y], r', z) ==
        var was := RootOrSelf(p0, r0, z);
        if was == RootOrSelf(p0, r0, m) then RootOrSelf(p0, r0, n) else was
    {
      assert RootOf(p2, r2, z) == RootOrSelf(p0, r0, z) by {
        if z in p1 {
          assert RootOf(p1, r1, z) == RootOrSelf(p0, r0, z);
        }
      }
      assert y == RootOrSelf(p0, r0, n) by {
        if n in p1 {
          assert RootOf(p1, r1, n) == RootOrSelf(p0, r0, n);
        }
      }
    }
  }

  /** The stack of enclosing block ids; it starts with the global block. */
  class BBLScope {
    /** Bottom first, top last. */
    var stack: seq<int>

    constructor ()
      ensures stack == [GLOBAL_BBLID]
      ensures Top() == GLOBAL_BBLID
    {
      stack := [GLOBAL_BBLID];
    }

    method Push(bblid: int)
      modifies this
      ensures stack == old(stack) + [bblid]
      ensures Top() == bblid
    {
      stack := stack + [bblid];
    }

    /** Popping an empty std::stack is undefined, so the stack must be non-empty. */
    method Pop()
      requires stack != []
      modifies this
      ensures stack == old(stack[..|stack| - 1])
    {
      stack := stack[..|stack| - 1];
    }

    function Top(): (r: int)
      reads this
      requires stack != []
      ensures stack == stack[..|stack| - 1] + [r]
    {
      stack[|stack| - 1]
    }
  }

  /** A push followed by a pop gives back the stack, and so the previous top. */
  method PushPopRestores(s: BBLScope, bblid: int)
    requires s.stack != []
    modifies s
    ensures s.stack == old(s.stack)
    ensures s.Top() == old(s.Top())
  {
    s.Push(bblid);
    s.Pop();
  }
}
