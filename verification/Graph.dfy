/** The object graph: every object lists the objects its traced `Cc` fields point to, with
    multiplicity.  Everything else in this project is stated with the two notions defined here:
    the multiset of references held by a set of objects, and reachability. */
module Graph {

  type Edges<T> = map<T, seq<T>>

  // ----- references -------------------------------------------------------------------------

  /** The references held by the fields of the objects in `s`. */
  ghost function Out<T>(kids: Edges<T>, s: set<T>): multiset<T>
    requires s <= kids.Keys
  {
    if s == {} then multiset{}
    else var a :| a in s; multiset(kids[a]) + Out(kids, s - {a})
  }

  lemma {:induction false} OutSplit<T>(kids: Edges<T>, s: set<T>, a: T)
    requires s <= kids.Keys && a in s
    ensures Out(kids, s) == multiset(kids[a]) + Out(kids, s - {a})
    decreases |s|
  {
    var b :| b in s && Out(kids, s) == multiset(kids[b]) + Out(kids, s - {b});
    if b != a {
      OutSplit(kids, s - {b}, a);
      OutSplit(kids, s - {a}, b);
      assert s - {b} - {a} == s - {a} - {b};
    }
  }

  lemma OutAdd<T>(kids: Edges<T>, s: set<T>, a: T)
    requires s + {a} <= kids.Keys && a !in s
    ensures Out(kids, s + {a}) == Out(kids, s) + multiset(kids[a])
  {
    OutSplit(kids, s + {a}, a);
    assert s + {a} - {a} == s;
  }

  lemma {:induction false} OutUnion<T>(kids: Edges<T>, s: set<T>, t: set<T>)
    requires s <= kids.Keys && t <= kids.Keys && s !! t
    ensures Out(kids, s + t) == Out(kids, s) + Out(kids, t)
    decreases |s|
  {
    if s == {} {
      assert s + t == t;
    } else {
      var a :| a in s;
      OutSplit(kids, s, a);
      OutSplit(kids, s + t, a);
      assert s + t - {a} == (s - {a}) + t;
      OutUnion(kids, s - {a}, t);
    }
  }

  /** Fewer objects hold fewer references. */
  lemma OutMono<T>(kids: Edges<T>, s: set<T>, t: set<T>)
    requires s <= t <= kids.Keys
    ensures Out(kids, s) <= Out(kids, t)
  {
    OutUnion(kids, s, t - s);
    assert s + (t - s) == t;
  }

  lemma {:induction false} OutFrame<T>(kids: Edges<T>, kids': Edges<T>, s: set<T>)
    requires s <= kids.Keys && s <= kids'.Keys
    requires forall a | a in s :: kids[a] == kids'[a]
    ensures Out(kids, s) == Out(kids', s)
    decreases |s|
  {
    if s != {} {
      var a :| a in s;
      OutSplit(kids, s, a);
      OutSplit(kids', s, a);
      OutFrame(kids, kids', s - {a});
    }
  }

  /** Changing the fields of one object exchanges its own references and nothing else. */
  lemma OutUpdate<T>(kids: Edges<T>, s: set<T>, a: T, fields: seq<T>)
    requires s <= kids.Keys && a in s
    ensures Out(kids[a := fields], s) + multiset(kids[a]) == Out(kids, s) + multiset(fields)
  {
    OutSplit(kids, s, a);
    OutSplit(kids[a := fields], s, a);
    OutFrame(kids, kids[a := fields], s - {a});
  }

  lemma {:induction false} OutMember<T>(kids: Edges<T>, s: set<T>, n: T)
    requires s <= kids.Keys
    ensures n in Out(kids, s) <==> exists a | a in s :: n in kids[a]
    decreases |s|
  {
    if s != {} {
      var a :| a in s;
      OutSplit(kids, s, a);
      OutMember(kids, s - {a}, n);
      assert n in multiset(kids[a]) <==> n in kids[a];
      if exists b | b in s :: n in kids[b] {
        var b :| b in s && n in kids[b];
        assert b == a || b in s - {a};
      }
    }
  }

  /** The `i`-th field of an object that has not been counted yet adds a reference to those counted. */
  lemma FieldAdds<T>(kids: Edges<T>, counted: set<T>, a: T, i: nat, all: set<T>)
    requires counted <= all <= kids.Keys && a in all - counted && i < |kids[a]|
    ensures Out(kids, counted) + (multiset(kids[a][..i]) + multiset{kids[a][i]}) <= Out(kids, all)
  {
    OutAdd(kids, counted, a);
    OutMono(kids, counted + {a}, all);
    PrefixWithNext(kids[a], i);
    Added(Out(kids, counted), multiset(kids[a][..i]) + multiset{kids[a][i]}, multiset(kids[a]), Out(kids, all));
  }

  lemma PrefixWithNext<T>(s: seq<T>, i: nat)
    requires i < |s|
    ensures multiset(s[..i]) + multiset{s[i]} <= multiset(s)
  {
    assert s == s[..i] + [s[i]] + s[i + 1..];
  }

  lemma Added<T>(a: multiset<T>, b: multiset<T>, c: multiset<T>, d: multiset<T>)
    requires b <= c && a + c <= d
    ensures a + b <= d
  {
    assert forall x | x in a + b :: (a + b)[x] <= (a + c)[x];
  }

  // ----- reachability -----------------------------------------------------------------------

  ghost function Succ<T>(kids: Edges<T>, s: set<T>): set<T> {
    set a, b | a in s && a in kids && b in kids[a] :: b
  }

  ghost predicate Closed<T>(kids: Edges<T>, s: set<T>) {
    forall a, b | a in s && a in kids && b in kids[a] :: b in s
  }

  /** The objects reachable from `s`: the closure of `s` under `Succ`. */
  ghost function Reach<T>(kids: Edges<T>, s: set<T>): (r: set<T>)
    ensures s <= r && Closed(kids, r)
    decreases |Unreached(kids, s)|
  {
    if Succ(kids, s) <= s then s
    else
      GrowShrinks(kids, s);
      Reach(kids, s + Succ(kids, s))
  }

  /** The objects a search from `s` may still have to discover. */
  ghost function Unreached<T>(kids: Edges<T>, s: set<T>): set<T> {
    kids.Keys + Succ(kids, kids.Keys) - s
  }

  lemma GrowShrinks<T>(kids: Edges<T>, s: set<T>)
    requires !(Succ(kids, s) <= s)
    ensures |Unreached(kids, s + Succ(kids, s))| < |Unreached(kids, s)|
  {
    assert Succ(kids, s) <= kids.Keys + Succ(kids, kids.Keys);
    var x :| x in Succ(kids, s) && x !in s;
    assert x in Unreached(kids, s) && x !in Unreached(kids, s + Succ(kids, s));
    Smaller(Unreached(kids, s + Succ(kids, s)), Unreached(kids, s));
  }

  lemma {:induction false} Smaller<T>(s: set<T>, t: set<T>)
    requires s < t
    ensures |s| < |t|
  {
    assert t == s + (t - s);
    assert |t| == |s| + |t - s|;
  }

  /** `Reach` is the least closed set: anything closed that contains the sources contains it. */
  lemma {:induction false} ReachLeast<T>(kids: Edges<T>, s: set<T>, x: set<T>)
    requires s <= x && Closed(kids, x)
    ensures Reach(kids, s) <= x
    decreases |Unreached(kids, s)|
  {
    if !(Succ(kids, s) <= s) {
      GrowShrinks(kids, s);
      ReachLeast(kids, s + Succ(kids, s), x);
    }
  }

  lemma ReachMono<T>(kids: Edges<T>, s: set<T>, t: set<T>)
    requires s <= Reach(kids, t)
    ensures Reach(kids, s) <= Reach(kids, t)
  {
    ReachLeast(kids, s, Reach(kids, t));
  }

  lemma ReachUnion<T>(kids: Edges<T>, s: set<T>, t: set<T>)
    ensures Reach(kids, s + t) == Reach(kids, s) + Reach(kids, t)
  {
    ReachLeast(kids, s + t, Reach(kids, s) + Reach(kids, t));
    ReachMono(kids, s, s + t);
    ReachMono(kids, t, s + t);
  }

  /** Reachability only looks at the fields of the objects it reaches. */
  lemma ReachFrame<T>(kids: Edges<T>, kids': Edges<T>, s: set<T>)
    requires forall a | a in Reach(kids, s) :: (a in kids <==> a in kids') && (a in kids ==> kids[a] == kids'[a])
    ensures Reach(kids', s) == Reach(kids, s)
  {
    ReachLeast(kids', s, Reach(kids, s));
    assert Closed(kids, Reach(kids', s));
    ReachLeast(kids, s, Reach(kids', s));
  }

  /** A new edge loses nothing. */
  lemma ReachAddEdge<T>(kids: Edges<T>, s: set<T>, x: T, n: T)
    requires x in kids
    ensures Reach(kids, s) <= Reach(kids[x := kids[x] + [n]], s)
  {
    ReachLeast(kids, s, Reach(kids[x := kids[x] + [n]], s));
  }

  /** A reachable object is a source, or a field of some reachable object points to it. */
  lemma ReachPredecessor<T>(kids: Edges<T>, s: set<T>, n: T) returns (a: T)
    requires n in Reach(kids, s) && n !in s
    ensures a in Reach(kids, s) && a in kids && n in kids[a]
  {
    if forall b | b in Reach(kids, s) && b in kids :: n !in kids[b] {
      ReachLeast(kids, s, Reach(kids, s) - {n});
      assert false;
    }
    a :| a in Reach(kids, s) && a in kids && n in kids[a];
  }

  // ----- reachability is the existence of a path ----------------------------------------------

  ghost predicate IsPath<T>(kids: Edges<T>, path: seq<T>) {
    && path != []
    && forall i | 0 <= i < |path| - 1 :: path[i] in kids && path[i + 1] in kids[path[i]]
  }

  lemma {:induction false} PathStaysInReach<T>(kids: Edges<T>, s: set<T>, path: seq<T>)
    requires IsPath(kids, path) && path[0] in s
    ensures path[|path| - 1] in Reach(kids, s)
    decreases |path|
  {
    if |path| > 1 {
      var front := path[..|path| - 1];
      assert IsPath(kids, front);
      PathStaysInReach(kids, s, front);
      assert path[|path| - 2] in kids && path[|path| - 1] in kids[path[|path| - 2]];
    }
  }

  lemma PathFrom<T>(kids: Edges<T>, a: T, path: seq<T>)
    requires IsPath(kids, path) && a in kids && path[0] in kids[a]
    ensures IsPath(kids, [a] + path) && ([a] + path)[0] == a && ([a] + path)[|path|] == path[|path| - 1]
  {
    var longer := [a] + path;
    assert forall i | 0 <= i < |longer| - 1 :: i > 0 ==> longer[i] == path[i - 1];
  }

  lemma {:induction false} ReachHasPath<T>(kids: Edges<T>, s: set<T>, n: T) returns (path: seq<T>)
    requires n in Reach(kids, s)
    ensures IsPath(kids, path) && path[0] in s && path[|path| - 1] == n
    decreases |Unreached(kids, s)|
  {
    if n in s {
      path := [n];
    } else {
      GrowShrinks(kids, s);
      path := ReachHasPath(kids, s + Succ(kids, s), n);
      if path[0] !in s {
        var a :| a in s && a in kids && path[0] in kids[a];
        PathFrom(kids, a, path);
        path := [a] + path;
      }
    }
  }
}
