/** How one message travels over a tree: the nodes that have it form a part of the tree, and the
    copies in flight are exactly the links that lead out of that part. */
module TreeFront {

  /** A rooted tree over `all`, by parents and depths. */
  datatype Tree = Tree(all: set<string>, root: string, parent: map<string, string>, depth: map<string, nat>)

  ghost predicate IsTree(t: Tree) {
    && t.root in t.all && t.depth.Keys == t.all && t.parent.Keys == t.all - {t.root}
    && forall n :: n in t.parent ==> t.parent[n] in t.all && t.depth[n] == t.depth[t.parent[n]] + 1
  }

  predicate Linked(t: Tree, a: string, b: string) {
    (b in t.parent && t.parent[b] == a) || (a in t.parent && t.parent[a] == b)
  }

  ghost function LinksOf(t: Tree, a: string): set<string> {
    set b | b in t.all && Linked(t, a, b)
  }

  /** The part of the tree that has the message, hanging from `top`. */
  ghost predicate Part(t: Tree, held: set<string>, top: string)
    requires IsTree(t)
  {
    && top in held && held <= t.all
    && forall h :: h in held ==> t.depth[h] >= t.depth[top] && (h != top ==> h in t.parent && t.parent[h] in held)
  }

  ghost predicate Outward(t: Tree, held: set<string>, f: (string, string)) {
    f.0 in held && f.1 in t.all && f.1 !in held && Linked(t, f.0, f.1)
  }

  ghost predicate Targets(flights: seq<(string, string)>) {
    forall i, j :: 0 <= i < j < |flights| ==> flights[i].1 != flights[j].1
  }

  ghost predicate Front(t: Tree, held: set<string>, top: string, flights: seq<(string, string)>)
    requires IsTree(t)
  {
    && Part(t, held, top)
    && (forall f :: f in flights ==> Outward(t, held, f))
    && Targets(flights)
    && forall a, b :: a in held && b in t.all && Linked(t, a, b) ==> b in held || (a, b) in flights
  }

  /** A link out of the part leads to a child of one of its nodes, or from its top to the parent. */
  lemma OutwardCases(t: Tree, held: set<string>, top: string, f: (string, string))
    requires IsTree(t) && Part(t, held, top) && Outward(t, held, f)
    ensures (f.1 in t.parent && t.parent[f.1] == f.0 && t.depth[f.1] > t.depth[top])
            || (f.0 == top && top in t.parent && t.parent[top] == f.1 && t.depth[f.1] + 1 == t.depth[top])
  {
  }

  /** The part with one more node, across an outward link, is a part again. */
  lemma PartGrows(t: Tree, held: set<string>, top: string, f: (string, string)) returns (newTop: string)
    requires IsTree(t) && Part(t, held, top) && Outward(t, held, f)
    ensures Part(t, held + {f.1}, newTop)
  {
    OutwardCases(t, held, top, f);
    newTop := if f.1 in t.parent && t.parent[f.1] == f.0 then top else f.1;
  }

  /** From the node just reached, every link but the one it was reached by leads on outward. */
  lemma OnwardIsOutward(t: Tree, held: set<string>, top: string, f: (string, string), c: string)
    requires IsTree(t) && Part(t, held, top) && Outward(t, held, f)
    requires c in t.all && Linked(t, f.1, c) && c != f.0
    ensures Outward(t, held + {f.1}, (f.1, c))
  {
    OutwardCases(t, held, top, f);
  }

  /** What the reached node sends on goes nowhere a copy is already heading. */
  lemma OnwardIsNew(t: Tree, held: set<string>, top: string, f: (string, string), c: string, g: (string, string))
    requires IsTree(t) && Part(t, held, top) && Outward(t, held, f) && Outward(t, held, g)
    requires c in t.all && Linked(t, f.1, c) && c != f.0
    ensures g.1 != c
  {
    OutwardCases(t, held, top, f);
    OutwardCases(t, held, top, g);
  }

  /** `onward` walks the links of the reached node, except the one back. */
  ghost predicate Onward(t: Tree, f: (string, string), onward: seq<(string, string)>) {
    && (forall x :: x in onward <==> x.0 == f.1 && x.1 in LinksOf(t, f.1) && x.1 != f.0)
    && Targets(onward)
  }

  lemma TargetsConcat(a: seq<(string, string)>, b: seq<(string, string)>)
    requires Targets(a) && Targets(b) && forall x, y :: x in a && y in b ==> x.1 != y.1
    ensures Targets(a + b)
  {
    forall i, j | 0 <= i < j < |a + b| ensures (a + b)[i].1 != (a + b)[j].1 {
      if i < |a| <= j {
        assert a[i] in a && b[j - |a|] in b;
      }
    }
  }

  lemma TargetsWithout(a: seq<(string, string)>, f: (string, string), b: seq<(string, string)>)
    requires Targets(a + [f] + b)
    ensures Targets(a + b) && forall x :: x in a + b ==> x.1 != f.1
  {
    var s := a + [f] + b;
    assert s[|a|] == f;
    forall i | 0 <= i < |a + b| ensures (a + b)[i] == s[if i < |a| then i else i + 1] && (a + b)[i].1 != f.1 {
      assert s[if i < |a| then i else i + 1].1 != s[|a|].1;
    }
  }

  /** One delivery: the part grows by the node reached, and the front moves past it. */
  lemma FrontAdvances(t: Tree, held: set<string>, top: string, a: seq<(string, string)>, f: (string, string),
                      b: seq<(string, string)>, onward: seq<(string, string)>) returns (newTop: string)
    requires IsTree(t) && Front(t, held, top, a + [f] + b) && Onward(t, f, onward)
    ensures Front(t, held + {f.1}, newTop, a + b + onward)
    ensures |held + {f.1}| == |held| + 1
  {
    var earlier := a + [f] + b;
    assert f in earlier;
    assert Outward(t, held, f);
    newTop := PartGrows(t, held, top, f);
    TargetsWithout(a, f, b);
    forall x | x in a + b ensures Outward(t, held, x) && Outward(t, held + {f.1}, x) {
      assert x in earlier;
    }
    forall x | x in onward ensures Outward(t, held + {f.1}, x) { OnwardIsOutward(t, held, top, f, x.1); }
    forall x, y | x in a + b && y in onward ensures x.1 != y.1 { OnwardIsNew(t, held, top, f, y.1, x); }
    TargetsConcat(a + b, onward);
    forall n, c | n in held + {f.1} && c in t.all && Linked(t, n, c) && c !in held + {f.1}
      ensures (n, c) in a + b + onward
    {
      if n in held {
        assert (n, c) in earlier && (n, c) != f;
      } else {
        assert c in LinksOf(t, f.1);
        assert f.0 in held;
        assert (n, c) in onward;
      }
    }
  }

  /** The front of a message just issued at `n`. */
  lemma FrontStarts(t: Tree, n: string, onward: seq<(string, string)>)
    requires IsTree(t) && n in t.all && Targets(onward)
    requires forall x :: x in onward <==> x.0 == n && x.1 in LinksOf(t, n)
    ensures Front(t, {n}, n, onward)
  {
    forall x | x in onward ensures Outward(t, {n}, x) {
      assert x.1 in LinksOf(t, n);
      assert Linked(t, n, x.1);
    }
    forall b | b in t.all && Linked(t, n, b) ensures (n, b) in onward { assert b in LinksOf(t, n); }
  }

  /** With no copy left in flight, everyone has the message. */
  lemma FrontEnds(t: Tree, held: set<string>, top: string)
    requires IsTree(t) && Front(t, held, top, [])
    ensures held == t.all
  {
    assert top in t.parent ==> Linked(t, top, t.parent[top]);
    forall n | n in t.all ensures n in held { Reaches(t, held, top, n); }
  }

  lemma {:induction false} Reaches(t: Tree, held: set<string>, top: string, n: string)
    requires IsTree(t) && Front(t, held, top, []) && top == t.root && n in t.all
    ensures n in held
    decreases t.depth[n]
  {
    if n != t.root {
      Reaches(t, held, top, t.parent[n]);
      assert Linked(t, t.parent[n], n);
    }
  }
}
