/**
 Word-count dictionaries: the bag of words a prompt is turned into, the
 sum of its counts, and the key-by-key addition that accumulates one count
 dictionary into another.
 */
module Counts {

  /** A Python dictionary from word to integer count. */
  type Counts = map<string, int>

  /** `m.get(k, 0)` */
  function Get(m: Counts, k: string): int
  {
    if k in m then m[k] else 0
  }

  /** The number of occurrences of `w` in `ws`. */
  function Count(ws: seq<string>, w: string): nat
  {
    if ws == [] then 0 else (if ws[0] == w then 1 else 0) + Count(ws[1..], w)
  }

  lemma {:induction false} CountAppend(xs: seq<string>, ys: seq<string>, w: string)
    ensures Count(xs + ys, w) == Count(xs, w) + Count(ys, w)
  {
    if xs == [] {
      assert xs + ys == ys;
    } else {
      assert (xs + ys)[1..] == xs[1..] + ys;
      CountAppend(xs[1..], ys, w);
    }
  }

  /** A word occurs in `ws` exactly when its count is positive. */
  lemma {:induction false} CountPositiveIff(ws: seq<string>, w: string)
    ensures Count(ws, w) > 0 <==> w in ws
  {
    if ws != [] {
      CountPositiveIff(ws[1..], w);
      assert w in ws <==> ws[0] == w || w in ws[1..];
    }
  }

  /** Counting occurrences agrees with Dafny's built-in multiset of `ws`. */
  lemma {:induction false} CountIsMultiplicity(ws: seq<string>, w: string)
    ensures Count(ws, w) == multiset(ws)[w]
  {
    if ws != [] {
      assert ws == [ws[0]] + ws[1..];
      CountIsMultiplicity(ws[1..], w);
    }
  }

  /** The bag of words of `ws`: each distinct word mapped to its number of occurrences. */
  function Bag(ws: seq<string>): (b: Counts)
    ensures b.Keys == set w | w in ws
    ensures forall w :: w in b ==> b[w] >= 1
  {
    var b := map w | w in ws :: Count(ws, w);
    assert forall w :: w in b ==> b[w] >= 1 by {
      forall w | w in b ensures b[w] >= 1 {
        CountPositiveIff(ws, w);
      }
    }
    b
  }

  /** The empty word list has the empty bag. */
  lemma BagEmpty()
    ensures Bag([]) == map[]
  {
    assert Bag([]).Keys == {};
  }

  /** Every word's count in the bag, present or not, is its multiplicity in `ws`. */
  lemma BagIsMultiset(ws: seq<string>)
    ensures forall w :: Get(Bag(ws), w) == multiset(ws)[w]
  {
    forall w ensures Get(Bag(ws), w) == multiset(ws)[w] {
      CountIsMultiplicity(ws, w);
      CountPositiveIff(ws, w);
    }
  }

  /** Adding one more word to the list adds one to that word's count and changes nothing else. */
  lemma BagSnoc(ws: seq<string>, w: string)
    ensures Bag(ws + [w]) == Bag(ws)[w := Get(Bag(ws), w) + 1]
  {
    var b, b' := Bag(ws), Bag(ws + [w]);
    forall x ensures Count(ws + [w], x) == Count(ws, x) + (if x == w then 1 else 0) {
      CountAppend(ws, [w], x);
      assert [w][1..] == [];
    }
    CountPositiveIff(ws, w);
    assert b'.Keys == b.Keys + {w};
  }

  /** The sum of all counts of a dictionary. */
  ghost function Total(m: Counts): int
    decreases |m|
  {
    if m == map[] then 0
    else
      var k :| k in m;
      assert (m - {k}).Keys == m.Keys - {k};
      m[k] + Total(m - {k})
  }

  /** The sum can be taken starting from any key. */
  lemma {:induction false} TotalRemove(m: Counts, k: string)
    requires k in m
    ensures Total(m) == m[k] + Total(m - {k})
    decreases |m|
  {
    var j :| j in m && Total(m) == m[j] + Total(m - {j});
    if j != k {
      assert (m - {j}).Keys == m.Keys - {j};
      assert (m - {j}) - {k} == (m - {k}) - {j};
      TotalRemove(m - {j}, k);
      TotalRemove(m - {k}, j);
    }
  }

  /** Setting one key replaces that key's contribution to the sum. */
  lemma TotalUpdate(m: Counts, k: string, v: int)
    ensures Total(m[k := v]) == Total(m) - Get(m, k) + v
  {
    TotalRemove(m[k := v], k);
    assert m[k := v] - {k} == m - {k};
    if k in m {
      TotalRemove(m, k);
    } else {
      assert m - {k} == m;
    }
  }

  /** The counts of the bag of words of `ws` add up to the number of words in `ws`. */
  lemma {:induction false} TotalBag(ws: seq<string>)
    ensures Total(Bag(ws)) == |ws|
  {
    if ws != [] {
      var xs, x := ws[..|ws| - 1], ws[|ws| - 1];
      assert ws == xs + [x];
      TotalBag(xs);
      BagSnoc(xs, x);
      TotalUpdate(Bag(xs), x, Get(Bag(xs), x) + 1);
    }
  }

  /** `for k, v in b.items(): a[k] = a.get(k, 0) + v`, as a value: the key-by-key sum of two dictionaries. */
  function Merge(a: Counts, b: Counts): (r: Counts)
    ensures r.Keys == a.Keys + b.Keys
    ensures forall k :: k in b ==> r[k] == Get(a, k) + b[k]
    ensures forall k :: k in a && k !in b ==> r[k] == a[k]
  {
    map k | k in a.Keys + b.Keys :: Get(a, k) + Get(b, k)
  }

  /** Merging the empty dictionary leaves a dictionary unchanged. */
  lemma MergeEmpty(a: Counts)
    ensures Merge(a, map[]) == a
  {
  }

  /** Merging into the empty dictionary copies the merged one. */
  lemma MergeIntoEmpty(b: Counts)
    ensures Merge(map[], b) == b
  {
  }

  /** Merging leaves a dictionary unchanged exactly when every merged key is already present and adds zero. */
  lemma MergeUnchangedIff(a: Counts, b: Counts)
    ensures Merge(a, b) == a <==> forall k :: k in b ==> k in a && b[k] == 0
  {
    var r := Merge(a, b);
    if r == a {
      forall k | k in b ensures k in a && b[k] == 0 {
        assert k in r;
      }
    }
  }

  /** Merging the bag of `ys` into the bag of `xs` gives the bag of `xs + ys`. */
  lemma MergeBag(xs: seq<string>, ys: seq<string>)
    ensures Merge(Bag(xs), Bag(ys)) == Bag(xs + ys)
  {
    var l, r := Merge(Bag(xs), Bag(ys)), Bag(xs + ys);
    forall w ensures Get(l, w) == Get(r, w) {
      CountAppend(xs, ys, w);
      CountPositiveIff(xs, w);
      CountPositiveIff(ys, w);
      CountPositiveIff(xs + ys, w);
    }
    assert l.Keys == r.Keys;
    forall w | w in l ensures l[w] == r[w] {
      assert Get(l, w) == Get(r, w);
    }
  }

  /** Merging a bag of words raises each word's count by its number of occurrences and adds only those words as keys. */
  lemma MergeBagCounts(a: Counts, ws: seq<string>)
    ensures Merge(a, Bag(ws)).Keys == a.Keys + set w | w in ws
    ensures forall w :: Get(Merge(a, Bag(ws)), w) == Get(a, w) + multiset(ws)[w]
  {
    forall w ensures Get(Merge(a, Bag(ws)), w) == Get(a, w) + multiset(ws)[w] {
      CountPositiveIff(ws, w);
      CountIsMultiplicity(ws, w);
    }
  }

  /** Two merges into the same dictionary can be done in either order. */
  lemma MergeReorder(d: Counts, a: Counts, b: Counts)
    ensures Merge(Merge(d, a), b) == Merge(Merge(d, b), a)
  {
    var l, r := Merge(Merge(d, a), b), Merge(Merge(d, b), a);
    assert l.Keys == r.Keys;
    forall k | k in l ensures l[k] == r[k] {
      assert l[k] == Get(d, k) + Get(a, k) + Get(b, k);
    }
  }

  /** Merging a bag of words keeps every count of the target positive if it was. */
  lemma MergeBagPositive(a: Counts, ws: seq<string>)
    requires forall k :: k in a ==> a[k] >= 1
    ensures forall k :: k in Merge(a, Bag(ws)) ==> Merge(a, Bag(ws))[k] >= 1
  {
  }

  /** Merging `b` is merging `b` without `k`, then adding `b[k]` to key `k`. */
  lemma MergeStep(a: Counts, b: Counts, k: string)
    requires k in b
    ensures Merge(a, b) == Merge(a, b - {k})[k := Get(a, k) + b[k]]
  {
    var l, r := Merge(a, b), Merge(a, b - {k})[k := Get(a, k) + b[k]];
    assert l.Keys == r.Keys;
    forall x | x in l ensures l[x] == r[x] {
    }
  }

  /** A key that `b` does not hold keeps its value from `a` in the merge. */
  lemma MergeAbsent(a: Counts, b: Counts, k: string)
    requires k !in b
    ensures Get(Merge(a, b), k) == Get(a, k)
  {
  }

  /** Merging one more key adds that key's count to the sum. */
  lemma TotalMergeStep(a: Counts, b: Counts, k: string)
    requires k in b
    ensures Total(Merge(a, b)) == Total(Merge(a, b - {k})) + b[k]
  {
    var m := Merge(a, b - {k});
    MergeStep(a, b, k);
    MergeAbsent(a, b - {k}, k);
    TotalUpdate(m, k, Get(a, k) + b[k]);
  }

  /** The sum of a merge is the sum of the two dictionaries. */
  lemma {:induction false} TotalMerge(a: Counts, b: Counts)
    ensures Total(Merge(a, b)) == Total(a) + Total(b)
    decreases |b|
  {
    if b == map[] {
      MergeEmpty(a);
    } else {
      var k :| k in b;
      assert (b - {k}).Keys == b.Keys - {k};
      TotalMerge(a, b - {k});
      TotalMergeStep(a, b, k);
      TotalRemove(b, k);
    }
  }
}
