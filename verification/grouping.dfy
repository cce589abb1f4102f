/** Grouping records by a key the way the program's
    `groups.setdefault(key, []).append(x)` loops do: one group per distinct
    key, keys in the order they are first met, members in input order. */
module Grouping {

  /** An insertion-ordered dictionary from keys to lists of members. */
  type Groups<K, T> = seq<(K, seq<T>)>

  /** Some group of `g` has key `k`. */
  predicate HasKey<K(==), T>(g: Groups<K, T>, k: K) {
    exists i :: 0 <= i < |g| && g[i].0 == k
  }

  predicate DistinctKeys<K(==), T>(g: Groups<K, T>) {
    forall i, j :: 0 <= i < j < |g| ==> g[i].0 != g[j].0
  }

  /** Where `k` sits among the keys of `g`, or `|g|` when it is absent. */
  function KeyIndex<K(==), T>(g: Groups<K, T>, k: K): (r: nat)
    ensures r <= |g|
    ensures r < |g| ==> g[r].0 == k
    ensures forall j :: 0 <= j < r ==> g[j].0 != k
    ensures r == |g| <==> !HasKey(g, k)
  {
    if |g| == 0 then 0
    else if g[0].0 == k then 0
    else
      var r := 1 + KeyIndex(g[1..], k);
      assert forall j :: 1 <= j < |g| ==> g[1..][j - 1] == g[j];
      r
  }

  /** `groups.setdefault(k, []).append(x)`. */
  function Insert<K(==), T>(g: Groups<K, T>, k: K, x: T): (r: Groups<K, T>)
    requires DistinctKeys(g)
    ensures DistinctKeys(r)
    ensures HasKey(g, k) ==> |r| == |g|
    ensures !HasKey(g, k) ==> |r| == |g| + 1 && r[|g|] == (k, [x])
    ensures forall i :: 0 <= i < |g| ==> r[i].0 == g[i].0
    ensures forall i :: 0 <= i < |g| ==> r[i].1 == (if g[i].0 == k then g[i].1 + [x] else g[i].1)
  {
    var i := KeyIndex(g, k);
    if i < |g| then g[i := (k, g[i].1 + [x])] else g + [(k, [x])]
  }

  /** `[x for x in xs if key(x) == k]`. */
  function Matching<K(==), T>(xs: seq<T>, key: T -> K, k: K): (r: seq<T>)
    ensures |r| <= |xs|
    ensures forall y :: y in r ==> y in xs && key(y) == k
    ensures forall j :: 0 <= j < |xs| && key(xs[j]) == k ==> xs[j] in r
  {
    if |xs| == 0 then []
    else
      var n := |xs| - 1;
      assert forall j :: 0 <= j < n ==> xs[..n][j] == xs[j];
      Matching(xs[..n], key, k) + (if key(xs[n]) == k then [xs[n]] else [])
  }

  /** The keys of the inputs, in input order. */
  function KeySeq<K, T>(xs: seq<T>, key: T -> K): (ks: seq<K>)
    ensures |ks| == |xs|
    ensures forall j :: 0 <= j < |xs| ==> ks[j] == key(xs[j])
  {
    if |xs| == 0 then []
    else
      var n := |xs| - 1;
      assert forall j :: 0 <= j < n ==> xs[..n][j] == xs[j];
      KeySeq(xs[..n], key) + [key(xs[n])]
  }

  /** Each key once, at the place where it first occurs. */
  function Distinct<K(==)>(ks: seq<K>): (r: seq<K>)
    ensures forall i :: 0 <= i < |ks| ==> ks[i] in r
    ensures forall i :: 0 <= i < |r| ==> r[i] in ks
  {
    if |ks| == 0 then []
    else
      var n := |ks| - 1;
      var d := Distinct(ks[..n]);
      assert forall i :: 0 <= i < n ==> ks[..n][i] == ks[i];
      assert forall i :: 0 <= i < |d| ==> d[i] in ks;
      if ks[n] in d then d else d + [ks[n]]
  }

  /** The keys of a grouping, in dictionary order. */
  function KeysOf<K, T>(g: Groups<K, T>): (ks: seq<K>)
    ensures |ks| == |g|
    ensures forall i :: 0 <= i < |g| ==> ks[i] == g[i].0
  {
    seq(|g|, i requires 0 <= i < |g| => g[i].0)
  }

  /** The grouping loop, as a left fold over the input. */
  function GroupBy<K(==), T>(xs: seq<T>, key: T -> K): (g: Groups<K, T>)
    ensures DistinctKeys(g)
    ensures |g| <= |xs|
  {
    if |xs| == 0 then []
    else
      var n := |xs| - 1;
      Insert(GroupBy(xs[..n], key), key(xs[n]), xs[n])
  }

  /** Every input's key has a group, and every group is non-empty. */
  lemma GroupByCovers<K, T>(xs: seq<T>, key: T -> K)
    ensures forall j :: 0 <= j < |xs| ==> HasKey(GroupBy(xs, key), key(xs[j]))
    ensures forall i :: 0 <= i < |GroupBy(xs, key)| ==> GroupBy(xs, key)[i].1 != []
  {
    GroupByHasKeys(xs, key);
    GroupByNonEmpty(xs, key);
  }

  /** Inserting keeps every key and adds the inserted one. */
  lemma InsertHasKey<K, T>(g: Groups<K, T>, k: K, x: T)
    requires DistinctKeys(g)
    ensures HasKey(Insert(g, k, x), k)
    ensures forall k' :: HasKey(g, k') ==> HasKey(Insert(g, k, x), k')
  {
    var r := Insert(g, k, x);
    if HasKey(g, k) {
      var i :| 0 <= i < |g| && g[i].0 == k;
      assert r[i].0 == k;
    } else {
      assert r[|g|].0 == k;
    }
    forall k' | HasKey(g, k') ensures HasKey(r, k') {
      var i :| 0 <= i < |g| && g[i].0 == k';
      assert r[i].0 == k';
    }
  }

  lemma GroupByHasKeys<K, T>(xs: seq<T>, key: T -> K)
    ensures forall j :: 0 <= j < |xs| ==> HasKey(GroupBy(xs, key), key(xs[j]))
  {
    var g := GroupBy(xs, key);
    GroupByFirstSeen(xs, key);
    forall j | 0 <= j < |xs| ensures HasKey(g, key(xs[j])) {
      var k := key(xs[j]);
      assert KeySeq(xs, key)[j] == k;
      assert k in KeysOf(g);
      var i :| 0 <= i < |g| && KeysOf(g)[i] == k;
      assert g[i].0 == k;
    }
  }

  lemma {:induction false} GroupByNonEmpty<K, T>(xs: seq<T>, key: T -> K)
    ensures forall i :: 0 <= i < |GroupBy(xs, key)| ==> GroupBy(xs, key)[i].1 != []
  {
    if |xs| > 0 {
      var n := |xs| - 1;
      var k := key(xs[n]);
      var prev := GroupBy(xs[..n], key);
      var r := GroupBy(xs, key);
      assert r == Insert(prev, k, xs[n]);
      GroupByNonEmpty(xs[..n], key);
      forall i | 0 <= i < |r| ensures r[i].1 != [] {
        if i < |prev| {
          assert prev[i].1 != [];
        }
      }
    }
  }

  /** Nothing has a key that no input has. */
  lemma {:induction false} MatchingNone<K, T>(xs: seq<T>, key: T -> K, k: K)
    requires forall j :: 0 <= j < |xs| ==> key(xs[j]) != k
    ensures Matching(xs, key, k) == []
  {
    if |xs| > 0 {
      var n := |xs| - 1;
      assert forall j :: 0 <= j < n ==> xs[..n][j] == xs[j];
      MatchingNone(xs[..n], key, k);
    }
  }

  /** Each group holds exactly the inputs with its key, in input order: the
      groups partition the input. */
  lemma {:induction false} GroupByPartitions<K, T>(xs: seq<T>, key: T -> K)
    ensures forall i :: 0 <= i < |GroupBy(xs, key)| ==>
              GroupBy(xs, key)[i].1 == Matching(xs, key, GroupBy(xs, key)[i].0)
  {
    if |xs| > 0 {
      var n := |xs| - 1;
      var k := key(xs[n]);
      var prev := GroupBy(xs[..n], key);
      var r := GroupBy(xs, key);
      assert r == Insert(prev, k, xs[n]);
      GroupByPartitions(xs[..n], key);
      if !HasKey(prev, k) {
        GroupByCovers(xs[..n], key);
        assert forall j :: 0 <= j < n ==> key(xs[..n][j]) != k;
        MatchingNone(xs[..n], key, k);
      }
      forall i | 0 <= i < |r| ensures r[i].1 == Matching(xs, key, r[i].0) {
        var m := Matching(xs, key, r[i].0);
        assert m == Matching(xs[..n], key, r[i].0) + (if k == r[i].0 then [xs[n]] else []);
        if i < |prev| {
          assert prev[i].1 == Matching(xs[..n], key, prev[i].0);
        }
      }
    }
  }

  /** Inserting keeps the key order and appends a key met for the first time. */
  lemma KeysAfterInsert<K, T>(g: Groups<K, T>, k: K, x: T)
    requires DistinctKeys(g)
    ensures HasKey(g, k) <==> k in KeysOf(g)
    ensures KeysOf(Insert(g, k, x)) == if HasKey(g, k) then KeysOf(g) else KeysOf(g) + [k]
  {
    var r := Insert(g, k, x);
    if k in KeysOf(g) {
      var i :| 0 <= i < |g| && KeysOf(g)[i] == k;
      assert g[i].0 == k;
    }
    if HasKey(g, k) {
      assert |r| == |g|;
      assert KeysOf(r) == KeysOf(g);
    } else {
      assert KeysOf(r) == KeysOf(g) + [k];
    }
  }

  /** The dictionary's keys are the inputs' keys, each once, in the order
      in which the loop first meets them. */
  lemma {:induction false} GroupByFirstSeen<K, T>(xs: seq<T>, key: T -> K)
    ensures KeysOf(GroupBy(xs, key)) == Distinct(KeySeq(xs, key))
  {
    if |xs| > 0 {
      var n := |xs| - 1;
      var prev := GroupBy(xs[..n], key);
      GroupByFirstSeen(xs[..n], key);
      assert KeySeq(xs, key)[..n] == KeySeq(xs[..n], key);
      KeysAfterInsert(prev, key(xs[n]), xs[n]);
    }
  }

  /** Total number of members over all groups. */
  function TotalSize<K, T>(g: Groups<K, T>): nat {
    if |g| == 0 then 0 else TotalSize(g[..|g| - 1]) + |g[|g| - 1].1|
  }

  /** Adding one member to one group adds one to the total. */
  lemma {:induction false} TotalSizeUpdate<K, T>(g: Groups<K, T>, i: nat, k: K, x: T)
    requires i < |g|
    ensures TotalSize(g[i := (k, g[i].1 + [x])]) == TotalSize(g) + 1
    decreases |g|
  {
    var h := g[i := (k, g[i].1 + [x])];
    var n := |g| - 1;
    if i < n {
      TotalSizeUpdate(g[..n], i, k, x);
      assert h[..n] == g[..n][i := (k, g[i].1 + [x])];
    } else {
      assert h[..n] == g[..n];
    }
  }

  /** No input is lost or duplicated: the groups hold as many members as
      the input has. */
  lemma {:induction false} GroupBySize<K, T>(xs: seq<T>, key: T -> K)
    ensures TotalSize(GroupBy(xs, key)) == |xs|
  {
    if |xs| > 0 {
      var n := |xs| - 1;
      var k := key(xs[n]);
      var prev := GroupBy(xs[..n], key);
      GroupBySize(xs[..n], key);
      var i := KeyIndex(prev, k);
      var r := GroupBy(xs, key);
      assert r == Insert(prev, k, xs[n]);
      if i < |prev| {
        assert r == prev[i := (k, prev[i].1 + [xs[n]])];
        TotalSizeUpdate(prev, i, k, xs[n]);
      } else {
        assert r == prev + [(k, [xs[n]])];
        assert r[..|prev|] == prev;
      }
    }
  }

  /** The groups' members one after another, each with its group's key. */
  function Flatten<K, T>(g: Groups<K, T>): (r: seq<(K, T)>)
    ensures |r| == TotalSize(g)
  {
    if |g| == 0 then []
    else
      var n := |g| - 1;
      Flatten(g[..n]) + seq(|g[n].1|, j requires 0 <= j < |g[n].1| => (g[n].0, g[n].1[j]))
  }

  /** A flattened pair is a member of some group, with that group's key. */
  lemma {:induction false} FlattenMembers<K, T>(g: Groups<K, T>)
    ensures forall p :: p in Flatten(g) ==> exists i :: 0 <= i < |g| && p.0 == g[i].0 && p.1 in g[i].1
    ensures forall i, x :: 0 <= i < |g| && x in g[i].1 ==> (g[i].0, x) in Flatten(g)
  {
    if |g| > 0 {
      var n := |g| - 1;
      var init := g[..n];
      FlattenMembers(init);
      var last := seq(|g[n].1|, j requires 0 <= j < |g[n].1| => (g[n].0, g[n].1[j]));
      assert Flatten(g) == Flatten(init) + last;
      forall i, x | 0 <= i < |g| && x in g[i].1 ensures (g[i].0, x) in Flatten(g) {
        if i < n {
          assert init[i] == g[i];
        } else {
          var j :| 0 <= j < |g[n].1| && g[n].1[j] == x;
          assert last[j] == (g[i].0, x);
        }
      }
      forall p | p in Flatten(g) ensures exists i :: 0 <= i < |g| && p.0 == g[i].0 && p.1 in g[i].1 {
        if p in last {
          var j :| 0 <= j < |last| && last[j] == p;
          assert p.0 == g[n].0 && p.1 in g[n].1;
        }
        if p in Flatten(init) {
          var i :| 0 <= i < |init| && p.0 == init[i].0 && p.1 in init[i].1;
          assert init[i] == g[i];
        }
      }
    }
  }

  /** A flattened pair of groups that partition `xs` is an input with its key. */
  lemma FlattenSound<K, T>(g: Groups<K, T>, xs: seq<T>, key: T -> K)
    requires forall i :: 0 <= i < |g| ==> g[i].1 == Matching(xs, key, g[i].0)
    ensures forall p :: p in Flatten(g) ==> p.1 in xs && p.0 == key(p.1)
  {
    FlattenMembers(g);
    forall p | p in Flatten(g) ensures p.1 in xs && p.0 == key(p.1) {
      var i :| 0 <= i < |g| && p.0 == g[i].0 && p.1 in g[i].1;
      assert p.1 in Matching(xs, key, g[i].0);
    }
  }

  /** Every input, with its key, is a flattened pair of groups that
      partition `xs` and cover every key. */
  lemma FlattenComplete<K, T>(g: Groups<K, T>, xs: seq<T>, key: T -> K)
    requires forall i :: 0 <= i < |g| ==> g[i].1 == Matching(xs, key, g[i].0)
    requires forall j :: 0 <= j < |xs| ==> HasKey(g, key(xs[j]))
    ensures forall x :: x in xs ==> (key(x), x) in Flatten(g)
  {
    FlattenMembers(g);
    forall x | x in xs ensures (key(x), x) in Flatten(g) {
      var j :| 0 <= j < |xs| && xs[j] == x;
      var i :| 0 <= i < |g| && g[i].0 == key(xs[j]);
      assert x in Matching(xs, key, g[i].0);
      var p := (key(x), x);
      assert p.0 == g[i].0 && p.1 in g[i].1;
    }
  }

  /** Flattening the grouping gives back each input paired with its key,
      and nothing else. */
  lemma GroupByFlatten<K, T>(xs: seq<T>, key: T -> K)
    ensures forall p :: p in Flatten(GroupBy(xs, key)) ==> p.1 in xs && p.0 == key(p.1)
    ensures forall x :: x in xs ==> (key(x), x) in Flatten(GroupBy(xs, key))
  {
    GroupByPartitions(xs, key);
    GroupByCovers(xs, key);
    FlattenSound(GroupBy(xs, key), xs, key);
    FlattenComplete(GroupBy(xs, key), xs, key);
  }

  /** `f` applied to each pair, in order. */
  function MapPairs<K, T, R>(ps: seq<(K, T)>, f: (K, T) -> R): (r: seq<R>)
    ensures |r| == |ps|
    ensures forall i :: 0 <= i < |ps| ==> r[i] == f(ps[i].0, ps[i].1)
  {
    seq(|ps|, i requires 0 <= i < |ps| => f(ps[i].0, ps[i].1))
  }

  /** Each mapped element comes from some pair, and each pair is mapped. */
  lemma MapPairsMembers<K, T, R>(ps: seq<(K, T)>, f: (K, T) -> R)
    ensures forall y :: y in MapPairs(ps, f) <==> exists p :: p in ps && y == f(p.0, p.1)
  {
    var r := MapPairs(ps, f);
    forall y ensures y in r <==> exists p :: p in ps && y == f(p.0, p.1) {
      if y in r {
        var i :| 0 <= i < |r| && r[i] == y;
        assert ps[i] in ps;
      }
      if exists p :: p in ps && y == f(p.0, p.1) {
        var p :| p in ps && y == f(p.0, p.1);
        var i :| 0 <= i < |ps| && ps[i] == p;
        assert r[i] == y;
      }
    }
  }

  /** Mapping pairs that are exactly the inputs with their keys reaches
      every input through its own key. */
  lemma MapKeyed<K, T, R>(ps: seq<(K, T)>, xs: seq<T>, key: T -> K, f: (K, T) -> R)
    requires forall p :: p in ps ==> p.1 in xs && p.0 == key(p.1)
    requires forall x :: x in xs ==> (key(x), x) in ps
    ensures forall y :: y in MapPairs(ps, f) <==> exists x :: x in xs && y == f(key(x), x)
  {
    MapPairsMembers(ps, f);
    forall y ensures y in MapPairs(ps, f) <==> exists x :: x in xs && y == f(key(x), x) {
      if y in MapPairs(ps, f) {
        var p :| p in ps && y == f(p.0, p.1);
        assert p.1 in xs && y == f(key(p.1), p.1);
      }
      if exists x :: x in xs && y == f(key(x), x) {
        var x :| x in xs && y == f(key(x), x);
        assert (key(x), x) in ps;
      }
    }
  }

  /** Mapping the flattened grouping reaches every input exactly through
      its own key. */
  lemma GroupByMapped<K, T, R>(xs: seq<T>, key: T -> K, f: (K, T) -> R)
    ensures forall y :: y in MapPairs(Flatten(GroupBy(xs, key)), f) <==> exists x :: x in xs && y == f(key(x), x)
  {
    GroupByFlatten(xs, key);
    MapKeyed(Flatten(GroupBy(xs, key)), xs, key, f);
  }
}
