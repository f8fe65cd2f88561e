/** Sequence operations the scoreboard and the presenter are built from:
    selection (Ruby's `select`, `delete_if`, SQL's WHERE), grouping
    (Ruby's `group_by`, SQL's GROUP BY) and ordering (SQL's ORDER BY). */
module Collections {

  datatype Option<T> = None | Some(value: T)

  /** Elements of `xs` that satisfy `p`, in their original order. */
  function Filter<T>(xs: seq<T>, p: T -> bool): (r: seq<T>)
    ensures |r| <= |xs|
    ensures forall i :: 0 <= i < |r| ==> r[i] in xs && p(r[i])
    decreases |xs|
  {
    if xs == [] then []
    else
      var init := xs[..|xs| - 1];
      assert forall i :: 0 <= i < |init| ==> init[i] == xs[i];
      Filter(init, p) + (if p(xs[|xs| - 1]) then [xs[|xs| - 1]] else [])
  }

  /** Every element that satisfies `p` is selected. */
  lemma {:induction false} FilterComplete<T>(xs: seq<T>, p: T -> bool, i: nat)
    requires i < |xs| && p(xs[i])
    ensures xs[i] in Filter(xs, p)
    decreases |xs|
  {
    if i < |xs| - 1 {
      var init := xs[..|xs| - 1];
      FilterComplete(init, p, i);
      assert init[i] == xs[i];
    }
  }

  /** An element is selected exactly when it occurs and satisfies `p`. */
  lemma FilterMember<T>(xs: seq<T>, p: T -> bool, x: T)
    ensures x in Filter(xs, p) <==> x in xs && p(x)
  {
    var r := Filter(xs, p);
    if x in r {
      var i :| 0 <= i < |r| && r[i] == x;
    }
    if x in xs && p(x) {
      var i :| 0 <= i < |xs| && xs[i] == x;
      FilterComplete(xs, p, i);
    }
  }

  /** `idx` embeds `r` into `xs`: `r[k]` is `xs[idx[k]]` and the indices strictly increase. */
  ghost predicate Embedding<T>(idx: seq<int>, r: seq<T>, xs: seq<T>) {
    && |idx| == |r|
    && (forall k :: 0 <= k < |idx| ==> 0 <= idx[k] < |xs| && r[k] == xs[idx[k]])
    && (forall k, l :: 0 <= k < l < |idx| ==> idx[k] < idx[l])
  }

  /** `r` is `xs` with some elements left out and the rest in their original order. */
  ghost predicate SubsequenceOf<T>(r: seq<T>, xs: seq<T>) {
    exists idx: seq<int> :: Embedding(idx, r, xs)
  }

  lemma EmbeddingSkip<T>(idx: seq<int>, r: seq<T>, xs: seq<T>, y: T)
    requires Embedding(idx, r, xs)
    ensures Embedding(idx, r, xs + [y])
  {
    forall k | 0 <= k < |idx| ensures (xs + [y])[idx[k]] == xs[idx[k]] {
    }
  }

  lemma EmbeddingKeep<T>(idx: seq<int>, r: seq<T>, xs: seq<T>, y: T)
    requires Embedding(idx, r, xs)
    ensures Embedding(idx + [|xs|], r + [y], xs + [y])
  {
    forall k | 0 <= k < |idx| ensures (xs + [y])[idx[k]] == xs[idx[k]] {
    }
  }

  /** Selection keeps the relative order of the elements it keeps. */
  lemma {:induction false} FilterIsSubsequence<T>(xs: seq<T>, p: T -> bool)
    ensures SubsequenceOf(Filter(xs, p), xs)
    decreases |xs|
  {
    if xs == [] {
      assert Embedding([], Filter(xs, p), xs);
    } else {
      var init := xs[..|xs| - 1];
      var y := xs[|xs| - 1];
      assert init + [y] == xs;
      FilterIsSubsequence(init, p);
      var idx :| Embedding(idx, Filter(init, p), init);
      if p(y) {
        EmbeddingKeep(idx, Filter(init, p), init, y);
        assert Embedding(idx + [|init|], Filter(xs, p), xs);
      } else {
        EmbeddingSkip(idx, Filter(init, p), init, y);
        assert Embedding(idx, Filter(xs, p), xs);
      }
    }
  }

  /** Selection keeps every copy of an element that satisfies `p`, and no copy of one that does not. */
  lemma {:induction false} FilterCount<T>(xs: seq<T>, p: T -> bool, x: T)
    ensures multiset(Filter(xs, p))[x] == if p(x) then multiset(xs)[x] else 0
    decreases |xs|
  {
    if xs != [] {
      var init := xs[..|xs| - 1];
      var y := xs[|xs| - 1];
      assert init + [y] == xs;
      FilterCount(init, p, x);
    }
  }

  /** Leaving elements out twice leaves elements out once. */
  lemma SubsequenceTransitive<T>(a: seq<T>, b: seq<T>, c: seq<T>)
    requires SubsequenceOf(a, b) && SubsequenceOf(b, c)
    ensures SubsequenceOf(a, c)
  {
    var ab :| Embedding(ab, a, b);
    var bc :| Embedding(bc, b, c);
    var ac := seq(|ab|, k requires 0 <= k < |ab| => bc[ab[k]]);
    assert Embedding(ac, a, c);
  }

  /** Nothing is selected when no element satisfies `p`. */
  lemma {:induction false} FilterNone<T>(xs: seq<T>, p: T -> bool)
    requires forall i :: 0 <= i < |xs| ==> !p(xs[i])
    ensures Filter(xs, p) == []
    decreases |xs|
  {
    if xs != [] {
      FilterNone(xs[..|xs| - 1], p);
    }
  }

  /** Ruby's `compact` over a sequence of optional values: the present
      values, in their original order. */
  function Compact<T>(xs: seq<Option<T>>): (r: seq<T>)
    ensures |r| <= |xs|
    decreases |xs|
  {
    if xs == [] then []
    else
      Compact(xs[..|xs| - 1]) + (if xs[|xs| - 1].Some? then [xs[|xs| - 1].value] else [])
  }

  /** A value survives `compact` exactly when it was present. */
  lemma {:induction false} CompactMember<T>(xs: seq<Option<T>>, y: T)
    ensures y in Compact(xs) <==> Some(y) in xs
    decreases |xs|
  {
    if xs != [] {
      var init := xs[..|xs| - 1];
      CompactMember(init, y);
      assert xs == init + [xs[|xs| - 1]];
    }
  }

  /** The present values wrapped again: what `compact` kept, as optional values. */
  function Wrap<T>(r: seq<T>): seq<Option<T>> {
    seq(|r|, k requires 0 <= k < |r| => Some(r[k]))
  }

  /** `compact` keeps the present values in their original order: the wrapped
      result embeds into the input at strictly increasing indices. */
  lemma {:induction false} CompactIsSubsequence<T>(xs: seq<Option<T>>)
    ensures SubsequenceOf(Wrap(Compact(xs)), xs)
    decreases |xs|
  {
    if xs == [] {
      assert Embedding([], Wrap(Compact(xs)), xs);
    } else {
      var init := xs[..|xs| - 1];
      var y := xs[|xs| - 1];
      assert init + [y] == xs;
      CompactIsSubsequence(init);
      var idx :| Embedding(idx, Wrap(Compact(init)), init);
      if y.Some? {
        EmbeddingKeep(idx, Wrap(Compact(init)), init, y);
        assert Wrap(Compact(xs)) == Wrap(Compact(init)) + [y];
        assert Embedding(idx + [|init|], Wrap(Compact(xs)), xs);
      } else {
        EmbeddingSkip(idx, Wrap(Compact(init)), init, y);
        assert Embedding(idx, Wrap(Compact(xs)), xs);
      }
    }
  }

  // ---------------------------------------------------------------------
  // Grouping

  datatype Group<K, T> = Group(key: K, items: seq<T>)

  /** The elements of `xs` whose key is `k`, in their original order. */
  function Matching<T, K(==)>(xs: seq<T>, key: T -> K, k: K): (r: seq<T>)
    ensures |r| <= |xs|
    ensures forall i :: 0 <= i < |r| ==> r[i] in xs && key(r[i]) == k
    decreases |xs|
  {
    if xs == [] then []
    else
      var init := xs[..|xs| - 1];
      assert forall i :: 0 <= i < |init| ==> init[i] == xs[i];
      Matching(init, key, k) + (if key(xs[|xs| - 1]) == k then [xs[|xs| - 1]] else [])
  }

  /** Every element whose key is `k` is among the matching ones. */
  lemma {:induction false} MatchingComplete<T, K>(xs: seq<T>, key: T -> K, k: K, i: nat)
    requires i < |xs| && key(xs[i]) == k
    ensures xs[i] in Matching(xs, key, k)
    decreases |xs|
  {
    if i < |xs| - 1 {
      var init := xs[..|xs| - 1];
      MatchingComplete(init, key, k, i);
      assert init[i] == xs[i];
    }
  }

  /** The elements of one key keep their relative order. */
  lemma {:induction false} MatchingIsSubsequence<T, K>(xs: seq<T>, key: T -> K, k: K)
    ensures SubsequenceOf(Matching(xs, key, k), xs)
    decreases |xs|
  {
    if xs == [] {
      assert Embedding([], Matching(xs, key, k), xs);
    } else {
      var init := xs[..|xs| - 1];
      var y := xs[|xs| - 1];
      assert init + [y] == xs;
      MatchingIsSubsequence(init, key, k);
      var idx :| Embedding(idx, Matching(init, key, k), init);
      if key(y) == k {
        EmbeddingKeep(idx, Matching(init, key, k), init, y);
        assert Embedding(idx + [|init|], Matching(xs, key, k), xs);
      } else {
        EmbeddingSkip(idx, Matching(init, key, k), init, y);
        assert Embedding(idx, Matching(xs, key, k), xs);
      }
    }
  }

  /** The elements of one key keep all their copies. */
  lemma {:induction false} MatchingCount<T, K>(xs: seq<T>, key: T -> K, k: K, x: T)
    ensures multiset(Matching(xs, key, k))[x] == if key(x) == k then multiset(xs)[x] else 0
    decreases |xs|
  {
    if xs != [] {
      var init := xs[..|xs| - 1];
      var y := xs[|xs| - 1];
      assert init + [y] == xs;
      MatchingCount(init, key, k, x);
    }
  }

  /** Index of the first element of `xs` whose key is `k`, or `|xs|` if there is none. */
  function FirstIndex<T, K(==)>(xs: seq<T>, key: T -> K, k: K): (i: nat)
    ensures i <= |xs|
    ensures i < |xs| ==> key(xs[i]) == k
    ensures forall j :: 0 <= j < i ==> key(xs[j]) != k
    decreases |xs|
  {
    if xs == [] then 0
    else if key(xs[0]) == k then 0
    else 1 + FirstIndex(xs[1..], key, k)
  }

  lemma {:induction false} FirstIndexAppend<T, K>(xs: seq<T>, x: T, key: T -> K, k: K)
    ensures FirstIndex(xs + [x], key, k) ==
      if FirstIndex(xs, key, k) < |xs| then FirstIndex(xs, key, k)
      else if key(x) == k then |xs| else |xs| + 1
    decreases |xs|
  {
    if xs != [] && key(xs[0]) != k {
      assert (xs + [x])[1..] == xs[1..] + [x];
      FirstIndexAppend(xs[1..], x, key, k);
    }
  }

  /** Position of the group with key `k`, or `|gs|` if there is none. */
  function GroupIndex<K(==), T>(gs: seq<Group<K, T>>, k: K): (i: nat)
    ensures i <= |gs|
    ensures i < |gs| ==> gs[i].key == k
    ensures i == |gs| ==> forall j :: 0 <= j < |gs| ==> gs[j].key != k
    decreases |gs|
  {
    if gs == [] then 0
    else if gs[0].key == k then 0
    else 1 + GroupIndex(gs[1..], k)
  }

  ghost predicate DistinctKeys<K, T>(gs: seq<Group<K, T>>) {
    forall i, j :: 0 <= i < j < |gs| ==> gs[i].key != gs[j].key
  }

  ghost predicate ItemsMatch<T, K(!new)>(gs: seq<Group<K, T>>, xs: seq<T>, key: T -> K) {
    forall g :: 0 <= g < |gs| ==> gs[g].items == Matching(xs, key, gs[g].key) && gs[g].items != []
  }

  ghost predicate KeysCovered<T, K(!new)>(gs: seq<Group<K, T>>, xs: seq<T>, key: T -> K) {
    forall i :: 0 <= i < |xs| ==> GroupIndex(gs, key(xs[i])) < |gs|
  }

  ghost predicate FirstOccurrenceOrder<T, K(!new)>(gs: seq<Group<K, T>>, xs: seq<T>, key: T -> K) {
    forall g, h :: 0 <= g < h < |gs| ==> FirstIndex(xs, key, gs[g].key) < FirstIndex(xs, key, gs[h].key)
  }

  /** What grouping promises: one non-empty group per key that occurs, keys
      in the order of their first occurrence, and each group holding exactly
      the elements with its key, in their original order. */
  ghost predicate GroupsOf<T, K(!new)>(gs: seq<Group<K, T>>, xs: seq<T>, key: T -> K) {
    && DistinctKeys(gs)
    && ItemsMatch(gs, xs, key)
    && KeysCovered(gs, xs, key)
    && FirstOccurrenceOrder(gs, xs, key)
  }

  /** Ruby's `group_by`: groups in order of first occurrence of their key
      (GroupByGroups states what it computes). */
  function GroupBy<T, K(==)>(xs: seq<T>, key: T -> K): seq<Group<K, T>>
    decreases |xs|
  {
    if xs == [] then []
    else
      var gs := GroupBy(xs[..|xs| - 1], key);
      var x := xs[|xs| - 1];
      var i := GroupIndex(gs, key(x));
      if i == |gs| then gs + [Group(key(x), [x])]
      else gs[i := Group(key(x), gs[i].items + [x])]
  }

  /** GroupBy groups: one non-empty group per key, in order of first
      occurrence, each holding exactly the elements with its key. */
  lemma {:induction false} GroupByGroups<T, K(!new)>(xs: seq<T>, key: T -> K)
    ensures GroupsOf(GroupBy(xs, key), xs, key)
    decreases |xs|
  {
    if xs == [] {
    } else {
      var init := xs[..|xs| - 1];
      var x := xs[|xs| - 1];
      GroupByGroups(init, key);
      var gs := GroupBy(init, key);
      assert init + [x] == xs;
      var i := GroupIndex(gs, key(x));
      if i == |gs| {
        PlaceNew(gs, init, x, key);
      } else {
        PlaceExisting(gs, init, x, key, i);
      }
    }
  }

  lemma {:induction false} MatchingAppend<T, K>(xs: seq<T>, x: T, key: T -> K, c: K)
    ensures Matching(xs + [x], key, c) == Matching(xs, key, c) + (if key(x) == c then [x] else [])
  {
    assert (xs + [x])[..|xs|] == xs;
  }

  lemma {:induction false} MatchingNone<T, K>(xs: seq<T>, key: T -> K, c: K)
    requires forall j :: 0 <= j < |xs| ==> key(xs[j]) != c
    ensures Matching(xs, key, c) == []
    decreases |xs|
  {
    if xs != [] {
      MatchingNone(xs[..|xs| - 1], key, c);
    }
  }

  lemma GroupKeyOccurs<T, K(!new)>(gs: seq<Group<K, T>>, xs: seq<T>, key: T -> K, g: nat)
    requires ItemsMatch(gs, xs, key)
    requires g < |gs|
    ensures FirstIndex(xs, key, gs[g].key) < |xs|
  {
    var m := gs[g].items[0];
    assert m in Matching(xs, key, gs[g].key);
    var j :| 0 <= j < |xs| && xs[j] == m;
    assert key(xs[j]) == gs[g].key;
  }

  /** Opening a group for a new key keeps every grouping promise. */
  lemma PlaceNew<T, K(!new)>(gs: seq<Group<K, T>>, xs: seq<T>, x: T, key: T -> K)
    requires GroupsOf(gs, xs, key)
    requires forall g :: 0 <= g < |gs| ==> gs[g].key != key(x)
    ensures GroupsOf(gs + [Group(key(x), [x])], xs + [x], key)
  {
    assert KeysCovered(gs, xs, key);
    forall j | 0 <= j < |xs| ensures key(xs[j]) != key(x) {
      var g := GroupIndex(gs, key(xs[j]));
    }
    PlaceNewItems(gs, xs, x, key);
    PlaceNewCovered(gs, xs, x, key);
    PlaceNewOrder(gs, xs, x, key);
  }

  lemma PlaceNewItems<T, K(!new)>(gs: seq<Group<K, T>>, xs: seq<T>, x: T, key: T -> K)
    requires ItemsMatch(gs, xs, key)
    requires KeysCovered(gs, xs, key)
    requires forall g :: 0 <= g < |gs| ==> gs[g].key != key(x)
    ensures ItemsMatch(gs + [Group(key(x), [x])], xs + [x], key)
  {
    var r := gs + [Group(key(x), [x])];
    forall g | 0 <= g < |r| ensures r[g].items == Matching(xs + [x], key, r[g].key) && r[g].items != [] {
      MatchingAppend(xs, x, key, r[g].key);
      if g == |gs| {
        forall j | 0 <= j < |xs| ensures key(xs[j]) != key(x) {
          var h := GroupIndex(gs, key(xs[j]));
        }
        MatchingNone(xs, key, key(x));
      } else {
        assert r[g] == gs[g];
      }
    }
  }

  lemma PlaceNewCovered<T, K(!new)>(gs: seq<Group<K, T>>, xs: seq<T>, x: T, key: T -> K)
    requires KeysCovered(gs, xs, key)
    ensures KeysCovered(gs + [Group(key(x), [x])], xs + [x], key)
  {
    var r := gs + [Group(key(x), [x])];
    var ys := xs + [x];
    forall j | 0 <= j < |ys| ensures GroupIndex(r, key(ys[j])) < |r| {
      if j < |xs| {
        assert ys[j] == xs[j];
        var g := GroupIndex(gs, key(xs[j]));
        assert r[g].key == key(ys[j]);
      } else {
        assert ys[j] == x;
        assert r[|gs|] == Group(key(x), [x]);
      }
    }
  }

  lemma PlaceNewOrder<T, K(!new)>(gs: seq<Group<K, T>>, xs: seq<T>, x: T, key: T -> K)
    requires ItemsMatch(gs, xs, key)
    requires FirstOccurrenceOrder(gs, xs, key)
    requires forall j :: 0 <= j < |xs| ==> key(xs[j]) != key(x)
    ensures FirstOccurrenceOrder(gs + [Group(key(x), [x])], xs + [x], key)
  {
    var r := gs + [Group(key(x), [x])];
    var ys := xs + [x];
    FirstIndexAppend(xs, x, key, key(x));
    forall g, h | 0 <= g < h < |r| ensures FirstIndex(ys, key, r[g].key) < FirstIndex(ys, key, r[h].key) {
      assert r[g] == gs[g];
      GroupKeyOccurs(gs, xs, key, g);
      FirstIndexAppend(xs, x, key, r[g].key);
      if h < |gs| {
        assert r[h] == gs[h];
        GroupKeyOccurs(gs, xs, key, h);
        FirstIndexAppend(xs, x, key, r[h].key);
      }
    }
  }

  /** Appending to the group of an existing key keeps every grouping promise. */
  lemma PlaceExisting<T, K(!new)>(gs: seq<Group<K, T>>, xs: seq<T>, x: T, key: T -> K, i: nat)
    requires GroupsOf(gs, xs, key)
    requires i < |gs| && gs[i].key == key(x)
    ensures GroupsOf(gs[i := Group(key(x), gs[i].items + [x])], xs + [x], key)
  {
    PlaceExistingItems(gs, xs, x, key, i);
    PlaceExistingCovered(gs, xs, x, key, i);
    PlaceExistingOrder(gs, xs, x, key, i);
  }

  lemma PlaceExistingItems<T, K(!new)>(gs: seq<Group<K, T>>, xs: seq<T>, x: T, key: T -> K, i: nat)
    requires DistinctKeys(gs)
    requires ItemsMatch(gs, xs, key)
    requires i < |gs| && gs[i].key == key(x)
    ensures ItemsMatch(gs[i := Group(key(x), gs[i].items + [x])], xs + [x], key)
  {
    var r := gs[i := Group(key(x), gs[i].items + [x])];
    forall g | 0 <= g < |r| ensures r[g].items == Matching(xs + [x], key, r[g].key) && r[g].items != [] {
      MatchingAppend(xs, x, key, r[g].key);
      if g < i { assert gs[g].key != gs[i].key; }
      if g > i { assert gs[i].key != gs[g].key; }
    }
  }

  lemma PlaceExistingCovered<T, K(!new)>(gs: seq<Group<K, T>>, xs: seq<T>, x: T, key: T -> K, i: nat)
    requires KeysCovered(gs, xs, key)
    requires i < |gs| && gs[i].key == key(x)
    ensures KeysCovered(gs[i := Group(key(x), gs[i].items + [x])], xs + [x], key)
  {
    var r := gs[i := Group(key(x), gs[i].items + [x])];
    var ys := xs + [x];
    forall j | 0 <= j < |ys| ensures GroupIndex(r, key(ys[j])) < |r| {
      if j < |xs| {
        assert ys[j] == xs[j];
        var g := GroupIndex(gs, key(xs[j]));
        assert r[g].key == key(ys[j]);
      } else {
        assert ys[j] == x;
        assert r[i].key == key(ys[j]);
      }
    }
  }

  lemma PlaceExistingOrder<T, K(!new)>(gs: seq<Group<K, T>>, xs: seq<T>, x: T, key: T -> K, i: nat)
    requires ItemsMatch(gs, xs, key)
    requires FirstOccurrenceOrder(gs, xs, key)
    requires i < |gs| && gs[i].key == key(x)
    ensures FirstOccurrenceOrder(gs[i := Group(key(x), gs[i].items + [x])], xs + [x], key)
  {
    var r := gs[i := Group(key(x), gs[i].items + [x])];
    forall g, h | 0 <= g < h < |r|
      ensures FirstIndex(xs + [x], key, r[g].key) < FirstIndex(xs + [x], key, r[h].key)
    {
      assert r[g].key == gs[g].key && r[h].key == gs[h].key;
      GroupKeyOccurs(gs, xs, key, g);
      GroupKeyOccurs(gs, xs, key, h);
      FirstIndexAppend(xs, x, key, r[g].key);
      FirstIndexAppend(xs, x, key, r[h].key);
    }
  }

  /** Every element lands in exactly one group: the one of its key. */
  lemma {:induction false} InExactlyOneGroup<T, K(!new)>(gs: seq<Group<K, T>>, xs: seq<T>, key: T -> K, i: nat)
    requires GroupsOf(gs, xs, key)
    requires i < |xs|
    ensures exists g :: 0 <= g < |gs| && xs[i] in gs[g].items
    ensures forall g, h :: 0 <= g < |gs| && 0 <= h < |gs| && xs[i] in gs[g].items && xs[i] in gs[h].items ==> g == h
  {
    assert KeysCovered(gs, xs, key) && ItemsMatch(gs, xs, key);
    var g := GroupIndex(gs, key(xs[i]));
    MatchingComplete(xs, key, gs[g].key, i);
    forall g1, h1 | 0 <= g1 < |gs| && 0 <= h1 < |gs| && xs[i] in gs[g1].items && xs[i] in gs[h1].items
      ensures g1 == h1
    {
      assert gs[g1].items == Matching(xs, key, gs[g1].key);
      assert gs[h1].items == Matching(xs, key, gs[h1].key);
      assert gs[g1].key == gs[h1].key;
    }
  }

  /** The keys that occur in `xs`. */
  ghost function KeySet<T, K>(xs: seq<T>, key: T -> K): set<K> {
    set i | 0 <= i < |xs| :: key(xs[i])
  }

  /** There is one group per distinct key of `xs`. */
  lemma GroupCount<T, K(!new)>(gs: seq<Group<K, T>>, xs: seq<T>, key: T -> K)
    requires GroupsOf(gs, xs, key)
    ensures |gs| == |KeySet(xs, key)|
  {
    var groupKeys := set g | 0 <= g < |gs| :: gs[g].key;
    forall c | c in KeySet(xs, key) ensures c in groupKeys {
      var i :| 0 <= i < |xs| && key(xs[i]) == c;
      var g := GroupIndex(gs, key(xs[i]));
    }
    forall c | c in groupKeys ensures c in KeySet(xs, key) {
      var g :| 0 <= g < |gs| && gs[g].key == c;
      var m := gs[g].items[0];
      assert m in Matching(xs, key, c);
      var j :| 0 <= j < |xs| && xs[j] == m;
    }
    assert groupKeys == KeySet(xs, key);
    DistinctKeyCount(gs);
  }

  lemma {:induction false} DistinctKeyCount<K, T>(gs: seq<Group<K, T>>)
    requires DistinctKeys(gs)
    ensures |set g | 0 <= g < |gs| :: gs[g].key| == |gs|
    decreases |gs|
  {
    if gs != [] {
      var init := gs[..|gs| - 1];
      DistinctKeyCount(init);
      var last := gs[|gs| - 1].key;
      var before := set g | 0 <= g < |init| :: init[g].key;
      assert (set g | 0 <= g < |gs| :: gs[g].key) == before + {last};
      assert last !in before;
    }
  }

  // ---------------------------------------------------------------------
  // Ordering

  /** `le` is total and transitive: an ordering by a key that may tie. */
  ghost predicate TotalPreorder<T(!new)>(le: (T, T) -> bool) {
    && (forall a, b :: le(a, b) || le(b, a))
    && (forall a, b, c :: le(a, b) && le(b, c) ==> le(a, c))
  }

  ghost predicate SortedBy<T>(xs: seq<T>, le: (T, T) -> bool) {
    forall i, j :: 0 <= i < j < |xs| ==> le(xs[i], xs[j])
  }

  /** `x` inserted into `s` before the first element it does not follow. */
  function Insert<T>(x: T, s: seq<T>, le: (T, T) -> bool): (r: seq<T>)
    ensures multiset(r) == multiset(s) + multiset{x}
    ensures |r| == |s| + 1
  {
    if s == [] then [x]
    else if le(x, s[0]) then [x] + s
    else
      assert s == [s[0]] + s[1..];
      [s[0]] + Insert(x, s[1..], le)
  }

  /** SQL's ORDER BY: an insertion sort, which keeps the input order of ties. */
  function Sort<T>(xs: seq<T>, le: (T, T) -> bool): (r: seq<T>)
    ensures multiset(r) == multiset(xs)
    ensures |r| == |xs|
  {
    if xs == [] then []
    else
      assert xs == [xs[0]] + xs[1..];
      Insert(xs[0], Sort(xs[1..], le), le)
  }

  lemma {:induction false} InsertSorted<T(!new)>(x: T, s: seq<T>, le: (T, T) -> bool)
    requires TotalPreorder(le)
    requires SortedBy(s, le)
    ensures SortedBy(Insert(x, s, le), le)
  {
    if s != [] && !le(x, s[0]) {
      InsertSorted(x, s[1..], le);
      var r := Insert(x, s[1..], le);
      forall y | y in r ensures le(s[0], y) {
        assert y in multiset(r);
        if y != x {
          assert y in s[1..];
        }
      }
    }
  }

  /** The result of Sort is ordered by `le` and is a permutation of its input. */
  lemma {:induction false} SortSorted<T(!new)>(xs: seq<T>, le: (T, T) -> bool)
    requires TotalPreorder(le)
    ensures SortedBy(Sort(xs, le), le)
    ensures multiset(Sort(xs, le)) == multiset(xs)
  {
    if xs != [] {
      SortSorted(xs[1..], le);
      InsertSorted(xs[0], Sort(xs[1..], le), le);
    }
  }

  ghost predicate DistinctBy<T, K>(xs: seq<T>, key: T -> K) {
    forall i, j :: 0 <= i < j < |xs| ==> key(xs[i]) != key(xs[j])
  }

  lemma {:induction false} InsertKeepsDistinct<T, K>(x: T, s: seq<T>, le: (T, T) -> bool, key: T -> K)
    requires DistinctBy(s, key)
    requires forall i :: 0 <= i < |s| ==> key(s[i]) != key(x)
    ensures DistinctBy(Insert(x, s, le), key)
  {
    if s != [] && !le(x, s[0]) {
      InsertKeepsDistinct(x, s[1..], le, key);
      var r := Insert(x, s[1..], le);
      forall j | 0 <= j < |r| ensures key(s[0]) != key(r[j]) {
        assert r[j] in multiset(r);
        if r[j] != x {
          var k :| 0 <= k < |s[1..]| && s[1..][k] == r[j];
          assert s[1..][k] == s[k + 1];
        }
      }
    }
  }

  /** Elements with distinct keys keep distinct keys once sorted. */
  lemma {:induction false} SortKeepsDistinct<T, K>(xs: seq<T>, le: (T, T) -> bool, key: T -> K)
    requires DistinctBy(xs, key)
    ensures DistinctBy(Sort(xs, le), key)
  {
    if xs != [] {
      SortKeepsDistinct(xs[1..], le, key);
      var s := Sort(xs[1..], le);
      forall i | 0 <= i < |s| ensures key(s[i]) != key(xs[0]) {
        assert s[i] in multiset(xs[1..]);
        var k :| 0 <= k < |xs[1..]| && xs[1..][k] == s[i];
        assert xs[1..][k] == xs[k + 1];
      }
      InsertKeepsDistinct(xs[0], s, le, key);
    }
  }
}
