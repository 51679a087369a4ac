/**
 * Node ordering of both executors: `workflow.nodes.sort(cmp)` with the two
 * comparators of BackEnd/src/engine/executor.ts and executor.js.
 *
 * `Array.prototype.sort` is modelled as a stable in-place insertion sort that
 * moves an element left while the comparator reports its left neighbour
 * greater. For a comparator that agrees with an integer key, every stable sort
 * produces the same order (SortedStableUnique), so the choice of algorithm
 * does not matter there.
 */
module NodeOrder {
  import opened Wrappers
  import opened Types

  type Comparator = (Node, Node) -> int

  /** `a.position?.y ?? 0`: the vertical canvas position, 0 when absent. */
  function SortKey(n: Node): int {
    if n.position.Some? then n.position.value.y else 0
  }

  /** The TypeScript comparator `(a.position?.y ?? 0) - (b.position?.y ?? 0)`. */
  function CompareByY(a: Node, b: Node): int {
    SortKey(a) - SortKey(b)
  }

  /**
   * The compiled comparator `a.position?.y - b.position?.y || 0`: a missing
   * position makes the difference NaN, and `NaN || 0` is 0.
   */
  function CompareByYOrEqual(a: Node, b: Node): int {
    if a.position.Some? && b.position.Some? then a.position.value.y - b.position.value.y else 0
  }

  predicate SortedByKey(s: seq<Node>) {
    forall i, j :: 0 <= i < j < |s| ==> SortKey(s[i]) <= SortKey(s[j])
  }

  /** The nodes of `s` whose key is `k`, in their order in `s`. */
  function WithKey(s: seq<Node>, k: int): seq<Node>
    decreases |s|
  {
    if s == [] then [] else (if SortKey(s[0]) == k then [s[0]] else []) + WithKey(s[1..], k)
  }

  /** `WithKey` keeps only nodes of `s` that carry the key. */
  lemma {:induction false} WithKeyMembers(s: seq<Node>, k: int)
    ensures forall i :: 0 <= i < |WithKey(s, k)| ==> WithKey(s, k)[i] in s && SortKey(WithKey(s, k)[i]) == k
    decreases |s|
  {
    if s != [] {
      WithKeyMembers(s[1..], k);
    }
  }

  /** Stability: for every key, `t` lists the nodes with that key in the order `s` does. */
  ghost predicate KeyStable(t: seq<Node>, s: seq<Node>) {
    forall k :: WithKey(t, k) == WithKey(s, k)
  }

  /** The comparator only reports "greater" between nodes with greater keys. */
  ghost predicate Sound(cmp: Comparator) {
    forall a, b :: cmp(a, b) > 0 ==> SortKey(a) > SortKey(b)
  }

  /** Among the nodes of `s`, a greater key is always reported as "greater". */
  ghost predicate CompleteOn(cmp: Comparator, s: seq<Node>) {
    forall a, b :: a in s && b in s && SortKey(a) > SortKey(b) ==> cmp(a, b) > 0
  }

  /**
   * What `s.sort(cmp)` guarantees about its result `t`: a permutation, and,
   * for a comparator consistent with the key on `s`, sorted and stable. For
   * an inconsistent comparator the order is implementation-defined.
   */
  ghost predicate SortOutcome(cmp: Comparator, s: seq<Node>, t: seq<Node>) {
    && multiset(t) == multiset(s)
    && (Sound(cmp) && CompleteOn(cmp, s) ==> KeyStable(t, s) && SortedByKey(t))
  }

  predicate AllPositioned(s: seq<Node>) {
    forall i :: 0 <= i < |s| ==> s[i].position.Some?
  }

  // ------------------------------------------------------------ comparators

  /** The TypeScript comparator orders by the key, on every input. */
  lemma CompareByYAgreesWithKey(s: seq<Node>)
    ensures Sound(CompareByY) && CompleteOn(CompareByY, s)
  {
  }

  /** The compiled comparator never reports "greater" wrongly. */
  lemma CompareByYOrEqualIsSound()
    ensures Sound(CompareByYOrEqual)
  {
  }

  /** When every node has a position, the compiled comparator also orders by the key. */
  lemma CompareByYOrEqualCompleteWhenPositioned(s: seq<Node>)
    requires AllPositioned(s)
    ensures CompleteOn(CompareByYOrEqual, s)
  {
    forall a, b | a in s && b in s && SortKey(a) > SortKey(b)
      ensures CompareByYOrEqual(a, b) > 0
    {
      var i :| 0 <= i < |s| && s[i] == a;
      var j :| 0 <= j < |s| && s[j] == b;
    }
  }

  /**
   * With a node lacking a position the compiled comparator is not a
   * consistent comparison: the unpositioned node equals both others, which
   * are not equal to each other, so ECMAScript leaves the order it produces
   * implementation-defined.
   */
  lemma CompareByYOrEqualInconsistent(a: Node, b: Node, c: Node)
    requires a.position.None?
    requires b.position == Some(Position(0, 5)) && c.position == Some(Position(0, 1))
    ensures CompareByYOrEqual(a, b) == 0 && CompareByYOrEqual(a, c) == 0
    ensures CompareByYOrEqual(b, c) > 0
    ensures !CompleteOn(CompareByYOrEqual, [a, b]) || SortKey(b) <= SortKey(a)
  {
  }

  // ------------------------------------------------------------- stability

  lemma {:induction false} WithKeyAppend(u: seq<Node>, v: seq<Node>, k: int)
    ensures WithKey(u + v, k) == WithKey(u, k) + WithKey(v, k)
    decreases |u|
  {
    if u == [] {
      assert u + v == v;
    } else {
      var w := u + v;
      assert w != [] && w[0] == u[0] && w[1..] == u[1..] + v;
      WithKeyAppend(u[1..], v, k);
      var head := if SortKey(u[0]) == k then [u[0]] else [];
      assert WithKey(w, k) == head + WithKey(u[1..] + v, k);
      assert WithKey(u, k) == head + WithKey(u[1..], k);
      assert head + (WithKey(u[1..], k) + WithKey(v, k)) == (head + WithKey(u[1..], k)) + WithKey(v, k);
    }
  }

  /** Exchanging two neighbours with different keys keeps every key's order. */
  lemma SwapKeepsKeyStable(s: seq<Node>, j: nat)
    requires 0 < j < |s| && SortKey(s[j - 1]) != SortKey(s[j])
    ensures KeyStable(s[..j - 1] + [s[j], s[j - 1]] + s[j + 1..], s)
  {
    var pre, post := s[..j - 1], s[j + 1..];
    assert s == pre + [s[j - 1], s[j]] + post;
    forall k
      ensures WithKey(pre + [s[j], s[j - 1]] + post, k) == WithKey(s, k)
    {
      WithKeyAppend(pre + [s[j], s[j - 1]], post, k);
      WithKeyAppend(pre, [s[j], s[j - 1]], k);
      WithKeyAppend(pre + [s[j - 1], s[j]], post, k);
      WithKeyAppend(pre, [s[j - 1], s[j]], k);
      assert [s[j], s[j - 1]][1..] == [s[j - 1]];
      assert [s[j - 1], s[j]][1..] == [s[j]];
    }
  }

  lemma {:induction false} WithKeyNone(s: seq<Node>, k: int)
    requires forall i :: 0 <= i < |s| ==> SortKey(s[i]) != k
    ensures WithKey(s, k) == []
    decreases |s|
  {
    if s != [] {
      WithKeyNone(s[1..], k);
    }
  }

  /** In a sorted sequence the first node has the least key of any node in it. */
  lemma SortedFirstIsLeast(s: seq<Node>, k: int)
    requires SortedByKey(s) && WithKey(s, k) != []
    ensures s != [] && SortKey(s[0]) <= k
  {
    WithKeyMembers(s, k);
    var x := WithKey(s, k)[0];
    assert x in s && SortKey(x) == k;
  }

  /** Two key-stable arrangements are empty together. */
  lemma StableEmptyTogether(t: seq<Node>, u: seq<Node>)
    requires KeyStable(t, u)
    ensures t == [] <==> u == []
  {
    if t != [] {
      assert WithKey(t, SortKey(t[0])) != [];
      assert WithKey(u, SortKey(t[0])) == WithKey(t, SortKey(t[0]));
    }
    if u != [] {
      assert WithKey(u, SortKey(u[0])) != [];
      assert WithKey(t, SortKey(u[0])) == WithKey(u, SortKey(u[0]));
    }
  }

  /** Sorted and key-stable arrangements start with the same node. */
  lemma SortedStableHeads(t: seq<Node>, u: seq<Node>)
    requires t != [] && u != []
    requires SortedByKey(t) && SortedByKey(u) && KeyStable(t, u)
    ensures t[0] == u[0]
  {
    var m, m' := SortKey(t[0]), SortKey(u[0]);
    assert WithKey(t, m) == [t[0]] + WithKey(t[1..], m);
    assert WithKey(u, m') == [u[0]] + WithKey(u[1..], m');
    assert WithKey(u, m) == WithKey(t, m) && WithKey(t, m') == WithKey(u, m');
    SortedFirstIsLeast(u, m);
    SortedFirstIsLeast(t, m');
    assert m == m';
    assert WithKey(t, m)[0] == t[0] && WithKey(u, m)[0] == u[0];
  }

  /** Removing a common first node keeps key stability. */
  lemma StableTails(t: seq<Node>, u: seq<Node>)
    requires t != [] && u != [] && t[0] == u[0] && KeyStable(t, u)
    ensures KeyStable(t[1..], u[1..])
  {
    forall k
      ensures WithKey(t[1..], k) == WithKey(u[1..], k)
    {
      var head := if SortKey(t[0]) == k then [t[0]] else [];
      assert WithKey(t, k) == head + WithKey(t[1..], k);
      assert WithKey(u, k) == head + WithKey(u[1..], k);
      assert WithKey(t[1..], k) == WithKey(t, k)[|head|..];
      assert WithKey(u[1..], k) == WithKey(u, k)[|head|..];
    }
  }

  /**
   * Two sorted, key-stable arrangements of the same nodes are identical: the
   * order a stable sort by the key produces is determined by its input.
   */
  lemma {:induction false} SortedStableUnique(t: seq<Node>, u: seq<Node>)
    requires SortedByKey(t) && SortedByKey(u) && KeyStable(t, u)
    ensures t == u
    decreases |t|
  {
    StableEmptyTogether(t, u);
    if t != [] {
      SortedStableHeads(t, u);
      StableTails(t, u);
      assert SortedByKey(t[1..]) && SortedByKey(u[1..]);
      SortedStableUnique(t[1..], u[1..]);
      assert t == [t[0]] + t[1..] && u == [u[0]] + u[1..];
    }
  }

  /**
   * Whatever stable sort the JavaScript engine uses, two results that meet
   * the sort guarantee for the same input and for comparators ordering that
   * input by the key are equal.
   */
  lemma SortOutcomeDeterministic(cmp1: Comparator, cmp2: Comparator, s: seq<Node>, t1: seq<Node>, t2: seq<Node>)
    requires Sound(cmp1) && CompleteOn(cmp1, s) && SortOutcome(cmp1, s, t1)
    requires Sound(cmp2) && CompleteOn(cmp2, s) && SortOutcome(cmp2, s, t2)
    ensures t1 == t2
  {
    SortedStableUnique(t1, t2);
  }

  /** With every position present, the compiled and the TypeScript sort agree. */
  lemma CompiledSortMatchesWhenPositioned(s: seq<Node>, tJs: seq<Node>, tTs: seq<Node>)
    requires AllPositioned(s)
    requires SortOutcome(CompareByYOrEqual, s, tJs) && SortOutcome(CompareByY, s, tTs)
    ensures tJs == tTs
  {
    CompareByYOrEqualIsSound();
    CompareByYOrEqualCompleteWhenPositioned(s);
    CompareByYAgreesWithKey(s);
    SortOutcomeDeterministic(CompareByYOrEqual, CompareByY, s, tJs, tTs);
  }

  /**
   * A node without a position next to one with a positive y: the compiled
   * comparator reports them equal, so it does not order that list by the key.
   */
  lemma CompiledIncompleteWithoutPosition(s: seq<Node>, i: nat, k: nat)
    requires i < |s| && k < |s|
    requires s[i].position.None? && SortKey(s[k]) > 0
    ensures !CompleteOn(CompareByYOrEqual, s)
  {
    assert s[k] in s && s[i] in s && CompareByYOrEqual(s[k], s[i]) == 0;
  }

  /** For a comparator that does not order `s` by the key, any permutation meets the guarantee. */
  lemma OnlyPermutationWhenIncomplete(cmp: Comparator, s: seq<Node>, t: seq<Node>)
    requires !CompleteOn(cmp, s) && multiset(t) == multiset(s)
    ensures SortOutcome(cmp, s, t)
  {
  }

  // ------------------------------------------------------------ the sort

  /** Membership, and so `CompleteOn`, depends only on the multiset of nodes. */
  lemma CompleteOnPermutation(cmp: Comparator, s: seq<Node>, t: seq<Node>)
    requires multiset(s) == multiset(t) && CompleteOn(cmp, s)
    ensures CompleteOn(cmp, t)
  {
    forall a, b | a in t && b in t && SortKey(a) > SortKey(b)
      ensures cmp(a, b) > 0
    {
      assert a in multiset(t) && b in multiset(t);
      assert a in s && b in s;
    }
  }

  /** `a.sort(cmp)`, in place. */
  method SortInPlace(a: array<Node>, cmp: Comparator)
    modifies a
    ensures SortOutcome(cmp, old(a[..]), a[..])
  {
    ghost var s0 := a[..];
    ghost var sound := Sound(cmp);
    ghost var complete := sound && CompleteOn(cmp, s0);
    var i := 0;
    while i < a.Length
      invariant 0 <= i <= a.Length
      invariant multiset(a[..]) == multiset(s0)
      invariant sound ==> KeyStable(a[..], s0)
      invariant complete ==> SortedByKey(a[..i])
    {
      ghost var before := a[..];
      if complete {
        CompleteOnPermutation(cmp, s0, before);
      }
      SiftLeft(a, i, cmp);
      i := i + 1;
    }
    assert a[..a.Length] == a[..];
  }

  /** Sorted among the positions `0..i`, leaving out position `j`. */
  ghost predicate SortedExcept(s: seq<Node>, j: nat, i: nat) {
    forall p, q :: 0 <= p < q <= i && q < |s| && p != j && q != j ==> SortKey(s[p]) <= SortKey(s[q])
  }

  /** The node at `j` has a smaller key than every node in `j+1..i`. */
  ghost predicate LessThanRight(s: seq<Node>, j: nat, i: nat) {
    forall q :: j < q <= i && q < |s| ==> SortKey(s[j]) < SortKey(s[q])
  }

  lemma SiftStart(s: seq<Node>, i: nat)
    requires i < |s| && SortedByKey(s[..i])
    ensures SortedExcept(s, i, i) && LessThanRight(s, i, i)
  {
    forall p, q | 0 <= p < q <= i && p != i && q != i
      ensures SortKey(s[p]) <= SortKey(s[q])
    {
      assert s[..i][p] == s[p] && s[..i][q] == s[q];
    }
  }

  lemma SiftSwap(s: seq<Node>, j: nat, i: nat)
    requires 0 < j <= i < |s|
    requires SortedExcept(s, j, i) && LessThanRight(s, j, i)
    requires SortKey(s[j - 1]) > SortKey(s[j])
    ensures var t := s[..j - 1] + [s[j], s[j - 1]] + s[j + 1..];
      SortedExcept(t, j - 1, i) && LessThanRight(t, j - 1, i)
  {
    var t := s[..j - 1] + [s[j], s[j - 1]] + s[j + 1..];
    assert |t| == |s|;
    assert t[j - 1] == s[j] && t[j] == s[j - 1];
    assert forall p :: 0 <= p < |s| && p != j - 1 && p != j ==> t[p] == s[p];
  }

  lemma SiftStop(s: seq<Node>, j: nat, i: nat)
    requires j <= i < |s|
    requires SortedExcept(s, j, i) && LessThanRight(s, j, i)
    requires j > 0 ==> SortKey(s[j - 1]) <= SortKey(s[j])
    ensures SortedByKey(s[..i + 1])
  {
    forall p, q | 0 <= p < q <= i
      ensures SortKey(s[p]) <= SortKey(s[q])
    {
      if q == j && p < j - 1 {
        assert SortKey(s[p]) <= SortKey(s[j - 1]);
      }
    }
  }

  /** `s` with the neighbours at `j - 1` and `j` exchanged. */
  function Swapped(s: seq<Node>, j: nat): (t: seq<Node>)
    requires 0 < j < |s|
    ensures |t| == |s| && t[j - 1] == s[j] && t[j] == s[j - 1]
    ensures forall k :: 0 <= k < |s| && k != j - 1 && k != j ==> t[k] == s[k]
  {
    s[..j - 1] + [s[j], s[j - 1]] + s[j + 1..]
  }

  /** Exchanges `a[j - 1]` and `a[j]`. */
  method SwapNeighbours(a: array<Node>, j: nat)
    requires 0 < j < a.Length
    modifies a
    ensures a[..] == Swapped(old(a[..]), j)
  {
    a[j - 1], a[j] := a[j], a[j - 1];
  }

  /** The invariant of one insertion step that has moved the node now at `j`. */
  ghost predicate SiftInvariant(s: seq<Node>, s0: seq<Node>, j: nat, i: nat, sound: bool, complete: bool) {
    && multiset(s) == multiset(s0)
    && (sound ==> KeyStable(s, s0))
    && (complete ==> SortedExcept(s, j, i) && LessThanRight(s, j, i))
  }

  lemma SiftInvariantStep(s: seq<Node>, s0: seq<Node>, j: nat, i: nat, cmp: Comparator, complete: bool)
    requires 0 < j <= i < |s|
    requires SiftInvariant(s, s0, j, i, Sound(cmp), complete)
    requires complete ==> Sound(cmp)
    requires cmp(s[j - 1], s[j]) > 0
    ensures SiftInvariant(Swapped(s, j), s0, j - 1, i, Sound(cmp), complete)
  {
    var t := Swapped(s, j);
    assert s == s[..j - 1] + [s[j - 1], s[j]] + s[j + 1..];
    assert multiset(t) == multiset(s);
    if Sound(cmp) {
      SwapKeepsKeyStable(s, j);
      if complete {
        SiftSwap(s, j, i);
      }
    }
  }

  lemma SiftInvariantStop(s: seq<Node>, s0: seq<Node>, j: nat, i: nat, cmp: Comparator)
    requires j <= i < |s|
    requires Sound(cmp) && CompleteOn(cmp, s0)
    requires SiftInvariant(s, s0, j, i, true, true)
    requires j > 0 ==> cmp(s[j - 1], s[j]) <= 0
    ensures SortedByKey(s[..i + 1])
  {
    if j > 0 {
      assert s[j - 1] in multiset(s0) && s[j] in multiset(s0);
    }
    SiftStop(s, j, i);
  }

  lemma SiftInvariantStart(s0: seq<Node>, i: nat, sound: bool, complete: bool)
    requires i < |s0|
    requires complete ==> SortedByKey(s0[..i])
    ensures SiftInvariant(s0, s0, i, i, sound, complete)
  {
    if complete {
      SiftStart(s0, i);
    }
  }

  /** What the invariant gives once the node has stopped moving. */
  lemma SiftInvariantDone(s: seq<Node>, s0: seq<Node>, j: nat, i: nat, cmp: Comparator, sound: bool, complete: bool)
    requires j <= i < |s| && i < |s0|
    requires sound == Sound(cmp)
    requires complete == (sound && CompleteOn(cmp, s0) && SortedByKey(s0[..i]))
    requires SiftInvariant(s, s0, j, i, sound, complete)
    requires j > 0 ==> cmp(s[j - 1], s[j]) <= 0
    ensures multiset(s) == multiset(s0)
    ensures sound ==> KeyStable(s, s0)
    ensures complete ==> SortedByKey(s[..i + 1])
  {
    if complete {
      SiftInvariantStop(s, s0, j, i, cmp);
    }
  }

  /**
   * One insertion step: the node at `i` moves left past every neighbour the
   * comparator reports greater.
   */
  method SiftLeft(a: array<Node>, i: nat, cmp: Comparator)
    requires i < a.Length
    modifies a
    ensures multiset(a[..]) == multiset(old(a[..]))
    ensures Sound(cmp) ==> KeyStable(a[..], old(a[..]))
    ensures Sound(cmp) && CompleteOn(cmp, old(a[..])) && SortedByKey(old(a[..i])) ==> SortedByKey(a[..i + 1])
  {
    ghost var s0 := a[..];
    ghost var sound := Sound(cmp);
    ghost var complete := sound && CompleteOn(cmp, s0) && SortedByKey(s0[..i]);
    SiftInvariantStart(s0, i, sound, complete);
    var j := i;
    ghost var cur := s0;
    while j > 0 && cmp(a[j - 1], a[j]) > 0
      invariant 0 <= j <= i
      invariant cur == a[..]
      invariant SiftInvariant(cur, s0, j, i, sound, complete)
    {
      SiftInvariantStep(cur, s0, j, i, cmp, complete);
      SwapNeighbours(a, j);
      cur := Swapped(cur, j);
      j := j - 1;
    }
    SiftInvariantDone(cur, s0, j, i, cmp, sound, complete);
  }
}
