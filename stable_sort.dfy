/** The stable in-place sort that both ends of the dashboard call: the front
    end's `Array.prototype.sort` on a copy of the truck list, and the back
    end's `list.sort(key=..., reverse=True)`. Both are stable. The sort is given
    a strict "goes before" relation `lt` and only ever asks `lt(x, e)` for the
    element `x` being placed and an element `e` already placed before it, the
    question V8's binary insertion asks (`comparefn(pivot, a[mid]) < 0`).

    `Sort` is the specification as a function on sequences; `InsertionSort`
    does the same work in place on an array. */
module StableSort {

  /** `lt` orders its elements by a key into a total preorder: irreflexive,
      transitive, and "neither goes before the other" is transitive too. */
  ghost predicate StrictWeakOrder<T(!new)>(lt: (T, T) -> bool) {
    && (forall x :: !lt(x, x))
    && (forall x, y, z :: lt(x, y) && lt(y, z) ==> lt(x, z))
    && (forall x, y, z :: !lt(x, y) && !lt(y, z) ==> !lt(x, z))
  }

  /** No later element goes strictly before an earlier one. */
  ghost predicate Sorted<T>(s: seq<T>, lt: (T, T) -> bool) {
    forall i, j :: 0 <= i < j < |s| ==> !lt(s[j], s[i])
  }

  /** Places `x` after the sorted prefix `s`, moving it left past every
      trailing element it goes strictly before. */
  function Insert<T>(s: seq<T>, x: T, lt: (T, T) -> bool): seq<T> {
    if s == [] || !lt(x, s[|s| - 1]) then s + [x]
    else Insert(s[..|s| - 1], x, lt) + [s[|s| - 1]]
  }

  /** Where `Insert` puts `x`. */
  function InsertPos<T>(s: seq<T>, x: T, lt: (T, T) -> bool): (p: nat)
    ensures p <= |s|
  {
    if s == [] || !lt(x, s[|s| - 1]) then |s|
    else InsertPos(s[..|s| - 1], x, lt)
  }

  /** Stable insertion sort: each element in turn is inserted into the
      sorted prefix before it. */
  function Sort<T>(s: seq<T>, lt: (T, T) -> bool): seq<T> {
    if s == [] then []
    else Insert(Sort(s[..|s| - 1], lt), s[|s| - 1], lt)
  }

  /** Two elements are tied when neither goes before the other. */
  function TiedWith<T>(y: T, lt: (T, T) -> bool): T -> bool {
    x => !lt(x, y) && !lt(y, x)
  }

  /** The elements of `s` tied with `y`, in their order in `s`. */
  function Ties<T>(s: seq<T>, y: T, lt: (T, T) -> bool): seq<T> {
    if s == [] then []
    else Ties(s[..|s| - 1], y, lt) + (if TiedWith(y, lt)(s[|s| - 1]) then [s[|s| - 1]] else [])
  }

  function Project<T, U>(s: seq<T>, f: T -> U): (r: seq<U>)
    ensures |r| == |s|
  {
    if s == [] then [] else Project(s[..|s| - 1], f) + [f(s[|s| - 1])]
  }

  lemma {:induction false} InsertShape<T>(s: seq<T>, x: T, lt: (T, T) -> bool)
    ensures Insert(s, x, lt) == s[..InsertPos(s, x, lt)] + [x] + s[InsertPos(s, x, lt)..]
  {
    if s != [] && lt(x, s[|s| - 1]) {
      var init := s[..|s| - 1];
      InsertShape(init, x, lt);
      var p := InsertPos(init, x, lt);
      assert init[..p] == s[..p];
      assert init[p..] + [s[|s| - 1]] == s[p..];
    }
  }

  /** Inserting an element adds exactly that element. */
  lemma InsertAdds<T>(s: seq<T>, x: T, lt: (T, T) -> bool)
    ensures |Insert(s, x, lt)| == |s| + 1
    ensures multiset(Insert(s, x, lt)) == multiset(s) + multiset{x}
  {
    InsertShape(s, x, lt);
    var p := InsertPos(s, x, lt);
    var front, back := s[..p], s[p..];
    assert s == front + back;
    assert multiset(s) == multiset(front) + multiset(back);
    assert Insert(s, x, lt) == front + [x] + back;
    assert multiset(front + [x] + back) == multiset(front) + multiset{x} + multiset(back);
  }

  lemma {:induction false} InsertProject<T, U>(s: seq<T>, x: T, lt: (T, T) -> bool, f: T -> U)
    ensures multiset(Project(Insert(s, x, lt), f)) == multiset(Project(s, f)) + multiset{f(x)}
  {
    if s != [] && lt(x, s[|s| - 1]) {
      var init := s[..|s| - 1];
      InsertProject(init, x, lt, f);
      var ins := Insert(init, x, lt) + [s[|s| - 1]];
      assert ins[..|ins| - 1] == Insert(init, x, lt);
      assert Project(s, f) == Project(init, f) + [f(s[|s| - 1])];
    } else {
      assert (s + [x])[..|s|] == s;
    }
  }

  /** The sorted list is a permutation of the input. */
  lemma {:induction false} SortPermutes<T>(s: seq<T>, lt: (T, T) -> bool)
    ensures |Sort(s, lt)| == |s|
    ensures multiset(Sort(s, lt)) == multiset(s)
  {
    if s != [] {
      var init := s[..|s| - 1];
      SortPermutes(init, lt);
      InsertAdds(Sort(init, lt), s[|s| - 1], lt);
      assert s == init + [s[|s| - 1]];
    }
  }

  /** Sorting carries every projection of the elements (an id, a key) along:
      the projected values of the output are those of the input. */
  lemma {:induction false} SortProject<T, U>(s: seq<T>, lt: (T, T) -> bool, f: T -> U)
    ensures multiset(Project(Sort(s, lt), f)) == multiset(Project(s, f))
  {
    if s != [] {
      var init := s[..|s| - 1];
      SortProject(init, lt, f);
      InsertProject(Sort(init, lt), s[|s| - 1], lt, f);
    }
  }

  lemma {:induction false} InsertSorted<T(!new)>(s: seq<T>, x: T, lt: (T, T) -> bool)
    requires StrictWeakOrder(lt)
    requires Sorted(s, lt)
    ensures Sorted(Insert(s, x, lt), lt)
  {
    if s == [] {
    } else if !lt(x, s[|s| - 1]) {
      var last := s[|s| - 1];
      forall i | 0 <= i < |s| ensures !lt(x, s[i]) {
        if i < |s| - 1 {
          assert !lt(last, s[i]);
        }
      }
    } else {
      var init := s[..|s| - 1];
      var last := s[|s| - 1];
      InsertSorted(init, x, lt);
      var ins := Insert(init, x, lt);
      InsertAdds(init, x, lt);
      forall i | 0 <= i < |ins| ensures !lt(last, ins[i]) {
        assert ins[i] in multiset(ins);
        if ins[i] != x {
          assert ins[i] in multiset(init);
          var k :| 0 <= k < |init| && init[k] == ins[i];
          assert s[k] == init[k];
        }
      }
    }
  }

  /** The output never puts an element after one it goes strictly before. */
  lemma {:induction false} SortSorted<T(!new)>(s: seq<T>, lt: (T, T) -> bool)
    requires StrictWeakOrder(lt)
    ensures Sorted(Sort(s, lt), lt)
  {
    if s != [] {
      SortSorted(s[..|s| - 1], lt);
      InsertSorted(Sort(s[..|s| - 1], lt), s[|s| - 1], lt);
    }
  }

  lemma {:induction false} InsertTies<T(!new)>(s: seq<T>, x: T, y: T, lt: (T, T) -> bool)
    requires StrictWeakOrder(lt)
    ensures Ties(Insert(s, x, lt), y, lt)
         == Ties(s, y, lt) + (if TiedWith(y, lt)(x) then [x] else [])
  {
    if s == [] || !lt(x, s[|s| - 1]) {
      assert (s + [x])[..|s|] == s;
    } else {
      var init := s[..|s| - 1];
      var last := s[|s| - 1];
      InsertTies(init, x, y, lt);
      var ins := Insert(init, x, lt) + [last];
      assert ins[..|ins| - 1] == Insert(init, x, lt);
    }
  }

  /** Stability: elements the order cannot tell apart keep their input order. */
  lemma {:induction false} SortStable<T(!new)>(s: seq<T>, y: T, lt: (T, T) -> bool)
    requires StrictWeakOrder(lt)
    ensures Ties(Sort(s, lt), y, lt) == Ties(s, y, lt)
  {
    if s != [] {
      var init := s[..|s| - 1];
      SortStable(init, y, lt);
      InsertTies(Sort(init, lt), s[|s| - 1], y, lt);
    }
  }

  /** A list already in order is left as it is. */
  lemma {:induction false} SortIdentity<T>(s: seq<T>, lt: (T, T) -> bool)
    requires Sorted(s, lt)
    ensures Sort(s, lt) == s
  {
    if s != [] {
      var init := s[..|s| - 1];
      var last := s[|s| - 1];
      assert Sorted(init, lt) by {
        forall i, j | 0 <= i < j < |init| ensures !lt(init[j], init[i]) {
          assert init[j] == s[j] && init[i] == s[i];
        }
      }
      SortIdentity(init, lt);
      if init != [] {
        assert !lt(last, init[|init| - 1]) by {
          assert init[|init| - 1] == s[|s| - 2];
        }
      }
      assert Insert(init, last, lt) == init + [last];
      assert s == init + [last];
    }
  }

  /** Sorting the sorted output again changes nothing. */
  lemma SortIdempotent<T(!new)>(s: seq<T>, lt: (T, T) -> bool)
    requires StrictWeakOrder(lt)
    ensures Sort(Sort(s, lt), lt) == Sort(s, lt)
  {
    SortSorted(s, lt);
    SortIdentity(Sort(s, lt), lt);
  }

  lemma InsertMoveLeft<T>(sorted: seq<T>, x: T, j: nat, lt: (T, T) -> bool)
    requires 0 < j <= |sorted| && lt(x, sorted[j - 1])
    ensures Insert(sorted[..j], x, lt) + sorted[j..] == Insert(sorted[..j - 1], x, lt) + sorted[j - 1..]
  {
    assert sorted[..j][..j - 1] == sorted[..j - 1];
    assert sorted[j - 1..] == [sorted[j - 1]] + sorted[j..];
  }

  lemma SortExtend<T>(input: seq<T>, i: nat, lt: (T, T) -> bool)
    requires i < |input|
    ensures Sort(input[..i + 1], lt) == Insert(Sort(input[..i], lt), input[i], lt)
  {
    assert input[..i + 1][..i] == input[..i];
  }

  /** Moves `a[i]` left into the sorted prefix `a[..i]`. */
  method InsertAt<T>(a: array<T>, i: nat, lt: (T, T) -> bool)
    requires i < a.Length
    modifies a
    ensures a[..i + 1] == Insert(old(a[..i]), old(a[i]), lt)
    ensures a[i + 1..] == old(a[i + 1..])
  {
    var x := a[i];
    ghost var sorted := a[..i];
    var j := i;
    while j > 0 && lt(x, a[j - 1])
      invariant 0 <= j <= i
      invariant a[..j] == sorted[..j]
      invariant a[j + 1..i + 1] == sorted[j..]
      invariant a[i + 1..] == old(a[i + 1..])
      invariant Insert(sorted, x, lt) == Insert(sorted[..j], x, lt) + sorted[j..]
    {
      InsertMoveLeft(sorted, x, j, lt);
      a[j] := a[j - 1];
      j := j - 1;
    }
    a[j] := x;
    assert a[..i + 1] == sorted[..j] + [x] + sorted[j..];
  }

  /** Sorts `a` in place by straight insertion. */
  method InsertionSort<T>(a: array<T>, lt: (T, T) -> bool)
    modifies a
    ensures a[..] == Sort(old(a[..]), lt)
  {
    ghost var input := a[..];
    var i := 0;
    while i < a.Length
      invariant 0 <= i <= a.Length
      invariant a[..i] == Sort(input[..i], lt)
      invariant a[i..] == input[i..]
    {
      SortExtend(input, i, lt);
      InsertAt(a, i, lt);
      i := i + 1;
    }
    assert input[..a.Length] == input;
  }
}
