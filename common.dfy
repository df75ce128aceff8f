/** Small sequence utilities shared by the dashboard model: the nullable-value
    wrapper, the error-or-value wrapper, and the three list operations the
    TypeScript and Python code uses (`find`, `filter`, `filter(...).length`). */
module Common {

  /** A nullable value: `null`/`None`/`undefined` is `None`. */
  datatype Option<+T> = None | Some(value: T)

  /** A value or the error that the source raises instead. */
  datatype Result<+T, +E> = Success(value: T) | Failure(error: E)

  /** JavaScript's `x || 0` on a nullable integer: null (and 0) give 0. */
  function OrZero(x: Option<int>): int {
    match x
    case None => 0
    case Some(v) => v
  }

  function Min(a: int, b: int): int { if a <= b then a else b }

  function Max(a: int, b: int): int { if a >= b then a else b }

  /** `Array.prototype.find` / Python `next(...)` over a generator: the index
      of the first element satisfying `p`, if any. */
  function FindFirst<T>(s: seq<T>, p: T -> bool): (k: Option<nat>)
    ensures k.Some? ==> k.value < |s| && p(s[k.value])
    ensures k.Some? ==> forall j :: 0 <= j < k.value ==> !p(s[j])
    ensures k.None? ==> forall j :: 0 <= j < |s| ==> !p(s[j])
  {
    if s == [] then None
    else if p(s[0]) then Some(0)
    else match FindFirst(s[1..], p)
      case None => None
      case Some(k) => Some(k + 1)
  }

  /** `Array.prototype.filter`: the elements satisfying `p`, in order. */
  function Filter<T>(s: seq<T>, p: T -> bool): (r: seq<T>)
    ensures |r| <= |s|
    ensures forall x :: x in r ==> x in s && p(x)
    ensures |r| == 0 <==> forall j :: 0 <= j < |s| ==> !p(s[j])
    ensures |r| == |s| <==> forall j :: 0 <= j < |s| ==> p(s[j])
  {
    if s == [] then []
    else Filter(s[..|s| - 1], p) + (if p(s[|s| - 1]) then [s[|s| - 1]] else [])
  }

  /** `s.filter(p).length`. */
  function Count<T>(s: seq<T>, p: T -> bool): (n: nat)
    ensures n <= |s|
    ensures n == 0 <==> forall j :: 0 <= j < |s| ==> !p(s[j])
    ensures n == |s| <==> forall j :: 0 <= j < |s| ==> p(s[j])
  {
    |Filter(s, p)|
  }

  /** Counting one more element adds one exactly when it satisfies `p`. */
  lemma CountExtend<T>(s: seq<T>, i: nat, p: T -> bool)
    requires i < |s|
    ensures Count(s[..i + 1], p) == Count(s[..i], p) + (if p(s[i]) then 1 else 0)
  {
    assert s[..i + 1][..i] == s[..i];
  }
}
