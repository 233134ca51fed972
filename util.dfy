/** Numeric helpers of the kernel (`clamp`, `get_ratio`, `sign`) and its persistent list. */
module Util {

  datatype Option<+T> = None | Some(value: T)

  /** `clamp(value, minval, maxval)`, written as the source writes it: max(lo, min(value, hi)). */
  function Clamp(value: real, lo: real, hi: real): (r: real)
    ensures r >= lo
    ensures lo <= hi ==> r <= hi
    ensures lo <= value <= hi ==> r == value
    ensures value < lo ==> r == lo
    ensures lo <= hi < value ==> r == hi
  {
    var m := if hi < value then hi else value;
    if m > lo then m else lo
  }

  /**
   * `clamp` at its integer call sites: the bag's money (core.py:872-878) and the efforts
   * (core.py:584, 598). It is `Clamp` on integers, which its first postcondition states.
   */
  function ClampInt(value: int, lo: int, hi: int): (r: int)
    ensures r as real == Clamp(value as real, lo as real, hi as real)
    ensures r >= lo
    ensures lo <= hi ==> r <= hi
    ensures lo <= value <= hi ==> r == value
    ensures value < lo ==> r == lo
    ensures lo <= hi < value ==> r == hi
  {
    var m := if hi < value then hi else value;
    if m > lo then m else lo
  }

  /** `math.ceil` on a real. */
  function Ceil(x: real): (c: int)
    ensures x <= c as real < x + 1.0
  {
    -((-x).Floor)
  }

  function Abs(x: real): real { if x < 0.0 then -x else x }

  /** `get_ratio(x) = x / (100 + |x|)`: a value strictly between -1 and 1 with the sign of x. */
  function GetRatio(x: real): (r: real)
    ensures -1.0 < r < 1.0
    ensures x > 0.0 <==> r > 0.0
    ensures x < 0.0 <==> r < 0.0
  {
    x / (100.0 + Abs(x))
  }

  /** `sign(x)`: 1, -1 or 0, so that sign(x) * |x| == x. */
  function Sign(x: real): (r: int)
    ensures r == 1 || r == -1 || r == 0
    ensures (r as real) * Abs(x) == x
  {
    if x > 0.0 then 1 else if x < 0.0 then -1 else 0
  }

  /** The immutable cons list the kernel uses for listener lists. */
  datatype PList<T> = PNil | PCons(head: T, tail: PList<T>)

  function Elements<T>(lst: PList<T>): seq<T>
  {
    match lst
    case PNil => []
    case PCons(h, t) => [h] + Elements(t)
  }

  function Count<T(==)>(lst: PList<T>, x: T): nat
  {
    match lst
    case PNil => 0
    case PCons(h, t) => (if h == x then 1 else 0) + Count(t, x)
  }

  /** `PList.cons`: the new element goes in front. */
  function Cons<T>(head: T, tail: PList<T>): (r: PList<T>)
    ensures Elements(r) == [head] + Elements(tail)
  {
    PCons(head, tail)
  }

  /** `PList.remove`: drops the first occurrence of x, keeping the order of the rest. */
  function Remove<T(==,!new)>(x: T, lst: PList<T>): (r: PList<T>)
    ensures |Elements(r)| == if x in Elements(lst) then |Elements(lst)| - 1 else |Elements(lst)|
    ensures Count(r, x) == if Count(lst, x) > 0 then Count(lst, x) - 1 else 0
    ensures forall y :: y != x ==> Count(r, y) == Count(lst, y)
    ensures x !in Elements(lst) ==> r == lst
  {
    match lst
    case PNil => lst
    case PCons(h, t) =>
      if h == x then t else PCons(h, Remove(x, t))
  }

  /** The position of the first occurrence of x in s. */
  function IndexOf<T(==)>(s: seq<T>, x: T): (i: nat)
    requires x in s
    ensures i < |s| && s[i] == x && x !in s[..i]
  {
    if s[0] == x then 0
    else
      var j := IndexOf(s[1..], x);
      assert s[..j + 1] == [s[0]] + s[1..][..j];
      j + 1
  }

  /** `PList.remove` keeps the order: the list loses exactly its first x and nothing moves. */
  lemma {:induction false} RemoveKeepsOrder<T(!new)>(x: T, lst: PList<T>)
    requires x in Elements(lst)
    ensures var e := Elements(lst); var i := IndexOf(e, x);
      Elements(Remove(x, lst)) == e[..i] + e[i + 1..]
  {
    match lst
    case PCons(h, t) =>
      if h != x {
        RemoveKeepsOrder(x, t);
        SkipOccurrence([h], Elements(t), x);
      }
  }

  /** The first x of a + b, when a holds no x, is the first x of b, shifted past a. */
  lemma {:induction false} IndexPast<T>(a: seq<T>, b: seq<T>, x: T)
    requires x !in a && x in b
    ensures IndexOf(a + b, x) == |a| + IndexOf(b, x)
    decreases |a|
  {
    if a == [] {
      assert a + b == b;
    } else {
      assert (a + b)[0] == a[0] != x;
      assert (a + b)[1..] == a[1..] + b;
      IndexPast(a[1..], b, x);
    }
  }

  /** Dropping the first x of a + b, when a holds no x, drops the first x of b. */
  lemma SkipOccurrence<T>(a: seq<T>, b: seq<T>, x: T)
    requires x !in a && x in b
    ensures var i, j := IndexOf(a + b, x), IndexOf(b, x);
      i == |a| + j && (a + b)[..i] + (a + b)[i + 1..] == a + (b[..j] + b[j + 1..])
  {
    var i, j := IndexOf(a + b, x), IndexOf(b, x);
    IndexPast(a, b, x);
    assert (a + b)[..i] == a + b[..j];
    assert (a + b)[i + 1..] == b[j + 1..];
    assert (a + b[..j]) + b[j + 1..] == a + (b[..j] + b[j + 1..]);
  }

  lemma {:induction false} CountInElements<T>(lst: PList<T>, x: T)
    ensures Count(lst, x) > 0 <==> x in Elements(lst)
  {
    match lst
    case PNil =>
    case PCons(h, t) => CountInElements(t, x);
  }

  lemma Assoc<T>(x: seq<T>, y: seq<T>, z: seq<T>)
    ensures x + (y + z) == x + y + z
  {
  }

  lemma EmptyPrefix<T>(x: seq<T>)
    ensures [] + x == x
  {
  }

  lemma EmptySuffix<T>(x: seq<T>)
    ensures x + [] == x
  {
  }
  /**
   * The position of the first element satisfying `p`: the `for ... in matching_effects(cond):
   * ...; break` idiom picks that element.
   */
  function FirstWhere<T>(s: seq<T>, p: T -> bool): (r: Option<nat>)
    ensures r.Some? ==> r.value < |s| && p(s[r.value]) && forall k :: 0 <= k < r.value ==> !p(s[k])
    ensures r.None? ==> forall k :: 0 <= k < |s| ==> !p(s[k])
  {
    if s == [] then None
    else if p(s[0]) then Some(0)
    else match FirstWhere(s[1..], p)
      case None => None
      case Some(i) => Some(i + 1)
  }

  /** The search loop with its `break`, proved to stop at `FirstWhere`. */
  method FindFirst<T>(s: seq<T>, p: T -> bool) returns (r: Option<nat>)
    ensures r == FirstWhere(s, p)
  {
    var i := 0;
    while i < |s|
      invariant 0 <= i <= |s|
      invariant forall k :: 0 <= k < i ==> !p(s[k])
    {
      if p(s[i]) {
        FirstWhereIs(s, p, i);
        return Some(i);
      }
      i := i + 1;
    }
    FirstWhereNone(s, p);
    return None;
  }

  /** An element satisfying `p` with none before it is the one found. */
  lemma FirstWhereIs<T>(s: seq<T>, p: T -> bool, i: nat)
    requires i < |s| && p(s[i])
    requires forall k :: 0 <= k < i ==> !p(s[k])
    ensures FirstWhere(s, p) == Some(i)
  {
  }

  lemma FirstWhereNone<T>(s: seq<T>, p: T -> bool)
    requires forall k :: 0 <= k < |s| ==> !p(s[k])
    ensures FirstWhere(s, p) == None
  {
  }
}
