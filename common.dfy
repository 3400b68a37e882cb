/**
 * Shared value types of the kernel model: the optional value, the 2-D integer
 * vector used for positions and sizes, the pixel colour, and the fixed-width
 * integer conversions that C++ performs implicitly.
 */
module Common {

  datatype Option<T> = None | Some(value: T)

  /** `Vector2D<int>` with the component-wise operators the kernel uses. */
  datatype Vector2D = Vector2D(x: int, y: int) {
    function Plus(o: Vector2D): Vector2D { Vector2D(x + o.x, y + o.y) }
    function Minus(o: Vector2D): Vector2D { Vector2D(x - o.x, y - o.y) }
  }

  /** Component-wise minimum and maximum (`ElementMin`, `ElementMax`). */
  function ElementMin(a: Vector2D, b: Vector2D): (r: Vector2D)
    ensures r.x <= a.x && r.x <= b.x && (r.x == a.x || r.x == b.x)
    ensures r.y <= a.y && r.y <= b.y && (r.y == a.y || r.y == b.y)
  {
    Vector2D(if a.x < b.x then a.x else b.x, if a.y < b.y then a.y else b.y)
  }

  function ElementMax(a: Vector2D, b: Vector2D): (r: Vector2D)
    ensures r.x >= a.x && r.x >= b.x && (r.x == a.x || r.x == b.x)
    ensures r.y >= a.y && r.y >= b.y && (r.y == a.y || r.y == b.y)
  {
    Vector2D(if a.x < b.x then b.x else a.x, if a.y < b.y then b.y else a.y)
  }

  type uint8 = x: int | 0 <= x < 0x100
  type uint16 = x: int | 0 <= x < 0x1_0000
  type uint32 = x: int | 0 <= x < 0x1_0000_0000
  type uint64 = x: int | 0 <= x < 0x1_0000_0000_0000_0000

  const UInt64Max: int := 0xffff_ffff_ffff_ffff

  /** `PixelColor{r, g, b}`, one byte per channel. */
  datatype PixelColor = PixelColor(r: uint8, g: uint8, b: uint8)

  /** `static_cast<int>`: two's-complement truncation to 32 bits. */
  function ToInt32(v: int): (r: int)
    ensures -0x8000_0000 <= r < 0x8000_0000
    ensures (r - v) % 0x1_0000_0000 == 0
    ensures -0x8000_0000 <= v < 0x8000_0000 ==> r == v
  {
    var m := v % 0x1_0000_0000;
    if m < 0x8000_0000 then m else m - 0x1_0000_0000
  }

  /** Signed 64-bit (`long`) two's-complement wrap-around. */
  function ToInt64(v: int): (r: int)
    ensures -0x8000_0000_0000_0000 <= r < 0x8000_0000_0000_0000
    ensures (r - v) % 0x1_0000_0000_0000_0000 == 0
    ensures -0x8000_0000_0000_0000 <= v < 0x8000_0000_0000_0000 ==> r == v
  {
    var m := v % 0x1_0000_0000_0000_0000;
    if m < 0x8000_0000_0000_0000 then m else m - 0x1_0000_0000_0000_0000
  }

  /** The elements of `s` that satisfy `p`, in their original order. */
  function Filter<T>(s: seq<T>, p: T -> bool): (r: seq<T>)
    ensures |r| <= |s|
  {
    if s == [] then [] else (if p(s[0]) then [s[0]] else []) + Filter(s[1..], p)
  }

  lemma {:induction false} FilterSound<T>(s: seq<T>, p: T -> bool)
    ensures forall x :: x in Filter(s, p) ==> x in s && p(x)
  {
    if s != [] {
      FilterSound(s[1..], p);
    }
  }

  lemma {:induction false} FilterAll<T>(s: seq<T>, p: T -> bool)
    requires forall k :: 0 <= k < |s| ==> p(s[k])
    ensures Filter(s, p) == s
  {
    if s != [] {
      FilterAll(s[1..], p);
    }
  }

  lemma {:induction false} FilterNone<T>(s: seq<T>, p: T -> bool)
    requires forall k :: 0 <= k < |s| ==> !p(s[k])
    ensures Filter(s, p) == []
  {
    if s != [] {
      FilterNone(s[1..], p);
    }
  }

  lemma {:induction false} FilterConcat<T>(a: seq<T>, b: seq<T>, p: T -> bool)
    ensures Filter(a + b, p) == Filter(a, p) + Filter(b, p)
  {
    if a == [] {
      assert a + b == b;
    } else {
      var h := if p(a[0]) then [a[0]] else [];
      assert (a + b)[0] == a[0];
      assert (a + b)[1..] == a[1..] + b;
      calc {
        Filter(a + b, p);
        h + Filter(a[1..] + b, p);
        { FilterConcat(a[1..], b, p); }
        h + (Filter(a[1..], p) + Filter(b, p));
        (h + Filter(a[1..], p)) + Filter(b, p);
        Filter(a, p) + Filter(b, p);
      }
    }
  }

  lemma InConcat<T>(x: T, a: seq<T>, b: seq<T>)
    requires x in a || x in b
    ensures x in a + b
  {
  }

  /** `s` without its element at index `i` (`vector::erase`). */
  function RemoveAt<T>(s: seq<T>, i: nat): (r: seq<T>)
    requires i < |s|
    ensures |r| == |s| - 1
  {
    s[..i] + s[i + 1..]
  }

  /** `s` with `x` inserted before index `i` (`vector::insert`). */
  function InsertAt<T>(s: seq<T>, i: nat, x: T): (r: seq<T>)
    requires i <= |s|
    ensures |r| == |s| + 1 && r[i] == x
    ensures forall k :: 0 <= k < i ==> r[k] == s[k]
    ensures forall k :: i < k < |r| ==> r[k] == s[k - 1]
  {
    s[..i] + [x] + s[i..]
  }

  /** Filtering after erasing index `i` differs from filtering `s` exactly by
      the erased element, when it passes the filter. */
  lemma {:induction false} FilterRemoveAt<T>(s: seq<T>, i: nat, p: T -> bool)
    requires i < |s|
    ensures multiset(Filter(RemoveAt(s, i), p)) + (if p(s[i]) then multiset{s[i]} else multiset{})
         == multiset(Filter(s, p))
    ensures |Filter(RemoveAt(s, i), p)| == |Filter(s, p)| - (if p(s[i]) then 1 else 0)
    ensures !p(s[i]) ==> Filter(RemoveAt(s, i), p) == Filter(s, p)
  {
    FilterSplit(s, i, p);
    FilterSplitRemoved(s, i, p);
    var h := if p(s[i]) then [s[i]] else [];
    SplitParts(Filter(s[..i], p), h, Filter(s[i + 1..], p));
  }

  /** Filtering `s` in terms of the parts before and after index `i`. */
  lemma FilterSplit<T>(s: seq<T>, i: nat, p: T -> bool)
    requires i < |s|
    ensures Filter(s, p) == Filter(s[..i], p) + (if p(s[i]) then [s[i]] else []) + Filter(s[i + 1..], p)
  {
    SplitAt(s, i);
    FilterThree(s[..i], s[i], s[i + 1..], p);
  }

  lemma SplitAt<T>(s: seq<T>, i: nat)
    requires i < |s|
    ensures s == s[..i] + [s[i]] + s[i + 1..]
  {
    assert s[..i + 1] == s[..i] + [s[i]];
    assert s == s[..i + 1] + s[i + 1..];
  }

  lemma FilterThree<T>(a: seq<T>, x: T, b: seq<T>, p: T -> bool)
    ensures Filter(a + [x] + b, p) == Filter(a, p) + (if p(x) then [x] else []) + Filter(b, p)
  {
    FilterConcat(a + [x], b, p);
    FilterAppend(a, x, p);
  }

  /** Filtering `RemoveAt(s, i)` in terms of the same two parts. */
  lemma FilterSplitRemoved<T>(s: seq<T>, i: nat, p: T -> bool)
    requires i < |s|
    ensures Filter(RemoveAt(s, i), p) == Filter(s[..i], p) + Filter(s[i + 1..], p)
  {
    FilterConcat(s[..i], s[i + 1..], p);
  }

  lemma SplitParts<T>(u: seq<T>, h: seq<T>, v: seq<T>)
    ensures multiset(u + v) + multiset(h) == multiset(u + h + v)
    ensures |u + v| == |u + h + v| - |h|
  {
    assert multiset(u + h + v) == multiset(u) + multiset(h) + multiset(v);
  }

  lemma {:induction false} FilterAppend<T>(s: seq<T>, x: T, p: T -> bool)
    ensures Filter(s + [x], p) == Filter(s, p) + (if p(x) then [x] else [])
  {
    FilterConcat(s, [x], p);
    assert [x][1..] == [];
  }

  /** Erasing one element keeps every other value that was present. */
  lemma RemoveAtKeeps<T>(s: seq<T>, i: nat, x: T)
    requires i < |s| && x in s && s[i] != x
    ensures x in RemoveAt(s, i)
  {
    var k :| 0 <= k < |s| && s[k] == x;
    if k < i {
      assert RemoveAt(s, i)[k] == x;
    } else {
      assert RemoveAt(s, i)[k - 1] == x;
    }
  }

  lemma RemoveAtSubset<T>(s: seq<T>, i: nat)
    requires i < |s|
    ensures forall x | x in RemoveAt(s, i) :: x in s
  {
    assert forall x | x in RemoveAt(s, i) :: x in s[..i] || x in s[i + 1..];
  }

  /** The index of the first occurrence of `x` (`std::find`). */
  function IndexOf<T(==)>(s: seq<T>, x: T): (r: Option<nat>)
    ensures r.Some? ==> r.value < |s| && s[r.value] == x
    ensures r.Some? ==> forall j :: 0 <= j < r.value ==> s[j] != x
    ensures r.None? <==> x !in s
  {
    if s == [] then None
    else if s[0] == x then Some(0)
    else match IndexOf(s[1..], x)
      case None => None
      case Some(k) => Some(k + 1)
  }

  /** No element occurs twice. */
  predicate NoDup<T(==)>(s: seq<T>)
  {
    forall i, j :: 0 <= i < j < |s| ==> s[i] != s[j]
  }

  function IsNot<T(==)>(x: T): T -> bool
  {
    (y: T) => y != x
  }

  /** `s` without any occurrence of `x`, the other elements in their order. */
  function Without<T(==)>(s: seq<T>, x: T): seq<T>
  {
    Filter(s, IsNot(x))
  }

  lemma {:induction false} WithoutAbsent<T>(s: seq<T>, x: T)
    requires x !in s
    ensures Without(s, x) == s
  {
    FilterAll(s, IsNot(x));
  }

  /** In a sequence without duplicates, erasing the element at `j` is the
      same as removing every occurrence of it. */
  lemma {:induction false} RemoveAtIsWithout<T>(s: seq<T>, j: nat)
    requires NoDup(s) && j < |s|
    ensures RemoveAt(s, j) == Without(s, s[j])
  {
    var a, x, b := s[..j], s[j], s[j + 1..];
    SplitAt(s, j);
    assert x !in a && x !in b by {
      forall k | 0 <= k < |a| ensures a[k] != x { assert a[k] == s[k]; }
      forall k | 0 <= k < |b| ensures b[k] != x { assert b[k] == s[j + 1 + k]; }
    }
    FilterThree(a, x, b, IsNot(x));
    FilterConcat(a, b, IsNot(x));
    WithoutAbsent(a, x);
    WithoutAbsent(b, x);
  }

  /** Inserting a new element and then removing it gives back the sequence. */
  lemma {:induction false} WithoutInsertAt<T>(s: seq<T>, i: nat, x: T)
    requires i <= |s| && x !in s
    ensures Without(InsertAt(s, i, x), x) == s
  {
    var a, b := s[..i], s[i..];
    assert s == a + b;
    assert x !in a && x !in b;
    FilterThree(a, x, b, IsNot(x));
    WithoutAbsent(a, x);
    WithoutAbsent(b, x);
  }

  /** Moving the element at `j` to index `k`: still no duplicates, the same
      length and the same elements, the moved one at `k`, and the others in
      their order. */
  lemma MoveWithin<T>(s: seq<T>, j: nat, k: nat)
    requires NoDup(s) && j < |s| && k < |s|
    ensures var r := InsertAt(RemoveAt(s, j), k, s[j]);
      && NoDup(r) && |r| == |s| && r[k] == s[j]
      && Without(r, s[j]) == Without(s, s[j])
      && forall y | y in r :: y in s
  {
    var rest := RemoveAt(s, j);
    RemoveAtIsWithout(s, j);
    NoDupRemoveAt(s, j);
    RemoveAtSubset(s, j);
    NoDupInsertAt(rest, k, s[j]);
    WithoutInsertAt(rest, k, s[j]);
    InsertAtMembers(rest, k, s[j]);
  }

  lemma InsertAtMembers<T>(s: seq<T>, i: nat, x: T)
    requires i <= |s|
    ensures forall y | y in InsertAt(s, i, x) :: y == x || y in s
  {
    assert InsertAt(s, i, x) == s[..i] + [x] + s[i..];
    assert forall y | y in s[..i] || y in s[i..] :: y in s;
  }

  lemma NoDupInsertAt<T>(s: seq<T>, i: nat, x: T)
    requires i <= |s| && NoDup(s) && x !in s
    ensures NoDup(InsertAt(s, i, x))
  {
    var r := InsertAt(s, i, x);
    forall p, q | 0 <= p < q < |r| ensures r[p] != r[q] {
      if p == i {
        assert r[q] == s[q - 1];
      } else if q == i {
        assert r[p] == s[p];
      } else {
        var p', q' := if p < i then p else p - 1, if q < i then q else q - 1;
        assert r[p] == s[p'] && r[q] == s[q'] && p' < q';
      }
    }
  }

  lemma NoDupRemoveAt<T>(s: seq<T>, j: nat)
    requires j < |s| && NoDup(s)
    ensures NoDup(RemoveAt(s, j)) && s[j] !in RemoveAt(s, j)
  {
    var r := RemoveAt(s, j);
    assert forall k :: 0 <= k < |r| ==> r[k] == s[if k < j then k else k + 1];
  }

  // Division and remainder facts for fixed-width fields.

  lemma DivModSplit(q: nat, r: nat, d: nat)
    requires 0 < d && r < d
    ensures (q * d + r) / d == q && (q * d + r) % d == r
  {
    var x := q * d + r;
    var qq, rr := x / d, x % d;
    assert (q - qq) * d == rr - r;
    if q > qq {
      assert (q - qq) * d >= d by { MulAtLeast(q - qq, d); }
    } else if q < qq {
      assert (qq - q) * d >= d by { MulAtLeast(qq - q, d); }
    }
  }

  lemma MulAtLeast(k: int, d: nat)
    requires k >= 1
    ensures k * d >= d
  {
  }

  lemma MulDistrib(a: int, b: int, c: int)
    ensures (a + b) * c == a * c + b * c
  {
  }

  lemma MulAssoc(a: int, b: int, c: int)
    ensures (a * b) * c == a * (b * c)
  {
  }

  /** A digit `r2 < b` of weight `a`, plus a remainder `r < a`, stays below
      `a * b`. */
  lemma MixedRadixBound(r2: nat, r: nat, a: nat, b: nat)
    requires r2 < b && r < a
    ensures r2 * a + r < a * b
  {
    MulAtLeast(b - r2, a);
    MulDistrib(b - r2, r2, a);
  }

  /** Division is determined by any quotient and remainder that rebuild
      `x`. */
  lemma DivModUnique(x: nat, d: nat, q: nat, r: nat)
    requires 0 < d && r < d && x == q * d + r
    ensures x / d == q && x % d == r
  {
    DivModSplit(q, r, d);
  }

  /** `x` written in the mixed radix `a`, then `b`. */
  lemma MixedRadix(x: nat, a: nat, b: nat, q: nat, r: nat, q2: nat, r2: nat)
    requires 0 < a && 0 < b
    requires q == x / a && r == x % a && q2 == q / b && r2 == q % b
    ensures x == q2 * (a * b) + (r2 * a + r)
    ensures r2 * a + r < a * b
  {
    assert x == q * a + r;
    assert q == q2 * b + r2;
    MulDistrib(q2 * b, r2, a);
    MulAssoc(q2, b, a);
    MixedRadixBound(r2, r, a, b);
  }

  lemma DivTwice(x: nat, a: nat, b: nat)
    requires 0 < a && 0 < b
    ensures x / a / b == x / (a * b)
  {
    var q, r := x / a, x % a;
    var q2, r2 := q / b, q % b;
    MixedRadix(x, a, b, q, r, q2, r2);
    DivModUnique(x, a * b, q2, r2 * a + r);
  }

  lemma ModOfDiv(x: nat, a: nat, b: nat)
    requires 0 < a && 0 < b
    ensures x / a % b == x % (a * b) / a
  {
    var q, r := x / a, x % a;
    var q2, r2 := q / b, q % b;
    MixedRadix(x, a, b, q, r, q2, r2);
    DivModUnique(x, a * b, q2, r2 * a + r);
    DivModUnique(r2 * a + r, a, r2, r);
  }

  /** Regrouping `q * (k * b) + (s * b + t)` as `(q * k + s) * b + t`. */
  lemma Regroup(x: int, q: int, k: int, b: int, s: int, t: int)
    requires x == q * (k * b) + (s * b + t)
    ensures x == (q * k + s) * b + t
  {
    MulAssoc(q, k, b);
    MulDistrib(q * k, s, b);
  }

  lemma ModModCore(x: nat, a: nat, b: nat, k: nat, q: nat, r: nat, s: nat, t: nat)
    requires 0 < b && t < b
    requires a == k * b && x == q * a + r && r == s * b + t
    ensures x % b == t
  {
    assert q * a == q * (k * b);
    Regroup(x, q, k, b, s, t);
    DivModUnique(x, b, q * k + s, t);
  }

  lemma ModMod(x: nat, a: nat, b: nat)
    requires 0 < b && 0 < a && a % b == 0
    ensures x % a % b == x % b
  {
    ModModCore(x, a, b, a / b, x / a, x % a, x % a / b, x % a % b);
  }

  lemma ModOfMultiple(k: nat, d: nat, m: nat)
    requires 0 < d && 0 < m && m % d == 0
    ensures (k * d) % m % d == 0
  {
    ModMod(k * d, m, d);
    DivModSplit(k, 0, d);
  }
}
