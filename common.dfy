/** Small shared vocabulary: optional values, results, the persisted-slot
    shape of the browser's key-value store, an order-preserving filter and
    the integer form of JavaScript's Math.round applied to a quotient. */
module Common {

  datatype Option<+T> = None | Some(value: T)

  datatype Result<+R, +E> = Success(value: R) | Failure(error: E)

  /** What a storage key holds: nothing (a missing or empty raw value), a
      value JSON.parse rejects, or a parsed value. */
  datatype Slot<+T> = Absent | Corrupt | Holds(value: T)

  /** Reading a stored list: a missing or unparsable value reads as []. */
  function ReadList<T>(slot: Slot<seq<T>>): (r: seq<T>)
    ensures slot.Holds? ==> r == slot.value
    ensures !slot.Holds? ==> r == []
  {
    match slot
    case Holds(v) => v
    case _ => []
  }

  /** Reading a stored single value: a missing or unparsable value reads as null. */
  function ReadValue<T>(slot: Slot<T>): (r: Option<T>)
    ensures r.Some? <==> slot.Holds?
    ensures r.Some? ==> r.value == slot.value
  {
    match slot
    case Holds(v) => Some(v)
    case _ => None
  }

  /** Array.prototype.filter: the elements of s that satisfy p, in order. */
  function Filter<T(!new)>(s: seq<T>, p: T -> bool): (r: seq<T>)
    ensures |r| <= |s|
    ensures forall x :: x in r <==> x in s && p(x)
  {
    if s == [] then []
    else if p(s[0]) then [s[0]] + Filter(s[1..], p)
    else Filter(s[1..], p)
  }

  /** Filtering distributes over concatenation: the filter keeps the order
      of the elements it keeps. */
  lemma {:induction false} FilterAppend<T(!new)>(a: seq<T>, b: seq<T>, p: T -> bool)
    ensures Filter(a + b, p) == Filter(a, p) + Filter(b, p)
  {
    if a == [] {
      assert a + b == b;
    } else {
      assert (a + b)[0] == a[0];
      assert (a + b)[1..] == a[1..] + b;
      FilterAppend(a[1..], b, p);
    }
  }

  /** A filter of a list with one more element at the head. */
  lemma FilterCons<T(!new)>(x: T, s: seq<T>, p: T -> bool)
    ensures Filter([x] + s, p) == if p(x) then [x] + Filter(s, p) else Filter(s, p)
  {
    assert ([x] + s)[1..] == s;
  }

  /** Math.round(a / b) for a positive divisor: the integer nearest to a/b,
      halves rounded up (towards +infinity, as JavaScript does). */
  function RoundDiv(a: int, b: int): (r: int)
    requires b > 0
    ensures 2 * b * r <= 2 * a + b < 2 * b * (r + 1)
  {
    (2 * a + b) / (2 * b)
  }

  lemma MulNonneg(a: int, b: int)
    requires a >= 0 && b >= 0
    ensures a * b >= 0
  {
  }

  /** A quotient of a value between b * lo and b * hi, rounded, lies
      between lo and hi. */
  lemma RoundDivWithin(a: int, b: int, lo: int, hi: int)
    requires b > 0 && b * lo <= a <= b * hi
    ensures lo <= RoundDiv(a, b) <= hi
  {
    var r := RoundDiv(a, b);
    if r < lo {
      MulNonneg(b, lo - r - 1);
    }
    if r > hi {
      MulNonneg(b, r - hi - 1);
    }
  }

  /** err?.message || fallback: the message of a caught error, or the
      fallback text when the message is empty. */
  function MessageOr(message: string, fallback: string): (r: string)
    ensures message != "" ==> r == message
    ensures message == "" ==> r == fallback
  {
    if message == "" then fallback else message
  }

  function Max(a: int, b: int): (r: int)
    ensures r >= a && r >= b && (r == a || r == b)
  {
    if a >= b then a else b
  }

  function Min(a: int, b: int): (r: int)
    ensures r <= a && r <= b && (r == a || r == b)
  {
    if a <= b then a else b
  }
}
