/** The growable buffer of `da.h`: a length-`len` prefix of meaningful
    elements inside an allocation of `cap` slots. The allocation itself is
    not modelled, only its size; `items` are the first `len` slots.
 */
module DynArray {

  /** `DA_INIT_CAP`: the capacity a zero-capacity buffer grows to first. */
  const InitCap: nat := 256

  datatype Buffer<T> = Buffer(items: seq<T>, cap: nat)

  /** The invariant every buffer of the program keeps: `len <= cap`. */
  predicate Valid<T>(b: Buffer<T>) {
    |b.items| <= b.cap
  }

  function Pow2(k: nat): (p: nat)
    ensures p >= 1
  {
    if k == 0 then 1 else 2 * Pow2(k - 1)
  }

  /** The capacity the doubling loop starts from. */
  function StartCap(cap: nat): nat {
    if cap == 0 then InitCap else cap
  }

  /** `da_reserve`: make room for `expected` elements. A buffer that is
      already large enough is returned as it is; otherwise the capacity
      becomes the smallest `StartCap(cap) * 2^k` that is at least
      `expected`. The elements are never touched.
   */
  method Reserve<T>(b: Buffer<T>, expected: nat) returns (r: Buffer<T>)
    ensures r.items == b.items
    ensures r.cap >= b.cap
    ensures r.cap >= expected
    ensures expected <= b.cap ==> r == b
    ensures expected > b.cap ==>
              exists k: nat :: r.cap == StartCap(b.cap) * Pow2(k)
                               && (k == 0 || StartCap(b.cap) * Pow2(k - 1) < expected)
  {
    r := b;
    if expected > b.cap {
      var cap := StartCap(b.cap);
      ghost var k: nat := 0;
      while expected > cap
        invariant cap == StartCap(b.cap) * Pow2(k)
        invariant k == 0 || StartCap(b.cap) * Pow2(k - 1) < expected
        invariant cap >= b.cap && cap >= 1
        decreases expected - cap
      {
        cap := cap * 2;
        k := k + 1;
      }
      r := Buffer(b.items, cap);
    }
  }

  /** `da_append`: reserve room for one more element and store `x` at the
      old length. Afterwards `Last` designates exactly `x`.
   */
  method Append<T>(b: Buffer<T>, x: T) returns (r: Buffer<T>)
    ensures r.items == b.items + [x]
    ensures |r.items| == |b.items| + 1
    ensures Valid(r)
    ensures r.cap >= b.cap
    ensures Last(r) == x
  {
    r := Reserve(b, |b.items| + 1);
    r := Buffer(r.items + [x], r.cap);
  }

  /** `da_last`: the element at index `len - 1`. */
  function Last<T>(b: Buffer<T>): T
    requires |b.items| > 0
  {
    b.items[|b.items| - 1]
  }
}
