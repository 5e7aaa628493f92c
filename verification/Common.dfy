/** Bytes and the small datatypes shared by the modules. */
module Common {
  type byte = bv8

  /** Number of values of the source's `size_t`. */
  const SIZE_T: nat := 0x1_0000_0000_0000_0000

  datatype Option<+T> = None | Some(value: T) {
    function GetOr(default: T): T { if Some? then value else default }
  }

  /** A value, or what the source throws instead. */
  datatype Result<+T, +E> = Ok(value: T) | Err(error: E) {
    predicate IsFailure() { Err? }

    function PropagateFailure<U>(): Result<U, E>
      requires Err?
    {
      Err(error)
    }

    function Extract(): T
      requires Ok?
    {
      value
    }
  }

  function Repeat<T>(x: T, n: nat): (r: seq<T>)
    ensures |r| == n && forall i :: 0 <= i < n ==> r[i] == x
  {
    seq(n, _ => x)
  }

  function Flatten<T>(parts: seq<seq<T>>): seq<T> {
    if parts == [] then [] else Flatten(parts[..|parts| - 1]) + parts[|parts| - 1]
  }

  function Lookup<K, V>(m: map<K, V>, k: K): Option<V> {
    if k in m then Some(m[k]) else None
  }
}

/** Remainders of the absolute item counters by the ring size. */
module Modular {
  lemma Multiples(d: int, m: int)
    requires m > 0
    ensures d >= 1 ==> d * m >= m
    ensures d >= 2 ==> d * m >= 2 * m
    ensures d <= -1 ==> d * m <= -m
  {
    if d >= 1 {
      assert d * m == m + (d - 1) * m;
    }
  }

  lemma DivModUnique(n: int, m: int, q: int, r: int)
    requires m > 0 && n == q * m + r && 0 <= r < m
    ensures n / m == q && n % m == r
  {
    var d := n / m - q;
    assert n == n / m * m + n % m;
    assert d * m == r - n % m;
    Multiples(d, m);
  }

  lemma ModShift(n: int, k: int, m: int)
    requires m > 0
    ensures (n + k * m) % m == n % m
  {
    DivModUnique(n + k * m, m, n / m + k, n % m);
  }

  /** The next position in the ring. */
  lemma ModStep(n: int, m: int)
    requires m > 0
    ensures (n + 1) % m == if n % m == m - 1 then 0 else n % m + 1
  {
    if n % m == m - 1 {
      DivModUnique(n + 1, m, n / m + 1, 0);
    } else {
      DivModUnique(n + 1, m, n / m, n % m + 1);
    }
  }

  /** A difference below the ring size can be recovered from the two remainders. */
  lemma ModDifference(h: int, t: int, m: int)
    requires m > 0 && h <= t < h + m
    ensures t - h == if h % m <= t % m then t % m - h % m else t % m + m - h % m
  {
    var k := t / m - h / m;
    assert t - h == k * m + (t % m - h % m);
    Multiples(k, m);
    assert k == 0 || k == 1;
  }

  /** Counters closer than the ring size name different slots. */
  lemma ModDistinct(i: int, j: int, m: int)
    requires m > 0 && i < j < i + m
    ensures i % m != j % m
  {
    ModDifference(i, j, m);
  }
}
