/** Remainders, of 32-bit times and of positions in a cycle. */
module Arithmetic {
  import opened Types

  lemma UniqueRemainder(y: nat, n: nat, q: nat, r: nat)
    requires 0 < n && y == n * q + r && r < n
    ensures y % n == r
  {
    var d := y / n - q;
    assert n * d == r - y % n;
  }

  lemma WrapOnce(n: nat, x: nat)
    requires 0 < n
    ensures (n + x) % n == x % n
  {
    assert n + x == n * (x / n + 1) + x % n;
    UniqueRemainder(n + x, n, x / n + 1, x % n);
  }

  lemma RemainderStep(s: nat, c: nat)
    ensures (s + 1) % (c + 1) == if s % (c + 1) == c then 0 else s % (c + 1) + 1
    ensures 0 % (c + 1) == 0 && s % (c + 1) <= c
  {
    var (m, q, r) := (c + 1, s / (c + 1), s % (c + 1));
    assert s + 1 == m * q + r + 1;
    if r == c {
      assert s + 1 == m * (q + 1) + 0;
      UniqueRemainder(s + 1, m, q + 1, 0);
    } else {
      UniqueRemainder(s + 1, m, q, r + 1);
    }
  }

  lemma RotatedIndex(n: nat, x: nat, j: nat)
    requires j < n
    ensures (x + j) % n == if x % n + j < n then x % n + j else x % n + j - n
  {
    if x % n + j < n {
      UniqueRemainder(x + j, n, x / n, x % n + j);
    } else {
      assert x + j == n * (x / n + 1) + (x % n + j - n);
      UniqueRemainder(x + j, n, x / n + 1, x % n + j - n);
    }
  }

  lemma RemainderSum(x: nat, y: nat, n: nat)
    requires 0 < n
    ensures (x % n + y) % n == (x + y) % n
  {
    var (q, z) := (x / n, x % n + y);
    assert x + y == n * q + z && z == n * (z / n) + z % n;
    assert x + y == n * (q + z / n) + z % n;
    UniqueRemainder(x + y, n, q + z / n, z % n);
  }

  lemma NextMultiple(x: nat, n: nat) returns (more: nat)
    requires 0 < n
    ensures more < n && (x + more) % n == 0
  {
    var (q, r) := (x / n, x % n);
    more := if r == 0 then 0 else n - r;
    if r != 0 {
      assert x + more == n * (q + 1) + 0;
      UniqueRemainder(x + more, n, q + 1, 0);
    }
  }

  /** Whole wraps of the 32-bit clock do not show. */
  lemma {:induction false} ModShift(x: int, k: int)
    ensures (x + k * U32) % U32 == x % U32
    decreases if k < 0 then -k else k
  {
    if k > 0 {
      ModShift(x, k - 1);
      assert (x + (k - 1) * U32 + U32) % U32 == (x + (k - 1) * U32) % U32;
    } else if k < 0 {
      ModShift(x, k + 1);
      assert (x + k * U32 + U32) % U32 == (x + k * U32) % U32;
    }
  }
}
