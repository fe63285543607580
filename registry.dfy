/**
 * The process-wide set of devices a backend has claimed (`ACTIVE_DEVICES`,
 * `active_devices`). A session inserts its device only after setup
 * succeeded and erases it when it stops, so that a later device scan in
 * the same process skips it.
 */
module DeviceRegistry {
  class Registry<T(==)> {
    var active: set<T>

    constructor ()
      ensures active == {}
    {
      active := {};
    }

    method Claim(x: T)
      modifies this
      ensures active == old(active) + {x}
    {
      active := active + {x};
    }

    method Release(x: T)
      modifies this
      ensures active == old(active) - {x}
    {
      active := active - {x};
    }
  }
}

/** Decimal rendering and parsing of natural numbers, as device paths and index hints use them. */
module Decimal {
  predicate IsDigit(c: char) { '0' <= c <= '9' }

  function DigitValue(c: char): nat
    requires IsDigit(c)
  {
    (c as int) - ('0' as int)
  }

  function DigitChar(d: nat): (c: char)
    requires d < 10
    ensures IsDigit(c) && DigitValue(c) == d
  {
    (('0' as int) + d) as char
  }

  /** The shortest decimal spelling of `n`, without leading zeros. */
  function ToDecimal(n: nat): (s: string)
    ensures |s| >= 1
    ensures forall k :: 0 <= k < |s| ==> IsDigit(s[k])
    decreases n
  {
    if n < 10 then [DigitChar(n)] else ToDecimal(n / 10) + [DigitChar(n % 10)]
  }

  predicate AllDigits(s: string) {
    forall k :: 0 <= k < |s| ==> IsDigit(s[k])
  }

  /** The value of a digit string read most significant digit first; leading zeros allowed. */
  function ValueOf(s: string): nat
    requires AllDigits(s)
  {
    if s == [] then 0 else ValueOf(s[..|s| - 1]) * 10 + DigitValue(s[|s| - 1])
  }

  lemma {:induction false} ValueOfToDecimal(n: nat)
    ensures ValueOf(ToDecimal(n)) == n
    decreases n
  {
    var s := ToDecimal(n);
    if n >= 10 {
      ValueOfToDecimal(n / 10);
      assert s[..|s| - 1] == ToDecimal(n / 10);
    }
  }

  /** Distinct numbers have distinct spellings, so generated device names never collide. */
  lemma ToDecimalInjective(m: nat, n: nat)
    requires ToDecimal(m) == ToDecimal(n)
    ensures m == n
  {
    ValueOfToDecimal(m);
    ValueOfToDecimal(n);
  }
}
