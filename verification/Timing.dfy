/** The timer constants, in milliseconds, and Go's `*time.Timer` as a value. */
module Timing {
  import opened Wrappers

  const T1: nat := 500
  const T2: nat := 4000
  const T4: nat := 5000
  const TIME_A: nat := T1
  const TIME_B: nat := 64 * T1
  const TIME_D: nat := 32000
  const TIME_E: nat := T1
  const TIME_G: nat := T1
  const TIME_H: nat := 64 * T1
  const TIME_I: nat := T4
  const TIME_J: nat := 64 * T1
  const TIME_K: nat := T4
  const TIME_1XX: nat := 200

  /**
   * A timer field of a transaction. `isSet` says that the field is not nil; `due` is the instant at which
   * the runtime will still run the callback. A timer that has run is set but no longer due, and a field
   * overwritten with nil without a Stop leaves the callback due.
   */
  datatype Timer = Timer(isSet: bool, due: Option<nat>) {
    /** The idiom "if the field is not nil, Stop it and set it to nil". */
    function Stopped(): Timer {
      if isSet then OFF else this
    }

    /** The callback has started: nothing is due any more, the field keeps its value. */
    function Fired(): Timer {
      this.(due := None)
    }

    predicate DueAt(now: nat) {
      due.Some? && due.value <= now
    }

    /** Time may pass up to the instant `until` without overtaking this timer. */
    predicate Allows(until: nat) {
      due.Some? ==> until <= due.value
    }

    /** Set and due at the instant `at`. */
    predicate Armed(at: nat) {
      isSet && due == Some(at)
    }
  }

  const OFF := Timer(false, None)

  /** A timer started (or Reset) at `now` to run after `wait`. */
  function Start(now: nat, wait: nat): Timer {
    Timer(true, Some(now + wait))
  }

  function Min(a: nat, b: nat): nat {
    if a <= b then a else b
  }

  function Pow2(k: nat): (r: nat)
    ensures 1 <= r
  {
    if k == 0 then 1 else 2 * Pow2(k - 1)
  }

  /** The wait before resend number `k + 1` when every resend doubles the wait and T2 caps it. */
  function CappedWait(k: nat): nat {
    Min(T1 * Pow2(k), T2)
  }

  /** The sum of the first `k` capped waits: when resend number `k` happens, counted from the first send. */
  function CappedAt(k: nat): nat {
    if k == 0 then 0 else CappedAt(k - 1) + CappedWait(k - 1)
  }

  /** Doubling the wait and then capping it goes from one capped wait to the next. */
  lemma CappedDoubling(k: nat)
    ensures CappedWait(k + 1) == Min(2 * CappedWait(k), T2)
  {
    assert Pow2(k + 1) == 2 * Pow2(k);
  }

  lemma CappedSum(k: nat)
    ensures CappedAt(k + 1) == CappedAt(k) + CappedWait(k)
  {
  }

  lemma {:induction false} Pow2Grows(j: nat, k: nat)
    requires j <= k
    ensures 1 <= Pow2(j) <= Pow2(k)
    decreases k
  {
    if j < k {
      Pow2Grows(j, k - 1);
    } else if 0 < k {
      Pow2Grows(j - 1, k - 1);
    }
  }

  lemma {:induction false} CappedAtGrows(j: nat, k: nat)
    requires j <= k
    ensures CappedAt(j) <= CappedAt(k)
    decreases k
  {
    if j < k {
      CappedAtGrows(j, k - 1);
    }
  }

  lemma EleventhResend()
    ensures CappedAt(11) == 71 * T1
  {
    assert Pow2(0) == 1;
    assert Pow2(1) == 2 && Pow2(2) == 4 && Pow2(3) == 8;
    forall n: nat | 3 <= n ensures CappedWait(n) == T2 {
      Pow2Grows(3, n);
    }
    assert CappedAt(2) == 3 * T1;
    assert CappedAt(4) == 15 * T1;
    assert CappedAt(6) == 31 * T1 && CappedAt(8) == 47 * T1 && CappedAt(10) == 63 * T1;
  }

  /** Exactly ten capped resends lie before 64*T1: the tenth is at 63*T1, the eleventh at 71*T1. */
  lemma TenCappedResends(k: nat)
    requires CappedAt(k) <= 64 * T1 <= CappedAt(k + 1)
    ensures k == 10
  {
    EleventhResend();
    assert CappedAt(10) <= 63 * T1 by {
      Pow2Grows(3, 10);
    }
    if k < 10 {
      CappedAtGrows(k + 1, 10);
    } else if k > 10 {
      CappedAtGrows(11, k);
    }
  }

  /** Without a cap, resend number `k` is T1*(2^k - 1) after the first send and six lie before 64*T1. */
  lemma SixDoublingResends(k: nat)
    requires T1 * (Pow2(k) - 1) <= 64 * T1 <= T1 * (Pow2(k + 1) - 1)
    ensures k == 6
  {
    assert Pow2(0) == 1;
    assert Pow2(2) == 4;
    assert Pow2(4) == 16;
    assert Pow2(6) == 64 && Pow2(7) == 128;
    if k < 6 {
      Pow2Grows(k + 1, 6);
    } else if k > 6 {
      Pow2Grows(7, k);
    }
  }

  lemma AtMostTenCapped(k: nat)
    requires CappedAt(k) <= 64 * T1
    ensures k <= 10
  {
    EleventhResend();
    if k > 10 {
      CappedAtGrows(11, k);
    }
  }

  lemma AtMostSixDoubling(k: nat)
    requires T1 * (Pow2(k) - 1) <= 64 * T1
    ensures k <= 6
  {
    assert Pow2(0) == 1;
    assert Pow2(4) == 16;
    assert Pow2(7) == 128;
    if k > 6 {
      Pow2Grows(7, k);
    }
  }
}
