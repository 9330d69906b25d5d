/** What is switched on and off by the steps of a run. */
module Latch {

  /** At some step before `n` it was switched on, and at none after that off. */
  ghost predicate Since(on: nat -> bool, off: nat -> bool, n: nat) {
    exists i: nat :: i < n && on(i) && StaysOn(off, i, n)
  }

  ghost predicate StaysOn(off: nat -> bool, i: nat, n: nat) {
    forall j: nat :: i < j < n ==> !off(j)
  }

  ghost predicate Switched(b: nat -> bool, on: nat -> bool, off: nat -> bool, i: nat, j: nat) {
    b(j) <==> on(i) || (b(i) && !off(i))
  }

  /** It starts off, and every one of `n` steps changes it as the switches say. */
  ghost predicate Latches(b: nat -> bool, on: nat -> bool, off: nat -> bool, n: nat) {
    !b(0) && forall i: nat, j: nat :: i < n && j == i + 1 ==> Switched(b, on, off, i, j)
  }

  lemma LatchesOnce(b: nat -> bool, on: nat -> bool, off: nat -> bool, n: nat, m: nat)
    requires Latches(b, on, off, n) && m == n + 1 && Switched(b, on, off, n, m)
    ensures Latches(b, on, off, m)
  {
  }

  lemma {:induction false} LatchIff(b: nat -> bool, on: nat -> bool, off: nat -> bool, n: nat)
    requires Latches(b, on, off, n)
    ensures b(n) <==> Since(on, off, n)
  {
    if n == 0 {
    } else {
      var before := n - 1;
      assert Switched(b, on, off, before, n);
      LatchIff(b, on, off, before);
      assert forall i: nat :: i < before ==> (StaysOn(off, i, n) <==> StaysOn(off, i, before) && !off(before));
      assert StaysOn(off, before, n);
    }
  }

  lemma OnAfter(on: nat -> bool, off: nat -> bool, i: nat, n: nat) returns (j: nat)
    requires i <= n && Since(on, off, n) && !Since(on, off, i)
    ensures i <= j < n && on(j)
  {
    j :| j < n && on(j) && StaysOn(off, j, n);
    assert StaysOn(off, j, i);
  }
}
