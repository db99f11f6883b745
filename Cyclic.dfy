/** Wrap-around index arithmetic shared by the testimonial carousel and the
    timeline keyboard handler of js/option-c.js. The operands are never
    negative there, so JavaScript's `%` and Dafny's agree. */
module Cyclic {

  /** `(i + 1) % n` */
  function NextIndex(i: nat, n: nat): (j: nat)
    requires i < n
    ensures j < n
    ensures i < n - 1 ==> j == i + 1
    ensures i == n - 1 ==> j == 0
  {
    (i + 1) % n
  }

  /** `(i - 1 + n) % n` */
  function PrevIndex(i: nat, n: nat): (j: nat)
    requires i < n
    ensures j < n
    ensures i > 0 ==> j == i - 1
    ensures i == 0 ==> j == n - 1
  {
    (i - 1 + n) % n
  }

  lemma PrevUndoesNext(i: nat, n: nat)
    requires i < n
    ensures PrevIndex(NextIndex(i, n), n) == i
    ensures NextIndex(PrevIndex(i, n), n) == i
  {
  }

  /** The index reached from `i` after `k` steps forward. */
  function Advance(i: nat, k: nat, n: nat): (j: nat)
    requires i < n
    ensures j < n
  {
    if k == 0 then i else NextIndex(Advance(i, k - 1, n), n)
  }

  /** Up to `n` steps forward land on `i + k`, wrapped once past the end. */
  lemma {:induction false} AdvanceWrapsOnce(i: nat, k: nat, n: nat)
    requires i < n && k <= n
    ensures Advance(i, k, n) == if i + k < n then i + k else i + k - n
  {
    if k > 0 {
      AdvanceWrapsOnce(i, k - 1, n);
    }
  }

  /** How many steps forward lead from `i` to `j`. */
  function Distance(i: nat, j: nat, n: nat): (k: nat)
    requires i < n && j < n
    ensures k < n
  {
    if j >= i then j - i else j + n - i
  }

  /** Stepping forward `n` times returns to the start, and every index is
      reached within those steps. */
  lemma FullCycle(i: nat, n: nat)
    requires i < n
    ensures Advance(i, n, n) == i
    ensures forall j :: 0 <= j < n ==> Advance(i, Distance(i, j, n), n) == j
  {
    AdvanceWrapsOnce(i, n, n);
    forall j | 0 <= j < n
      ensures Advance(i, Distance(i, j, n), n) == j
    {
      AdvanceWrapsOnce(i, if j >= i then j - i else j + n - i, n);
    }
  }
}
