// The PSN window tests of the receive path, read as distances on the 24-bit circle.
module PsnWindow {
  import opened InfiniBand
  import opened RequestPath

  // How far psn lies ahead of origin on the circle.
  function Ahead(origin: int, psn: int): nat { (psn - origin) % PSN_MOD }

  predicate IsPsn(x: nat) { x < PSN_MOD }

  lemma AheadIs(origin: nat, psn: nat)
    requires IsPsn(origin) && IsPsn(psn)
    ensures Ahead(origin, psn) == if origin <= psn then psn - origin else psn - origin + PSN_MOD
  {
    if origin > psn {
      assert (psn - origin) % PSN_MOD == (psn - origin + PSN_MOD) % PSN_MOD;
    }
  }

  // A PSN passes the duplicate test iff it lies in the cyclic interval [oldest, epsn).
  lemma DuplicateTestExact(oldest: nat, epsn: nat, psn: nat)
    requires IsPsn(oldest) && IsPsn(epsn) && IsPsn(psn)
    ensures InDuplicateWindow(oldest, epsn, psn) <==> Ahead(oldest, psn) < Ahead(oldest, epsn)
  {
    AheadIs(oldest, psn);
    AheadIs(oldest, epsn);
  }

  // The acknowledgement test is cyclic membership in [epsn, maxForward].
  lemma AckTestCyclic(epsn: nat, psn: nat, maxForward: nat)
    requires IsPsn(epsn) && IsPsn(psn) && IsPsn(maxForward)
    ensures InAckWindow(epsn, psn, maxForward) <==> Ahead(epsn, psn) <= Ahead(epsn, maxForward)
  {
    AheadIs(epsn, psn);
    AheadIs(epsn, maxForward);
  }

  // A PSN is outstanding when it has been sent and not acknowledged.
  predicate Outstanding(row: Row, psn: nat) { Ahead(row.reqOldUnack, psn) < Ahead(row.reqOldUnack, row.reqNext) }

  predicate AckTest(row: Row, psn: nat) {
    var seen := ReadRow(row, true);
    InAckWindow(seen.epsn, psn, seen.maxForward)
  }

  lemma LastSent(unack: nat, next: nat)
    requires IsPsn(unack) && IsPsn(next)
    ensures Ahead(unack, (next - 1) % PSN_MOD) == if next == unack then PSN_MOD - 1 else Ahead(unack, next) - 1
  {
    AheadIs(unack, next);
    AheadIs(unack, (next - 1) % PSN_MOD);
    if next == 0 { assert (next - 1) % PSN_MOD == PSN_MOD - 1; }
  }

  // The test means "is outstanding" for every PSN iff something is outstanding. With
  // nothing outstanding it accepts every PSN there is.
  lemma AckTestExactIff(row: Row)
    requires IsPsn(row.reqOldUnack) && IsPsn(row.reqNext)
    ensures (forall psn: nat | IsPsn(psn) :: AckTest(row, psn) <==> Outstanding(row, psn)) <==> row.reqNext != row.reqOldUnack
    ensures row.reqNext == row.reqOldUnack ==> forall psn: nat | IsPsn(psn) :: AckTest(row, psn) && !Outstanding(row, psn)
  {
    LastSent(row.reqOldUnack, row.reqNext);
    forall psn: nat | IsPsn(psn)
      ensures AckTest(row, psn) <==> Ahead(row.reqOldUnack, psn) <= Ahead(row.reqOldUnack, (row.reqNext - 1) % PSN_MOD)
    {
      AckTestCyclic(row.reqOldUnack, psn, (row.reqNext - 1) % PSN_MOD);
    }
    AheadIs(row.reqOldUnack, row.reqNext);
    if row.reqNext == row.reqOldUnack {
      assert IsPsn(0) && AckTest(row, 0) && !Outstanding(row, 0);
    }
  }
}
