/** Generation of 16-bit message ids. */
module MessageIds {
  import opened Mqtt

  /** `_mosquitto_mid_generate`: increment with 16-bit wrap-around, skipping 0. */
  function Next(last: uint16): (mid: uint16)
    ensures mid != 0
  {
    var m := (last + 1) % 0x1_0000;
    if m == 0 then 1 else m
  }

  /** The k-th id generated after `last`. */
  function Nth(last: uint16, k: nat): uint16 {
    if k == 0 then last else Next(Nth(last, k - 1))
  }

  lemma {:induction false} NthClosedForm(last: uint16, k: nat)
    requires k > 0
    ensures Nth(last, k) == (last + k - 1) % 65535 + 1
  {
    if k > 1 {
      NthClosedForm(last, k - 1);
    }
  }

  /** Ids are never 0, and two ids are equal exactly when their ages differ by a multiple of 65535. */
  lemma NthEqualIff(last: uint16, i: nat, j: nat)
    requires 0 < i <= j
    ensures Nth(last, i) != 0
    ensures Nth(last, i) == Nth(last, j) <==> (j - i) % 65535 == 0
  {
    hide Nth;
    NthClosedForm(last, i);
    NthClosedForm(last, j);
  }

  /** Ids generated less than 65535 apart differ. */
  lemma RecentIdsDiffer(last: uint16, i: nat, j: nat)
    requires 0 < i < j < i + 65535
    ensures Nth(last, i) != Nth(last, j)
  {
    NthEqualIff(last, i, j);
  }
}
