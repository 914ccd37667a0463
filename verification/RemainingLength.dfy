/**
 The remaining-length field: base 128, least significant digit first, the top bit of a byte says
 that another one follows (section 2.2.3 of MQTT 3.1.1).
 */
module RemainingLength {
  import opened Mqtt

  /** Base-128 digits with continuation bits, for a number of any size. */
  function Digits(n: nat): (ds: seq<byte>)
    ensures ds != []
  {
    if n < 128 then [n] else [n % 128 + 128] + Digits(n / 128)
  }

  /** What reading the field from a byte stream yields. */
  datatype Length =
    | Incomplete                     // all bytes so far announce another one
    | Malformed                      // a fifth byte has arrived
    | Complete(value: nat, used: nat)

  /** The reading loop of `_mosquitto_packet_read`, with `count` bytes read already. */
  function Scan(bs: seq<byte>, value: nat, mult: nat, count: nat): Length {
    if bs == [] then Incomplete
    else if count + 1 > 4 then Malformed
    else
      var v := value + bs[0] % 128 * mult;
      if bs[0] < 128 then Complete(v, count + 1) else Scan(bs[1..], v, mult * 128, count + 1)
  }

  function Read(bs: seq<byte>): Length {
    Scan(bs, 0, 1, 0)
  }

  function Power(k: nat): nat {
    if k == 0 then 1 else 128 * Power(k - 1)
  }

  /** `n` has at most `k` digits exactly if it is below 128^k. */
  lemma {:induction false} DigitCount(n: nat, k: nat)
    requires k > 0
    ensures |Digits(n)| <= k <==> n < Power(k)
  {
    if n < 128 {
      PowerAtLeast(k);
    } else if k > 1 {
      DigitCount(n / 128, k - 1);
      DivBelow(n, Power(k - 1));
    }
  }

  lemma {:induction false} PowerAtLeast(k: nat)
    ensures k > 0 ==> Power(k) >= 128
    ensures Power(k) >= 1
  {
    if k > 0 {
      PowerAtLeast(k - 1);
    }
  }

  lemma DivBelow(n: nat, p: nat)
    ensures n / 128 < p <==> n < 128 * p
  {
  }

  /** Four bytes are enough exactly for lengths below 2^28. */
  lemma FourBytesSuffice(n: nat)
    ensures |Digits(n)| <= 4 <==> n < REMAINING_LIMIT
  {
    assert Power(4) == REMAINING_LIMIT;
    DigitCount(n, 4);
  }

  lemma {:induction false} ScanDigits(n: nat, rest: seq<byte>, value: nat, mult: nat, count: nat)
    requires count + |Digits(n)| <= 4
    ensures Scan(Digits(n) + rest, value, mult, count) == Complete(value + n * mult, count + |Digits(n)|)
    decreases n
  {
    var all := Digits(n) + rest;
    if n < 128 {
      assert all[0] == n;
    } else {
      assert all[0] == n % 128 + 128 && all[1..] == Digits(n / 128) + rest;
      ScanDigits(n / 128, rest, value + n % 128 * mult, mult * 128, count + 1);
      SplitTimes(n, mult);
    }
  }

  lemma SplitTimes(n: nat, mult: nat)
    ensures n % 128 * mult + n / 128 * (mult * 128) == n * mult
  {
  }

  /** Reading inverts writing and consumes exactly the bytes written. */
  lemma ReadDigits(n: nat, rest: seq<byte>)
    requires n < REMAINING_LIMIT
    ensures Read(Digits(n) + rest) == Complete(n, |Digits(n)|)
  {
    FourBytesSuffice(n);
    ScanDigits(n, rest, 0, 1, 0);
  }

  /** What the scan accepts: at most four bytes, and a value below 128 to the power of their number. */
  lemma {:induction false} ScanBound(bs: seq<byte>, value: nat, mult: nat, count: nat)
    requires count <= 4 && mult == Power(count) && value < mult
    ensures var r := Scan(bs, value, mult, count);
            r.Complete? ==> count < r.used <= 4 && r.used - count <= |bs| && r.value < Power(r.used)
    decreases |bs|
  {
    if bs != [] && count < 4 {
      var v := value + bs[0] % 128 * mult;
      DigitBelow(value, bs[0] % 128, mult);
      if bs[0] >= 128 {
        ScanBound(bs[1..], v, mult * 128, count + 1);
      }
    }
  }

  lemma DigitBelow(value: nat, d: nat, mult: nat)
    requires value < mult && d < 128
    ensures value + d * mult < mult * 128
  {
  }

  /** No accepted field is shorter than the one the client writes for the same number. */
  lemma WrittenFieldIsShortest(bs: seq<byte>)
    ensures var r := Read(bs);
            r.Complete? ==> r.value < REMAINING_LIMIT && |Digits(r.value)| <= r.used <= 4
  {
    ScanBound(bs, 0, 1, 0);
    var r := Read(bs);
    if r.Complete? {
      DigitCount(r.value, r.used);
      assert Power(1) == 128 && Power(2) == 16384 && Power(3) == 2097152 && Power(4) == REMAINING_LIMIT;
    }
  }

  lemma {:induction false} MalformedFrom(bs: seq<byte>, value: nat, mult: nat, count: nat)
    requires count <= 4
    ensures Scan(bs, value, mult, count).Malformed?
      <==> |bs| >= 5 - count && forall i :: 0 <= i < 4 - count ==> bs[i] >= 128
    decreases |bs|
  {
    if bs != [] && count < 4 && bs[0] >= 128 {
      MalformedFrom(bs[1..], value + bs[0] % 128 * mult, mult * 128, count + 1);
      assert forall i :: 0 < i < |bs| ==> bs[i] == bs[1..][i - 1];
      assert forall i :: 0 <= i < |bs| - 1 ==> bs[1..][i] == bs[i + 1];
    }
  }

  /** A field is rejected exactly when a fifth byte arrives. */
  lemma MalformedIff(bs: seq<byte>)
    ensures Read(bs).Malformed? <==> |bs| >= 5 && forall i :: 0 <= i < 4 ==> bs[i] >= 128
  {
    MalformedFrom(bs, 0, 1, 0);
  }
}
