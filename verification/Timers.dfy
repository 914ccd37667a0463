/** The loop that reconnects, and its delays. What the network and the user do is a script of answers. */
module Timers {
  import opened Mqtt

  // ---- Reconnect delays ----------------------------------------------------------------------------

  const WORD := 0x1_0000_0000

  /** `reconnect_delay`, `reconnect_delay_max`, `reconnect_exponential_backoff`, `reconnect_enabled`. */
  datatype Backoff = Backoff(delay: uint32, max: uint32, exponential: bool, enabled: bool)

  /**
   One answer from outside. For a call of `mosquitto_loop`: its code, and whether it leaves EPROTO in `errno`.
   For a turn of the reconnect loop: whether the user is disconnecting before or after the sleep, and the
   code of the attempt.
   */
  datatype Answer = Answer(rc: Rc, eproto: bool, stopBefore: bool, stopAfter: bool)

  /** What `mosquitto_loop_forever` does: calls of `mosquitto_loop` and of `sleep`. */
  datatype Entry = Looped(rc: Rc) | Slept(seconds: uint32)

  /** `reconnect_delay * reconnects * reconnects` in 32 bits. */
  function Product(delay: uint32, reconnects: uint32): uint32 {
    delay * reconnects % WORD * reconnects % WORD
  }

  function Wanted(b: Backoff, reconnects: uint32): uint32 {
    if b.delay > 0 && b.exponential then Product(b.delay, reconnects) else b.delay
  }

  /** The counter after `k` sleeps with no successful loop between them. It stops once the cap is exceeded. */
  function Reconnects(b: Backoff, k: nat): uint32 {
    if k == 0 then 0
    else
      var r := Reconnects(b, k - 1);
      if Wanted(b, r) > b.max then r else (r + 1) % WORD
  }

  /** The sleep that follows `k` sleeps with no successful loop between them. */
  function Seconds(b: Backoff, k: nat): (s: uint32)
    ensures s <= b.max
  {
    Min(Wanted(b, Reconnects(b, k)), b.max)
  }

  /** Sleeps since the last successful loop. */
  function Failures(trace: seq<Entry>): nat {
    if trace == [] then 0
    else
      var last := trace[|trace| - 1];
      if last == Looped(Success) then 0
      else Failures(trace[..|trace| - 1]) + (if last.Slept? then 1 else 0)
  }

  predicate Fatal(rc: Rc) {
    rc in {NoMem, Protocol, Inval, NotFound, Tls, PayloadSize, NotSupported, Auth, AclDenied, Unknown, Eai, Proxy}
  }

  /** Every sleep has the right length. */
  predicate Timed(b: Backoff, trace: seq<Entry>) {
    forall i :: 0 <= i < |trace| && trace[i].Slept? ==> trace[i].seconds == Seconds(b, Failures(trace[..i]))
  }

  datatype Turn = ToLoop | ToSleep | Over

  /** What the answers ask for after this trace. Each entry has used one answer. */
  function Due(answers: seq<Answer>, trace: seq<Entry>): Turn
    requires |trace| <= |answers|
  {
    if trace == [] then ToLoop
    else
      var answer := answers[|trace| - 1];
      match trace[|trace| - 1]
      case Looped(rc) => if rc == Success then ToLoop else if Fatal(rc) || answer.eproto then Over else ToSleep
      case Slept(_) => if answer.stopAfter then Over else if answer.rc == Success then ToLoop else ToSleep
  }

  predicate Explains(b: Backoff, answers: seq<Answer>, trace: seq<Entry>, e: Entry)
    requires |trace| < |answers|
  {
    match Due(answers, trace)
    case ToLoop => e == Looped(answers[|trace|].rc)
    case ToSleep => e.Slept? && !answers[|trace|].stopBefore && b.enabled
    case Over => false
  }

  /**
   The loops return the codes answered, in order; sleeps come where a failure asks for them, and nothing
   comes after an end.
   */
  predicate Explained(b: Backoff, answers: seq<Answer>, trace: seq<Entry>) {
    |trace| <= |answers| && forall i :: 0 <= i < |trace| ==> Explains(b, answers, trace[..i], trace[i])
  }

  /**
   Why the loop has ended: the answers are used up; or a fatal code, EPROTO or a disconnect during a sleep;
   or, where a sleep was due, a disconnect or reconnecting disabled.
   */
  predicate Ended(b: Backoff, answers: seq<Answer>, trace: seq<Entry>, rc: Rc)
    requires |trace| <= |answers|
  {
    match Due(answers, trace)
    case ToLoop => |trace| == |answers|
    case ToSleep => |trace| == |answers| || ((answers[|trace|].stopBefore || !b.enabled) && rc == Success)
    case Over => rc == if trace[|trace| - 1].Looped? then trace[|trace| - 1].rc else Success
  }

  /** What holds while `mosquitto_loop_forever` runs. */
  ghost predicate Tracked(b: Backoff, answers: seq<Answer>, trace: seq<Entry>, reconnects: uint32) {
    Timed(b, trace) && Explained(b, answers, trace) && reconnects == Reconnects(b, Failures(trace))
  }

  lemma FailuresAppend(trace: seq<Entry>, e: Entry)
    ensures Failures(trace + [e]) == if e == Looped(Success) then 0 else Failures(trace) + (if e.Slept? then 1 else 0)
  {
    assert (trace + [e])[..|trace|] == trace;
  }

  lemma TimedAppend(b: Backoff, trace: seq<Entry>, e: Entry)
    requires Timed(b, trace) && (e.Slept? ==> e.seconds == Seconds(b, Failures(trace)))
    ensures Timed(b, trace + [e])
  {
    hide Seconds, Failures;
    var all := trace + [e];
    forall i | 0 <= i < |all| && all[i].Slept? ensures all[i].seconds == Seconds(b, Failures(all[..i])) {
      assert all[..i] == trace[..i];
      assert i == |trace| ==> trace[..i] == trace;
    }
  }

  lemma ExplainedAppend(b: Backoff, answers: seq<Answer>, trace: seq<Entry>, e: Entry)
    requires Explained(b, answers, trace) && |trace| < |answers| && Explains(b, answers, trace, e)
    ensures Explained(b, answers, trace + [e])
  {
    hide Explains;
    var all := trace + [e];
    forall i | 0 <= i < |all| ensures Explains(b, answers, all[..i], all[i]) {
      assert all[..i] == trace[..i];
      assert i == |trace| ==> trace[..i] == trace;
    }
  }

  lemma TrackLoop(b: Backoff, answers: seq<Answer>, trace: seq<Entry>, reconnects: uint32)
    requires Tracked(b, answers, trace, reconnects) && |trace| < |answers| && Due(answers, trace) == ToLoop
    ensures var rc := answers[|trace|].rc;
            Tracked(b, answers, trace + [Looped(rc)], if rc == Success then 0 else reconnects)
  {
    hide Seconds, Failures, Timed, Explained;
    var e := Looped(answers[|trace|].rc);
    FailuresAppend(trace, e);
    TimedAppend(b, trace, e);
    ExplainedAppend(b, answers, trace, e);
  }

  lemma TrackSleep(b: Backoff, answers: seq<Answer>, trace: seq<Entry>, reconnects: uint32)
    requires Tracked(b, answers, trace, reconnects) && |trace| < |answers| && Due(answers, trace) == ToSleep
    requires !answers[|trace|].stopBefore && b.enabled
    ensures var wanted := Wanted(b, reconnects);
            Tracked(b, answers, trace + [Slept(Min(wanted, b.max))],
                    if wanted > b.max then reconnects else (reconnects + 1) % WORD)
  {
    hide Failures, Timed, Explained, Wanted;
    var e := Slept(Min(Wanted(b, reconnects), b.max));
    FailuresAppend(trace, e);
    TimedAppend(b, trace, e);
    ExplainedAppend(b, answers, trace, e);
  }

  lemma TrackNothing(b: Backoff, answers: seq<Answer>)
    ensures Tracked(b, answers, [], 0)
  {
  }

  lemma TrackEnds(b: Backoff, answers: seq<Answer>, trace: seq<Entry>, reconnects: uint32)
    requires Tracked(b, answers, trace, reconnects)
    ensures Timed(b, trace) && Explained(b, answers, trace)
  {
  }

  /**
   `mosquitto_loop_forever` for as long as there are answers. Each call of `mosquitto_loop` and each
   sleep uses one answer.
   */
  method LoopForever(b: Backoff, answers: seq<Answer>) returns (rc: Rc, trace: seq<Entry>)
    ensures Explained(b, answers, trace) && Ended(b, answers, trace, rc)
    ensures Timed(b, trace)
  {
    hide Tracked, Timed, Explained, Fatal, Product;
    rc, trace := Success, [];
    var run := true;
    var reconnects: uint32 := 0;
    TrackNothing(b, answers);
    while run
      invariant |trace| <= |answers| && Tracked(b, answers, trace, reconnects)
      invariant if run then Due(answers, trace) == ToLoop else Ended(b, answers, trace, rc)
      decreases |answers| - |trace|, run
    {
      ghost var n := |trace|;
      rc := Success;
      while run && rc == Success
        invariant n <= |trace| <= |answers| && Tracked(b, answers, trace, reconnects) && run
        invariant if rc == Success then Due(answers, trace) == ToLoop
                  else |trace| > n && trace[|trace| - 1] == Looped(rc)
        decreases |answers| - |trace|, rc == Success
      {
        if |trace| == |answers| {
          TrackEnds(b, answers, trace, reconnects);
          return;
        }
        TrackLoop(b, answers, trace, reconnects);
        rc := answers[|trace|].rc;
        trace := trace + [Looped(rc)];
        if reconnects != 0 && rc == Success {
          reconnects := 0;
        }
      }
      if Fatal(rc) || answers[|trace| - 1].eproto {
        TrackEnds(b, answers, trace, reconnects);
        return;
      }
      var again := true;
      while again
        invariant n < |trace| <= |answers| && Tracked(b, answers, trace, reconnects)
        invariant if again then run && Due(answers, trace) == ToSleep
                  else if run then Due(answers, trace) == ToLoop else Ended(b, answers, trace, rc)
        decreases |answers| - |trace|, again
      {
        if |trace| == |answers| {
          TrackEnds(b, answers, trace, reconnects);
          return;
        }
        var answer := answers[|trace|];
        rc := Success;
        if answer.stopBefore || !b.enabled {
          run := false;
        } else {
          var reconnectDelay: uint32;
          if b.delay > 0 && b.exponential {
            reconnectDelay := Product(b.delay, reconnects);
          } else {
            reconnectDelay := b.delay;
          }
          TrackSleep(b, answers, trace, reconnects);
          if reconnectDelay > b.max {
            reconnectDelay := b.max;
          } else {
            reconnects := (reconnects + 1) % WORD;
          }
          trace := trace + [Slept(reconnectDelay)];
          if answer.stopAfter {
            run := false;
          } else {
            rc := answer.rc;
          }
        }
        again := run && rc != Success;
      }
    }
    TrackEnds(b, answers, trace, reconnects);
  }

  // ---- Quadratic growth up to the cap ------------------------------------------------------------------

  function Quadratic(delay: uint32, k: nat): nat {
    delay * k * k
  }

  lemma QuadraticGrows(delay: uint32, j: nat, k: nat)
    requires j <= k
    ensures Quadratic(delay, j) <= Quadratic(delay, k)
  {
  }

  lemma MulGrows(a: nat, b: nat, j: nat, k: nat)
    requires a <= b && j <= k
    ensures a * j <= b * k
  {
  }

  lemma ProductIs(delay: uint32, k: uint32)
    ensures Product(delay, k) == Quadratic(delay, k) % WORD
  {
    MulModulo(delay * k, k);
  }

  lemma MulModulo(a: nat, k: nat)
    ensures a % WORD * k % WORD == a * k % WORD
  {
    var q, m := a / WORD, a % WORD;
    assert a * k == m * k + q * k * WORD by {
      assert a == m + q * WORD;
      Distribute(m, q, k);
    }
    AddMultiple(m * k, q * k);
  }

  lemma Distribute(m: nat, q: nat, k: nat)
    ensures (m + q * WORD) * k == m * k + q * k * WORD
  {
  }

  lemma AddMultiple(a: nat, n: nat)
    ensures (a + n * WORD) % WORD == a % WORD
  {
  }

  /** The first count whose square takes the delay over the cap. */
  predicate FirstOver(b: Backoff, r: nat) {
    r <= 0x1_0000 && b.max < Quadratic(b.delay, r) && (r > 0 ==> Quadratic(b.delay, r - 1) <= b.max)
  }

  /** Up to the first count over the cap, nothing wraps. */
  lemma ProductBelow(b: Backoff, r: nat, k: nat)
    requires FirstOver(b, r) && k < r
    ensures Product(b.delay, k) == Quadratic(b.delay, k) <= b.max
  {
    hide Product, Quadratic;
    QuadraticGrows(b.delay, k, r - 1);
    ProductIs(b.delay, k);
  }

  lemma {:induction false} CountsUp(b: Backoff, r: nat, k: nat)
    requires b.exponential && b.delay > 0 && FirstOver(b, r) && k <= r
    ensures Reconnects(b, k) == k
  {
    hide Product, Quadratic;
    if k > 0 {
      CountsUp(b, r, k - 1);
      ProductBelow(b, r, k - 1);
    }
  }

  /** A counter that asks for more than the cap does not move on. */
  lemma {:induction false} Stays(b: Backoff, r: uint32, j: nat, k: nat)
    requires Reconnects(b, j) == r && Wanted(b, r) > b.max && j <= k
    ensures Reconnects(b, k) == r
    decreases k
  {
    hide Wanted;
    if j < k {
      Stays(b, r, j, k - 1);
    }
  }

  /**
   The sleeps are min(D*k*k, M) if the first product over the cap M is still over it in 32 bits;
   and if it has wrapped to something below the cap, that sleep is too short.
   */
  lemma SleepsAreQuadratic(b: Backoff, r: nat, k: nat)
    requires b.exponential && b.delay > 0 && FirstOver(b, r)
    ensures Product(b.delay, r) > b.max ==> Seconds(b, k) == Min(Quadratic(b.delay, k), b.max)
    ensures k <= r ==> (Seconds(b, k) == Min(Quadratic(b.delay, k), b.max) <==> k < r || Product(b.delay, r) >= b.max)
  {
    hide Product, Quadratic;
    if k <= r {
      CountsUp(b, r, k);
      if k < r { ProductBelow(b, r, k); }
    } else if Product(b.delay, r) > b.max {
      CountsUp(b, r, r);
      Stays(b, r, r, k);
      QuadraticGrows(b.delay, r, k);
    }
  }

  /** A cap below 2^30 is safe for every delay: the product cannot reach 2^32 in one step from below the cap. */
  lemma SmallCapsAreSafe(b: Backoff) returns (r: nat)
    requires b.exponential && b.delay > 0 && b.max < 0x4000_0000
    ensures FirstOver(b, r) && Product(b.delay, r) == Quadratic(b.delay, r) > b.max
  {
    hide Product, Quadratic;
    r := FindOver(b, 0);
    if r > 1 {
      QuadraticStep(b.delay, r);
    } else {
      QuadraticStart(b.delay);
    }
    ProductIs(b.delay, r);
  }

  lemma QuadraticStart(delay: uint32)
    ensures Quadratic(delay, 0) == 0 && Quadratic(delay, 1) == delay
  {
  }

  lemma QuadraticStep(delay: uint32, r: nat)
    requires r > 1
    ensures Quadratic(delay, r) <= 4 * Quadratic(delay, r - 1)
  {
    var d := delay * (r - 1);
    MulGrows(delay, delay, r, 2 * (r - 1));
    Double(delay, r - 1);
    MulGrows(delay * r, 2 * d, r, 2 * (r - 1));
    Double(2 * d, r - 1);
    Double(r - 1, d);
  }

  lemma Double(a: nat, b: nat)
    ensures a * (2 * b) == 2 * (a * b) && 2 * b * a == 2 * (b * a)
  {
  }

  /** There is a first count over the cap, whatever the delay and the cap. */
  lemma {:induction false} FindOver(b: Backoff, from: nat) returns (r: nat)
    requires b.delay > 0 && from <= 0x1_0000 && (from > 0 ==> Quadratic(b.delay, from - 1) <= b.max)
    ensures FirstOver(b, r)
    decreases 0x1_0000 - from
  {
    hide Quadratic;
    if Quadratic(b.delay, from) > b.max {
      r := from;
    } else {
      LargestCount(b.delay);
      r := FindOver(b, from + 1);
    }
  }

  lemma LargestCount(delay: uint32)
    requires delay > 0
    ensures Quadratic(delay, 0x1_0000) >= WORD
  {
    MulGrows(1, delay, 0x1_0000, 0x1_0000);
  }

  // ---- The exact condition -----------------------------------------------------------------------------

  function Pow2(n: nat): (p: nat)
    ensures p > 0
  {
    if n == 0 then 1 else 2 * Pow2(n - 1)
  }

  /** A power of two that divides an odd multiple of `d` divides `d`. */
  lemma {:induction false} OddFactor(d: nat, m: nat, n: nat, q: nat) returns (f: nat)
    requires d + 2 * (d * m) == q * Pow2(n)
    ensures d == f * Pow2(n)
  {
    if n == 0 {
      f := d;
    } else {
      var p, e := Pow2(n - 1), d / 2;
      Double(q, p);
      assert d == 2 * e;
      Double(m, e);
      assert e + 2 * (e * m) == q * p by { assert d * m == 2 * (e * m); }
      f := OddFactor(e, m, n - 1, q);
      Double(f, p);
    }
  }

  lemma QuadraticDifference(delay: uint32, r: nat)
    ensures Quadratic(delay, r + 1) == Quadratic(delay, r) + (delay + 2 * (delay * r))
  {
  }

  /** Two consecutive products are never equal in 32 bits. */
  lemma ProductsDiffer(delay: uint32, r: nat)
    requires delay > 0 && r + 1 < WORD
    ensures Product(delay, r) != Product(delay, r + 1)
  {
    ProductIs(delay, r);
    ProductIs(delay, r + 1);
    QuadraticDifference(delay, r);
    hide Product, Quadratic;
    var d := delay + 2 * (delay * r);
    if Product(delay, r) == Product(delay, r + 1) {
      var q := (Quadratic(delay, r) + d) / WORD - Quadratic(delay, r) / WORD;
      assert d == q * WORD;
      assert Pow2(8) == 256 && Pow2(16) == 0x1_0000 && Pow2(24) == 0x100_0000 && Pow2(32) == WORD;
      var f := OddFactor(delay, r, 32, q);
    }
  }

  /** The counter at the first count over the cap, and behind it if the product equals the cap. */
  lemma BehindTheCap(b: Backoff, r: nat)
    requires b.exponential && b.delay > 0 && FirstOver(b, r)
    ensures Reconnects(b, r) == r && (Product(b.delay, r) == b.max ==> Reconnects(b, r + 1) == r + 1)
    ensures Quadratic(b.delay, r + 1) > b.max
  {
    hide Product, Quadratic;
    CountsUp(b, r, r);
    QuadraticGrows(b.delay, r, r + 1);
  }

  /**
   The exact condition for the whole schedule. Let `r` be the first count whose product is over the cap
   M. All sleeps are min(D*k*k, M) if and only if in 32 bits the product at `r` is above M, or equals M
   and the next one is above M.
   */
  lemma ScheduleIsRightIff(b: Backoff, r: nat)
    requires b.exponential && b.delay > 0 && FirstOver(b, r)
    ensures (forall k: nat :: Seconds(b, k) == Min(Quadratic(b.delay, k), b.max))
       <==> Product(b.delay, r) > b.max || (Product(b.delay, r) == b.max && Product(b.delay, r + 1) > b.max)
  {
    hide Product, Quadratic;
    BehindTheCap(b, r);
    SleepsAreQuadratic(b, r, r);
    ProductsDiffer(b.delay, r);
    if Product(b.delay, r) > b.max {
      forall k: nat ensures Seconds(b, k) == Min(Quadratic(b.delay, k), b.max) {
        SleepsAreQuadratic(b, r, k);
      }
    } else if Product(b.delay, r) == b.max && Product(b.delay, r + 1) > b.max {
      forall k: nat ensures Seconds(b, k) == Min(Quadratic(b.delay, k), b.max) {
        if k <= r {
          SleepsAreQuadratic(b, r, k);
        } else {
          Stays(b, r + 1, r + 1, k);
          QuadraticGrows(b.delay, r + 1, k);
        }
      }
    } else if Product(b.delay, r) == b.max {
      assert Seconds(b, r + 1) != Min(Quadratic(b.delay, r + 1), b.max);
    } else {
      assert Seconds(b, r) != Min(Quadratic(b.delay, r), b.max);
    }
  }

  /** With a cap below 2^30 the sleeps are min(D*k*k, M), so they never decrease. */
  lemma BackoffGrowsToTheCap(b: Backoff, j: nat, k: nat)
    requires b.exponential && b.delay > 0 && b.max < 0x4000_0000 && j <= k
    ensures Seconds(b, k) == Min(Quadratic(b.delay, k), b.max)
    ensures Seconds(b, j) <= Seconds(b, k)
  {
    hide Product, Quadratic;
    var r := SmallCapsAreSafe(b);
    SleepsAreQuadratic(b, r, j);
    SleepsAreQuadratic(b, r, k);
    QuadraticGrows(b.delay, j, k);
  }

  /** With the largest cap, the 65537th sleep of a client with a delay of 1 lasts no time at all. */
  lemma LargeCapsWrap()
    ensures Seconds(Backoff(1, 0xFFFF_FFFF, true, true), 0x1_0000) == 0
  {
    var b := Backoff(1, 0xFFFF_FFFF, true, true);
    CountsUp(b, 0x1_0000, 0x1_0000);
    ProductIs(1, 0x1_0000);
  }

  /** So a run of the loop sleeps min(D*k*k, M) after k sleeps with no successful loop in between. */
  lemma RunsBackOff(b: Backoff, trace: seq<Entry>, i: nat)
    requires Timed(b, trace) && i < |trace| && trace[i].Slept?
    requires b.exponential && b.delay > 0 && b.max < 0x4000_0000
    ensures trace[i].seconds == Min(Quadratic(b.delay, Failures(trace[..i])), b.max)
  {
    BackoffGrowsToTheCap(b, 0, Failures(trace[..i]));
  }

  /** Without exponential backoff, and with no delay at all, every sleep is the delay, cut to the cap. */
  lemma SteadyWithoutBackoff(b: Backoff, trace: seq<Entry>)
    requires Timed(b, trace) && (!b.exponential || b.delay == 0)
    ensures forall i :: 0 <= i < |trace| && trace[i].Slept? ==> trace[i].seconds == Min(b.delay, b.max)
  {
  }

  // ---- When the loop goes on ---------------------------------------------------------------------------

  /** The network fails now and then; nobody disconnects, and reconnecting is enabled. */
  predicate OnlyNetworkFailures(b: Backoff, answers: seq<Answer>) {
    b.enabled
    && forall i :: 0 <= i < |answers| ==>
         answers[i].rc in {Success, NoConn, ConnRefused, ConnLost, Errno}
         && !answers[i].eproto && !answers[i].stopBefore && !answers[i].stopAfter
  }

  /**
   Failures of the network never end the loop: it uses all answers, calls `mosquitto_loop` after each success,
   and sleeps and reconnects after each failure.
   */
  lemma KeepsTrying(b: Backoff, answers: seq<Answer>, trace: seq<Entry>, rc: Rc)
    requires Explained(b, answers, trace) && Ended(b, answers, trace, rc) && OnlyNetworkFailures(b, answers)
    ensures |trace| == |answers|
    ensures forall i :: 0 <= i < |trace| ==> (trace[i].Looped? <==> i == 0 || answers[i - 1].rc == Success)
  {
    forall i | 0 <= i < |trace|
      ensures trace[i].Looped? <==> i == 0 || answers[i - 1].rc == Success
      ensures Due(answers, trace[..i + 1]) != Over
    {
      NextTurn(b, answers, trace, i);
      assert Explains(b, answers, trace[..i], trace[i]);
      if i > 0 {
        NextTurn(b, answers, trace, i - 1);
        assert Explains(b, answers, trace[..i - 1], trace[i - 1]);
      }
    }
    assert trace == [] || trace[..|trace| - 1 + 1] == trace;
  }

  lemma NextTurn(b: Backoff, answers: seq<Answer>, trace: seq<Entry>, i: nat)
    requires Explained(b, answers, trace) && OnlyNetworkFailures(b, answers) && i < |trace|
    ensures Due(answers, trace[..i + 1]) == if answers[i].rc == Success then ToLoop else ToSleep
  {
    var all := trace[..i + 1];
    assert all[|all| - 1] == trace[i] && all[..i] == trace[..i];
    assert Explains(b, answers, trace[..i], trace[i]);
  }

  /** Any other code from `mosquitto_loop`, or EPROTO, ends the loop at once; and that is the code it returns. */
  lemma OtherCodesEndIt(b: Backoff, answers: seq<Answer>, trace: seq<Entry>, rc: Rc, i: nat)
    requires Explained(b, answers, trace) && Ended(b, answers, trace, rc) && i < |trace| && trace[i].Looped?
    requires trace[i].rc != Success
    requires trace[i].rc !in {NoConn, ConnRefused, ConnLost, Errno} || answers[i].eproto
    ensures |trace| == i + 1 && rc == trace[i].rc
  {
    ExplainedAt(b, answers, trace, i);
    var all := trace[..i + 1];
    assert all[|all| - 1] == trace[i] && all[..i] == trace[..i];
    assert Due(answers, all) == Over;
    OverIsLast(b, answers, trace, i + 1);
    assert all == trace;
  }

  /** Nothing is retried after a disconnect, or with reconnecting disabled; a disconnect during a sleep is a success. */
  lemma StopsWhenAsked(b: Backoff, answers: seq<Answer>, trace: seq<Entry>, rc: Rc, i: nat)
    requires Explained(b, answers, trace) && Ended(b, answers, trace, rc) && i < |trace| && trace[i].Slept?
    ensures b.enabled && !answers[i].stopBefore && (answers[i].stopAfter ==> |trace| == i + 1 && rc == Success)
  {
    ExplainedAt(b, answers, trace, i);
    var all := trace[..i + 1];
    assert all[|all| - 1] == trace[i] && all[..i] == trace[..i];
    if answers[i].stopAfter {
      OverIsLast(b, answers, trace, i + 1);
      assert all == trace;
    }
  }

  lemma OverIsLast(b: Backoff, answers: seq<Answer>, trace: seq<Entry>, n: nat)
    requires Explained(b, answers, trace) && n <= |trace| && Due(answers, trace[..n]) == Over
    ensures n == |trace|
  {
    hide Due, Explained;
    if n < |trace| {
      ExplainedAt(b, answers, trace, n);
    }
  }

  lemma ExplainedAt(b: Backoff, answers: seq<Answer>, trace: seq<Entry>, i: nat)
    requires Explained(b, answers, trace) && i < |trace|
    ensures |trace| <= |answers| && Explains(b, answers, trace[..i], trace[i])
  {
  }
}
