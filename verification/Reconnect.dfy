/**
 The reconnect loop (`run`, `wait_for_retry` and `terminal_error`,
 crates/zephyrvox-realtime/src/engine.rs) and its backoff (`ReconnectPolicy`,
 crates/zephyrvox-realtime/src/config.rs).

 What the host, the token provider, the sockets and the clock do in one turn of the loop
 is an `Attempt`; the loop is a method over any number of them.
 */
module Reconnect {
  import opened Common
  import Bits

  const U128_MAX := 0xFFFF_FFFF_FFFF_FFFF_FFFF_FFFF_FFFF_FFFF
  const USIZE_MAX := U64_MAX

  /** A `Duration` in nanoseconds: 64 bits of seconds and a fraction. */
  type Nanos = n: nat | n < U64_SIZE * 1_000_000_000

  datatype Policy = Policy(
    enabled: bool, minimum: Nanos, maximum: Nanos, jitter: Nanos, maximumAttempts: Option<nat>)

  datatype RealtimeError =
    | Provider | AuthenticationRequired | AuthenticationExpired | Transport | Protocol | Json
    | StateApply | SyncOrder | ServerCommand | NotLive | CommandTimeout | Closed | Revoked
    | TlsPinMismatch | TlsCertificateInvalid | ReconnectExhausted | Configuration

  /** `ReconnectPolicy::new` */
  function NewPolicy(minimum: Nanos, maximum: Nanos, jitter: Nanos): Result<Policy, RealtimeError> {
    if minimum == 0 || maximum < minimum then Err(Configuration)
    else Ok(Policy(true, minimum, maximum, jitter, None))
  }

  // ----- backoff arithmetic ----------------------------------------------------------------

  function Product(a: nat, b: nat): nat {
    a * b
  }

  function SaturatingMul(a: nat, b: nat): nat {
    Min(Product(a, b), U128_MAX)
  }

  function SaturatingAdd(a: nat, b: nat): nat {
    Min(a + b, U128_MAX)
  }

  /** The clock reading, cut down to the configured jitter. */
  function Jitter(p: Policy, sample: nat): (j: nat)
    ensures j <= p.jitter
  {
    if p.jitter == 0 then 0 else sample % Max(p.jitter, 1)
  }

  /** `delay`, in nanoseconds; `sample` is the clock reading that jitter is drawn from. */
  function Delay(p: Policy, attempt: nat, sample: nat): nat {
    var base := SaturatingMul(p.minimum, Bits.Pow2(Min(attempt, 31)));
    var bounded := Min(base, p.maximum);
    Min(Min(SaturatingAdd(bounded, Jitter(p, sample)), p.maximum), U64_MAX)
  }

  lemma Pow2ThirtyOne()
    ensures Bits.Pow2(31) == 0x8000_0000
  {
    assert Bits.Pow2(8) == 0x100 by { assert Bits.Pow2(4) == 16; }
    assert Bits.Pow2(16) == 0x1_0000 by { assert Bits.Pow2(12) == 0x1000; }
    assert Bits.Pow2(24) == 0x100_0000 by { assert Bits.Pow2(20) == 0x10_0000; }
    assert Bits.Pow2(31) == 0x8000_0000 by { assert Bits.Pow2(28) == 0x1000_0000; }
  }

  lemma {:induction false} Pow2Monotonic(m: nat, n: nat)
    requires m <= n
    ensures Bits.Pow2(m) <= Bits.Pow2(n)
    decreases n
  {
    if m < n {
      Pow2Monotonic(m, n - 1);
    }
  }

  /** No `Duration` is long enough for the 128-bit arithmetic to saturate. */
  lemma NeverSaturates(p: Policy, attempt: nat)
    ensures SaturatingMul(p.minimum, Bits.Pow2(Min(attempt, 31)))
         == Product(p.minimum, Bits.Pow2(Min(attempt, 31)))
    ensures p.maximum + p.jitter <= U128_MAX
  {
    Pow2Monotonic(Min(attempt, 31), 31);
    Pow2ThirtyOne();
    ProductBound(p.minimum, Bits.Pow2(Min(attempt, 31)), U64_SIZE * 1_000_000_000, 0x8000_0000);
  }

  lemma ProductBound(a: nat, b: nat, c: nat, d: nat)
    requires a <= c && b <= d
    ensures a * b <= c * d
  {
    assert a * b <= a * d;
    assert a * d <= c * d;
  }

  /** The doubling that was meant: exact, capped by the maximum and by 64 bits. */
  lemma DelayDoubles(p: Policy, attempt: nat, sample: nat)
    ensures Delay(p, attempt, sample)
         == Min(Min(Product(p.minimum, Bits.Pow2(Min(attempt, 31))) + Jitter(p, sample), p.maximum), U64_MAX)
  {
    hide Bits.Pow2, Jitter;
    NeverSaturates(p, attempt);
  }

  /** A valid policy's delays lie between its bounds, for any jitter and any clock reading. */
  lemma DelayBounds(p: Policy, attempt: nat, sample: nat)
    requires p.minimum <= p.maximum
    ensures Delay(p, attempt, sample) <= p.maximum
    ensures Delay(p, attempt, sample) >= Min(p.minimum, U64_MAX)
  {
    DelayDoubles(p, attempt, sample);
    ProductBound(p.minimum, 1, p.minimum, Bits.Pow2(Min(attempt, 31)));
  }

  /** A policy is accepted exactly with a positive, ordered range, and then never delays by nothing. */
  lemma AcceptedPolicyDelays(minimum: Nanos, maximum: Nanos, jitter: Nanos, attempt: nat, sample: nat)
    ensures var r := NewPolicy(minimum, maximum, jitter);
      && (r.Ok? <==> 0 < minimum <= maximum)
      && (r.Ok? ==>
            && r.value.enabled && r.value.maximumAttempts == None
            && 0 < Delay(r.value, attempt, sample) <= maximum)
  {
    hide Delay;
    if 0 < minimum <= maximum {
      DelayBounds(NewPolicy(minimum, maximum, jitter).value, attempt, sample);
    }
  }

  /** The delay before jitter, and the cap that jitter cannot exceed either. */
  function CappedBase(p: Policy, attempt: nat): nat {
    Min(Product(p.minimum, Bits.Pow2(Min(attempt, 31))), Cap(p))
  }

  function Cap(p: Policy): nat {
    Min(p.maximum, U64_MAX)
  }

  lemma BasesGrow(p: Policy, earlier: nat, later: nat)
    requires earlier <= later
    ensures CappedBase(p, earlier) <= CappedBase(p, later)
  {
    Pow2Monotonic(Min(earlier, 31), Min(later, 31));
    ProductBound(p.minimum, Bits.Pow2(Min(earlier, 31)), p.minimum, Bits.Pow2(Min(later, 31)));
  }

  lemma DelayOfBase(p: Policy, attempt: nat, sample: nat)
    ensures Delay(p, attempt, sample) == Min(CappedBase(p, attempt) + Jitter(p, sample), Cap(p))
  {
    hide Bits.Pow2, Jitter;
    DelayDoubles(p, attempt, sample);
  }

  /** Whether the earlier attempt's largest jitter stays within the later attempt's base. */
  predicate JitterFits(p: Policy, earlier: nat, later: nat) {
    || p.jitter <= 1
    || CappedBase(p, later) == Cap(p)
    || CappedBase(p, earlier) + p.jitter - 1 <= CappedBase(p, later)
  }

  /** The remainder of a division is the only number below the divisor that leaves a multiple. */
  lemma RemainderIsUnique(n: nat, d: nat, q: nat, r: nat)
    requires n == q * d + r && r < d
    ensures n % d == r
  {
    var q', r' := n / d, n % d;
    assert (q - q') * d == r' - r;
    if q > q' { ProductBound(1, d, q - q', d); }
    if q < q' { ProductBound(1, d, q' - q, d); }
  }

  lemma JitterRange(p: Policy, sample: nat)
    ensures if p.jitter == 0 then Jitter(p, sample) == 0 else Jitter(p, sample) < p.jitter
    ensures p.jitter > 0 && sample < p.jitter ==> Jitter(p, sample) == sample
  {
    if 0 < p.jitter && sample < p.jitter {
      RemainderIsUnique(sample, p.jitter, 0, sample);
    }
  }

  /** The reading only matters up to whole periods of the jitter. */
  lemma JitterRepeats(p: Policy, sample: nat)
    ensures Jitter(p, sample + p.jitter) == Jitter(p, sample)
  {
    if p.jitter > 0 {
      var q, r := sample / p.jitter, sample % p.jitter;
      assert sample + p.jitter == (q + 1) * p.jitter + r;
      RemainderIsUnique(sample + p.jitter, p.jitter, q + 1, r);
    }
  }

  lemma FittingIsOrdered(p: Policy, earlier: nat, later: nat, sample: nat, sample': nat)
    requires earlier <= later && JitterFits(p, earlier, later)
    ensures Delay(p, earlier, sample) <= Delay(p, later, sample')
  {
    hide Delay, CappedBase, Cap, Jitter;
    BasesGrow(p, earlier, later);
    DelayOfBase(p, earlier, sample);
    DelayOfBase(p, later, sample');
    CapBoundsBase(p, later);
    JitterRange(p, sample);
    JitterRange(p, sample');
  }

  lemma MisfitReorders(p: Policy, earlier: nat, later: nat)
    requires earlier <= later && !JitterFits(p, earlier, later)
    ensures Delay(p, earlier, p.jitter - 1) > Delay(p, later, 0)
  {
    hide Delay, CappedBase, Cap, Jitter;
    DelayOfBase(p, earlier, p.jitter - 1);
    DelayOfBase(p, later, 0);
    CapBoundsBase(p, later);
    JitterRange(p, p.jitter - 1);
    JitterRange(p, 0);
  }

  /**
   A later attempt never waits less than an earlier one, whatever the clock reads at
   either, exactly when the jitter fits between their bases or the later one is capped.
   */
  lemma DelaysOrderedExactly(p: Policy, earlier: nat, later: nat)
    requires earlier <= later
    ensures (forall sample: nat, sample': nat ::
              Delay(p, earlier, sample) <= Delay(p, later, sample'))
       <==> JitterFits(p, earlier, later)
  {
    hide Delay, JitterFits;
    if JitterFits(p, earlier, later) {
      forall sample: nat, sample': nat
        ensures Delay(p, earlier, sample) <= Delay(p, later, sample')
      {
        FittingIsOrdered(p, earlier, later, sample, sample');
      }
    } else {
      MisfitReorders(p, earlier, later);
      assert p.jitter >= 1 by { NoJitterFits(p, earlier, later); }
    }
  }

  lemma NoJitterFits(p: Policy, earlier: nat, later: nat)
    ensures p.jitter <= 1 ==> JitterFits(p, earlier, later)
  {
  }

  lemma CapBoundsBase(p: Policy, attempt: nat)
    ensures CappedBase(p, attempt) <= Cap(p)
  {
  }

  /** At one clock reading, and without jitter, delays are ordered under every policy. */
  lemma SameReadingOrdered(p: Policy, earlier: nat, later: nat, sample: nat)
    requires earlier <= later
    ensures Delay(p, earlier, sample) <= Delay(p, later, sample)
  {
    hide CappedBase, Jitter;
    BasesGrow(p, earlier, later);
    DelayOfBase(p, earlier, sample);
    DelayOfBase(p, later, sample);
  }

  /** Doubling outruns a jitter of no more than the minimum, until the exponent stops growing. */
  lemma ModestJitterFits(p: Policy, earlier: nat, later: nat)
    requires p.jitter <= p.minimum + 1 && earlier < later && earlier < 31
    ensures JitterFits(p, earlier, later)
  {
    var base, doubled := Bits.Pow2(earlier), Bits.Pow2(earlier + 1);
    assert doubled == 2 * base;
    ProductBound(p.minimum, 1, p.minimum, base);
    assert Product(p.minimum, doubled) == Product(p.minimum, base) + Product(p.minimum, base);
    BasesGrow(p, earlier + 1, later);
  }

  /** The SDK's default: from 250 ms to 30 s, with 250 ms of jitter. */
  const DEFAULT_POLICY := Policy(true, 250_000_000, 30_000_000_000, 250_000_000, None)

  /** Under the default policy each attempt waits at least as long as any before it. */
  lemma DefaultDelaysAreOrdered(earlier: nat, later: nat, sample: nat, sample': nat)
    requires earlier < later
    ensures Delay(DEFAULT_POLICY, earlier, sample) <= Delay(DEFAULT_POLICY, later, sample')
  {
    var p := DEFAULT_POLICY;
    if earlier < 31 {
      ModestJitterFits(p, earlier, later);
    } else {
      Pow2ThirtyOne();
      assert CappedBase(p, later) == Cap(p);
    }
    FittingIsOrdered(p, earlier, later, sample, sample');
  }

  /** A jitter larger than the doubling can make the second wait the shorter one. */
  lemma JitterReorders()
    ensures var p := NewPolicy(1, 100, 50).value;
            Delay(p, 1, 0) < Delay(p, 0, 49)
  {
    var p := NewPolicy(1, 100, 50).value;
    DelayDoubles(p, 0, 49);
    DelayDoubles(p, 1, 0);
    assert Bits.Pow2(1) == 2;
  }

  // ----- the loop --------------------------------------------------------------------------

  /** `terminal_error` */
  predicate Terminal(e: RealtimeError) {
    e in {Closed, Revoked, Protocol, Json, SyncOrder, Configuration, AuthenticationRequired,
          AuthenticationExpired, TlsPinMismatch, TlsCertificateInvalid}
  }

  /** What one turn of the loop meets. */
  datatype Attempt = Attempt(
    stoppedAtTop: bool,
    token: Option<RealtimeError>,
    /** How connecting and running the socket ended; `None` for an orderly stop. */
    session: Option<RealtimeError>,
    stoppedAfter: bool,
    /** The clock reading for the jitter, and whether the wait ran out without a stop. */
    sample: nat,
    resumed: bool)

  datatype Status = Connecting | Reconnecting | ClosedForGood

  datatype Loop = Loop(
    attempt: nat,
    turns: nat,
    /** Sockets opened. */
    sockets: nat,
    waits: seq<nat>,
    statuses: seq<Status>,
    finished: bool)

  const START := Loop(0, 0, 0, [], [], false)

  function Finish(l: Loop): Loop {
    l.(finished := true, statuses := l.statuses + [ClosedForGood])
  }

  /** `wait_for_retry`, then the counter. */
  function Retry(p: Policy, l: Loop, a: Attempt): Loop {
    if p.maximumAttempts.Some? && l.attempt >= p.maximumAttempts.value then Finish(l)
    else
      var waited := l.(waits := l.waits + [Delay(p, l.attempt, a.sample)],
                       statuses := l.statuses + [Reconnecting]);
      if !a.resumed then Finish(waited)
      else waited.(attempt := Min(l.attempt + 1, USIZE_MAX))
  }

  function AfterError(p: Policy, l: Loop, a: Attempt, e: RealtimeError): Loop {
    if Terminal(e) || !p.enabled then Finish(l) else Retry(p, l, a)
  }

  function Turn(p: Policy, l: Loop, a: Attempt): Loop {
    if l.finished then l
    else
      var l1 := l.(turns := l.turns + 1);
      if a.stoppedAtTop then Finish(l1)
      else
        var l2 := l1.(statuses := l.statuses + [if l.attempt == 0 then Connecting else Reconnecting]);
        if a.token.Some? then AfterError(p, l2, a, a.token.value)
        else
          var l3 := l2.(sockets := l.sockets + 1);
          if a.stoppedAfter || a.session.None? then Finish(l3)
          else AfterError(p, l3, a, a.session.value)
  }

  function RunLoop(p: Policy, script: seq<Attempt>): Loop {
    if |script| == 0 then START
    else Turn(p, RunLoop(p, script[..|script| - 1]), script[|script| - 1])
  }

  /** `run`: the loop over `attempt`, leaving at the first `break`. */
  method Run(p: Policy, script: seq<Attempt>)
    returns (waits: seq<nat>, statuses: seq<Status>, sockets: nat)
    ensures waits == RunLoop(p, script).waits
    ensures statuses == RunLoop(p, script).statuses
    ensures sockets == RunLoop(p, script).sockets
  {
    var attempt: nat, k: nat := 0, 0;
    waits, statuses, sockets := [], [], 0;
    ghost var l := START;
    var running := true;
    assert script[..0] == [];
    while k < |script| && running
      invariant 0 <= k <= |script|
      invariant l == RunLoop(p, script[..k])
      invariant l == Loop(attempt, k, sockets, waits, statuses, !running)
    {
      var a := script[k];
      assert script[..k + 1][..k] == script[..k];
      l := Turn(p, l, a);
      k := k + 1;
      var failure := None;
      if a.stoppedAtTop {
        running := false;
      } else {
        statuses := statuses + [if attempt == 0 then Connecting else Reconnecting];
        if a.token.Some? {
          failure := a.token;
        } else {
          sockets := sockets + 1;
          if a.stoppedAfter || a.session.None? {
            running := false;
          } else {
            failure := a.session;
          }
        }
      }
      if running {
        if Terminal(failure.value) || !p.enabled {
          running := false;
        } else if p.maximumAttempts.Some? && attempt >= p.maximumAttempts.value {
          running := false;
        } else {
          waits := waits + [Delay(p, attempt, a.sample)];
          statuses := statuses + [Reconnecting];
          if a.resumed {
            attempt := Min(attempt + 1, USIZE_MAX);
          } else {
            running := false;
          }
        }
      }
      if !running {
        statuses := statuses + [ClosedForGood];
      }
    }
    assert script == script[..k] + script[k..];
    if !running {
      FinishedStays(p, script[..k], script[k..]);
    } else {
      assert script[..k] == script;
    }
  }

  /** After the loop has ended, nothing the world does opens another socket. */
  lemma {:induction false} FinishedStays(p: Policy, script: seq<Attempt>, more: seq<Attempt>)
    requires RunLoop(p, script).finished
    ensures RunLoop(p, script + more) == RunLoop(p, script)
    decreases |more|
  {
    if |more| == 0 {
      assert script + more == script;
    } else {
      var n := |more| - 1;
      FinishedStays(p, script, more[..n]);
      assert (script + more)[..|script| + n] == script + more[..n];
    }
  }

  function Sum(waits: seq<nat>): nat {
    if |waits| == 0 then 0 else Sum(waits[..|waits| - 1]) + waits[|waits| - 1]
  }

  /** Connecting first, reconnecting ever after, and not closed. */
  ghost predicate Open(statuses: seq<Status>) {
    forall k :: 0 <= k < |statuses| ==>
      statuses[k] == if k == 0 then Connecting else Reconnecting
  }

  /** Closed is published when the loop has ended, once, and last. */
  ghost predicate StatusesOk(l: Loop) {
    var n := |l.statuses| - 1;
    if l.finished then n >= 0 && l.statuses[n] == ClosedForGood && Open(l.statuses[..n])
    else Open(l.statuses) && (l.attempt == 0 <==> l.statuses == [])
  }

  /** A turn that goes on has waited, once, and no longer than the maximum. */
  ghost predicate Accounted(p: Policy, l: Loop) {
    && Sum(l.waits) <= Product(|l.waits|, p.maximum)
    && l.sockets <= l.turns
    && (if l.finished then |l.waits| <= l.turns <= |l.waits| + 1
        else l.turns == |l.waits| && l.attempt == Min(l.turns, USIZE_MAX))
    && (p.maximumAttempts.Some? && p.maximumAttempts.value <= USIZE_MAX ==>
          |l.waits| <= p.maximumAttempts.value)
    && (l.finished ==> l.turns > 0)
  }

  lemma WaitAdds(waits: seq<nat>, d: nat, maximum: nat)
    requires Sum(waits) <= Product(|waits|, maximum) && d <= maximum
    ensures Sum(waits + [d]) <= Product(|waits + [d]|, maximum)
  {
    assert (waits + [d])[..|waits|] == waits;
    assert (|waits| + 1) * maximum == |waits| * maximum + maximum;
  }

  lemma TurnIsAccounted(p: Policy, l: Loop, a: Attempt)
    requires p.minimum <= p.maximum && Accounted(p, l)
    ensures Accounted(p, Turn(p, l, a))
  {
    hide Sum, Delay, Terminal, Product;
    DelayBounds(p, l.attempt, a.sample);
    WaitAdds(l.waits, Delay(p, l.attempt, a.sample), p.maximum);
  }

  lemma OpenAppend(statuses: seq<Status>, next: Status)
    requires Open(statuses) && next == if statuses == [] then Connecting else Reconnecting
    ensures Open(statuses + [next])
  {
  }

  lemma FinishCloses(l: Loop)
    requires Open(l.statuses)
    ensures StatusesOk(Finish(l))
  {
    assert Finish(l).statuses[..|l.statuses|] == l.statuses;
  }

  lemma TurnKeepsStatuses(p: Policy, l: Loop, a: Attempt)
    requires StatusesOk(l)
    ensures StatusesOk(Turn(p, l, a))
  {
    hide Delay, Terminal, Open, Finish;
    if !l.finished {
      var first := if l.attempt == 0 then Connecting else Reconnecting;
      var turned := l.(turns := l.turns + 1);
      OpenAppend(l.statuses, first);
      OpenAppend(l.statuses + [first], Reconnecting);
      var entered := turned.(statuses := l.statuses + [first]);
      var connected := entered.(sockets := l.sockets + 1);
      var waits := l.waits + [Delay(p, l.attempt, a.sample)];
      FinishCloses(turned);
      FinishCloses(entered);
      FinishCloses(connected);
      FinishCloses(entered.(waits := waits, statuses := entered.statuses + [Reconnecting]));
      FinishCloses(connected.(waits := waits, statuses := entered.statuses + [Reconnecting]));
    }
  }

  lemma {:induction false} LoopIsAccounted(p: Policy, script: seq<Attempt>)
    requires p.minimum <= p.maximum
    ensures Accounted(p, RunLoop(p, script)) && StatusesOk(RunLoop(p, script))
    ensures RunLoop(p, script).finished || RunLoop(p, script).turns == |script|
  {
    hide Turn, Accounted, StatusesOk;
    if |script| == 0 {
      StartIsAccounted(p);
    } else {
      LoopIsAccounted(p, script[..|script| - 1]);
      TurnIsAccounted(p, RunLoop(p, script[..|script| - 1]), script[|script| - 1]);
      TurnKeepsStatuses(p, RunLoop(p, script[..|script| - 1]), script[|script| - 1]);
      TurnCounts(p, RunLoop(p, script[..|script| - 1]), script[|script| - 1]);
    }
  }

  lemma StartIsAccounted(p: Policy)
    ensures Accounted(p, START) && StatusesOk(START)
  {
  }

  lemma TurnCounts(p: Policy, l: Loop, a: Attempt)
    ensures Turn(p, l, a).finished || (!l.finished && Turn(p, l, a).turns == l.turns + 1)
  {
    hide Delay, Terminal;
  }

  /**
   With maximum m, whatever happens: the loop ends within m + 1 turns, and has waited at
   most m times and at most m times the maximum delay in all.
   */
  lemma BoundedReconnects(p: Policy, m: nat, script: seq<Attempt>)
    requires p.minimum <= p.maximum && p.maximumAttempts == Some(m) && m <= USIZE_MAX
    ensures var l := RunLoop(p, script);
            && (|script| > m ==> l.finished)
            && l.turns <= m + 1 && l.sockets <= m + 1 && |l.waits| <= m
            && Sum(l.waits) <= m * p.maximum
  {
    LoopIsAccounted(p, script);
    var l := RunLoop(p, script);
    ProductBound(|l.waits|, p.maximum, m, p.maximum);
  }

  /** The failures that another attempt may mend. */
  predicate WorthRetrying(e: RealtimeError) {
    || e.Provider? || e.Transport? || e.StateApply? || e.ServerCommand? || e.NotLive?
    || e.CommandTimeout? || e.ReconnectExhausted?
  }

  // ----- what each turn decides ------------------------------------------------------------

  /** How the turn failed, if the loop got that far and was not stopped. */
  function Failure(a: Attempt): Option<RealtimeError> {
    if a.stoppedAtTop then None
    else if a.token.Some? then a.token
    else if a.stoppedAfter then None
    else a.session
  }

  lemma TurnGoesOnExactly(p: Policy, l: Loop, a: Attempt)
    requires !l.finished
    ensures !Turn(p, l, a).finished
       <==> && p.enabled && a.resumed
            && (p.maximumAttempts.Some? ==> l.attempt < p.maximumAttempts.value)
            && Failure(a).Some? && WorthRetrying(Failure(a).value)
  {
    hide Delay;
  }

  /** While the loop runs, turns, waits and attempts are one count. */
  lemma Counts(p: Policy, script: seq<Attempt>)
    requires p.minimum <= p.maximum
    ensures var l := RunLoop(p, script);
      && |l.waits| <= |script|
      && (!l.finished ==> |l.waits| == l.turns == |script| && l.attempt == Min(|script|, USIZE_MAX))
  {
    hide RunLoop, Product, Sum, StatusesOk;
    LoopIsAccounted(p, script);
    TurnsBounded(p, script);
  }

  lemma {:induction false} TurnsBounded(p: Policy, script: seq<Attempt>)
    ensures RunLoop(p, script).turns <= |script|
  {
    hide Delay, Terminal;
    if |script| > 0 {
      TurnsBounded(p, script[..|script| - 1]);
    }
  }

  /**
   The loop goes on after a turn exactly when the policy is enabled and allows another
   attempt, the wait runs out without a stop, and the failure is worth retrying.
   */
  lemma GoesOnExactly(p: Policy, script: seq<Attempt>, a: Attempt)
    requires p.minimum <= p.maximum && !RunLoop(p, script).finished
    ensures !RunLoop(p, script + [a]).finished
       <==> && p.enabled && a.resumed
            && (p.maximumAttempts.Some? ==> Min(|script|, USIZE_MAX) < p.maximumAttempts.value)
            && Failure(a).Some? && WorthRetrying(Failure(a).value)
  {
    hide Turn, RunLoop, Failure, WorthRetrying;
    Counts(p, script);
    TurnGoesOnExactly(p, RunLoop(p, script), a);
    LoopAppend(p, script, a);
  }

  lemma LoopAppend(p: Policy, script: seq<Attempt>, a: Attempt)
    ensures RunLoop(p, script + [a]) == Turn(p, RunLoop(p, script), a)
  {
    assert (script + [a])[..|script|] == script;
  }

  lemma TurnWaits(p: Policy, l: Loop, a: Attempt)
    ensures var next := Turn(p, l, a);
      next.waits == l.waits
      || (!l.finished && next.waits == l.waits + [Delay(p, l.attempt, a.sample)])
  {
    hide Delay, Terminal;
  }

  /** The loop's k-th wait is the delay of attempt k, at the clock reading of its turn. */
  lemma {:induction false} WaitsAreDelays(p: Policy, script: seq<Attempt>, k: nat)
    requires p.minimum <= p.maximum && k < |RunLoop(p, script).waits|
    ensures k < |script|
    ensures RunLoop(p, script).waits[k] == Delay(p, k, script[k].sample)
  {
    hide Turn, Delay;
    Counts(p, script);
    var n := |script| - 1;
    Counts(p, script[..n]);
    TurnWaits(p, RunLoop(p, script[..n]), script[n]);
    if k < |RunLoop(p, script[..n]).waits| {
      WaitsAreDelays(p, script[..n], k);
    } else {
      CountSaturates(p, k, script[n].sample);
    }
  }

  /** The bound is met: while every attempt fails for a passing reason, all m + 1 are made. */
  lemma {:induction false} PassingFailuresUseEveryAttempt(p: Policy, m: nat, script: seq<Attempt>)
    requires p.minimum <= p.maximum && p.maximumAttempts == Some(m) && m <= USIZE_MAX && p.enabled
    requires forall a :: a in script ==> Passing(a)
    ensures var l := RunLoop(p, script);
            && (|script| <= m ==> !l.finished && l.turns == l.sockets == |l.waits| == |script|)
            && (|script| > m ==> l.finished && l.turns == l.sockets == m + 1 && |l.waits| == m)
  {
    hide Turn, Passing;
    if |script| > 0 {
      var n := |script| - 1;
      PassingFailuresUseEveryAttempt(p, m, script[..n]);
      Counts(p, script[..n]);
      assert script[n] in script;
      FinishedTurn(p, RunLoop(p, script[..n]), script[n]);
      if n <= m {
        PassingTurn(p, m, RunLoop(p, script[..n]), script[n]);
      }
    }
  }

  predicate Passing(a: Attempt) {
    && !a.stoppedAtTop && a.token == None && !a.stoppedAfter && a.resumed
    && a.session.Some? && WorthRetrying(a.session.value)
  }

  lemma PassingTurn(p: Policy, m: nat, l: Loop, a: Attempt)
    requires p.maximumAttempts == Some(m) && p.enabled && !l.finished && Passing(a)
    ensures var next := Turn(p, l, a);
      && next.turns == l.turns + 1 && next.sockets == l.sockets + 1
      && next.finished == (l.attempt >= m)
      && |next.waits| == if next.finished then |l.waits| else |l.waits| + 1
  {
    hide Delay;
  }

  lemma FinishedTurn(p: Policy, l: Loop, a: Attempt)
    ensures l.finished ==> Turn(p, l, a) == l
  {
    hide Delay, AfterError, Finish;
  }

  lemma UnmendableTurn(p: Policy, l: Loop, a: Attempt)
    requires !l.finished && !a.stoppedAtTop
    requires (a.token.Some? && !WorthRetrying(a.token.value))
          || (a.token.None? && a.session.Some? && !WorthRetrying(a.session.value))
    ensures var next := Turn(p, l, a);
      && next.finished && next.waits == l.waits
      && next.sockets == l.sockets + (if a.token.Some? then 0 else 1)
  {
    hide Delay;
  }

  /** Any other error, wherever it comes from, ends the loop: no socket follows it. */
  lemma NothingFollowsATerminalError(p: Policy, script: seq<Attempt>, a: Attempt, more: seq<Attempt>)
    requires !RunLoop(p, script).finished && !a.stoppedAtTop
    requires (a.token.Some? && !WorthRetrying(a.token.value))
          || (a.token.None? && a.session.Some? && !WorthRetrying(a.session.value))
    ensures var l := RunLoop(p, script + [a] + more);
            && l.finished && l.waits == RunLoop(p, script).waits
            && l.sockets == RunLoop(p, script).sockets + (if a.token.Some? then 0 else 1)
  {
    hide Turn, RunLoop, WorthRetrying;
    LoopAppend(p, script, a);
    UnmendableTurn(p, RunLoop(p, script), a);
    FinishedStays(p, script + [a], more);
  }

  /** A disabled policy opens at most one socket, and never waits. */
  lemma {:induction false} DisabledNeverRetries(p: Policy, script: seq<Attempt>)
    requires !p.enabled
    ensures var l := RunLoop(p, script);
      && l.sockets <= 1 && l.waits == [] && l.turns <= 1 && (script != [] ==> l.finished)
  {
    hide Turn;
    if |script| > 0 {
      var n := |script| - 1;
      DisabledNeverRetries(p, script[..n]);
      FinishedTurn(p, RunLoop(p, script[..n]), script[n]);
      if !RunLoop(p, script[..n]).finished {
        assert script[..n] == [];
        DisabledTurnEnds(p, RunLoop(p, script[..n]), script[n]);
      }
    }
  }

  lemma DisabledTurnEnds(p: Policy, l: Loop, a: Attempt)
    requires !p.enabled && !l.finished
    ensures var next := Turn(p, l, a);
      next.finished && next.sockets <= l.sockets + 1 && next.waits == l.waits && next.turns == l.turns + 1
  {
    hide Delay, Terminal;
  }

  /** Saturating the attempt counter is never noticed: the doubling stops long before. */
  lemma CountSaturates(p: Policy, attempt: nat, sample: nat)
    ensures Delay(p, Min(attempt, USIZE_MAX), sample) == Delay(p, attempt, sample)
  {
  }
}
