/**
 Linear vesting by whole periods (human/src/vest.rs): each call releases an equal part of what is
 left in the vault for every period missed so far.
 */
module Vesting {
  import opened Wrappers
  import opened MachineInts
  import opened Arithmetic
  import opened FixedPoint

  /** The two compile-time constants; the crate has a release and a dev pair. */
  datatype Schedule = Schedule(totalParts: u8, partLength: i64) {
    predicate Valid() {
      0 < totalParts && 0 < partLength
    }
  }

  const RELEASE := Schedule(36, 2_629_800)
  const DEV := Schedule(30, 86_400)

  datatype VestingResult = Vest(amount: u64) | PeriodVested | Completed

  datatype Error = Overflow

  datatype Vested = Vested(deployedAt: i64, vestedPeriods: u8)

  // ---------------------------------------------------------------- clock

  /** Periods elapsed since deployment, by the fixed-point divide, floor, convert and clamp of the source. */
  function ElapsedParts(s: Schedule, deployedAt: i64, now: i64): Result<u8, Error>
    requires s.Valid()
  {
    var elapsed :- ToI64(now - deployedAt).OkOr(Overflow);
    var precise :- New(AsU128(elapsed)).OkOr(Overflow);
    var partLen :- New(AsU128(s.partLength)).OkOr(Overflow);
    var ratio :- CheckedDiv(precise, partLen).OkOr(Overflow);
    var whole :- Floor(ratio).OkOr(Overflow);
    var parts :- ToImprecise(whole).OkOr(Overflow);
    Success(Min(parts, s.totalParts))
  }

  /** Whole periods between deployment and `now`, at most all of them. */
  function PartsAt(s: Schedule, deployedAt: i64, now: i64): u8
    requires s.Valid() && deployedAt <= now
  {
    Min((now - deployedAt) / s.partLength, s.totalParts)
  }

  /**
   From deployment on, the fixed-point clock is integer floor division. Before deployment the cast
   to an unsigned number wraps, and every period counts as elapsed.
   */
  lemma ElapsedPartsClosedForm(s: Schedule, deployedAt: i64, now: i64)
    requires s.Valid()
    ensures now - deployedAt < I64_MIN || now - deployedAt > I64_MAX ==>
              ElapsedParts(s, deployedAt, now) == Failure(Overflow)
    ensures deployedAt <= now <= deployedAt + I64_MAX ==>
              ElapsedParts(s, deployedAt, now) == Success(PartsAt(s, deployedAt, now))
    ensures deployedAt + I64_MIN <= now < deployedAt ==>
              ElapsedParts(s, deployedAt, now) == Success(s.totalParts)
  {
    if I64_MIN <= now - deployedAt <= I64_MAX {
      var elapsed, len := AsU128(now - deployedAt), s.partLength;
      DivByWhole(elapsed * ONE, len);
      DivBracket(elapsed * ONE, len);
      FloorOfScaledQuotient(elapsed, len);
      DivBracket(elapsed, len);
      DivExact(elapsed / len, ONE, HALF);
      if now < deployedAt {
        MulMono(len, I64_MAX, U8_MAX);
        DivAtLeast(elapsed, len, U8_MAX);
      }
    }
  }

  // ---------------------------------------------------------------- one call

  /** What a call does to the state, given the clock reading. */
  function Released(s: Schedule, v: Vested, vault: u64, parts: u8): (Vested, VestingResult)
    requires v.vestedPeriods <= s.totalParts && parts <= s.totalParts
  {
    if v.vestedPeriods == s.totalParts then (v, Completed)
    else if parts <= v.vestedPeriods then (v, PeriodVested)
    else
      var missed := parts - v.vestedPeriods;
      PartsFitVault(vault, s.totalParts - v.vestedPeriods, missed);
      (v.(vestedPeriods := parts), Vest(vault / (s.totalParts - v.vestedPeriods) * missed))
  }

  lemma PartsFitVault(vault: nat, remaining: nat, missed: nat)
    requires 0 < remaining && missed <= remaining
    ensures 0 <= vault / remaining * missed <= vault
  {
    DivBracket(vault, remaining);
    MulMono(missed, remaining, vault / remaining);
  }

  /** Every missed period is worth the same: what is in the vault, divided by the periods left and rounded down. */
  lemma ReleaseIsEqualParts(s: Schedule, v: Vested, vault: u64, parts: u8)
    requires v.vestedPeriods < parts <= s.totalParts
    ensures var (after, result) := Released(s, v, vault, parts);
            var missed, left := parts - v.vestedPeriods, s.totalParts - v.vestedPeriods;
            && after == Vested(v.deployedAt, parts) && result.Vest?
            && result.amount % missed == 0
            && left * (result.amount / missed) <= vault < left * (result.amount / missed) + left
  {
    var missed, left := parts - v.vestedPeriods, s.totalParts - v.vestedPeriods;
    DivBracket(vault, left);
    DivUnique(vault / left * missed, missed, vault / left, 0);
  }

  class VestState {
    var deployedAt: i64
    var vestedPeriods: u8

    constructor (deployedAt: i64)
      ensures View() == Vested(deployedAt, 0)
    {
      this.deployedAt := deployedAt;
      this.vestedPeriods := 0;
    }

    ghost function View(): Vested
      reads this
    {
      Vested(deployedAt, vestedPeriods)
    }

    /** The amount due now; advances `vestedPeriods`. No checked step of it ever overflows. */
    method NextPeriod(s: Schedule, vaultSupply: u64, now: i64) returns (r: Result<VestingResult, Error>)
      requires s.Valid() && vestedPeriods <= s.totalParts
      modifies this
      ensures vestedPeriods <= s.totalParts
      ensures old(vestedPeriods) == s.totalParts ==> r == Success(Completed) && View() == old(View())
      ensures old(vestedPeriods) < s.totalParts ==>
                match ElapsedParts(s, deployedAt, now)
                case Failure(e) => r == Failure(e) && View() == old(View())
                case Success(parts) =>
                  && r.Success?
                  && (View(), r.value) == Released(s, old(View()), vaultSupply, parts)
    {
      if vestedPeriods == s.totalParts {
        return Success(Completed);
      }
      var elapsedParts :- ElapsedParts(s, deployedAt, now);
      var missedParts := Max(elapsedParts - vestedPeriods, 0);
      if missedParts == 0 {
        return Success(PeriodVested);
      }
      var remainingPeriods := s.totalParts - vestedPeriods;
      var part := vaultSupply / remainingPeriods;
      PartsFitVault(vaultSupply, remainingPeriods, missedParts);
      var amount: u64 := part * missedParts;
      vestedPeriods := vestedPeriods + missedParts;
      return Success(Vest(amount));
    }
  }

  // ---------------------------------------------------------------- runs

  /** A vault drained by calls at the given times, nothing else touching it. */
  datatype Run = Run(vest: Vested, vault: u64, lastParts: u8)

  /** The clock never goes backwards and starts at deployment or later. */
  ghost predicate Clocked(deployedAt: i64, times: seq<i64>) {
    && (forall i :: 0 <= i < |times| ==> deployedAt <= times[i] <= deployedAt + I64_MAX)
    && (forall i, j :: 0 <= i < j < |times| ==> times[i] <= times[j])
  }

  /** `lastParts` records how many parts the latest releasing call paid out. */
  function Call(s: Schedule, run: Run, parts: u8): Run
    requires run.vest.vestedPeriods <= s.totalParts && parts <= s.totalParts
    ensures Call(s, run, parts).vest.vestedPeriods <= s.totalParts
  {
    var (vest, result) := Released(s, run.vest, run.vault, parts);
    if result.Vest? then
      PartsFitVault(run.vault, s.totalParts - run.vest.vestedPeriods, parts - run.vest.vestedPeriods);
      Run(vest, run.vault - result.amount, parts - run.vest.vestedPeriods)
    else run
  }

  ghost function RunAt(s: Schedule, deployedAt: i64, supply: u64, times: seq<i64>): (run: Run)
    requires s.Valid() && Clocked(deployedAt, times)
    ensures run.vest.vestedPeriods <= s.totalParts
  {
    if times == [] then Run(Vested(deployedAt, 0), supply, 0)
    else
      var last := |times| - 1;
      Call(s, RunAt(s, deployedAt, supply, times[..last]), PartsAt(s, deployedAt, times[last]))
  }

  /** One call keeps the vault within the periods vested so far of the ideal linear schedule. */
  lemma CallStaysLinear(s: Schedule, run: Run, parts: u8, supply: u64)
    requires run.vest.vestedPeriods <= s.totalParts && parts <= s.totalParts
    requires Linear(s, supply, run)
    ensures Linear(s, supply, Call(s, run, parts))
    ensures run.vest.vestedPeriods < s.totalParts == Call(s, run, parts).vest.vestedPeriods ==>
              Call(s, run, parts).vault < Call(s, run, parts).lastParts
  {
    var p := run.vest.vestedPeriods;
    if p < parts {
      LinearCall(s.totalParts, s.totalParts - p, parts - p, run.vault, supply);
    }
  }

  lemma LinearCall(n: nat, r: nat, m: nat, vault: nat, supply: nat)
    requires 0 < m <= r <= n && InBand(n, r, vault, supply)
    ensures var left := vault - vault / r * m;
            && 0 <= left
            && InBand(n, r - m, left, supply)
            && (m == r ==> left < m)
  {
    PartsFitVault(vault, r, m);
    var part, rest := vault / r, vault % r;
    assert part * (r - m) == part * r - part * m;
    LinearStep(n, r, m, part, rest, supply, vault, vault - part * m);
    assert n * (n - r) + n * m == n * (n - (r - m));
  }

  /** S r <= N v <= S r + N (N - r), for r periods left of N and v left of S. */
  ghost predicate InBand(n: nat, r: nat, vault: nat, supply: nat)
    requires r <= n
  {
    supply * r <= n * vault <= supply * r + n * (n - r)
  }

  ghost predicate Linear(s: Schedule, supply: u64, run: Run)
    requires run.vest.vestedPeriods <= s.totalParts
  {
    InBand(s.totalParts, s.totalParts - run.vest.vestedPeriods, run.vault, supply)
  }

  /** `before` and `after` are the vault around a call that pays m of the r remaining parts. */
  lemma LinearStep(n: nat, r: nat, m: nat, part: nat, rest: nat, supply: nat, before: nat, after: nat)
    requires 0 < m <= r <= n && rest < r
    requires before == part * r + rest && after == part * (r - m) + rest
    requires supply * r <= n * before <= supply * r + n * (n - r)
    ensures supply * (r - m) <= n * after <= supply * (r - m) + n * (n - r) + n * m
  {
    ScaledVault(n, r, m, part, rest);
    LinearLower(r, m, supply, n * before, n * after, (n * m) * rest);
    MulMono(rest, r, n * m);
    LinearUpper(r, m, supply, n * before, n * after, n * (n - r), n * m);
  }

  /** What is left after paying m of the r remaining parts, scaled by r so that no division is left. */
  lemma ScaledVault(n: nat, r: nat, m: nat, part: nat, rest: nat)
    requires m <= r
    ensures r * (n * (part * (r - m) + rest)) == (n * (part * r + rest)) * (r - m) + (n * m) * rest
  {
    var d := r - m;
    var before, after := part * r + rest, part * d + rest;
    assert r * after == before * d + rest * m by {
      assert r * after == part * r * d + r * rest;
      assert before * d == part * r * d + rest * d;
      assert rest * d == rest * r - rest * m;
    }
    assert r * (n * after) == n * (r * after);
    assert n * (before * d + rest * m) == (n * before) * d + (n * m) * rest;
  }

  lemma LinearLower(r: nat, m: nat, supply: nat, nv: nat, scaled: int, extra: nat)
    requires 0 < r && m <= r
    requires supply * r <= nv && r * scaled == nv * (r - m) + extra
    ensures supply * (r - m) <= scaled
  {
    MulMono(supply * r, nv, r - m);
    assert (supply * r) * (r - m) == r * (supply * (r - m));
    CancelLe(r, supply * (r - m), scaled);
  }

  lemma LinearUpper(r: nat, m: nat, supply: nat, nv: nat, scaled: int, slack: nat, more: nat)
    requires 0 < r && m <= r
    requires nv <= supply * r + slack && r * scaled <= nv * (r - m) + more * r
    ensures scaled <= supply * (r - m) + slack + more
  {
    var d := r - m;
    MulMono(nv, supply * r + slack, d);
    assert (supply * r + slack) * d == r * (supply * d) + slack * d;
    MulMono(d, r, slack);
    assert r * (supply * d + slack + more) == r * (supply * d) + slack * r + more * r;
    CancelLe(r, scaled, supply * d + slack + more);
  }

  lemma CancelLe(r: nat, a: int, b: int)
    requires 0 < r && r * a <= r * b
    ensures a <= b
  {
    assert r * (a - b) == r * a - r * b;
    if b < a {
      MulMono(1, a - b, r);
    }
  }

  /** A call only ever moves the vested periods forward, up to the clock. */
  lemma CallVests(s: Schedule, run: Run, parts: u8)
    requires run.vest.vestedPeriods <= s.totalParts && parts <= s.totalParts
    ensures Call(s, run, parts).vest == run.vest.(vestedPeriods := Max(run.vest.vestedPeriods, parts))
    ensures run.vest.vestedPeriods == s.totalParts ==> Call(s, run, parts) == run
  {
  }

  lemma ClockMoves(s: Schedule, deployedAt: i64, earlier: i64, later: i64)
    requires s.Valid() && deployedAt <= earlier <= later
    ensures PartsAt(s, deployedAt, earlier) <= PartsAt(s, deployedAt, later)
  {
    DivMono(earlier - deployedAt, later - deployedAt, s.partLength);
  }

  /** The number of vested periods is exactly the clock's as of the last call, whatever calls came before. */
  lemma {:induction false} VestedFollowsClock(s: Schedule, deployedAt: i64, supply: u64, times: seq<i64>)
    requires s.Valid() && Clocked(deployedAt, times)
    ensures RunAt(s, deployedAt, supply, times).vest
         == Vested(deployedAt, if times == [] then 0 else PartsAt(s, deployedAt, times[|times| - 1]))
  {
    if times != [] {
      var last := |times| - 1;
      var before := times[..last];
      VestedFollowsClock(s, deployedAt, supply, before);
      CallVests(s, RunAt(s, deployedAt, supply, before), PartsAt(s, deployedAt, times[last]));
      if before != [] {
        assert before[last - 1] == times[last - 1];
        ClockMoves(s, deployedAt, times[last - 1], times[last]);
      }
    }
  }

  /**
   Over any sequence of call times the vault stays within p tokens of the linear schedule, and once
   everything has vested the leftover is smaller than the number of parts paid by the last call.
   */
  lemma {:induction false} VaultTracksSchedule(s: Schedule, deployedAt: i64, supply: u64, times: seq<i64>)
    requires s.Valid() && Clocked(deployedAt, times)
    ensures var run := RunAt(s, deployedAt, supply, times);
            Linear(s, supply, run) && (run.vest.vestedPeriods == s.totalParts ==> run.vault < run.lastParts)
  {
    if times != [] {
      var last := |times| - 1;
      VaultTracksSchedule(s, deployedAt, supply, times[..last]);
      var run, parts := RunAt(s, deployedAt, supply, times[..last]), PartsAt(s, deployedAt, times[last]);
      CallVests(s, run, parts);
      CallStaysLinear(s, run, parts, supply);
    }
  }

  /**
   Where the run ends does not depend on how often it was called on the way: the vested periods are equal,
   and the vaults differ by at most one token per vested period.
   */
  lemma PathIndependence(s: Schedule, deployedAt: i64, supply: u64, times: seq<i64>, other: seq<i64>)
    requires s.Valid() && Clocked(deployedAt, times) && Clocked(deployedAt, other)
    requires times != [] && other != [] && times[|times| - 1] == other[|other| - 1]
    ensures var a, b := RunAt(s, deployedAt, supply, times), RunAt(s, deployedAt, supply, other);
            && a.vest == b.vest
            && a.vault - b.vault <= a.vest.vestedPeriods
  {
    VestedFollowsClock(s, deployedAt, supply, times);
    VestedFollowsClock(s, deployedAt, supply, other);
    VaultTracksSchedule(s, deployedAt, supply, times);
    VaultTracksSchedule(s, deployedAt, supply, other);
    var a, b := RunAt(s, deployedAt, supply, times), RunAt(s, deployedAt, supply, other);
    BandWidth(s.totalParts, s.totalParts - a.vest.vestedPeriods, a.vault, b.vault, supply);
  }

  lemma BandWidth(n: nat, r: nat, a: nat, b: nat, supply: nat)
    requires 0 < n && r <= n && InBand(n, r, a, supply) && InBand(n, r, b, supply)
    ensures a - b <= n - r
  {
    assert n * (a - b) == n * a - n * b;
    CancelLe(n, a - b, n - r);
  }

  /** The call that completes a schedule with `m` periods to go. */
  function FinalCall(s: Schedule, deployedAt: i64, vault: u64, m: u8): Run
    requires 0 < m <= s.totalParts
  {
    Call(s, Run(Vested(deployedAt, s.totalParts - m), vault, 0), s.totalParts)
  }

  /** A final call releasing `m` parts leaves the vault modulo m. */
  lemma FinalCallLeaves(s: Schedule, deployedAt: i64, vault: u64, m: u8)
    requires 0 < m <= s.totalParts
    ensures FinalCall(s, deployedAt, vault, m).vault == vault % m
  {
    assert vault == vault / m * m + vault % m;
  }

  /** The times of a run whose last call completes the schedule by releasing `m` parts. */
  ghost predicate CompletesWith(s: Schedule, deployedAt: i64, times: seq<i64>, m: u8)
    requires s.Valid() && Clocked(deployedAt, times)
  {
    && times != [] && 0 < m <= s.totalParts
    && RunAt(s, deployedAt, 0, times[..|times| - 1]).vest.vestedPeriods == s.totalParts - m
    && PartsAt(s, deployedAt, times[|times| - 1]) == s.totalParts
  }

  /** The periods vested do not depend on the supply, and a completed run leaves the last vault modulo m. */
  lemma CompletedRunLeaves(s: Schedule, deployedAt: i64, supply: u64, times: seq<i64>, m: u8)
    requires s.Valid() && Clocked(deployedAt, times) && CompletesWith(s, deployedAt, times, m)
    ensures RunAt(s, deployedAt, supply, times).vault == RunAt(s, deployedAt, supply, times[..|times| - 1]).vault % m
  {
    var before := times[..|times| - 1];
    VestedFollowsClock(s, deployedAt, 0, before);
    VestedFollowsClock(s, deployedAt, supply, before);
    FinalCallLeaves(s, deployedAt, RunAt(s, deployedAt, supply, before).vault, m);
  }

  lemma TwoTokensCall(s: Schedule, run: Run, parts: u8)
    requires run.vault == 2 && parts <= s.totalParts
    requires run.vest.vestedPeriods <= s.totalParts && Max(run.vest.vestedPeriods, parts) + 3 <= s.totalParts
    ensures Call(s, run, parts).vault == 2
  {
    if run.vest.vestedPeriods < parts {
      DivUnique(2, s.totalParts - run.vest.vestedPeriods, 0, 2);
    }
  }

  /** Two tokens are not released at all while more than two periods remain. */
  lemma {:induction false} TwoTokensStay(s: Schedule, deployedAt: i64, times: seq<i64>)
    requires s.Valid() && Clocked(deployedAt, times)
    requires RunAt(s, deployedAt, 2, times).vest.vestedPeriods + 3 <= s.totalParts
    ensures RunAt(s, deployedAt, 2, times).vault == 2
  {
    if times != [] {
      var last := |times| - 1;
      var run, parts := RunAt(s, deployedAt, 2, times[..last]), PartsAt(s, deployedAt, times[last]);
      CallVests(s, run, parts);
      TwoTokensStay(s, deployedAt, times[..last]);
      TwoTokensCall(s, run, parts);
    }
  }

  /**
   The leftover of at most one token that the fuzz test asserts: a run that completes with `m` parts in its last call
   meets it for every supply exactly when m is at most two.
   */
  lemma LeftoverAtMostOne(s: Schedule, deployedAt: i64, times: seq<i64>, m: u8)
    requires s.Valid() && Clocked(deployedAt, times) && CompletesWith(s, deployedAt, times, m)
    ensures (forall supply: u64 :: RunAt(s, deployedAt, supply, times).vault <= 1) <==> m <= 2
    ensures 2 < m ==> RunAt(s, deployedAt, 2, times).vault == 2
  {
    if m <= 2 {
      forall supply: u64
        ensures RunAt(s, deployedAt, supply, times).vault <= 1
      {
        CompletedRunLeaves(s, deployedAt, supply, times, m);
        AtMostOneLeft(RunAt(s, deployedAt, supply, times[..|times| - 1]).vault, m);
      }
    } else {
      TwoTokensLeft(s, deployedAt, times, m);
    }
  }

  lemma AtMostOneLeft(vault: nat, m: nat)
    requires 0 < m <= 2
    ensures vault % m <= 1
  {
  }

  lemma TwoTokensLeft(s: Schedule, deployedAt: i64, times: seq<i64>, m: u8)
    requires s.Valid() && Clocked(deployedAt, times) && CompletesWith(s, deployedAt, times, m) && 2 < m
    ensures RunAt(s, deployedAt, 2, times).vault == 2
  {
    var before := times[..|times| - 1];
    VestedFollowsClock(s, deployedAt, 0, before);
    VestedFollowsClock(s, deployedAt, 2, before);
    TwoTokensStay(s, deployedAt, before);
    CompletedRunLeaves(s, deployedAt, 2, times, m);
    DivUnique(2, m, 0, 2);
  }

  /** Call times as the fuzz test draws them: half a period to two periods and 1000 seconds apart, from second 0. */
  ghost predicate Drawn(s: Schedule, times: seq<i64>) {
    forall i :: 0 <= i < |times| ==> s.partLength / 2 <= Gap(times, i) < s.partLength * 2 + 1000
  }

  function Gap(times: seq<i64>, i: nat): int
    requires i < |times|
  {
    times[i] as int - (if i == 0 then 0 else times[i - 1])
  }

  lemma {:induction false} DrawnGrow(s: Schedule, times: seq<i64>, i: nat, j: nat)
    requires s.Valid() && Drawn(s, times) && i <= j < |times|
    ensures 0 <= times[i] <= times[j]
    decreases i + j
  {
    assert 0 <= Gap(times, j);
    if i < j {
      DrawnGrow(s, times, i, j - 1);
    } else if 0 < i {
      DrawnGrow(s, times, i - 1, i - 1);
    }
  }

  lemma DrawnAreClocked(s: Schedule, times: seq<i64>)
    requires s.Valid() && Drawn(s, times)
    ensures Clocked(0, times)
  {
    forall i, j | 0 <= i <= j < |times|
      ensures 0 <= times[i] <= times[j]
    {
      DrawnGrow(s, times, i, j);
    }
  }

  lemma LateBounds(n: nat, len: nat, i: nat)
    requires 3 <= n && 0 < len && i < n - 1
    ensures 0 <= (i + 1) * len <= n * len
    ensures 1 <= (n - 2) * len <= n * len
  {
    MulMono(i + 1, n, len);
    MulMono(1, n - 2, len);
    MulMono(n - 2, n, len);
  }

  /** The calls of one such run: period by period, then a second before a period ends, and after the last one. */
  function LateTime(s: Schedule, i: nat): (now: i64)
    requires s.Valid() && 3 <= s.totalParts && s.totalParts * s.partLength + 998 <= I64_MAX && i < s.totalParts - 1
    ensures 0 <= now
  {
    LateBounds(s.totalParts, s.partLength, i);
    if i < s.totalParts - 3 then (i + 1) * s.partLength
    else if i == s.totalParts - 3 then (s.totalParts - 2) * s.partLength - 1
    else s.totalParts * s.partLength + 998
  }

  ghost function LateTimes(s: Schedule): seq<i64>
    requires s.Valid() && 3 <= s.totalParts && s.totalParts * s.partLength + 998 <= I64_MAX
  {
    seq(s.totalParts - 1, i requires 0 <= i < s.totalParts - 1 => LateTime(s, i))
  }

  lemma LateTimesAreDrawn(s: Schedule)
    requires s.Valid() && 3 <= s.totalParts && s.totalParts * s.partLength + 998 <= I64_MAX
    ensures Drawn(s, LateTimes(s))
  {
    forall i: nat | i < s.totalParts - 1
      ensures s.partLength / 2 <= Gap(LateTimes(s), i) < s.partLength * 2 + 1000
    {
      var n := s.totalParts;
      assert (i + 1) * s.partLength == i * s.partLength + s.partLength;
      assert (n - 2) * s.partLength == n * s.partLength - 2 * s.partLength;
      assert (n - 3) * s.partLength == n * s.partLength - 3 * s.partLength;
    }
  }

  lemma LateQuotients(n: nat, len: nat)
    requires 3 <= n && 0 < len
    ensures 0 <= (n - 2) * len - 1 && ((n - 2) * len - 1) / len == n - 3
    ensures n <= (n * len + 998) / len
  {
    var k := n - 3;
    assert (k + 1) * len == k * len + len;
    DivUnique(k * len + (len - 1), len, k, len - 1);
    DivAtLeast(n * len + 998, len, n);
  }

  /** The call before the last one finds three periods to go. */
  lemma LateCallsLeaveThree(s: Schedule)
    requires s.Valid() && 3 <= s.totalParts && s.totalParts * s.partLength + 998 <= I64_MAX
    ensures PartsAt(s, 0, LateTime(s, s.totalParts - 3)) == s.totalParts - 3
    ensures PartsAt(s, 0, LateTime(s, s.totalParts - 2)) == s.totalParts
  {
    LateQuotients(s.totalParts, s.partLength);
  }

  /** A run the fuzz test can draw, after which two tokens are left of two. */
  ghost predicate LeavesTwo(s: Schedule, times: seq<i64>)
    requires s.Valid()
  {
    && Drawn(s, times) && Clocked(0, times)
    && CompletesWith(s, 0, times, 3) && RunAt(s, 0, 2, times).vault == 2
  }

  /**
   Every schedule of three parts or more has such a run with gaps the fuzz test can draw: the last call releases three
   parts, and two of two tokens are left.
   */
  lemma TwoTokensLeftOver(s: Schedule)
    requires s.Valid() && 3 <= s.totalParts && s.totalParts * s.partLength + 998 <= I64_MAX
    ensures LeavesTwo(s, LateTimes(s))
  {
    var times := LateTimes(s);
    var before := times[..|times| - 1];
    LateTimesAreDrawn(s);
    DrawnAreClocked(s, times);
    LateCallsLeaveThree(s);
    VestedFollowsClock(s, 0, 0, before);
    assert before[|before| - 1] == LateTime(s, s.totalParts - 3);
    LeftoverAtMostOne(s, 0, times, 3);
  }

  /** Both schedules of the crate are among them. */
  lemma BothSchedulesLeaveTwo()
    ensures LeavesTwo(RELEASE, LateTimes(RELEASE)) && LeavesTwo(DEV, LateTimes(DEV))
  {
    TwoTokensLeftOver(RELEASE);
    TwoTokensLeftOver(DEV);
  }

  /** The run grows by one call, whose clock reading is the integer one. */
  lemma RunGrows(s: Schedule, deployedAt: i64, supply: u64, times: seq<i64>, i: nat)
    requires s.Valid() && Clocked(deployedAt, times) && i < |times|
    ensures Clocked(deployedAt, times[..i]) && Clocked(deployedAt, times[..i + 1])
    ensures ElapsedParts(s, deployedAt, times[i]) == Success(PartsAt(s, deployedAt, times[i]))
    ensures RunAt(s, deployedAt, supply, times[..i + 1])
         == Call(s, RunAt(s, deployedAt, supply, times[..i]), PartsAt(s, deployedAt, times[i]))
    ensures RunAt(s, deployedAt, supply, times[..i]).vest.deployedAt == deployedAt
  {
    ElapsedPartsClosedForm(s, deployedAt, times[i]);
    assert times[..i + 1][..i] == times[..i];
    VestedFollowsClock(s, deployedAt, supply, times[..i]);
  }

  /** The vault loop of the fuzz test, for arbitrary call times instead of random ones. */
  method RunVesting(s: Schedule, deployedAt: i64, supply: u64, times: seq<i64>)
    returns (vault: u64, vested: u8, sent: nat)
    requires s.Valid() && Clocked(deployedAt, times)
    ensures var run := RunAt(s, deployedAt, supply, times);
            vault == run.vault && vested == run.vest.vestedPeriods
    ensures sent + vault == supply
    ensures supply * (s.totalParts - vested) <= s.totalParts * vault
                 <= supply * (s.totalParts - vested) + s.totalParts * vested
  {
    var vest := new VestState(deployedAt);
    vault, sent := supply, 0;
    ghost var run := RunAt(s, deployedAt, supply, times[..0]);
    for i := 0 to |times|
      invariant Clocked(deployedAt, times[..i]) && run == RunAt(s, deployedAt, supply, times[..i])
      invariant vest.View() == run.vest && vault == run.vault
      invariant vest.deployedAt == deployedAt
      invariant sent + vault == supply
    {
      RunGrows(s, deployedAt, supply, times, i);
      var result := vest.NextPeriod(s, vault, times[i]);
      if result.Success? && result.value.Vest? {
        vault, sent := vault - result.value.amount, sent + result.value.amount;
      }
      run := Call(s, run, PartsAt(s, deployedAt, times[i]));
    }
    assert times[..|times|] == times;
    vested := vest.vestedPeriods;
    VaultTracksSchedule(s, deployedAt, supply, times);
  }
}
