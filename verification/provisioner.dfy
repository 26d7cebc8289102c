/**
 * `createUserProfile`: write the new user's row into the `users` table, with
 * up to seven rounds and an exponential back-off between them. Each round
 * first asks whether the row already exists, and otherwise upserts it. What
 * each database call answers is given by an oracle, one `Attempt` per round.
 */
module Provisioner {
  import opened Wrappers

  const MaxRetries: nat := 7

  function Pow2(k: nat): (p: nat)
    ensures p >= 1
  {
    if k == 0 then 1 else 2 * Pow2(k - 1)
  }

  /** `Math.pow(2, retryCount) * 500`: the wait before round `k` (k >= 1). */
  function Delay(k: nat): nat {
    500 * Pow2(k)
  }

  /** The waits made before `rounds` rounds: none before the first, `Delay(k)` before round k. */
  function BackoffSchedule(rounds: nat): (s: seq<nat>)
    ensures |s| == if rounds == 0 then 0 else rounds - 1
    ensures forall i :: 0 <= i < |s| ==> s[i] == Delay(i + 1)
  {
    if rounds <= 1 then [] else BackoffSchedule(rounds - 1) + [Delay(rounds - 1)]
  }

  function Sum(s: seq<nat>): nat {
    if s == [] then 0 else Sum(s[..|s| - 1]) + s[|s| - 1]
  }

  /** Each wait is twice the one before. */
  lemma DelayDoubles(k: nat)
    ensures Delay(k + 1) == 2 * Delay(k)
  {
  }

  /** The first retry waits 1000 ms, not 500 ms: the exponent starts at 1. */
  lemma FirstRetryWaitsOneSecond()
    ensures BackoffSchedule(2) == [1000]
  {
    assert Pow2(1) == 2;
  }

  /** Seven rounds wait 1, 2, 4, 8, 16 and 32 seconds between them. */
  lemma ScheduleOfSevenRounds()
    ensures BackoffSchedule(MaxRetries) == [1000, 2000, 4000, 8000, 16000, 32000]
  {
    assert Pow2(6) == 64;
  }

  /** The total wait before round `n` is 500 * (2^n - 2) ms. */
  lemma {:induction false} TotalWait(n: nat)
    requires n >= 1
    ensures Sum(BackoffSchedule(n)) + 1000 == 500 * Pow2(n)
  {
    if n > 1 {
      TotalWait(n - 1);
      var s := BackoffSchedule(n);
      assert s[..|s| - 1] == BackoffSchedule(n - 1);
    }
  }

  /** A failed write as the database reports it, or the message of a thrown exception. */
  datatype ProfileError =
    | QueryError(code: string, message: string)
    | ExceptionError(message: string)

  /** The existence check: an error, a row, no row, or an exception. */
  datatype CheckOutcome =
    | CheckFailed(code: string, message: string)
    | RowFound
    | RowMissing
    | CheckThrew(message: string)

  /** The upsert: success, a database error, or an exception. */
  datatype WriteOutcome =
    | WriteOk
    | WriteFailed(code: string, message: string)
    | WriteThrew(message: string)

  datatype Attempt = Attempt(check: CheckOutcome, write: WriteOutcome)

  /** The outcome, the reported error, the rounds begun and the upserts sent. */
  datatype ProvisionResult = ProvisionResult(success: bool, error: Option<ProfileError>, rounds: nat, writes: nat)

  const ExceptionPrefix := "Exception during user creation: "

  /** The error built from an exception; an empty or missing message reads "Unknown error". */
  function ExceptionMessage(m: string): (r: string)
    ensures |r| > |ExceptionPrefix| && r[..|ExceptionPrefix|] == ExceptionPrefix
    ensures m != "" ==> r[|ExceptionPrefix|..] == m
    ensures m == "" ==> r[|ExceptionPrefix|..] == "Unknown error"
  {
    ExceptionPrefix + (if m == "" then "Unknown error" else m)
  }

  /** A round that ends the loop: the row exists, or the check did not throw and the upsert succeeded. */
  predicate Succeeds(a: Attempt) {
    a.check.RowFound? || (!a.check.CheckThrew? && a.write.WriteOk?)
  }

  /** The error a failed round leaves behind. */
  function RoundError(a: Attempt): ProfileError {
    if a.check.CheckThrew? then ExceptionError(ExceptionMessage(a.check.message))
    else match a.write
      case WriteFailed(code, message) => QueryError(code, message)
      case WriteThrew(m) => ExceptionError(ExceptionMessage(m))
      case WriteOk => ExceptionError(ExceptionMessage(""))
  }

  /** Where one round leaves the loop: whether it stops, the error so far and the upserts so far. */
  datatype RoundState = RoundState(done: bool, error: Option<ProfileError>, writes: nat)

  /** One round of the loop body. */
  function Round(a: Attempt, lastError: Option<ProfileError>, writes: nat): (o: RoundState)
    ensures o.done <==> Succeeds(a)
    ensures !o.done ==> o.error == Some(RoundError(a))
    ensures o.writes == if a.check.RowFound? || a.check.CheckThrew? then writes else writes + 1
  {
    match a.check
    case RowFound => RoundState(true, lastError, writes)
    case CheckThrew(m) => RoundState(false, Some(ExceptionError(ExceptionMessage(m))), writes)
    case _ =>
      match a.write
      case WriteOk => RoundState(true, None, writes + 1)
      case WriteFailed(code, message) => RoundState(false, Some(QueryError(code, message)), writes + 1)
      case WriteThrew(m) => RoundState(false, Some(ExceptionError(ExceptionMessage(m))), writes + 1)
  }

  /** The loop from round `retry` on, with the error and the upsert count so far. */
  function Run(oracle: nat -> Attempt, retry: nat, lastError: Option<ProfileError>, writes: nat): (r: ProvisionResult)
    requires retry <= MaxRetries
    ensures retry < MaxRetries ==> retry < r.rounds <= MaxRetries
    ensures retry == MaxRetries ==> r.rounds == MaxRetries
    decreases MaxRetries - retry
  {
    if retry == MaxRetries then ProvisionResult(false, lastError, MaxRetries, writes)
    else
      var o := Round(oracle(retry), lastError, writes);
      if o.done then ProvisionResult(true, o.error, retry + 1, o.writes)
      else Run(oracle, retry + 1, o.error, o.writes)
  }

  /** The whole call: seven rounds at most, no error to begin with. */
  function Provision(oracle: nat -> Attempt): ProvisionResult {
    Run(oracle, 0, None, 0)
  }

  /**
   * The retry loop. Returns what the source returns (`success` and `error`),
   * and also the upserts sent and the waits made, which the source only logs.
   */
  method CreateUserProfile(oracle: nat -> Attempt)
    returns (success: bool, error: Option<ProfileError>, writes: nat, delays: seq<nat>)
    ensures var r := Provision(oracle);
            success == r.success && error == r.error && writes == r.writes &&
            delays == BackoffSchedule(r.rounds)
  {
    var retryCount: nat := 0;
    success := false;
    error := None;
    writes := 0;
    delays := [];
    ghost var r := Provision(oracle);
    while retryCount < MaxRetries && !success
      invariant retryCount <= MaxRetries
      invariant !success ==> Run(oracle, retryCount, error, writes) == r
      invariant !success ==> delays == BackoffSchedule(retryCount)
      invariant success ==> success == r.success && error == r.error && writes == r.writes &&
                            delays == BackoffSchedule(r.rounds)
      decreases MaxRetries - retryCount, !success
    {
      ScheduleStep(retryCount);
      if retryCount > 0 {
        delays := delays + [Delay(retryCount)];
      }
      var a := oracle(retryCount);
      ghost var before := Run(oracle, retryCount, error, writes);
      success, error, writes := AttemptRound(a, error, writes);
      if success {
        break;
      }
      assert before == Run(oracle, retryCount + 1, error, writes);
      retryCount := retryCount + 1;
    }
  }

  /** The body of one round: the existence check, then the upsert unless the row is there. */
  method AttemptRound(a: Attempt, lastError: Option<ProfileError>, writesSoFar: nat)
    returns (done: bool, error: Option<ProfileError>, writes: nat)
    ensures RoundState(done, error, writes) == Round(a, lastError, writesSoFar)
  {
    done, error, writes := false, lastError, writesSoFar;
    if a.check.CheckThrew? {
      error := Some(ExceptionError(ExceptionMessage(a.check.message)));
    } else if a.check.RowFound? {
      done := true;
    } else {
      writes := writes + 1;
      match a.write {
        case WriteOk =>
          done := true;
          error := None;
        case WriteFailed(code, message) =>
          error := Some(QueryError(code, message));
        case WriteThrew(m) =>
          error := Some(ExceptionError(ExceptionMessage(m)));
      }
    }
  }

  /** One more round adds the wait before it, if it is not the first. */
  lemma ScheduleStep(k: nat)
    ensures BackoffSchedule(k + 1) == BackoffSchedule(k) + (if k > 0 then [Delay(k)] else [])
  {
  }

  /** Between one and seven rounds are made, and at most one upsert per round. */
  lemma RoundsBounded(oracle: nat -> Attempt)
    ensures 1 <= Provision(oracle).rounds <= MaxRetries
    ensures Provision(oracle).writes <= Provision(oracle).rounds
  {
    WritesPerRound(oracle, 0, None, 0);
  }

  /** From round `retry` on, each round sends at most one upsert. */
  lemma {:induction false} WritesPerRound(oracle: nat -> Attempt, retry: nat, lastError: Option<ProfileError>, writes: nat)
    requires retry <= MaxRetries
    ensures var r := Run(oracle, retry, lastError, writes);
            writes <= r.writes <= writes + (r.rounds - retry)
    decreases MaxRetries - retry
  {
    if retry < MaxRetries {
      var o := Round(oracle(retry), lastError, writes);
      if !o.done {
        WritesPerRound(oracle, retry + 1, o.error, o.writes);
      }
    }
  }

  /**
   * The loop stops at the first round that succeeds: it reports success iff
   * one of the seven rounds succeeds, and then it has made exactly the rounds
   * up to and including the first such one.
   */
  lemma {:induction false} StopsAtFirstSuccess(oracle: nat -> Attempt, retry: nat, lastError: Option<ProfileError>, writes: nat)
    requires retry <= MaxRetries
    ensures var r := Run(oracle, retry, lastError, writes);
            && (r.success <==> exists k :: retry <= k < MaxRetries && Succeeds(oracle(k)))
            && (r.success ==> Succeeds(oracle(r.rounds - 1)) &&
                              forall k :: retry <= k < r.rounds - 1 ==> !Succeeds(oracle(k)))
    decreases MaxRetries - retry
  {
    if retry < MaxRetries {
      var o := Round(oracle(retry), lastError, writes);
      if !o.done {
        StopsAtFirstSuccess(oracle, retry + 1, o.error, o.writes);
        ShiftSuccess(oracle, retry);
      }
    }
  }

  /** Past a round that fails, a later success is a success from the next round on. */
  lemma ShiftSuccess(oracle: nat -> Attempt, retry: nat)
    requires retry < MaxRetries && !Succeeds(oracle(retry))
    ensures (exists k :: retry <= k < MaxRetries && Succeeds(oracle(k))) <==>
            (exists k :: retry + 1 <= k < MaxRetries && Succeeds(oracle(k)))
  {
  }

  /** A call that fails reports the error of the seventh round. */
  lemma {:induction false} FailureReportsLastError(oracle: nat -> Attempt, retry: nat, lastError: Option<ProfileError>, writes: nat)
    requires retry < MaxRetries
    ensures var r := Run(oracle, retry, lastError, writes);
            !r.success ==> r.error == Some(RoundError(oracle(MaxRetries - 1)))
    decreases MaxRetries - retry
  {
    var a := oracle(retry);
    if !Succeeds(a) && retry + 1 < MaxRetries {
      var e := Some(RoundError(a));
      var w := if a.check.CheckThrew? then writes else writes + 1;
      assert Run(oracle, retry, lastError, writes) == Run(oracle, retry + 1, e, w);
      FailureReportsLastError(oracle, retry + 1, e, w);
    }
  }

  /** A successful upsert clears the error; only a found row can leave an earlier error in place. */
  lemma {:induction false} SuccessfulWriteClearsError(oracle: nat -> Attempt, retry: nat, lastError: Option<ProfileError>, writes: nat)
    requires retry <= MaxRetries
    ensures var r := Run(oracle, retry, lastError, writes);
            r.success && r.error.Some? ==> oracle(r.rounds - 1).check.RowFound?
    decreases MaxRetries - retry
  {
    if retry < MaxRetries {
      var a := oracle(retry);
      if !Succeeds(a) {
        var e := Some(RoundError(a));
        var w := if a.check.CheckThrew? then writes else writes + 1;
        assert Run(oracle, retry, lastError, writes) == Run(oracle, retry + 1, e, w);
        SuccessfulWriteClearsError(oracle, retry + 1, e, w);
      }
    }
  }

  /** A row that already exists at the first check: success, no upsert, no wait, no error. */
  lemma ExistingRowWritesNothing(oracle: nat -> Attempt)
    requires oracle(0).check.RowFound?
    ensures Provision(oracle) == ProvisionResult(true, None, 1, 0)
    ensures BackoffSchedule(Provision(oracle).rounds) == []
  {
  }

  /** A failed existence check is only logged: the upsert is still sent in that round. */
  lemma CheckErrorStillWrites(oracle: nat -> Attempt)
    requires oracle(0).check.CheckFailed?
    ensures Provision(oracle).writes >= 1
  {
    var o := Round(oracle(0), None, 0);
    assert o.writes == 1;
    if !o.done {
      WritesPerRound(oracle, 1, o.error, o.writes);
    }
  }

  /**
   * The loop does not clear the error when it finds the row: a failed upsert
   * followed by a found row reports success together with the earlier error.
   */
  lemma FoundRowKeepsEarlierError()
    ensures var oracle := (k: nat) =>
              if k == 0 then Attempt(RowMissing, WriteFailed("23505", "duplicate key"))
              else Attempt(RowFound, WriteOk);
            Provision(oracle) == ProvisionResult(true, Some(QueryError("23505", "duplicate key")), 2, 1)
  {
  }
}
