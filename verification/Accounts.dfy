/** The login lockout: the same counter as the resend limit, with twenty wrong
    passwords an hour, cleared by a correct one. */
module Login {
  import opened Records
  import opened Throttle

  const MAX_LOGIN_ATTEMPTS_PER_HOUR := 20

  datatype Attempt = Attempt(now: Instant, correct: bool)

  /** A locked account compares nothing: the right password is refused as well. */
  predicate Compared(failures: Window, a: Attempt) {
    !Blocked(failures, a.now, MAX_LOGIN_ATTEMPTS_PER_HOUR)
  }

  function AfterAttempt(failures: Window, a: Attempt): Window {
    if !Compared(failures, a) then failures
    else if !a.correct then Recorded(failures, a.now)
    else if failures.count != 0 then EMPTY
    else failures
  }

  /** The counter, and the wrong passwords compared since the last correct one. */
  datatype Sys = Sys(failures: Window, wrong: seq<Instant>)

  function Next(s: Sys, a: Attempt): Sys {
    Sys(AfterAttempt(s.failures, a),
        if !Compared(s.failures, a) then s.wrong else if a.correct then [] else s.wrong + [a.now])
  }

  ghost predicate Inv(s: Sys) {
    Permitted(s.wrong, MAX_LOGIN_ATTEMPTS_PER_HOUR) && s.failures == Replayed(s.wrong)
  }

  ghost predicate NotBefore(s: Sys, a: Attempt) {
    forall i :: 0 <= i < |s.wrong| ==> s.wrong[i] <= a.now
  }

  lemma StepKeepsInv(s: Sys, a: Attempt)
    requires Inv(s) && NotBefore(s, a)
    ensures Inv(Next(s, a))
  {
    if Compared(s.failures, a) && !a.correct {
      PermittedOneMore(s.wrong, MAX_LOGIN_ATTEMPTS_PER_HOUR, a.now);
    } else if s.wrong != [] {
      CountBounded(s.wrong, MAX_LOGIN_ATTEMPTS_PER_HOUR);
    }
  }

  /** The account is locked exactly when the last twenty wrong passwords since the last
      correct one came each less than an hour after the one before, and the last less than
      an hour ago: with fewer, or after an hour, the password is compared. */
  lemma LockedExactly(s: Sys, a: Attempt)
    requires Inv(s)
    ensures !Compared(s.failures, a) <==> Chained(s.wrong, 20, a.now)
    ensures |s.wrong| < 20 || s.wrong[|s.wrong| - 1] + 3_600_000_000 <= a.now ==> Compared(s.failures, a)
    ensures Next(s, a).wrong ==
            if Chained(s.wrong, 20, a.now) then s.wrong else if a.correct then [] else s.wrong + [a.now]
  {
    BlocksExactly(s.wrong, MAX_LOGIN_ATTEMPTS_PER_HOUR, a.now);
  }

  ghost predicate IsRun(states: seq<Sys>, attempts: seq<Attempt>) {
    && |states| == |attempts| + 1 && states[0] == Sys(EMPTY, [])
    && forall i :: 0 <= i < |attempts| ==> NotBefore(states[i], attempts[i]) && states[i + 1] == Next(states[i], attempts[i])
  }

  lemma {:induction false} RunKeepsInv(states: seq<Sys>, attempts: seq<Attempt>, i: nat)
    requires IsRun(states, attempts) && i <= |attempts|
    ensures Inv(states[i])
  {
    hide Inv, Next, NotBefore;
    if i == 0 {
      EmptyInv();
    } else {
      RunKeepsInv(states, attempts, i - 1);
      StepKeepsInv(states[i - 1], attempts[i - 1]);
    }
  }

  lemma EmptyInv()
    ensures Inv(Sys(EMPTY, []))
  {
  }

  /** In any half-open hour at most twenty wrong passwords are compared, unless a
      correct one comes in between; and the counter never passes twenty. */
  lemma WrongPasswordsPerHour(states: seq<Sys>, attempts: seq<Attempt>, from: Instant)
    requires IsRun(states, attempts)
    ensures |Within(states[|attempts|].wrong, from)| <= 20
    ensures states[|attempts|].failures.count <= 20
  {
    RunKeepsInv(states, attempts, |attempts|);
    AtMostLimitPerHour(states[|attempts|].wrong, MAX_LOGIN_ATTEMPTS_PER_HOUR, from);
    CountBounded(states[|attempts|].wrong, MAX_LOGIN_ATTEMPTS_PER_HOUR);
  }
}

/** The columns of one account, updated step by step by the services: the sequencer of
    the codes, the two requests of a password reset, and the login. */
module AccountService {
  import opened Codes
  import opened Options
  import opened Records
  import opened Throttle
  import Login

  class AuthAccount {
    var isActive: bool
    var isVerified: bool
    var hasPassword: bool
    var pendingEmail: bool
    var codes: map<CodeKind, Code>
    var attempts: map<CodeKind, nat>
    var resend: Window
    var nextSerial: nat
    var failures: Window

    constructor (hasPassword: bool)
      ensures View() == Account(true, false, hasPassword, false, map[], map[], EMPTY, 0) && failures == EMPTY
    {
      isActive, isVerified, this.hasPassword, pendingEmail := true, false, hasPassword, false;
      codes, attempts, resend, nextSerial, failures := map[], map[], EMPTY, 0, EMPTY;
    }

    function View(): Account
      reads this
    {
      Account(isActive, isVerified, hasPassword, pendingEmail, codes, attempts, resend, nextSerial)
    }

    method CheckOtp(kind: CodeKind, guess: int, now: Instant) returns (outcome: Outcome)
      modifies this`attempts
      ensures (View(), outcome) == Codes.CheckOtp(old(View()), kind, guess, now)
    {
      var count := if kind in attempts then attempts[kind] else 0;
      if MAX_VERIFICATION_ATTEMPTS <= count {
        return TooManyAttempts;
      }
      attempts := attempts[kind := count + 1];
      if kind !in codes || codes[kind].expiresAt < now {
        return ExpiredCode;
      }
      if guess != codes[kind].digits {
        return WrongCode;
      }
      outcome := Matched;
    }

    method Issue(kind: CodeKind, s: Sending) returns (sent: bool)
      modifies this
      ensures View() == Codes.Issue(old(View()), kind, s) && failures == old(failures)
      ensures sent <==> !Refused(old(View()), s)
    {
      if Blocked(resend, s.checked, MAX_RESEND_PER_HOUR) {
        return false;
      }
      codes := codes[kind := Code(nextSerial, s.digits, s.now + OTP_EXPIRY)];
      nextSerial := nextSerial + 1;
      resend := Window(Some(s.now), if Recent(resend, s.now) then resend.count + 1 else 1);
      attempts := attempts - {kind};
      sent := true;
    }

    /** A refusal by the limit is silent. */
    method ForgotPassword(s: Sending)
      modifies this
      ensures View() == Handle(old(View()), Request.ForgotPassword(s)) && failures == old(failures)
    {
      if isActive && hasPassword {
        var sent := Issue(Reset, s);
      }
    }

    method ResetPassword(guess: int, now: Instant, samePassword: bool)
      modifies this
      ensures View() == Handle(old(View()), Request.ResetPassword(guess, now, samePassword)) && failures == old(failures)
    {
      if Reset !in codes || !isActive {
        return;
      }
      var outcome := CheckOtp(Reset, guess, now);
      if !outcome.Matched? || samePassword {
        return;
      }
      hasPassword := true;
      codes := codes - {Reset};
      attempts := attempts - {Reset};
    }

    /** Whether the password was right and compared at all. */
    method LoginUser(correct: bool, now: Instant) returns (accepted: bool)
      modifies this`failures
      ensures failures == Login.AfterAttempt(old(failures), Login.Attempt(now, correct))
      ensures accepted <==> correct && Login.Compared(old(failures), Login.Attempt(now, correct)) && isActive && isVerified
    {
      if Blocked(failures, now, Login.MAX_LOGIN_ATTEMPTS_PER_HOUR) {
        return false;
      }
      if !correct {
        failures := Recorded(failures, now);
        return false;
      }
      if failures.count != 0 {
        failures := EMPTY;
      }
      accepted := isActive && isVerified;
    }
  }
}
