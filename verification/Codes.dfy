/** One-time codes of an account: verification, password reset and change of address.
    The same sequencer serves the three; a request that ends in an error keeps what
    it had already written, since the session commits all the same. */
module Codes {
  import opened Clock
  import opened Records
  import opened Throttle

  datatype CodeKind = Verification | Reset | EmailChange

  const MAX_VERIFICATION_ATTEMPTS := 5
  const MAX_RESEND_PER_HOUR := 5
  const OTP_EXPIRY: int := HOUR / 4

  /** An issued code; the serial number tells two issues of the same digits apart. */
  datatype Code = Code(serial: nat, digits: int, expiresAt: Instant)

  datatype Account = Account(
    isActive: bool,
    isVerified: bool,
    hasPassword: bool,
    pendingEmail: bool,
    codes: map<CodeKind, Code>,
    attempts: map<CodeKind, nat>,
    resend: Window,
    nextSerial: nat)

  function Attempts(a: Account, kind: CodeKind): nat {
    if kind in a.attempts then a.attempts[kind] else 0
  }

  datatype Outcome = TooManyAttempts | ExpiredCode | WrongCode | Matched

  /** The guess is counted before anything is compared. */
  function CheckOtp(a: Account, kind: CodeKind, guess: int, now: Instant): (Account, Outcome) {
    if MAX_VERIFICATION_ATTEMPTS <= Attempts(a, kind) then (a, TooManyAttempts)
    else
      var bumped := a.(attempts := a.attempts[kind := Attempts(a, kind) + 1]);
      if kind !in a.codes || a.codes[kind].expiresAt < now then (bumped, ExpiredCode)
      else if guess != a.codes[kind].digits then (bumped, WrongCode)
      else (bumped, Matched)
  }

  /** The limit is read first; the instant of the code is read a little later. */
  datatype Sending = Sending(checked: Instant, now: Instant, digits: int)

  predicate Refused(a: Account, s: Sending) {
    Blocked(a.resend, s.checked, MAX_RESEND_PER_HOUR)
  }

  function Issue(a: Account, kind: CodeKind, s: Sending): Account {
    if Refused(a, s) then a
    else a.(codes := a.codes[kind := Code(a.nextSerial, s.digits, s.now + OTP_EXPIRY)],
            attempts := a.attempts - {kind},
            resend := Recorded(a.resend, s.now),
            nextSerial := a.nextSerial + 1)
  }

  /** Spend the code of a kind and give its guesses back. */
  function Spent(a: Account, kind: CodeKind): Account {
    a.(codes := a.codes - {kind}, attempts := a.attempts - {kind})
  }

  datatype Request =
    | SendVerification(s: Sending)
    | ForgotPassword(s: Sending)
    | RequestEmailChange(allowed: bool, s: Sending)
    | ResendEmailChange(s: Sending)
    | VerifyEmail(guess: int, now: Instant)
    | ResetPassword(guess: int, now: Instant, samePassword: bool)
    | ConfirmEmailChange(guess: int, now: Instant, emailTaken: bool)
    | ChangePassword
    | SetPassword
    | LinkGoogle
    | SettingActive(on: bool)

  function KindOf(r: Request): CodeKind {
    match r
    case SendVerification(_) => Verification
    case VerifyEmail(_, _) => Verification
    case LinkGoogle => Verification
    case ForgotPassword(_) => Reset
    case ResetPassword(_, _, _) => Reset
    case ChangePassword => Reset
    case _ => EmailChange
  }

  /** The request passes its own checks and reaches the sequencer with a guess. */
  predicate Guesses(a: Account, r: Request) {
    match r
    case VerifyEmail(_, _) => !a.isVerified && a.isActive
    case ResetPassword(_, _, _) => Reset in a.codes && a.isActive
    case ConfirmEmailChange(_, _, _) => a.pendingEmail && EmailChange in a.codes
    case _ => false
  }

  /** The request passes its own checks and asks for a code to be sent. */
  predicate Sends(a: Account, r: Request) {
    match r
    case SendVerification(_) => a.isActive && !a.isVerified
    case ForgotPassword(_) => a.isActive && a.hasPassword
    case RequestEmailChange(allowed, _) => a.hasPassword && allowed
    case ResendEmailChange(_) => a.pendingEmail
    case _ => false
  }

  function Handle(a: Account, r: Request): Account {
    match r
    case VerifyEmail(guess, now) =>
      if !Guesses(a, r) then a
      else
        var (checked, outcome) := CheckOtp(a, Verification, guess, now);
        if outcome.Matched? then Spent(checked, Verification).(isVerified := true) else checked
    case ResetPassword(guess, now, samePassword) =>
      if !Guesses(a, r) then a
      else
        var (checked, outcome) := CheckOtp(a, Reset, guess, now);
        if outcome.Matched? && !samePassword then Spent(checked, Reset).(hasPassword := true) else checked
    case ConfirmEmailChange(guess, now, emailTaken) =>
      if !Guesses(a, r) then a
      else
        var (checked, outcome) := CheckOtp(a, EmailChange, guess, now);
        if outcome.Matched? && !emailTaken then Spent(checked, EmailChange).(pendingEmail := false) else checked
    case RequestEmailChange(_, s) =>
      if Sends(a, r) && !Refused(a, s) then Issue(a, EmailChange, s).(pendingEmail := true) else a
    case ChangePassword => if a.hasPassword then a.(codes := a.codes - {Reset}) else a
    case SetPassword => a.(hasPassword := true)
    case SettingActive(on) => a.(isActive := on)
    case LinkGoogle => if !a.isActive || a.isVerified then a else Spent(a, Verification).(isVerified := true)
    case _ => if Sends(a, r) then Issue(a, KindOf(r), r.s) else a
  }

  function GuessTime(r: Request): Instant
    requires r.VerifyEmail? || r.ResetPassword? || r.ConfirmEmailChange?
  {
    r.now
  }

  /** A guess is compared with the code of its kind. */
  predicate Compares(a: Account, r: Request) {
    && Guesses(a, r)
    && Attempts(a, KindOf(r)) < MAX_VERIFICATION_ATTEMPTS
    && KindOf(r) in a.codes && GuessTime(r) <= a.codes[KindOf(r)].expiresAt
  }

  predicate SendsCode(a: Account, r: Request) {
    Sends(a, r) && !Refused(a, r.s)
  }

  /** The counter and the code of a kind are as they were. */
  predicate Untouched(a: Account, b: Account, kind: CodeKind) {
    && Attempts(b, kind) == Attempts(a, kind)
    && (kind in b.codes <==> kind in a.codes)
    && (kind in a.codes ==> b.codes[kind] == a.codes[kind])
  }

  lemma CheckUntouched(a: Account, own: CodeKind, guess: int, now: Instant, kind: CodeKind)
    requires kind != own
    ensures var b := CheckOtp(a, own, guess, now).0; Untouched(a, b, kind) && Untouched(a, Spent(b, own), kind)
  {
  }

  lemma IssueUntouched(a: Account, own: CodeKind, s: Sending, kind: CodeKind)
    requires kind != own
    ensures Untouched(a, Issue(a, own, s), kind)
  {
  }

  /** No request touches another kind's counter or code. */
  lemma OtherKindsUntouched(a: Account, r: Request, kind: CodeKind)
    requires kind != KindOf(r)
    ensures Untouched(a, Handle(a, r), kind)
  {
    hide Guesses, Sends, Refused;
    match r
    case VerifyEmail(guess, now) => CheckUntouched(a, Verification, guess, now, kind); hide CheckOtp;
    case ResetPassword(guess, now, _) => CheckUntouched(a, Reset, guess, now, kind); hide CheckOtp;
    case ConfirmEmailChange(guess, now, _) => CheckUntouched(a, EmailChange, guess, now, kind); hide CheckOtp;
    case ChangePassword =>
    case SetPassword =>
    case LinkGoogle =>
    case SettingActive(_) =>
    case _ => IssueUntouched(a, KindOf(r), r.s, kind); hide Issue;
  }

  /** Up to five guesses, one that does not succeed still costs one, whatever stopped it;
      after that nothing is compared or written, the right code included. */
  lemma FailedGuessPersists(a: Account, r: Request)
    requires Guesses(a, r)
    ensures var kind := KindOf(r);
            Attempts(a, kind) < 5
            && (kind in a.codes ==> r.guess != a.codes[kind].digits || a.codes[kind].expiresAt < GuessTime(r)) ==>
              Attempts(Handle(a, r), kind) == Attempts(a, kind) + 1 && Handle(a, r).codes == a.codes
    ensures 5 <= Attempts(a, KindOf(r)) ==> Handle(a, r) == a
  {
  }

  // ----- the code that is sent is the code that works -----

  /** Fewer than five codes in a row, or an hour since the last. */
  predicate MaySend(a: Account, at: Instant) {
    a.resend.last.None? || a.resend.last.value + 3_600_000_000 <= at || a.resend.count < 5
  }

  lemma RefusedExactly(a: Account, s: Sending)
    ensures Refused(a, s) <==> !MaySend(a, s.checked)
  {
  }

  predicate InTime(s: Sending, guess: int, now: Instant) {
    guess == s.digits && now <= s.now + 15 * 60_000_000
  }

  /** A new code is accepted as it was sent, for a quarter of an hour, and no other. */
  lemma SentCodeMatches(a: Account, kind: CodeKind, s: Sending, guess: int, now: Instant)
    ensures MaySend(a, s.checked) ==> (CheckOtp(Issue(a, kind, s), kind, guess, now).1.Matched? <==> InTime(s, guess, now))
  {
  }

  /** Verification end to end: the account asks for a code and is verified exactly by the
      digits it was sent, in time. */
  lemma VerificationFlow(a: Account, s: Sending, guess: int, now: Instant)
    ensures var sent := Handle(a, SendVerification(s));
            var done := Handle(sent, VerifyEmail(guess, now));
            if a.isActive && !a.isVerified && MaySend(a, s.checked) then
              && done.isVerified == InTime(s, guess, now)
              && (Verification in done.codes <==> !done.isVerified)
              && (done.isActive, done.hasPassword, done.pendingEmail) == (a.isActive, a.hasPassword, a.pendingEmail)
            else sent == a
  {
    SentCodeMatches(a, Verification, s, guess, now);
    hide CheckOtp;
    CheckLeaves(Issue(a, Verification, s), Verification, guess, now);
  }

  /** Password reset end to end: the reset is done, and its code spent, exactly by the
      digits sent, in time, with a password that is not the old one. */
  lemma ResetFlow(a: Account, s: Sending, guess: int, now: Instant, samePassword: bool)
    ensures var sent := Handle(a, Request.ForgotPassword(s));
            var done := Handle(sent, Request.ResetPassword(guess, now, samePassword));
            if a.isActive && a.hasPassword && MaySend(a, s.checked) then
              && Reset in sent.codes && (Reset in done.codes <==> !(InTime(s, guess, now) && !samePassword))
              && (done.isActive, done.isVerified, done.hasPassword, done.pendingEmail)
                 == (a.isActive, a.isVerified, a.hasPassword, a.pendingEmail)
            else sent == a
  {
    SentCodeMatches(a, Reset, s, guess, now);
    hide CheckOtp;
    CheckLeaves(Issue(a, Reset, s), Reset, guess, now);
  }

  /** Change of address end to end: the new address is pending from the request on, and
      taken exactly by the digits sent to it, in time, if nobody took it meanwhile. */
  lemma EmailChangeFlow(a: Account, allowed: bool, resend: bool, s: Sending, guess: int, now: Instant, emailTaken: bool)
    ensures var request := if resend then ResendEmailChange(s) else Request.RequestEmailChange(allowed, s);
            var sent := Handle(a, request);
            var done := Handle(sent, Request.ConfirmEmailChange(guess, now, emailTaken));
            if (if resend then a.pendingEmail else a.hasPassword && allowed) && MaySend(a, s.checked) then
              && sent.pendingEmail && EmailChange in sent.codes
              && (done.pendingEmail <==> !(InTime(s, guess, now) && !emailTaken))
              && (EmailChange in done.codes <==> done.pendingEmail)
              && (done.isActive, done.isVerified, done.hasPassword) == (a.isActive, a.isVerified, a.hasPassword)
            else sent == a
  {
    var request := if resend then ResendEmailChange(s) else Request.RequestEmailChange(allowed, s);
    SentCodeMatches(a, EmailChange, s, guess, now);
    RefusedExactly(a, s);
    hide CheckOtp, Refused, MaySend;
    CheckLeaves(Issue(a, EmailChange, s), EmailChange, guess, now);
    CheckLeaves(Handle(a, request), EmailChange, guess, now);
    PendingChecksAlike(Issue(a, EmailChange, s), EmailChange, guess, now);
  }

  lemma PendingChecksAlike(a: Account, kind: CodeKind, guess: int, now: Instant)
    ensures CheckOtp(a.(pendingEmail := true), kind, guess, now).1 == CheckOtp(a, kind, guess, now).1
  {
  }

  lemma CheckLeaves(a: Account, kind: CodeKind, guess: int, now: Instant)
    ensures var b := CheckOtp(a, kind, guess, now).0; b == a.(attempts := b.attempts)
  {
  }

  /** A changed password voids the reset code that is out, a linked address the
      verification code; neither lets a guess be compared before another code. No address
      pending, no confirmation. A disabled account has no guess compared and no code sent
      for verification or reset. A first password and the account's switch change nothing
      else. */
  lemma VoidedCodes(a: Account, guess: int, now: Instant, same: bool)
    ensures var b := Handle(a, ChangePassword);
            if a.hasPassword then b == a.(codes := a.codes - {Reset}) && !Compares(b, Request.ResetPassword(guess, now, same)) else b == a
    ensures var b := Handle(a, LinkGoogle);
            && (if a.isActive && !a.isVerified then
                  b == a.(isVerified := true, codes := a.codes - {Verification}, attempts := a.attempts - {Verification})
                else b == a)
            && !Compares(b, VerifyEmail(guess, now))
    ensures !a.pendingEmail ==> forall taken :: Handle(a, Request.ConfirmEmailChange(guess, now, taken)) == a
    ensures Handle(a, SetPassword) == a.(hasPassword := true)
    ensures forall on :: Handle(a, SettingActive(on)) == a.(isActive := on)
    ensures !a.isActive ==>
              !Compares(a, VerifyEmail(guess, now)) && !Compares(a, Request.ResetPassword(guess, now, same))
              && forall s :: Handle(a, SendVerification(s)) == a && Handle(a, Request.ForgotPassword(s)) == a
  {
  }

  /** The guess matches, in time, and nothing after the comparison refuses it. */
  predicate Succeeds(a: Account, r: Request) {
    && Compares(a, r) && r.guess == a.codes[KindOf(r)].digits
    && (r.ResetPassword? ==> !r.samePassword) && (r.ConfirmEmailChange? ==> !r.emailTaken)
  }

  /** A code works once: a success spends it and gives its kind's guesses back, and no
      later guess of the kind is compared before another code is issued. */
  lemma CodeWorksOnce(a: Account, r: Request, again: Request)
    requires Succeeds(a, r)
    ensures var b, kind := Handle(a, r), KindOf(r);
            && kind !in b.codes && Attempts(b, kind) == 0
            && (kind.Verification? ==> b.isVerified) && (kind.EmailChange? ==> !b.pendingEmail)
            && (KindOf(again) == kind ==> !Compares(b, again))
  {
  }
}

/** What the sequencer guarantees over any run. */
module CodeRuns {
  import opened Codes
  import opened Records
  import opened Throttle

  /** An account, and what an observer remembers: how often each issued code was
      compared with a guess, how often codes of each kind were, how many codes of each
      kind were issued, and when codes of any kind were sent. */
  datatype Sys = Sys(
    account: Account,
    compared: multiset<(CodeKind, nat)>,
    comparedOf: multiset<CodeKind>,
    issued: multiset<CodeKind>,
    sends: seq<Instant>)

  function Next(s: Sys, r: Request): Sys {
    var a := s.account;
    var t := s.(account := Handle(a, r));
    if Compares(a, r) then
      t.(compared := s.compared + multiset{(KindOf(r), a.codes[KindOf(r)].serial)}, comparedOf := s.comparedOf + multiset{KindOf(r)})
    else if SendsCode(a, r) then
      t.(issued := s.issued + multiset{KindOf(r)}, sends := s.sends + [r.s.now])
    else t
  }

  // The clock does not go back between a request's readings or between sends.
  ghost predicate Timely(s: Sys, r: Request) {
    (r.SendVerification? || r.ForgotPassword? || r.RequestEmailChange? || r.ResendEmailChange?) ==>
      r.s.checked <= r.s.now && forall i :: 0 <= i < |s.sends| ==> s.sends[i] <= r.s.now
  }

  ghost predicate CountedKind(s: Sys, kind: CodeKind) {
    var a := s.account;
    && Attempts(a, kind) <= MAX_VERIFICATION_ATTEMPTS
    && (forall serial :: (kind, serial) in s.compared ==> serial < a.nextSerial)
    && if kind in a.codes then
         && a.codes[kind].serial < a.nextSerial
         && s.compared[(kind, a.codes[kind].serial)] <= Attempts(a, kind)
         && s.comparedOf[kind] + 5 <= 5 * s.issued[kind] + s.compared[(kind, a.codes[kind].serial)]
       else s.comparedOf[kind] <= 5 * s.issued[kind]
  }

  ghost predicate Inv(s: Sys) {
    && (forall kind :: CountedKind(s, kind))
    && (forall code :: s.compared[code] <= 5)
    && Permitted(s.sends, MAX_RESEND_PER_HOUR)
    && s.account.resend == Replayed(s.sends)
  }

  // ----- what a request does to its own kind -----

  lemma SendEffect(a: Account, r: Request)
    requires SendsCode(a, r)
    ensures var b, kind := Handle(a, r), KindOf(r);
            && kind in b.codes && b.codes[kind].serial == a.nextSerial && b.nextSerial == a.nextSerial + 1
            && Attempts(b, kind) == 0 && b.resend == Recorded(a.resend, r.s.now)
  {
  }

  /** A check counts the guess unless five were counted, and changes nothing else; it
      matches only a code that is there and in time. */
  lemma CheckEffect(a: Account, kind: CodeKind, guess: int, now: Instant)
    ensures var (b, outcome) := CheckOtp(a, kind, guess, now);
            && b == a.(attempts := b.attempts)
            && Attempts(b, kind) == Attempts(a, kind) + (if Attempts(a, kind) < MAX_VERIFICATION_ATTEMPTS then 1 else 0)
            && (outcome.Matched? ==>
                  Attempts(a, kind) < MAX_VERIFICATION_ATTEMPTS && kind in a.codes && now <= a.codes[kind].expiresAt)
  {
  }

  /** A compared guess is counted, and its code either stays or is spent. */
  lemma CompareEffect(a: Account, r: Request)
    requires Compares(a, r)
    ensures var b, kind := Handle(a, r), KindOf(r);
            && b.nextSerial == a.nextSerial && b.resend == a.resend
            && (kind in b.codes ==> b.codes[kind] == a.codes[kind] && Attempts(b, kind) == Attempts(a, kind) + 1)
            && Attempts(b, kind) <= MAX_VERIFICATION_ATTEMPTS
  {
    CheckEffect(a, KindOf(r), r.guess, GuessTime(r));
    hide CheckOtp;
  }

  lemma QuietEffect(a: Account, r: Request)
    requires !SendsCode(a, r) && !Compares(a, r)
    ensures var b, kind := Handle(a, r), KindOf(r);
            && b.nextSerial == a.nextSerial && b.resend == a.resend
            && (kind in b.codes ==>
                  kind in a.codes && b.codes[kind] == a.codes[kind] && Attempts(a, kind) <= Attempts(b, kind))
            && (Attempts(a, kind) <= MAX_VERIFICATION_ATTEMPTS ==> Attempts(b, kind) <= MAX_VERIFICATION_ATTEMPTS)
  {
    if Guesses(a, r) {
      CheckEffect(a, KindOf(r), r.guess, GuessTime(r));
    }
    hide CheckOtp;
  }

  lemma OwnKindStaysCounted(s: Sys, r: Request)
    requires CountedKind(s, KindOf(r)) && forall code :: s.compared[code] <= 5
    ensures CountedKind(Next(s, r), KindOf(r)) && forall code :: Next(s, r).compared[code] <= 5
  {
    hide Handle, Compares, SendsCode;
    if Compares(s.account, r) {
      CompareEffect(s.account, r);
      CompareNeedsCode(s.account, r);
    } else if SendsCode(s.account, r) {
      SendEffect(s.account, r);
      assert (KindOf(r), s.account.nextSerial) !in s.compared;
    } else {
      QuietEffect(s.account, r);
    }
  }

  lemma CompareNeedsCode(a: Account, r: Request)
    requires Compares(a, r)
    ensures KindOf(r) in a.codes && Attempts(a, KindOf(r)) < MAX_VERIFICATION_ATTEMPTS
  {
  }

  lemma OtherKindsRemembered(s: Sys, r: Request, kind: CodeKind)
    requires kind != KindOf(r)
    ensures var t := Next(s, r);
            && t.account == Handle(s.account, r) && s.account.nextSerial <= t.account.nextSerial
            && (forall serial :: t.compared[(kind, serial)] == s.compared[(kind, serial)])
            && t.comparedOf[kind] == s.comparedOf[kind] && t.issued[kind] == s.issued[kind]
  {
    hide Handle, Compares, SendsCode;
    if Compares(s.account, r) {
      CompareEffect(s.account, r);
    } else if SendsCode(s.account, r) {
      SendEffect(s.account, r);
    } else {
      QuietEffect(s.account, r);
    }
  }

  lemma OtherKindStaysCounted(s: Sys, r: Request, kind: CodeKind)
    requires CountedKind(s, kind) && kind != KindOf(r)
    ensures CountedKind(Next(s, r), kind)
  {
    OtherKindsUntouched(s.account, r, kind);
    OtherKindsRemembered(s, r, kind);
    hide Next, Handle, Attempts;
    var t := Next(s, r);
    forall serial | (kind, serial) in t.compared
      ensures serial < t.account.nextSerial
    {
      assert s.compared[(kind, serial)] == t.compared[(kind, serial)];
    }
  }

  lemma SendsStayPermitted(s: Sys, r: Request)
    requires Permitted(s.sends, MAX_RESEND_PER_HOUR) && s.account.resend == Replayed(s.sends) && Timely(s, r)
    ensures Permitted(Next(s, r).sends, MAX_RESEND_PER_HOUR)
    ensures Next(s, r).account.resend == Replayed(Next(s, r).sends)
  {
    if Compares(s.account, r) {
      CompareEffect(s.account, r);
    } else if SendsCode(s.account, r) {
      SendEffect(s.account, r);
      PermittedOneMore(s.sends, MAX_RESEND_PER_HOUR, r.s.now);
    } else {
      QuietEffect(s.account, r);
    }
  }

  lemma StepKeepsInv(s: Sys, r: Request)
    requires Inv(s) && Timely(s, r)
    ensures Inv(Next(s, r))
  {
    hide Next, CountedKind, Timely;
    OwnKindStaysCounted(s, r);
    SendsStayPermitted(s, r);
    forall kind
      ensures CountedKind(Next(s, r), kind)
    {
      if kind != KindOf(r) {
        OtherKindStaysCounted(s, r, kind);
      }
    }
  }

  ghost predicate IsRun(states: seq<Sys>, requests: seq<Request>) {
    && |states| == |requests| + 1
    && forall i :: 0 <= i < |requests| ==>
         Timely(states[i], requests[i]) && states[i + 1] == Next(states[i], requests[i])
  }

  /** An account before its first code. */
  ghost predicate Start(s: Sys) {
    && s.account.codes == map[] && s.account.attempts == map[] && s.account.resend == EMPTY
    && s.compared == multiset{} && s.comparedOf == multiset{} && s.issued == multiset{} && s.sends == []
  }

  lemma {:induction false} RunKeepsInv(states: seq<Sys>, requests: seq<Request>, i: nat)
    requires IsRun(states, requests) && Inv(states[0]) && i <= |requests|
    ensures Inv(states[i])
  {
    hide Inv, Next, Timely;
    if i != 0 {
      RunKeepsInv(states, requests, i - 1);
      StepKeepsInv(states[i - 1], requests[i - 1]);
    }
  }

  lemma StartIsCounted(s: Sys)
    requires Start(s)
    ensures Inv(s)
  {
  }

  /** Whatever is requested in whatever order, at most five guesses are ever compared
      with one issued code, at most five times the codes issued for a kind, and no
      counter passes five. */
  lemma GuessesAreBounded(states: seq<Sys>, requests: seq<Request>)
    requires IsRun(states, requests) && Start(states[0])
    ensures var s := states[|requests|];
            && (forall code :: s.compared[code] <= 5)
            && (forall kind :: Attempts(s.account, kind) <= 5 && s.comparedOf[kind] <= 5 * s.issued[kind])
  {
    StartIsCounted(states[0]);
    RunKeepsInv(states, requests, |requests|);
    var s := states[|requests|];
    forall kind
      ensures Attempts(s.account, kind) <= 5 && s.comparedOf[kind] <= 5 * s.issued[kind]
    {
      assert CountedKind(s, kind);
    }
  }

  /** A code is refused exactly when the last five sent to the account came each less than
      an hour after the one before, and the last less than an hour ago. */
  lemma SendRefusedExactly(states: seq<Sys>, requests: seq<Request>, s: Sending)
    requires IsRun(states, requests) && Start(states[0])
    ensures var now := states[|requests|];
            Refused(now.account, s) <==> Chained(now.sends, 5, s.checked)
  {
    StartIsCounted(states[0]);
    RunKeepsInv(states, requests, |requests|);
    BlocksExactly(states[|requests|].sends, MAX_RESEND_PER_HOUR, s.checked);
  }

  /** No half-open hour holds more than five codes sent to an account, all kinds
      taken together, and the counter never passes five. */
  lemma CodesPerHourAreBounded(states: seq<Sys>, requests: seq<Request>, from: Instant)
    requires IsRun(states, requests) && Start(states[0])
    ensures |Within(states[|requests|].sends, from)| <= 5
    ensures states[|requests|].account.resend.count <= 5
  {
    StartIsCounted(states[0]);
    RunKeepsInv(states, requests, |requests|);
    AtMostLimitPerHour(states[|requests|].sends, MAX_RESEND_PER_HOUR, from);
    CountBounded(states[|requests|].sends, MAX_RESEND_PER_HOUR);
  }
}
