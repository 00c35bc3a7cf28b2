/** Refresh tokens: issue, rotation, replay detection, revocation and purge. A token's
    hash stands for the token: hashing is taken to be injective and the identifiers
    of issued tokens fresh, so a token is a number. */
module Tokens {
  import opened Clock
  import opened Options
  import opened Records

  type TokenId = nat

  const SECOND: int := 1_000_000
  const PURGE_GRACE_DAYS := 7

  /** What the server signed into a token; the expiry is in whole seconds. */
  datatype Claims = Claims(user: UserId, exp: int)

  datatype TokenRow = TokenRow(user: UserId, expiresAt: Instant, revoked: bool)

  datatype Store = Store(
    active: map<UserId, bool>,
    signed: map<TokenId, Claims>,
    rows: map<TokenId, TokenRow>,
    nextToken: TokenId,
    lifetimeDays: nat)

  /** A string presented as a refresh token: one the server signed as such, or not. */
  datatype Presented = Forged | Signed(id: TokenId)

  datatype Answer = Invalid | ReuseDetected | Disabled | Issued(id: TokenId)

  /** The two clock readings of an issue: for the signature, then for the row. */
  datatype Readings = Readings(signing: Instant, storing: Instant)

  predicate Live(s: Store, id: TokenId) {
    id in s.rows && !s.rows[id].revoked
  }

  // A signature holds until the end of its last second.
  predicate Decodes(s: Store, t: Presented, now: Instant) {
    t.Signed? && t.id in s.signed && now / SECOND <= s.signed[t.id].exp
  }

  function RevokedRow(rows: map<TokenId, TokenRow>, id: TokenId): map<TokenId, TokenRow> {
    if id in rows && !rows[id].revoked then rows[id := rows[id].(revoked := true)] else rows
  }

  function RevokedRows(rows: map<TokenId, TokenRow>, user: UserId): map<TokenId, TokenRow> {
    map id | id in rows :: if rows[id].user == user then rows[id].(revoked := true) else rows[id]
  }

  function KeptRows(rows: map<TokenId, TokenRow>, cutoff: Instant): map<TokenId, TokenRow> {
    map id | id in rows && cutoff <= rows[id].expiresAt :: rows[id]
  }

  function Revoke(s: Store, id: TokenId): Store {
    s.(rows := RevokedRow(s.rows, id))
  }

  function RevokeAll(s: Store, user: UserId): Store {
    s.(rows := RevokedRows(s.rows, user))
  }

  function Issue(s: Store, user: UserId, r: Readings): Store {
    var lifetime := s.lifetimeDays * DAY;
    s.(signed := s.signed[s.nextToken := Claims(user, (r.signing + lifetime) / SECOND)],
       rows := s.rows[s.nextToken := TokenRow(user, r.storing + lifetime, false)],
       nextToken := s.nextToken + 1)
  }

  function Refresh(s: Store, t: Presented, now: Instant, r: Readings): (Store, Answer) {
    if !Decodes(s, t, now) then (s, Invalid)
    else if !Live(s, t.id) then
      if t.id in s.rows then (RevokeAll(s, s.rows[t.id].user), ReuseDetected) else (s, Invalid)
    else
      var row := s.rows[t.id];
      if row.expiresAt < now then (s, Invalid)
      else if row.user != s.signed[t.id].user then (s, Invalid)
      else if row.user !in s.active then (s, Invalid)
      else if !s.active[row.user] then (RevokeAll(s, row.user), Disabled)
      else (Issue(Revoke(s, t.id), row.user, r), Issued(s.nextToken))
  }

  function Logout(s: Store, t: Presented): Store {
    if t.Signed? then Revoke(s, t.id) else s
  }

  function PurgeExpired(s: Store, now: Instant, graceDays: int): Store {
    s.(rows := KeptRows(s.rows, now - graceDays * DAY))
  }

  function DeleteUser(s: Store, user: UserId): Store {
    s.(active := s.active - {user}, rows := map id | id in s.rows && s.rows[id].user != user :: s.rows[id])
  }

  // ----- steps -----

  datatype Step =
    | SignIn(user: UserId, r: Readings)
    | Refreshing(t: Presented, now: Instant, r: Readings)
    | LoggingOut(t: Presented)
    | RevokingAll(user: UserId)
    | SettingActive(user: UserId, on: bool)
    | Deleting(user: UserId)
    | Purging(now: Instant, graceDays: int)

  function After(s: Store, step: Step): Store {
    match step
    case SignIn(user, r) => Issue(s, user, r)
    case Refreshing(t, now, r) => Refresh(s, t, now, r).0
    case LoggingOut(t) => Logout(s, t)
    case RevokingAll(user) => RevokeAll(s, user)
    case SettingActive(user, on) => s.(active := s.active[user := on])
    case Deleting(user) => DeleteUser(s, user)
    case Purging(now, graceDays) => PurgeExpired(s, now, graceDays)
  }

  function AnswerOf(s: Store, step: Step): Option<Answer> {
    if step.Refreshing? then Some(Refresh(s, step.t, step.now, step.r).1) else None
  }

  ghost predicate Sound(s: Store) {
    && (forall id :: id in s.signed ==> id < s.nextToken)
    && (forall id :: id in s.rows ==> id in s.signed && s.rows[id].user == s.signed[id].user)
    && (forall id :: id in s.rows ==> s.signed[id].exp * SECOND <= s.rows[id].expiresAt)
  }

  /** Clock readings of one issue come in order. */
  predicate Ordered(step: Step) {
    (step.SignIn? || step.Refreshing?) ==> step.r.signing <= step.r.storing
  }

  lemma StepKeepsSound(s: Store, step: Step)
    requires Sound(s) && Ordered(step)
    ensures Sound(After(s, step))
  {
  }

  /** A refresh succeeds exactly for a live token whose signature and row have not
      expired and whose owner is active; it then trades that token for a new live one
      of the same owner and touches no other. */
  lemma RefreshAcceptsExactly(s: Store, t: Presented, now: Instant, r: Readings)
    requires Sound(s)
    ensures var (after, answer) := Refresh(s, t, now, r);
            && (answer.Issued? <==>
                Decodes(s, t, now) && Live(s, t.id) && now <= s.rows[t.id].expiresAt
                && s.rows[t.id].user in s.active && s.active[s.rows[t.id].user])
            && (answer.Issued? ==>
                  && Live(after, answer.id) && answer.id !in s.rows && after.rows[answer.id].user == s.rows[t.id].user
                  && !Live(after, t.id)
                  && forall id :: id in s.rows && id != t.id ==> id in after.rows && after.rows[id] == s.rows[id])
  {
  }

  // ----- every answer, and what it leaves behind -----

  ghost predicate NoneLive(s: Store, user: UserId) {
    forall id :: Live(s, id) ==> s.rows[id].user != user
  }

  ghost predicate OthersKept(a: Store, b: Store, user: UserId) {
    forall id :: id in a.rows && a.rows[id].user != user ==> id in b.rows && b.rows[id] == a.rows[id]
  }

  /** A readable token whose row was revoked is a replay; a disabled owner's live one is
      refused as such; both leave the owner without a live token and every other account
      as it was. An invalid token changes nothing. */
  lemma RefusalsAre(s: Store, t: Presented, now: Instant, r: Readings)
    requires Sound(s)
    ensures var (after, answer) := Refresh(s, t, now, r);
            && (answer == ReuseDetected <==>
                t.Signed? && t.id in s.rows && s.rows[t.id].revoked && now / 1_000_000 <= s.signed[t.id].exp)
            && (answer == Disabled <==>
                t.Signed? && t.id in s.rows && !s.rows[t.id].revoked && now / 1_000_000 <= s.signed[t.id].exp
                && now <= s.rows[t.id].expiresAt && s.rows[t.id].user in s.active && !s.active[s.rows[t.id].user])
            && (answer == ReuseDetected || answer == Disabled ==>
                  NoneLive(after, s.rows[t.id].user) && OthersKept(s, after, s.rows[t.id].user))
            && (answer == Invalid ==> after == s)
  {
  }

  /** A token just issued is accepted by an active owner until its lifetime is over, on
      the row's clock and to the second on the signature's. */
  lemma IssuedIsAccepted(s: Store, user: UserId, r: Readings, now: Instant, again: Readings)
    ensures var issued, lifetime := Issue(s, user, r), s.lifetimeDays * 86_400_000_000;
            Refresh(issued, Signed(s.nextToken), now, again).1.Issued? <==>
            && user in s.active && s.active[user]
            && now <= r.storing + lifetime && now / 1_000_000 <= (r.signing + lifetime) / 1_000_000
  {
    assert DAY == 86_400_000_000;
  }

  /** The account's switch decides over a token that is otherwise good, and enabling the
      account again gives it back. */
  lemma SwitchDecides(s: Store, t: Presented, now: Instant, r: Readings, on: bool)
    requires Sound(s) && t.Signed? && Live(s, t.id) && now / 1_000_000 <= s.signed[t.id].exp && now <= s.rows[t.id].expiresAt
    ensures Refresh(After(s, SettingActive(s.rows[t.id].user, on)), t, now, r).1 == if on then Issued(s.nextToken) else Disabled
  {
  }

  /** The only ways a live token ends: its own exchange or sign-out, a refusal that ends
      every session of its owner, the end of its owner's sessions, or a purge past its
      expiry. */
  ghost predicate Ends(s: Store, step: Step, id: TokenId)
    requires id in s.rows
  {
    match step
    case SignIn(_, _) => false
    case Refreshing(t, now, r) =>
      t.Signed? &&
      (t.id == id ||
       (Refresh(s, t, now, r).1 in {ReuseDetected, Disabled} && t.id in s.rows && s.rows[t.id].user == s.rows[id].user))
    case LoggingOut(t) => t == Signed(id)
    case RevokingAll(user) => user == s.rows[id].user
    case SettingActive(_, _) => false
    case Deleting(user) => user == s.rows[id].user
    case Purging(now, graceDays) => s.rows[id].expiresAt < now - graceDays * 86_400_000_000
  }

  lemma StaysLive(s: Store, step: Step, id: TokenId)
    requires Sound(s) && Live(s, id) && !Ends(s, step, id)
    ensures Live(After(s, step), id) && After(s, step).rows[id] == s.rows[id]
  {
    assert DAY == 86_400_000_000;
    match step
    case Refreshing(t, now, r) =>
      RefusalsAre(s, t, now, r);
      RefreshAcceptsExactly(s, t, now, r);
      hide Refresh;
    case _ =>
  }

  /** The purge keeps exactly the rows that did not expire before the cutoff. */
  lemma PurgeIsExact(s: Store, now: Instant, graceDays: int)
    ensures var after := PurgeExpired(s, now, graceDays);
            && after == s.(rows := after.rows)
            && (forall id :: id in after.rows <==> id in s.rows && now - graceDays * 86_400_000_000 <= s.rows[id].expiresAt)
            && (forall id :: id in after.rows ==> after.rows[id] == s.rows[id])
  {
    assert DAY == 86_400_000_000;
  }
}

/** What rotation guarantees over any run. */
module TokenRuns {
  import opened Options
  import opened Records
  import opened Tokens

  /** A store, and what an observer remembers: the sign-in each token descends from,
      and how often each token was accepted. */
  datatype Sys = Sys(store: Store, origin: map<TokenId, nat>, signIns: nat, accepted: multiset<TokenId>)

  function Next(s: Sys, step: Step): Sys {
    var store := After(s.store, step);
    match step
    case SignIn(_, _) =>
      Sys(store, s.origin[s.store.nextToken := s.signIns], s.signIns + 1, s.accepted)
    case Refreshing(t, _, _) =>
      if AnswerOf(s.store, step).value.Issued? && t.id in s.origin then
        Sys(store, s.origin[s.store.nextToken := s.origin[t.id]], s.signIns, s.accepted + multiset{t.id})
      else s.(store := store)
    case _ => s.(store := store)
  }

  ghost predicate Inv(s: Sys) {
    && Sound(s.store)
    && s.origin.Keys == s.store.signed.Keys
    && (forall id :: id in s.origin ==> s.origin[id] < s.signIns)
    && (forall a, b :: Live(s.store, a) && Live(s.store, b) && s.origin[a] == s.origin[b] ==> a == b)
    && (forall id :: id in s.accepted ==> id in s.origin && s.accepted[id] == 1 && !Live(s.store, id))
  }

  /** Nothing was signed and no token came back to life. */
  ghost predicate Fades(a: Store, b: Store) {
    && b.signed == a.signed && b.nextToken == a.nextToken
    && forall id :: Live(b, id) ==> Live(a, id)
  }

  predicate Accepts(s: Store, step: Step) {
    step.Refreshing? && AnswerOf(s, step).value.Issued?
  }

  lemma OnlyIssuesRevive(s: Store, step: Step)
    requires !step.SignIn? && !Accepts(s, step)
    ensures Fades(s, After(s, step))
  {
  }

  lemma FadingKeepsInv(s: Sys, store: Store)
    requires Inv(s) && Sound(store) && Fades(s.store, store)
    ensures Inv(s.(store := store))
  {
    hide Sound;
  }

  lemma SignInKeepsInv(s: Sys, step: Step)
    requires Inv(s) && step.SignIn? && Ordered(step)
    ensures Inv(Next(s, step))
  {
    StepKeepsSound(s.store, step);
  }

  lemma RotationKeepsInv(s: Sys, step: Step)
    requires Inv(s) && Ordered(step) && Accepts(s.store, step)
    ensures Inv(Next(s, step))
  {
    StepKeepsSound(s.store, step);
    RotationEffect(s.store, step);
    hide Sound, Refresh, Live, Accepts, After, AnswerOf;
    assert Next(s, step) ==
           Sys(After(s.store, step), s.origin[s.store.nextToken := s.origin[step.t.id]], s.signIns, s.accepted + multiset{step.t.id});
  }

  lemma RotationEffect(s: Store, step: Step)
    requires Sound(s) && Accepts(s, step)
    ensures AnswerOf(s, step) == Some(Issued(s.nextToken))
    ensures step.t.Signed? && step.t.id in s.signed && Live(s, step.t.id) && s.nextToken !in s.signed
    ensures After(s, step).signed.Keys == s.signed.Keys + {s.nextToken}
    ensures forall id :: Live(After(s, step), id) ==> id == s.nextToken || (Live(s, id) && id != step.t.id)
  {
  }

  lemma StepKeepsInv(s: Sys, step: Step)
    requires Inv(s) && Ordered(step)
    ensures Inv(Next(s, step))
  {
    if step.SignIn? {
      SignInKeepsInv(s, step);
    } else if Accepts(s.store, step) {
      RotationKeepsInv(s, step);
    } else {
      StepKeepsSound(s.store, step);
      OnlyIssuesRevive(s.store, step);
      FadingKeepsInv(s, After(s.store, step));
      hide After, Inv;
    }
  }

  ghost predicate IsRun(states: seq<Sys>, steps: seq<Step>) {
    && |states| == |steps| + 1
    && forall i :: 0 <= i < |steps| ==> Ordered(steps[i]) && states[i + 1] == Next(states[i], steps[i])
  }

  ghost predicate Start(s: Sys) {
    s.store.signed == map[] && s.store.rows == map[] && s.origin == map[] && s.signIns == 0 && s.accepted == multiset{}
  }

  lemma {:induction false} RunKeepsInv(states: seq<Sys>, steps: seq<Step>, i: nat)
    requires IsRun(states, steps) && Inv(states[0]) && i <= |steps|
    ensures Inv(states[i])
  {
    hide Inv, Next;
    if i != 0 {
      RunKeepsInv(states, steps, i - 1);
      StepKeepsInv(states[i - 1], steps[i - 1]);
    }
  }

  function LiveTokens(s: Store): set<TokenId> {
    set id | id in s.rows && Live(s, id)
  }

  lemma {:induction false} FewerThanOrigins(ids: set<TokenId>, origin: map<TokenId, nat>, n: nat)
    requires forall a :: a in ids ==> a in origin && origin[a] < n
    requires forall a, b :: a in ids && b in ids && origin[a] == origin[b] ==> a == b
    ensures |ids| <= n
  {
    if a :| a in ids && origin[a] == n - 1 {
      FewerThanOrigins(ids - {a}, origin, n - 1);
    } else if n != 0 {
      FewerThanOrigins(ids, origin, n - 1);
    } else {
      assert ids == {};
    }
  }

  /** In every reachable state each token was accepted at most once, the tokens of one
      sign-in hold at most one live one, and so live tokens never outnumber sign-ins. */
  lemma RotationIsSafe(states: seq<Sys>, steps: seq<Step>)
    requires IsRun(states, steps) && Start(states[0])
    ensures var s := states[|steps|];
            && (forall id :: s.accepted[id] <= 1)
            && (forall a, b | Live(s.store, a) && Live(s.store, b) && a in s.origin && b in s.origin ::
                  s.origin[a] == s.origin[b] ==> a == b)
            && |LiveTokens(s.store)| <= s.signIns
  {
    RunKeepsInv(states, steps, |steps|);
    var s := states[|steps|];
    FewerThanOrigins(LiveTokens(s.store), s.origin, s.signIns);
  }

  // ----- replay -----

  lemma StaysNoneLive(s: Store, step: Step, user: UserId)
    requires Sound(s) && NoneLive(s, user) && (step.SignIn? ==> step.user != user)
    ensures NoneLive(After(s, step), user)
  {
  }

  lemma {:induction false} NoneLiveUntilSignIn(states: seq<Sys>, steps: seq<Step>, user: UserId, i: nat, j: nat)
    requires IsRun(states, steps) && Inv(states[0]) && i <= j <= |steps|
    requires NoneLive(states[i].store, user)
    requires forall n :: i <= n < j && steps[n].SignIn? ==> steps[n].user != user
    ensures NoneLive(states[j].store, user)
  {
    hide Inv, NoneLive, After;
    if i < j {
      NoneLiveUntilSignIn(states, steps, user, i, j - 1);
      RunKeepsInv(states, steps, j - 1);
      InvIsSound(states[j - 1]);
      StaysNoneLive(states[j - 1].store, steps[j - 1], user);
    }
  }

  lemma InvIsSound(s: Sys)
    requires Inv(s)
    ensures Sound(s.store)
  {
  }

  /** Presenting a token already used, while its signature holds and its row is still
      stored, is answered as a replay and leaves its owner without any live token
      until the owner signs in again. */
  lemma ReplayEndsEverySession(states: seq<Sys>, steps: seq<Step>, i: nat, j: nat)
    requires IsRun(states, steps) && Start(states[0]) && i < j <= |steps| && steps[i].Refreshing?
    requires var t := steps[i].t;
             && t.Signed? && t.id in states[i].accepted && t.id in states[i].store.rows
             && Decodes(states[i].store, t, steps[i].now)
    requires forall n :: i < n < j && steps[n].SignIn? ==>
               steps[n].user != states[i].store.rows[steps[i].t.id].user
    ensures AnswerOf(states[i].store, steps[i]) == Some(ReuseDetected)
    ensures NoneLive(states[j].store, states[i].store.rows[steps[i].t.id].user)
  {
    RunKeepsInv(states, steps, i);
    assert states[i + 1] == Next(states[i], steps[i]);
    NoneLiveUntilSignIn(states, steps, states[i].store.rows[steps[i].t.id].user, i + 1, j);
  }

  /** The step ends every session of the account: a password change, a deletion, a
      replay, or a refresh while the account is disabled. */
  ghost predicate EndsSessions(s: Store, step: Step, user: UserId) {
    match step
    case RevokingAll(u) => u == user
    case Deleting(u) => u == user
    case Refreshing(t, now, r) =>
      Refresh(s, t, now, r).1 in {ReuseDetected, Disabled} && t.Signed? && t.id in s.rows && s.rows[t.id].user == user
    case _ => false
  }

  lemma SessionsEnded(s: Store, step: Step, user: UserId)
    requires Sound(s) && EndsSessions(s, step, user)
    ensures NoneLive(After(s, step), user)
  {
    if step.Refreshing? {
      RefusalsAre(s, step.t, step.now, step.r);
      hide Refresh;
    }
  }

  /** After such a step the account has no live token until it signs in again, being
      enabled again included. */
  lemma EndedUntilSignIn(states: seq<Sys>, steps: seq<Step>, user: UserId, i: nat, j: nat)
    requires IsRun(states, steps) && Start(states[0]) && i < j <= |steps| && EndsSessions(states[i].store, steps[i], user)
    requires forall n :: i < n < j && steps[n].SignIn? ==> steps[n].user != user
    ensures NoneLive(states[j].store, user)
  {
    hide EndsSessions, After, NoneLive;
    RunKeepsInv(states, steps, i);
    InvIsSound(states[i]);
    SessionsEnded(states[i].store, steps[i], user);
    assert states[i + 1] == Next(states[i], steps[i]);
    assert steps[i].SignIn? ==> false by { NotSignIn(states[i].store, steps[i], user); }
    NoneLiveUntilSignIn(states, steps, user, i + 1, j);
  }

  lemma NotSignIn(s: Store, step: Step, user: UserId)
    requires EndsSessions(s, step, user)
    ensures !step.SignIn?
  {
  }

  lemma StartHasInv(s: Sys)
    requires Start(s)
    ensures Inv(s)
  {
  }

  /** A token signed out is dead for good. */
  lemma {:induction false} StaysSignedOut(states: seq<Sys>, steps: seq<Step>, id: TokenId, i: nat, j: nat)
    requires IsRun(states, steps) && Inv(states[0]) && i < j <= |steps|
    requires steps[i] == LoggingOut(Signed(id)) && id in states[i].store.signed
    ensures !Live(states[j].store, id) && id in states[j].store.signed
  {
    hide Inv;
    RunKeepsInv(states, steps, j - 1);
    InvIsSound(states[j - 1]);
    assert states[j] == Next(states[j - 1], steps[j - 1]);
    if j != i + 1 {
      StaysSignedOut(states, steps, id, i, j - 1);
      hide Live, Refresh;
      DeadStaysDead(states[j - 1].store, steps[j - 1], id);
    }
  }

  /** So it is never accepted again. */
  lemma SignedOutForGood(states: seq<Sys>, steps: seq<Step>, id: TokenId, i: nat, j: nat)
    requires IsRun(states, steps) && Start(states[0]) && i < j < |steps|
    requires steps[i] == LoggingOut(Signed(id)) && id in states[i].store.signed
    requires steps[j].Refreshing? && steps[j].t == Signed(id)
    ensures !AnswerOf(states[j].store, steps[j]).value.Issued?
  {
    hide Inv, Refresh;
    StartHasInv(states[0]);
    StaysSignedOut(states, steps, id, i, j);
    RunKeepsInv(states, steps, j);
    InvIsSound(states[j]);
    RefreshAcceptsExactly(states[j].store, steps[j].t, steps[j].now, steps[j].r);
  }

  lemma DeadStaysDead(s: Store, step: Step, id: TokenId)
    requires Sound(s) && id in s.signed && !Live(s, id)
    ensures id in After(s, step).signed && !Live(After(s, step), id)
  {
  }
}

/** Purging old tokens changes no later answer. */
module TokenPurge {
  import opened Clock
  import opened Options
  import opened Records
  import opened Tokens

  /** `purged` is `full` without some rows whose signature has run out by `now`. */
  ghost predicate Agree(purged: Store, full: Store, now: Instant) {
    && purged == full.(rows := purged.rows)
    && (forall id :: id in purged.rows ==> id in full.rows && purged.rows[id] == full.rows[id])
    && (forall id :: id in full.rows && id !in purged.rows ==>
          id in full.signed && full.signed[id].exp < now / SECOND)
  }

  /** The clock does not go back. */
  predicate NotBefore(step: Step, now: Instant) {
    match step
    case Refreshing(_, at, _) => now <= at
    case Purging(at, _) => now <= at
    case _ => true
  }

  function Time(step: Step, now: Instant): Instant {
    match step
    case Refreshing(_, at, _) => at
    case Purging(at, _) => at
    case _ => now
  }

  lemma PurgeAgrees(purged: Store, full: Store, now: Instant, at: Instant, graceDays: int)
    requires Sound(full) && Agree(purged, full, now) && now <= at && 1 <= graceDays
    ensures Agree(PurgeExpired(purged, at, graceDays), full, at)
  {
    PurgeIsExact(purged, at, graceDays);
    forall id | id in purged.rows && purged.rows[id].expiresAt < at - graceDays * DAY
      ensures full.signed[id].exp < at / SECOND
    {
      assert DAY <= graceDays * DAY;
      assert full.signed[id].exp * SECOND < at - SECOND;
    }
    assert now / SECOND <= at / SECOND;
  }

  lemma AnswersAgree(purged: Store, full: Store, now: Instant, step: Step)
    requires Sound(full) && Agree(purged, full, now) && NotBefore(step, now) && !step.Purging?
    ensures AnswerOf(purged, step) == AnswerOf(full, step)
    ensures Agree(After(purged, step), After(full, step), Time(step, now))
  {
    assert now / SECOND <= Time(step, now) / SECOND;
    if step.LoggingOut? && step.t.Signed? {
      RevokeAgrees(purged, full, now, step.t.id);
    } else if step.Refreshing? {
      RefreshAgrees(purged, full, step);
    }
  }

  lemma RevokeAgrees(purged: Store, full: Store, now: Instant, id: TokenId)
    requires Agree(purged, full, now)
    ensures Agree(Revoke(purged, id), Revoke(full, id), now)
  {
  }

  lemma RefreshAgrees(purged: Store, full: Store, step: Step)
    requires step.Refreshing? && Agree(purged, full, step.now)
    ensures AnswerOf(purged, step) == AnswerOf(full, step)
    ensures Agree(After(purged, step), After(full, step), step.now)
  {
    if Decodes(full, step.t, step.now) && Live(full, step.t.id) {
      RevokeAgrees(purged, full, step.now, step.t.id);
    }
  }

  /** A run with purges beside the same run in which nothing is ever purged. */
  ghost predicate SideBySide(purged: seq<Store>, full: seq<Store>, times: seq<Instant>, steps: seq<Step>, grace: int) {
    && |purged| == |full| == |times| == |steps| + 1
    && purged[0] == full[0]
    && forall i :: 0 <= i < |steps| ==>
         && Ordered(steps[i]) && NotBefore(steps[i], times[i]) && times[i + 1] == Time(steps[i], times[i])
         && (steps[i].Purging? ==> grace <= steps[i].graceDays)
         && purged[i + 1] == After(purged[i], steps[i])
         && full[i + 1] == if steps[i].Purging? then full[i] else After(full[i], steps[i])
  }

  lemma {:induction false} StoresAgree(purged: seq<Store>, full: seq<Store>, times: seq<Instant>, steps: seq<Step>, grace: int, i: nat)
    requires SideBySide(purged, full, times, steps, grace) && 1 <= grace && Sound(full[0]) && i <= |steps|
    ensures Sound(full[i]) && Agree(purged[i], full[i], times[i])
  {
    hide Sound, Agree, After;
    if i == 0 {
      SameAgree(full[0], times[0]);
    } else {
      StoresAgree(purged, full, times, steps, grace, i - 1);
      if steps[i - 1].Purging? {
        PurgeAgrees(purged[i - 1], full[i - 1], times[i - 1], steps[i - 1].now, steps[i - 1].graceDays);
        PurgeIs(purged[i - 1], steps[i - 1]);
      } else {
        AnswersAgree(purged[i - 1], full[i - 1], times[i - 1], steps[i - 1]);
        StepKeepsSound(full[i - 1], steps[i - 1]);
      }
    }
  }

  lemma SameAgree(s: Store, now: Instant)
    ensures Agree(s, s, now)
  {
  }

  lemma PurgeIs(s: Store, step: Step)
    requires step.Purging?
    ensures After(s, step) == PurgeExpired(s, step.now, step.graceDays)
  {
  }

  /** With purges of at least this grace at any times, the store answers every refresh
      as one that is never purged. */
  ghost predicate Unobservable(grace: int) {
    forall purged: seq<Store>, full: seq<Store>, times: seq<Instant>, steps: seq<Step>, i: nat ::
      SideBySide(purged, full, times, steps, grace) && Sound(full[0]) && i < |steps| && !steps[i].Purging? ==>
        AnswerOf(purged[i], steps[i]) == AnswerOf(full[i], steps[i])
  }

  lemma LongGraceIsUnobservable(grace: int)
    requires 1 <= grace
    ensures Unobservable(grace)
  {
    forall purged: seq<Store>, full: seq<Store>, times: seq<Instant>, steps: seq<Step>, i: nat
      | SideBySide(purged, full, times, steps, grace) && Sound(full[0]) && i < |steps| && !steps[i].Purging?
      ensures AnswerOf(purged[i], steps[i]) == AnswerOf(full[i], steps[i])
    {
      hide After, AnswerOf, Sound, Agree;
      StoresAgree(purged, full, times, steps, grace, i);
      AnswersAgree(purged[i], full[i], times[i], steps[i]);
    }
  }

  /** The grace is given on the command line as any integer. The purge cannot be
      observed if and only if it is a day or more, as the default is. */
  lemma PurgeIsUnobservable(grace: int)
    ensures Unobservable(grace) <==> 1 <= grace
    ensures Unobservable(PURGE_GRACE_DAYS)
  {
    LongGraceIsUnobservable(PURGE_GRACE_DAYS);
    if 1 <= grace {
      LongGraceIsUnobservable(grace);
    } else {
      ShortGraceIsObservable(grace);
    }
  }

  /** A replay within the last second of a signature, of a token whose row has expired:
      recognised, unless the row was purged without a grace. */
  lemma ForgottenReplay(s: Store, t: Presented, now: Instant, r: Readings, grace: int)
    requires grace <= 0 && t.Signed? && t.id in s.signed && t.id in s.rows && s.rows[t.id].revoked
    requires s.rows[t.id].expiresAt < now && now / SECOND == s.signed[t.id].exp
    ensures AnswerOf(s, Refreshing(t, now, r)) == Some(ReuseDetected)
    ensures AnswerOf(After(s, Purging(now, grace)), Refreshing(t, now, r)) == Some(Invalid)
  {
  }

  lemma SignedOut(start: Store, r: Readings)
    requires start.signed == map[] && start.rows == map[] && start.nextToken == 0 && start.lifetimeDays == 1
    requires r == Readings(0, 0)
    ensures var out := After(After(start, SignIn(0, r)), LoggingOut(Signed(0)));
            out.rows == map[0 := TokenRow(0, DAY, true)] && out.signed == map[0 := Claims(0, DAY / SECOND)]
  {
  }

  // Signed out, purged as soon as its row has expired, and presented at once.
  lemma ShortGraceIsObservable(grace: int)
    requires grace <= 0
    ensures !Unobservable(grace)
  {
    hide After, AnswerOf;
    var t, r, now := Signed(0), Readings(0, 0), DAY + 1;
    var start := Store(map[0 := true], map[], map[], 0, 1);
    var steps := [SignIn(0, r), LoggingOut(t), Purging(now, grace), Refreshing(t, now, r)];
    var signedIn := After(start, steps[0]);
    var out := After(signedIn, steps[1]);
    var gone := After(out, steps[2]);
    SignedOut(start, r);
    ForgottenReplay(out, t, now, r, grace);
    var purged := [start, signedIn, out, gone, After(gone, steps[3])];
    var full := [start, signedIn, out, out, After(out, steps[3])];
    assert SideBySide(purged, full, [0, 0, 0, now, now], steps, grace);
    assert AnswerOf(purged[3], steps[3]) != AnswerOf(full[3], steps[3]);
  }
}

/** The token rows and the refresh endpoint as the program updates them. */
module TokenService {
  import opened Clock
  import opened Records
  import opened Tokens

  class RefreshTokenRepository {
    var rows: map<TokenId, TokenRow>

    constructor ()
      ensures rows == map[]
    {
      rows := map[];
    }

    method Create(id: TokenId, user: UserId, expiresAt: Instant)
      modifies this
      ensures rows == old(rows)[id := TokenRow(user, expiresAt, false)]
    {
      rows := rows[id := TokenRow(user, expiresAt, false)];
    }

    method Revoke(id: TokenId)
      modifies this
      ensures rows == RevokedRow(old(rows), id)
    {
      if id in rows && !rows[id].revoked {
        rows := rows[id := rows[id].(revoked := true)];
      }
    }

    method RevokeAllForUser(user: UserId)
      modifies this
      ensures rows == RevokedRows(old(rows), user)
    {
      rows := map id | id in rows :: if rows[id].user == user then rows[id].(revoked := true) else rows[id];
    }

    method PurgeExpired(now: Instant, graceDays: int) returns (removed: nat)
      modifies this
      ensures rows == KeptRows(old(rows), now - graceDays * DAY) && removed == |old(rows)| - |rows|
    {
      var cutoff := now - graceDays * DAY;
      var stale := set id | id in rows && rows[id].expiresAt < cutoff;
      rows := rows - stale;
      assert old(rows).Keys == rows.Keys + stale;
      removed := |stale|;
    }
  }

  class EmailPasswordAuth {
    const tokens: RefreshTokenRepository
    var active: map<UserId, bool>
    var signed: map<TokenId, Claims>
    var nextToken: TokenId
    const lifetimeDays: nat

    constructor (lifetimeDays: nat)
      ensures View() == Store(map[], map[], map[], 0, lifetimeDays) && fresh(tokens)
    {
      tokens := new RefreshTokenRepository();
      active, signed, nextToken := map[], map[], 0;
      this.lifetimeDays := lifetimeDays;
    }

    function View(): Store
      reads this, tokens
    {
      Store(active, signed, tokens.rows, nextToken, lifetimeDays)
    }

    /** The one place a refresh row is born. */
    method IssueTokens(user: UserId, r: Readings) returns (id: TokenId)
      modifies this, tokens
      ensures View() == Issue(old(View()), user, r) && id == old(nextToken)
    {
      id := nextToken;
      signed := signed[id := Claims(user, (r.signing + lifetimeDays * DAY) / SECOND)];
      nextToken := nextToken + 1;
      tokens.Create(id, user, r.storing + lifetimeDays * DAY);
    }

    method RefreshAccessToken(t: Presented, now: Instant, r: Readings) returns (answer: Answer)
      modifies this, tokens
      ensures (View(), answer) == Refresh(old(View()), t, now, r)
    {
      if t.Forged? || t.id !in signed || signed[t.id].exp < now / SECOND {
        return Invalid;
      }
      if t.id !in tokens.rows || tokens.rows[t.id].revoked {
        if t.id in tokens.rows {
          tokens.RevokeAllForUser(tokens.rows[t.id].user);
          return ReuseDetected;
        }
        return Invalid;
      }
      var row := tokens.rows[t.id];
      if row.expiresAt < now {
        return Invalid;
      }
      if row.user != signed[t.id].user || row.user !in active {
        return Invalid;
      }
      if !active[row.user] {
        tokens.RevokeAllForUser(row.user);
        return Disabled;
      }
      tokens.Revoke(t.id);
      var id := IssueTokens(row.user, r);
      answer := Issued(id);
    }

    method LogoutUser(t: Presented)
      modifies tokens
      ensures View() == Logout(old(View()), t)
    {
      if t.Signed? {
        tokens.Revoke(t.id);
      }
    }
  }
}
