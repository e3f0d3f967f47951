/** Session revocation and password reset: tokens carry `iat` in whole seconds, revocations are stamped in
    milliseconds. One coach's account; requests one after the other. */
module Sessions {
  import opened Domain

  const SECOND := 1000
  const ACCESS_TTL := 30 * 24 * 3600
  const RESET_TTL := 3600

  datatype Purpose = Access | PasswordReset

  /** `iat` and `exp` are in seconds. */
  datatype Token = Token(purpose: Purpose, iat: nat, exp: nat)

  datatype Account = Account(passwordHash: nat, sessionsRevokedAt: Option<nat>)

  datatype AuthError = InvalidOrExpired | Revoked | AlreadyUsed

  function TtlOf(p: Purpose): nat {
    if p == Access then ACCESS_TTL else RESET_TTL
  }

  /** The signer's default: `iat` is the current second. */
  function Sign(p: Purpose, now: nat): Token {
    var iat := now / SECOND;
    Token(p, iat, iat + TtlOf(p))
  }

  /** The access token of a reset stamped at `r`: `iat` pinned one second past the stamp's second. */
  function SignPinned(r: nat): Token {
    var iat := r / SECOND + 1;
    Token(Access, iat, iat + ACCESS_TTL)
  }

  predicate Expired(token: Token, now: nat) {
    now / SECOND >= token.exp
  }

  /** The test of the guard and of the reset: issued before the last revocation. */
  predicate IsRevoked(a: Account, token: Token) {
    a.sessionsRevokedAt.Some? && token.iat * SECOND < a.sessionsRevokedAt.value
  }

  /** The guard looks at the signature, the expiry and the revocation stamp. */
  predicate Accepted(a: Account, token: Token, now: nat) {
    !Expired(token, now) && !IsRevoked(a, token)
  }

  predicate Redeemable(a: Account, token: Token, now: nat) {
    token.purpose == PasswordReset && !Expired(token, now) && !IsRevoked(a, token)
  }

  // ---------- the services

  class CoachAccount {
    var passwordHash: nat
    var sessionsRevokedAt: Option<nat>

    ghost function Row(): Account reads this {
      Account(passwordHash, sessionsRevokedAt)
    }

    constructor (hash: nat)
      ensures Row() == Account(hash, None)
    {
      passwordHash, sessionsRevokedAt := hash, None;
    }

    method RevokeSessions(now: nat)
      modifies this
      ensures Row() == Apply(old(Row()), now, Revoke)
      ensures sessionsRevokedAt == Some(now) && passwordHash == old(passwordHash)
    {
      sessionsRevokedAt := Some(now);
    }

    method CanActivate(token: Option<Token>, now: nat) returns (r: Result<(), AuthError>)
      ensures r.Ok? <==> token.Some? && Accepted(Row(), token.value, now)
      ensures r == Err(Revoked) <==> token.Some? && !Expired(token.value, now) && IsRevoked(Row(), token.value)
    {
      if token.None? || Expired(token.value, now) {
        return Err(InvalidOrExpired);
      }
      if sessionsRevokedAt.Some? && token.value.iat * SECOND < sessionsRevokedAt.value {
        return Err(Revoked);
      }
      r := Ok(());
    }

    method ResetPassword(token: Token, newHash: nat, now: nat) returns (r: Result<Token, AuthError>)
      modifies this
      ensures r.Ok? <==> Redeemable(old(Row()), token, now)
      ensures Row() == Apply(old(Row()), now, Redeem(token, newHash))
      ensures r.Ok? ==> r.value == SignPinned(now)
      ensures r.Ok? ==> passwordHash == newHash && sessionsRevokedAt == Some(now)
      ensures r.Err? ==> Row() == old(Row())
      ensures r == Err(AlreadyUsed) <==>
              token.purpose == PasswordReset && !Expired(token, now) && IsRevoked(old(Row()), token)
    {
      if token.purpose != PasswordReset || Expired(token, now) {
        return Err(InvalidOrExpired);
      }
      if sessionsRevokedAt.Some? && token.iat * SECOND < sessionsRevokedAt.value {
        return Err(AlreadyUsed);
      }
      passwordHash := newHash;
      sessionsRevokedAt := Some(now);
      var iat := now / SECOND + 1;
      r := Ok(Token(Access, iat, iat + ACCESS_TTL));
    }
  }

  // ---------- runs

  datatype Action = Revoke | Redeem(token: Token, newHash: nat) | ChangePassword(hash: nat)

  /** An action at a millisecond of the clock. */
  datatype Event = Event(at: nat, action: Action)

  function Apply(a: Account, now: nat, action: Action): Account {
    match action
    case Revoke => a.(sessionsRevokedAt := Some(now))
    case Redeem(token, newHash) => if Redeemable(a, token, now) then Account(newHash, Some(now)) else a
    case ChangePassword(hash) => a.(passwordHash := hash)
  }

  function Run(a: Account, events: seq<Event>): Account
    decreases |events|
  {
    if |events| == 0 then a else Run(Apply(a, events[0].at, events[0].action), events[1..])
  }

  // ---------- tokens

  /** A token signed by default lives 30 days if it is an access token and an hour if it resets a password,
      counted in whole seconds. */
  lemma TokenLife(signed: nat, now: nat)
    ensures Expired(Sign(Access, signed), now) <==> now / 1000 >= signed / 1000 + 2_592_000
    ensures Expired(Sign(PasswordReset, signed), now) <==> now / 1000 >= signed / 1000 + 3600
    ensures Expired(SignPinned(signed), now) <==> now / 1000 >= signed / 1000 + 1 + 2_592_000
  {
  }

  /** Of fresh tokens, only a reset token redeems, and only within its hour. */
  lemma FreshTokenRedeemsIff(a: Account, p: Purpose, signed: nat, now: nat)
    requires a.sessionsRevokedAt.None?
    ensures Redeemable(a, Sign(p, signed), now) <==> p == PasswordReset && now / 1000 < signed / 1000 + 3600
  {
  }

  // ---------- the password

  /** The hash an event sets: a password change always, a redemption when it succeeds. */
  function SetsHash(a: Account, e: Event): Option<nat> {
    match e.action
    case Revoke => None
    case ChangePassword(hash) => Some(hash)
    case Redeem(token, newHash) => if Redeemable(a, token, e.at) then Some(newHash) else None
  }

  ghost predicate NoneSets(a: Account, events: seq<Event>, from: nat, to: nat)
    requires to <= |events|
  {
    forall m :: from <= m < to ==> SetsHash(Run(a, events[..m]), events[m]) == None
  }

  /** `hash` was set by one of the first `n` events and by none after it, or is the first one. */
  ghost predicate LastSet(a: Account, events: seq<Event>, n: nat, hash: nat)
    requires n <= |events|
  {
    || (hash == a.passwordHash && NoneSets(a, events, 0, n))
    || exists m :: 0 <= m < n && SetsHash(Run(a, events[..m]), events[m]) == Some(hash) && NoneSets(a, events, m + 1, n)
  }

  lemma {:induction false} PrefixHashIsLastSet(a: Account, events: seq<Event>, n: nat)
    requires n <= |events|
    ensures LastSet(a, events, n, Run(a, events[..n]).passwordHash)
    decreases n
  {
    if n > 0 {
      var before := Run(a, events[..n - 1]);
      PrefixHashIsLastSet(a, events, n - 1);
      RunNext(a, events, n - 1);
      if SetsHash(before, events[n - 1]).Some? {
        assert NoneSets(a, events, n, n);
      } else if m :| 0 <= m < n - 1 && SetsHash(Run(a, events[..m]), events[m]) == Some(before.passwordHash)
                     && NoneSets(a, events, m + 1, n - 1) {
        assert NoneSets(a, events, m + 1, n);
      }
    }
  }

  /** After any run, the password is the one of the last successful redemption or password change. */
  lemma PasswordIsLastSet(a: Account, events: seq<Event>)
    ensures LastSet(a, events, |events|, Run(a, events).passwordHash)
  {
    PrefixHashIsLastSet(a, events, |events|);
    assert events[..|events|] == events;
  }

  // ---------- revocation over runs

  /** The clock never goes back, from `from` on. */
  predicate Monotone(from: nat, events: seq<Event>) {
    && (forall i :: 0 <= i < |events| ==> from <= events[i].at)
    && (forall i, j :: 0 <= i < j < |events| ==> events[i].at <= events[j].at)
  }

  predicate RevokedBy(a: Account, at: nat) {
    a.sessionsRevokedAt.Some? && at <= a.sessionsRevokedAt.value
  }

  predicate StampedBy(a: Account, now: nat) {
    a.sessionsRevokedAt.Some? ==> a.sessionsRevokedAt.value <= now
  }

  /** The revocation stamp never decreases. */
  lemma {:induction false} StampNeverDecreases(a: Account, now: nat, events: seq<Event>, at: nat)
    requires StampedBy(a, now) && Monotone(now, events) && RevokedBy(a, at)
    ensures RevokedBy(Run(a, events), at)
    decreases |events|
  {
    if |events| > 0 {
      var e := events[0];
      assert Monotone(e.at, events[1..]) by {
        assert forall i :: 0 <= i < |events[1..]| ==> events[1..][i] == events[i + 1];
      }
      StampNeverDecreases(Apply(a, e.at, e.action), e.at, events[1..], at);
    }
  }

  /** A token signed by default before a revocation is rejected after it, by the guard and by the reset,
      forever. */
  lemma RevokedForever(a: Account, p: Purpose, signed: nat, revoked: nat, events: seq<Event>, now: nat)
    requires StampedBy(a, revoked) && signed < revoked && Monotone(revoked, events)
    ensures var later := Run(Apply(a, revoked, Revoke), events);
            !Accepted(later, Sign(p, signed), now) && !Redeemable(later, Sign(p, signed), now)
  {
    StampNeverDecreases(Apply(a, revoked, Revoke), revoked, events, revoked);
  }

  /** A rejected token never becomes accepted again. */
  lemma {:induction false} RejectedStaysRejected(a: Account, token: Token, now: nat, events: seq<Event>, later: nat)
    requires StampedBy(a, now) && Monotone(now, events) && now <= later
    requires !Accepted(a, token, now)
    ensures !Accepted(Run(a, events), token, later)
  {
    if IsRevoked(a, token) {
      StampNeverDecreases(a, now, events, a.sessionsRevokedAt.value);
    } else if Expired(token, now) {
      assert now / SECOND <= later / SECOND;
    }
  }

  /** The event writes a new revocation stamp. */
  predicate WritesStamp(a: Account, e: Event) {
    e.action.Revoke? || (e.action.Redeem? && Redeemable(a, e.action.token, e.at))
  }

  lemma {:induction false} RunNext(a: Account, events: seq<Event>, n: nat)
    requires n < |events|
    ensures Run(a, events[..n + 1]) == Apply(Run(a, events[..n]), events[n].at, events[n].action)
    decreases n
  {
    if n > 0 {
      RunNext(Apply(a, events[0].at, events[0].action), events[1..], n - 1);
      assert events[..n + 1][1..] == events[1..][..n] && events[..n][1..] == events[1..][..n - 1];
    }
  }

  /** Every stamp the run writes is past the token's `iat`. */
  ghost predicate StampsPast(a: Account, events: seq<Event>, token: Token) {
    forall n :: 0 <= n < |events| && WritesStamp(Run(a, events[..n]), events[n]) ==>
                  token.iat * SECOND < events[n].at
  }

  lemma {:induction false} RevokedAfter(a: Account, events: seq<Event>, token: Token, n: nat)
    requires IsRevoked(a, token) && StampsPast(a, events, token) && n <= |events|
    ensures IsRevoked(Run(a, events[..n]), token)
    decreases n
  {
    if n > 0 {
      RevokedAfter(a, events, token, n - 1);
      RunNext(a, events, n - 1);
    }
  }

  /** Whatever the order of the clock readings: a revoked token stays revoked throughout a run if and only if
      every stamp the run writes is past its `iat`. */
  lemma StaysRevokedIff(a: Account, events: seq<Event>, token: Token)
    requires IsRevoked(a, token)
    ensures (forall n :: 0 <= n <= |events| ==> IsRevoked(Run(a, events[..n]), token)) <==> StampsPast(a, events, token)
  {
    if StampsPast(a, events, token) {
      forall n | 0 <= n <= |events| ensures IsRevoked(Run(a, events[..n]), token) {
        RevokedAfter(a, events, token, n);
      }
    } else {
      var n :| 0 <= n < |events| && WritesStamp(Run(a, events[..n]), events[n]) && events[n].at <= token.iat * SECOND;
      RunNext(a, events, n);
      assert !IsRevoked(Run(a, events[..n + 1]), token);
    }
  }

  /** The order of the stamps is what matters: were an older stamp written after a newer one, a rejected
      token would be accepted again. */
  lemma OlderStampRevivesToken(a: Account)
    ensures var token := Sign(Access, 1500);
            && !Accepted(Run(a, [Event(2000, Revoke)]), token, 2000)
            && Accepted(Run(a, [Event(2000, Revoke), Event(1000, Revoke)]), token, 2000)
  {
    var newer, older := Event(2000, Revoke), Event(1000, Revoke);
    assert [newer, older][1..] == [older] && [newer][1..] == [] && [older][1..] == [];
    assert Run(a, [newer]) == Run(Apply(a, 2000, Revoke), []);
    assert Run(Apply(a, 2000, Revoke), [older]) == Run(Apply(Apply(a, 2000, Revoke), 1000, Revoke), []);
  }

  /** A default token against one revocation, exactly: it is rejected if and only if the revocation came
      after the start of the second it was signed in. A login later in that same second is rejected too. */
  lemma DefaultTokenRejectedIff(a: Account, p: Purpose, signed: nat, revoked: nat)
    ensures IsRevoked(Apply(a, revoked, Revoke), Sign(p, signed)) <==> signed / SECOND * SECOND < revoked
    ensures signed < revoked ==> IsRevoked(Apply(a, revoked, Revoke), Sign(p, signed))
    ensures signed / SECOND > revoked / SECOND ==> !IsRevoked(Apply(a, revoked, Revoke), Sign(p, signed))
  {
  }

  /** A login just after a revocation, in the same second, gets a token that is already rejected. */
  lemma LoginInRevocationSecondIsRejected(a: Account)
    ensures !Accepted(Apply(a, 1500, Revoke), Sign(Access, 1600), 1600)
  {
  }

  /** The token returned by a reset at `r` passes the guard for its whole life until a later stamp; its
      pinned time is past the stamp by 1 to 1000 ms. */
  lemma ResetTokenPasses(a: Account, token: Token, newHash: nat, r: nat, now: nat)
    requires Redeemable(a, token, r) && r <= now < (r / SECOND + 1 + ACCESS_TTL) * SECOND
    ensures Accepted(Apply(a, r, Redeem(token, newHash)), SignPinned(r), now)
    ensures 1 <= SignPinned(r).iat * SECOND - r <= SECOND
  {
  }

  /** The pinned time lies in the future, so a revocation can come too early for it. A pinned token signed
      at `r` is rejected after a later revocation exactly when that one is stamped past the next second. */
  lemma PinnedTokenRevokedIff(a: Account, r: nat, revoked: nat)
    requires r <= revoked
    ensures IsRevoked(Apply(a, revoked, Revoke), SignPinned(r)) <==> (r / SECOND + 1) * SECOND < revoked
  {
  }

  /** So a revocation 500 ms after the reset leaves the reset's own session alive. */
  lemma PinnedTokenSurvivesQuickRevocation(a: Account)
    ensures Accepted(Apply(a, 500, Revoke), SignPinned(0), 600)
  {
  }

  // ---------- a reset link is used at most once

  function Redemptions(a: Account, token: Token, events: seq<Event>): nat
    decreases |events|
  {
    if |events| == 0 then 0
    else
      var e := events[0];
      (if e.action.Redeem? && e.action.token == token && Redeemable(a, token, e.at) then 1 else 0)
      + Redemptions(Apply(a, e.at, e.action), token, events[1..])
  }

  lemma {:induction false} RevokedIsNeverRedeemed(a: Account, token: Token, now: nat, events: seq<Event>)
    requires StampedBy(a, now) && Monotone(now, events) && IsRevoked(a, token)
    ensures Redemptions(a, token, events) == 0
    decreases |events|
  {
    if |events| > 0 {
      var e := events[0];
      assert Monotone(e.at, events[1..]) by {
        assert forall i :: 0 <= i < |events[1..]| ==> events[1..][i] == events[i + 1];
      }
      RevokedIsNeverRedeemed(Apply(a, e.at, e.action), token, e.at, events[1..]);
    }
  }

  /** A reset token redeems at most once over any run whose redemptions of it come after the first
      millisecond of the second it was signed in; revocations and other changes may come at any time. */
  lemma {:induction false} RedeemsAtMostOnce(a: Account, signed: nat, now: nat, events: seq<Event>)
    requires StampedBy(a, now) && Monotone(now, events)
    requires forall i :: 0 <= i < |events| && events[i].action.Redeem?
                         && events[i].action.token == Sign(PasswordReset, signed) ==>
                           signed / SECOND * SECOND < events[i].at
    ensures Redemptions(a, Sign(PasswordReset, signed), events) <= 1
    decreases |events|
  {
    if |events| > 0 {
      var e := events[0];
      var token := Sign(PasswordReset, signed);
      assert forall i :: 0 <= i < |events[1..]| ==> events[1..][i] == events[i + 1];
      var a' := Apply(a, e.at, e.action);
      if e.action.Redeem? && e.action.token == token && Redeemable(a, token, e.at) {
        RevokedIsNeverRedeemed(a', token, e.at, events[1..]);
      } else {
        RedeemsAtMostOnce(a', signed, e.at, events[1..]);
      }
    }
  }

  /** A redeemed token can be redeemed again, at any time until it expires, exactly when it was redeemed in
      the millisecond that starts the second it was signed in. */
  lemma ReplayPossibleIff(a: Account, signed: nat, r: nat, newHash: nat)
    requires signed <= r && Redeemable(a, Sign(PasswordReset, signed), r)
    ensures var token := Sign(PasswordReset, signed);
            var after := Apply(a, r, Redeem(token, newHash));
            forall later :: r <= later && !Expired(token, later) ==>
                              (Redeemable(after, token, later) <==> r == signed / SECOND * SECOND)
  {
  }
}
