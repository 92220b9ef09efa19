/*
 * The two in-memory stores of accounts/views.py and the views that drive
 * them: the per-address login-attempt tracker of `login_view`, and the
 * one-time-password store of `forgot_password_view` and `resend_otp_view`.
 *
 * Each view action is a pure step function from the old store to a reply
 * and the new store; `AccountStore` holds both stores as fields and its
 * methods update them in place, each proved equal to its step function.
 * The clock is an integer number of seconds, and what the views ask of
 * Django (does a user with this e-mail exist, did the password check
 * pass, did the mail go out, which code did `generate_otp` draw) is given
 * as parameters.
 */
module Accounts {
  import opened Text
  import opened Validators

  /** The HTTP status and the `success` flag of a JSON reply. */
  datatype Response = Response(status: int, success: bool)

  const Ok := Response(200, true)

  function Fail(status: int): Response {
    Response(status, false)
  }

  /** `map[k]` and `map'[k]` agree on every key other than `k`. */
  ghost predicate AgreeOutside<K(!new), V>(a: map<K, V>, b: map<K, V>, k: K) {
    forall x :: x != k ==> (x in a <==> x in b) && (x in a ==> a[x] == b[x])
  }

  // ---------------------------------------------------------------------
  // The login tracker (`login_attempts`)
  // ---------------------------------------------------------------------

  /** A client address as `get_client_ip` reports it; it may be absent. */
  type Ip = Option<string>

  datatype AttemptRecord = AttemptRecord(count: nat, lastAttempt: int)

  type Tracker = map<Ip, AttemptRecord>

  /** Every entry records at least one failure. */
  predicate TrackerValid(t: Tracker) {
    forall ip :: ip in t ==> t[ip].count >= 1
  }

  /** The end of the lockout window of an entry, in seconds. */
  function LockoutUntil(rec: AttemptRecord): int {
    rec.lastAttempt + 60 * LockoutMinutes(rec.count)
  }

  /**
   * Lines 177-187: the seconds left of the address's lockout, or None
   * when it may try to log in.
   */
  function LockoutRemaining(t: Tracker, ip: Ip, now: int): (r: Option<nat>)
    ensures r.Some? <==> ip in t && LockoutMinutes(t[ip].count) > 0 && now < LockoutUntil(t[ip])
    ensures r.Some? ==> r.value > 0 && now + r.value == LockoutUntil(t[ip])
  {
    if ip in t && LockoutMinutes(t[ip].count) > 0 && now < LockoutUntil(t[ip]) then
      Some(LockoutUntil(t[ip]) - now)
    else
      None
  }

  /** Lines 185-186: the wait shown to the user, as minutes and seconds. */
  function SplitWait(remaining: nat): (r: (nat, nat))
    ensures r.0 * 60 + r.1 == remaining && r.1 < 60
  {
    (remaining / 60, remaining % 60)
  }

  /**
   * Lines 218-223 and 256-261: a failed attempt creates the entry at zero
   * when absent, then counts one more failure at `now`.
   */
  function RecordFailure(t: Tracker, ip: Ip, now: int): (t': Tracker)
    ensures ip in t' && t'[ip].lastAttempt == now
    ensures t'[ip].count == (if ip in t then t[ip].count else 0) + 1
    ensures AgreeOutside(t, t', ip)
    ensures TrackerValid(t) ==> TrackerValid(t')
  {
    t[ip := AttemptRecord((if ip in t then t[ip].count else 0) + 1, now)]
  }

  /**
   * What `User.objects.get(email__iexact=...)` and `authenticate` report:
   * no user with that address, or one whose password check passed or not.
   */
  datatype UserLookup = NoSuchUser | Found(authenticated: bool, isActive: bool, hasHotel: bool)

  /** The extra fields of a reply: the lockout wait, or the warning after a failure. */
  datatype LoginDetail =
    | NoDetail
    | LockedOut(remainingSeconds: nat, minutes: nat, seconds: nat)
    | Warned(attemptsLeft: nat, nextLockoutMinutes: nat)

  datatype LoginOutcome = LoginOutcome(reply: Response, detail: LoginDetail, tracker: Tracker)

  /** The reply after a wrong password, given the count just recorded. */
  function FailureWarning(count: nat): (d: LoginDetail)
    ensures d.Warned? ==> 1 <= d.attemptsLeft <= 3 && (count + d.attemptsLeft) % 5 == 0
    ensures d.Warned? ==> d.nextLockoutMinutes == LockoutMinutes(count + d.attemptsLeft)
    ensures d == NoDetail <==> AttemptsUntilLockout(count) > 3
    ensures d.Warned? <==> AttemptsUntilLockout(count) <= 3
    ensures !d.LockedOut?
  {
    var k := AttemptsUntilLockout(count);
    if k <= 3 then Warned(k, LockoutMinutes(count + k)) else NoDetail
  }

  /** The e-mail as the views normalise it: stripped and lower-cased. */
  function NormalEmail(raw: string): string {
    Lower(Strip(raw))
  }

  /**
   * Lines 214-277: the lookup and `authenticate` once the input is well
   * formed: an unknown address or a wrong password counts a failure, the
   * latter with the warning; an inactive or hotel-less user gets 403.
   */
  function CredentialStep(t: Tracker, ip: Ip, now: int, user: UserLookup): (o: LoginOutcome)
    ensures o.reply.success <==> o.reply.status == 200
    ensures o.reply.status in {200, 401, 403}
    ensures o.reply.success <==> user == Found(true, true, true)
    ensures o.reply.status == 401 <==> user.NoSuchUser? || !user.authenticated
    ensures o.reply.status == 403 ==> o.tracker == t
    ensures o.reply.status == 401 ==> o.tracker == RecordFailure(t, ip, now)
    ensures o.reply.success ==> o.tracker == t - {ip}
    ensures o.reply.status == 401 && user.Found? ==> o.detail == FailureWarning(RecordFailure(t, ip, now)[ip].count)
    ensures !(o.reply.status == 401 && user.Found?) ==> o.detail == NoDetail
    ensures !o.detail.LockedOut?
    ensures AgreeOutside(t, o.tracker, ip)
    ensures TrackerValid(t) ==> TrackerValid(o.tracker)
  {
    if user.NoSuchUser? then
      LoginOutcome(Fail(401), NoDetail, RecordFailure(t, ip, now))
    else if user.authenticated then
      if !user.isActive || !user.hasHotel then LoginOutcome(Fail(403), NoDetail, t)
      else LoginOutcome(Ok, NoDetail, t - {ip})
    else
      var t' := RecordFailure(t, ip, now);
      LoginOutcome(Fail(401), FailureWarning(t'[ip].count), t')
  }

  /** Lines 177-277: one POST to `login_view`. */
  function LoginStep(t: Tracker, ip: Ip, rawEmail: string, password: string, now: int, user: UserLookup): (o: LoginOutcome)
    ensures o.reply.success <==> o.reply.status == 200
    ensures o.reply.status in {200, 400, 401, 403, 429}
    ensures o.reply.success <==>
              && LockoutRemaining(t, ip, now).None?
              && MatchesEmailPattern(NormalEmail(rawEmail)) && password != []
              && user == Found(true, true, true)
    ensures o.reply.status == 429 <==> LockoutRemaining(t, ip, now).Some?
    ensures o.reply.status == 401 <==>
              && LockoutRemaining(t, ip, now).None?
              && MatchesEmailPattern(NormalEmail(rawEmail)) && password != []
              && (user.NoSuchUser? || !user.authenticated)
    ensures o.reply.status == 400 <==>
              && LockoutRemaining(t, ip, now).None?
              && (!MatchesEmailPattern(NormalEmail(rawEmail)) || password == [])
    ensures o.reply.status == 403 <==>
              && LockoutRemaining(t, ip, now).None?
              && MatchesEmailPattern(NormalEmail(rawEmail)) && password != []
              && user.Found? && user.authenticated && (!user.isActive || !user.hasHotel)
    ensures o.reply.status == 429 ==>
              var w := LockoutRemaining(t, ip, now).value;
              o.detail == LockedOut(w, SplitWait(w).0, SplitWait(w).1)
    ensures o.reply.status in {400, 403, 429} ==> o.tracker == t
    ensures o.reply.status == 401 ==> o.tracker == RecordFailure(t, ip, now)
    ensures o.reply.success ==> o.tracker == t - {ip}
    ensures o.reply.status == 401 && user.Found? ==> o.detail == FailureWarning(RecordFailure(t, ip, now)[ip].count)
    ensures o.detail.Warned? ==> o.reply.status == 401 && user.Found?
    ensures o.detail.LockedOut? <==> o.reply.status == 429
    ensures o.reply.status != 429 && !(o.reply.status == 401 && user.Found?) ==> o.detail == NoDetail
    ensures AgreeOutside(t, o.tracker, ip)
    ensures TrackerValid(t) ==> TrackerValid(o.tracker)
  {
    var wait := LockoutRemaining(t, ip, now);
    var email := NormalEmail(rawEmail);
    if wait.Some? then
      var w := wait.value;
      LoginOutcome(Fail(429), LockedOut(w, SplitWait(w).0, SplitWait(w).1), t)
    else if CheckEmail(email).Some? || password == [] then
      LoginOutcome(Fail(400), NoDetail, t)
    else
      CredentialStep(t, ip, now, user)
  }

  /** The warning after a wrong password names a lockout that will happen. */
  lemma WarningAnnouncesRealLockout(t: Tracker, ip: Ip, rawEmail: string, password: string, now: int, user: UserLookup)
    ensures var o := LoginStep(t, ip, rawEmail, password, now, user);
            o.detail.Warned? ==> o.detail.nextLockoutMinutes > 0
  {
    var o := LoginStep(t, ip, rawEmail, password, now, user);
    if o.detail.Warned? {
      AnnouncedLockoutIsReal(RecordFailure(t, ip, now)[ip].count);
    }
  }

  /** The same credentials tried from one address at each of `times`, in order. */
  function LoginReplay(t: Tracker, ip: Ip, rawEmail: string, password: string, times: seq<int>, user: UserLookup): Tracker
    decreases |times|
  {
    if times == [] then t
    else
      var before := LoginReplay(t, ip, rawEmail, password, times[..|times| - 1], user);
      LoginStep(before, ip, rawEmail, password, times[|times| - 1], user).tracker
  }

  /** A failed attempt: well-formed input that does not authenticate. */
  predicate WrongCredentials(rawEmail: string, password: string, user: UserLookup) {
    MatchesEmailPattern(NormalEmail(rawEmail)) && password != [] && (user.NoSuchUser? || !user.authenticated)
  }

  /** Up to five failures from a fresh address are each counted, none locked out. */
  lemma {:induction false} FailuresCounted(t: Tracker, ip: Ip, rawEmail: string, password: string, times: seq<int>, user: UserLookup)
    requires ip !in t && |times| <= 5
    requires WrongCredentials(rawEmail, password, user)
    ensures var t' := LoginReplay(t, ip, rawEmail, password, times, user);
            && AgreeOutside(t, t', ip)
            && (times == [] ==> t' == t)
            && (times != [] ==> ip in t' && t'[ip] == AttemptRecord(|times|, times[|times| - 1]))
  {
    if times != [] {
      var prefix := times[..|times| - 1];
      FailuresCounted(t, ip, rawEmail, password, prefix, user);
      var before := LoginReplay(t, ip, rawEmail, password, prefix, user);
      assert ip in before ==> before[ip].count == |prefix| < 5;
    }
  }

  /**
   * Five failures lock the address out for two minutes from the last one:
   * even the right password is then refused with 429.
   */
  lemma FiveFailuresLockOut(t: Tracker, ip: Ip, rawEmail: string, password: string, times: seq<int>, user: UserLookup,
                            email2: string, password2: string, user2: UserLookup, now: int)
    requires ip !in t && |times| == 5
    requires WrongCredentials(rawEmail, password, user)
    requires times[4] <= now < times[4] + 120
    ensures var t' := LoginReplay(t, ip, rawEmail, password, times, user);
            var o := LoginStep(t', ip, email2, password2, now, user2);
            o.reply == Fail(429) && o.tracker == t' && o.detail.remainingSeconds == times[4] + 120 - now
  {
    FailuresCounted(t, ip, rawEmail, password, times, user);
  }

  /** The lockout ends: once its window has passed the address may try again. */
  lemma LockoutExpires(t: Tracker, ip: Ip, now: int)
    requires ip in t && now >= LockoutUntil(t[ip])
    ensures LockoutRemaining(t, ip, now).None?
  {
  }

  /** No lockout lasts longer than ten minutes from the last failure. */
  lemma LockoutAtMostTenMinutes(t: Tracker, ip: Ip, now: int)
    requires ip in t && t[ip].lastAttempt <= now
    ensures LockoutRemaining(t, ip, now).Some? ==> LockoutRemaining(t, ip, now).value <= 600
  {
  }

  // ---------------------------------------------------------------------
  // The one-time-password store (`otp_storage`)
  // ---------------------------------------------------------------------

  const OtpCooldown := 60
  const OtpLifetime := 600
  const MaxOtpAttempts := 5

  datatype OtpRecord = OtpRecord(code: string, email: string, createdAt: int, lastSent: int, attempts: nat, verified: bool)

  type OtpStore = map<string, OtpRecord>

  /** Lines 624, 671, 728 and 879: the store key of an address. */
  function OtpKey(email: string): (key: string)
    ensures |key| == |email| + 4 && key[..4] == "otp_" && key[4..] == email
  {
    "otp_" + email
  }

  lemma OtpKeyInjective(a: string, b: string)
    requires OtpKey(a) == OtpKey(b)
    ensures a == b
  {
    assert a == OtpKey(a)[4..];
  }

  /**
   * Every record sits under the key of its own address, was last sent when
   * it was created, and has not counted more than five wrong codes.
   */
  predicate OtpStoreValid(s: OtpStore) {
    forall key :: key in s ==>
      && key == OtpKey(s[key].email)
      && s[key].lastSent == s[key].createdAt
      && s[key].attempts <= MaxOtpAttempts
  }

  /** Lines 636-644: the record that a new code replaces the old one with. */
  function FreshOtp(code: string, email: string, now: int): (r: OtpRecord)
    ensures r.code == code && r.email == email && r.createdAt == now && r.lastSent == now
    ensures r.attempts == 0 && !r.verified
  {
    OtpRecord(code, email, now, now, 0, false)
  }

  datatype OtpOutcome = OtpOutcome(reply: Response, store: OtpStore)

  /** Lines 626-629: a code was sent to this key less than a minute ago. */
  predicate InCooldown(s: OtpStore, key: string, now: int) {
    key in s && now - s[key].lastSent < OtpCooldown
  }

  /**
   * Lines 622-656 and 882-909: the part `send_otp` and `resend_otp_view`
   * share once the address is known: the cooldown, then a fresh record,
   * which is stored whether or not the mail went out.
   */
  function IssueOtp(s: OtpStore, email: string, now: int, code: string, mailed: bool): (o: OtpOutcome)
    ensures o.reply.status == 429 <==> InCooldown(s, OtpKey(email), now)
    ensures o.reply.status == 429 ==> o.reply == Fail(429) && o.store == s
    ensures o.reply.status != 429 ==> o.store == s[OtpKey(email) := FreshOtp(code, email, now)]
    ensures o.reply.status != 429 ==> o.reply == (if mailed then Ok else Fail(500))
    ensures OtpStoreValid(s) ==> OtpStoreValid(o.store)
  {
    var key := OtpKey(email);
    if InCooldown(s, key, now) then OtpOutcome(Fail(429), s)
    else OtpOutcome(if mailed then Ok else Fail(500), s[key := FreshOtp(code, email, now)])
  }

  /*
   * The step functions below take the address as the views normalise it
   * (`NormalEmail`) and the code as stripped; `AccountStore` does that
   * normalisation before calling them.
   */

  /**
   * Lines 594-656: action `send_otp`. An unknown address is answered as a
   * known one would be, and nothing is stored for it.
   */
  function SendOtpStep(s: OtpStore, email: string, now: int, code: string, userExists: bool, mailed: bool): (o: OtpOutcome)
    ensures o.reply.status == 400 <==> !MatchesEmailPattern(email)
    ensures o.reply.status == 400 ==> o.reply == Fail(400) && o.store == s
    ensures MatchesEmailPattern(email) && !userExists ==> o == OtpOutcome(Ok, s)
    ensures MatchesEmailPattern(email) && userExists ==> o == IssueOtp(s, email, now, code, mailed)
    ensures OtpStoreValid(s) ==> OtpStoreValid(o.store)
  {
    if CheckEmail(email).Some? then OtpOutcome(Fail(400), s)
    else if !userExists then OtpOutcome(Ok, s)
    else IssueOtp(s, email, now, code, mailed)
  }

  /**
   * Lines 856-913: `resend_otp_view`, the same as `send_otp` except that
   * the address is only required to be non-empty.
   */
  function ResendOtpStep(s: OtpStore, email: string, now: int, code: string, userExists: bool, mailed: bool): (o: OtpOutcome)
    ensures o.reply.status == 400 <==> email == []
    ensures o.reply.status == 400 ==> o.reply == Fail(400) && o.store == s
    ensures email != [] && !userExists ==> o == OtpOutcome(Ok, s)
    ensures email != [] && userExists ==> o == IssueOtp(s, email, now, code, mailed)
    ensures OtpStoreValid(s) ==> OtpStoreValid(o.store)
  {
    if email == [] then OtpOutcome(Fail(400), s)
    else if !userExists then OtpOutcome(Ok, s)
    else IssueOtp(s, email, now, code, mailed)
  }

  /** The record exists and the request names it with a non-empty code. */
  predicate Presented(s: OtpStore, email: string, code: string) {
    email != [] && code != [] && OtpKey(email) in s
  }

  /** Lines 681-687: the code was issued more than ten minutes ago. */
  predicate Expired(rec: OtpRecord, now: int) {
    now - rec.createdAt > OtpLifetime
  }

  /** Lines 661-712: action `verify_otp`. */
  function VerifyOtpStep(s: OtpStore, email: string, code: string, now: int): (o: OtpOutcome)
    ensures o.reply.success <==> o.reply.status == 200
    ensures o.reply.status in {200, 400, 429}
    ensures !Presented(s, email, code) ==> o == OtpOutcome(Fail(400), s)
    ensures Presented(s, email, code) ==>
              var key := OtpKey(email);
              var rec := s[key];
              && (Expired(rec, now) ==> o == OtpOutcome(Fail(400), s - {key}))
              && (!Expired(rec, now) && rec.attempts >= MaxOtpAttempts ==> o == OtpOutcome(Fail(429), s - {key}))
              && (!Expired(rec, now) && rec.attempts < MaxOtpAttempts && rec.code != code ==>
                    o == OtpOutcome(Fail(400), s[key := rec.(attempts := rec.attempts + 1)]))
              && (!Expired(rec, now) && rec.attempts < MaxOtpAttempts && rec.code == code ==>
                    o == OtpOutcome(Ok, s[key := rec.(verified := true)]))
    ensures AgreeOutside(s, o.store, OtpKey(email))
    ensures OtpStoreValid(s) ==> OtpStoreValid(o.store)
  {
    var key := OtpKey(email);
    if !Presented(s, email, code) then OtpOutcome(Fail(400), s)
    else
      var rec := s[key];
      if Expired(rec, now) then OtpOutcome(Fail(400), s - {key})
      else if rec.attempts >= MaxOtpAttempts then OtpOutcome(Fail(429), s - {key})
      else if rec.code != code then OtpOutcome(Fail(400), s[key := rec.(attempts := rec.attempts + 1)])
      else OtpOutcome(Ok, s[key := rec.(verified := true)])
  }

  /**
   * Lines 715-830: action `reset_password`. Neither the age of the record
   * nor its wrong-code count is looked at again.
   */
  function ResetPasswordStep(s: OtpStore, email: string, code: string, newPassword: string, confirmPassword: string,
                             userExists: bool): (o: OtpOutcome)
    ensures o.reply.success <==> o.reply.status == 200
    ensures o.reply.status in {200, 400, 404}
    ensures o.reply.success <==>
              && Presented(s, email, code) && s[OtpKey(email)].verified && s[OtpKey(email)].code == code
              && IsStrongPassword(newPassword) && newPassword == confirmPassword
              && userExists
    ensures o.reply.status == 404 <==>
              && Presented(s, email, code) && s[OtpKey(email)].verified && s[OtpKey(email)].code == code
              && IsStrongPassword(newPassword) && newPassword == confirmPassword
              && !userExists
    ensures o.reply.success ==> o.store == s - {OtpKey(email)}
    ensures !o.reply.success ==> o.store == s
    ensures OtpStoreValid(s) ==> OtpStoreValid(o.store)
  {
    var key := OtpKey(email);
    if !Presented(s, email, code) then OtpOutcome(Fail(400), s)
    else if !s[key].verified || s[key].code != code then OtpOutcome(Fail(400), s)
    else if CheckPasswordStrength(newPassword).Some? then OtpOutcome(Fail(400), s)
    else if confirmPassword == [] || newPassword != confirmPassword then OtpOutcome(Fail(400), s)
    else if !userExists then OtpOutcome(Fail(404), s)
    else OtpOutcome(Ok, s - {key})
  }

  // ---------------------------------------------------------------------
  // What the OTP actions promise when chained
  // ---------------------------------------------------------------------

  /** Within a minute of a code being issued, neither action issues another. */
  lemma CooldownBlocksReissue(s: OtpStore, email: string, t0: int, t1: int, code: string, code2: string,
                              mailed: bool, mailed2: bool)
    requires MatchesEmailPattern(email) && !InCooldown(s, OtpKey(email), t0)
    requires t0 <= t1 < t0 + OtpCooldown
    ensures var s1 := SendOtpStep(s, email, t0, code, true, mailed).store;
            && SendOtpStep(s1, email, t1, code2, true, mailed2) == OtpOutcome(Fail(429), s1)
            && ResendOtpStep(s1, email, t1, code2, true, mailed2) == OtpOutcome(Fail(429), s1)
  {
    var s1 := SendOtpStep(s, email, t0, code, true, mailed).store;
    assert InCooldown(s1, OtpKey(email), t1);
  }

  /**
   * The whole reset: a code issued, then verified within ten minutes, then
   * used with a strong password, leaves the store as it was without the
   * address's record. The reset itself may come at any later time.
   */
  lemma ResetFlowSucceeds(s: OtpStore, email: string, code: string, t0: int, t1: int, password: string, mailed: bool)
    requires MatchesEmailPattern(email) && !InCooldown(s, OtpKey(email), t0)
    requires code != [] && t1 - t0 <= OtpLifetime && IsStrongPassword(password)
    ensures var o1 := SendOtpStep(s, email, t0, code, true, mailed);
            var o2 := VerifyOtpStep(o1.store, email, code, t1);
            var o3 := ResetPasswordStep(o2.store, email, code, password, password, true);
            o1.reply == (if mailed then Ok else Fail(500)) && o2.reply == Ok && o3 == OtpOutcome(Ok, s - {OtpKey(email)})
  {
    var key := OtpKey(email);
    var s1 := SendOtpStep(s, email, t0, code, true, mailed).store;
    assert s1 == s[key := FreshOtp(code, email, t0)];
    var s2 := VerifyOtpStep(s1, email, code, t1).store;
    assert s2 == s[key := FreshOtp(code, email, t0).(verified := true)];
    assert s2 - {key} == s - {key};
  }

  /** A code older than ten minutes is refused even when right, and its record is gone. */
  lemma ExpiredCodeRefused(s: OtpStore, email: string, code: string, t0: int, t1: int, mailed: bool,
                           password: string, userExists: bool)
    requires MatchesEmailPattern(email) && !InCooldown(s, OtpKey(email), t0)
    requires code != [] && t1 - t0 > OtpLifetime
    ensures var s1 := SendOtpStep(s, email, t0, code, true, mailed).store;
            var o2 := VerifyOtpStep(s1, email, code, t1);
            && o2 == OtpOutcome(Fail(400), s - {OtpKey(email)})
            && ResetPasswordStep(o2.store, email, code, password, password, userExists).reply == Fail(400)
  {
    var key := OtpKey(email);
    var s1 := SendOtpStep(s, email, t0, code, true, mailed).store;
    assert s1 - {key} == s - {key};
  }

  /** One `verify_otp` request: the code typed and when it arrived. */
  datatype Guess = Guess(code: string, at: int)

  /** The store after the guesses, in order, for one address. */
  function VerifyReplay(s: OtpStore, email: string, guesses: seq<Guess>): OtpStore
    decreases |guesses|
  {
    if guesses == [] then s
    else
      var g := guesses[|guesses| - 1];
      VerifyOtpStep(VerifyReplay(s, email, guesses[..|guesses| - 1]), email, g.code, g.at).store
  }

  /** Each guess is a non-empty wrong code sent while the record is still fresh. */
  predicate AllWrongInTime(rec: OtpRecord, guesses: seq<Guess>) {
    forall i :: 0 <= i < |guesses| ==>
      guesses[i].code != [] && guesses[i].code != rec.code && !Expired(rec, guesses[i].at)
  }

  /** Wrong guesses, up to the cap, are each counted once on the record. */
  lemma {:induction false} WrongGuessesCounted(s: OtpStore, email: string, guesses: seq<Guess>)
    requires email != [] && OtpKey(email) in s
    requires s[OtpKey(email)].attempts + |guesses| <= MaxOtpAttempts
    requires AllWrongInTime(s[OtpKey(email)], guesses)
    ensures var key := OtpKey(email);
            VerifyReplay(s, email, guesses) == s[key := s[key].(attempts := s[key].attempts + |guesses|)]
    decreases |guesses|
  {
    var key := OtpKey(email);
    var rec := s[key];
    if guesses == [] {
      assert s[key := rec.(attempts := rec.attempts + 0)] == s;
    } else {
      var prefix := guesses[..|guesses| - 1];
      assert AllWrongInTime(rec, prefix) by {
        forall i | 0 <= i < |prefix| ensures prefix[i] == guesses[i] { }
      }
      WrongGuessesCounted(s, email, prefix);
      var g := guesses[|guesses| - 1];
      assert g == guesses[|guesses| - 1];
      var before := s[key := rec.(attempts := rec.attempts + |prefix|)];
      assert before[key := before[key].(attempts := before[key].attempts + 1)]
          == s[key := rec.(attempts := rec.attempts + |guesses|)];
    }
  }

  /**
   * After five wrong codes the next request, even with the right code, is
   * refused with 429 and the record is dropped, so no reset can follow.
   */
  lemma FiveWrongCodesLockOut(s: OtpStore, email: string, code: string, t0: int, mailed: bool,
                              guesses: seq<Guess>, now: int, password: string, userExists: bool)
    requires MatchesEmailPattern(email) && !InCooldown(s, OtpKey(email), t0)
    requires |guesses| == MaxOtpAttempts && AllWrongInTime(FreshOtp(code, email, t0), guesses)
    requires code != [] && now - t0 <= OtpLifetime
    ensures var s1 := SendOtpStep(s, email, t0, code, true, mailed).store;
            var o := VerifyOtpStep(VerifyReplay(s1, email, guesses), email, code, now);
            && o == OtpOutcome(Fail(429), s - {OtpKey(email)})
            && ResetPasswordStep(o.store, email, code, password, password, userExists).reply == Fail(400)
  {
    var key := OtpKey(email);
    var s1 := SendOtpStep(s, email, t0, code, true, mailed).store;
    assert s1 == s[key := FreshOtp(code, email, t0)];
    WrongGuessesCounted(s1, email, guesses);
    var s2 := VerifyReplay(s1, email, guesses);
    assert s2 - {key} == s - {key};
  }

  // ---------------------------------------------------------------------
  // The two module-level dictionaries and the view actions over them
  // ---------------------------------------------------------------------

  class AccountStore {
    /** `login_attempts`: failures per client address. */
    var loginAttempts: Tracker
    /** `otp_storage`: the pending code per address key. */
    var otpStorage: OtpStore

    ghost predicate Valid()
      reads this
    {
      TrackerValid(loginAttempts) && OtpStoreValid(otpStorage)
    }

    /** Both dictionaries start empty when the module is loaded. */
    constructor ()
      ensures Valid() && loginAttempts == map[] && otpStorage == map[]
    {
      loginAttempts := map[];
      otpStorage := map[];
    }

    /** Lines 218-223 and 256-261: create the entry at zero if absent, then count. */
    method CountFailure(ip: Ip, now: int)
      modifies this
      ensures loginAttempts == RecordFailure(old(loginAttempts), ip, now)
      ensures otpStorage == old(otpStorage)
    {
      if ip !in loginAttempts {
        loginAttempts := loginAttempts[ip := AttemptRecord(0, now)];
      }
      var rec := loginAttempts[ip];
      loginAttempts := loginAttempts[ip := rec.(count := rec.count + 1, lastAttempt := now)];
    }

    /** Lines 256-272: a wrong password is counted, and the warning follows the new count. */
    method CountWrongPassword(ip: Ip, now: int) returns (detail: LoginDetail)
      modifies this
      ensures loginAttempts == RecordFailure(old(loginAttempts), ip, now)
      ensures detail == FailureWarning(RecordFailure(old(loginAttempts), ip, now)[ip].count)
      ensures otpStorage == old(otpStorage)
    {
      CountFailure(ip, now);
      detail := FailureWarning(loginAttempts[ip].count);
    }

    /** Lines 177-192: the seconds left of the address's lockout, if any. */
    method CheckLockout(ip: Ip, now: int) returns (wait: Option<nat>)
      ensures wait.Some? <==> ip in loginAttempts && now < LockoutUntil(loginAttempts[ip])
                              && LockoutMinutes(loginAttempts[ip].count) > 0
      ensures wait.Some? ==> wait.value > 0 && now + wait.value == LockoutUntil(loginAttempts[ip])
      ensures wait == LockoutRemaining(loginAttempts, ip, now)
    {
      wait := None;
      if ip in loginAttempts {
        var rec := loginAttempts[ip];
        var minutes := LockoutMinutes(rec.count);
        if minutes > 0 {
          var until := rec.lastAttempt + 60 * minutes;
          if now < until {
            wait := Some(until - now);
          }
        }
      }
    }

    /** Lines 166-277: `login_view` on a POST. */
    method Login(forwardedFor: Option<string>, remoteAddr: Option<string>, rawEmail: string, password: string,
                 now: int, user: UserLookup) returns (reply: Response, detail: LoginDetail)
      requires Valid()
      modifies this
      ensures Valid()
      ensures var o := LoginStep(old(loginAttempts), ClientIp(forwardedFor, remoteAddr), rawEmail, password, now, user);
              reply == o.reply && detail == o.detail && loginAttempts == o.tracker
      ensures otpStorage == old(otpStorage)
    {
      var ip := ClientIp(forwardedFor, remoteAddr);
      reply, detail := LoginFrom(ip, rawEmail, password, now, user);
    }

    /** Lines 177-277: the login attempt once the client address is known. */
    method LoginFrom(ip: Ip, rawEmail: string, password: string, now: int, user: UserLookup)
      returns (reply: Response, detail: LoginDetail)
      requires Valid()
      modifies this
      ensures Valid()
      ensures var o := LoginStep(old(loginAttempts), ip, rawEmail, password, now, user);
              reply == o.reply && detail == o.detail && loginAttempts == o.tracker
      ensures otpStorage == old(otpStorage)
    {
      var wait := CheckLockout(ip, now);
      if wait.Some? {
        var remaining := wait.value;
        return Fail(429), LockedOut(remaining, remaining / 60, remaining % 60);
      }
      if CheckEmail(NormalEmail(rawEmail)).Some? || password == [] {
        return Fail(400), NoDetail;
      }
      reply, detail := Authenticate(ip, now, user);
    }

    /** Lines 214-277: the lookup and the password check. */
    method Authenticate(ip: Ip, now: int, user: UserLookup) returns (reply: Response, detail: LoginDetail)
      requires Valid()
      modifies this
      ensures Valid()
      ensures var o := CredentialStep(old(loginAttempts), ip, now, user);
              reply == o.reply && detail == o.detail && loginAttempts == o.tracker
      ensures otpStorage == old(otpStorage)
    {
      if user.NoSuchUser? {
        CountFailure(ip, now);
        return Fail(401), NoDetail;
      }
      if user.authenticated {
        if !user.isActive || !user.hasHotel {
          return Fail(403), NoDetail;
        }
        if ip in loginAttempts {
          loginAttempts := loginAttempts - {ip};
        } else {
          assert loginAttempts - {ip} == loginAttempts;
        }
        return Ok, NoDetail;
      }
      reply := Fail(401);
      detail := CountWrongPassword(ip, now);
    }

    /** Lines 622-656 and 882-909: the cooldown check, then a fresh record. */
    method Issue(email: string, now: int, code: string, mailed: bool) returns (reply: Response)
      modifies this
      ensures var o := IssueOtp(old(otpStorage), email, now, code, mailed);
              reply == o.reply && otpStorage == o.store
      ensures loginAttempts == old(loginAttempts)
    {
      var key := OtpKey(email);
      if key in otpStorage {
        var lastSent := otpStorage[key].lastSent;
        if now - lastSent < OtpCooldown {
          return Fail(429);
        }
      }
      otpStorage := otpStorage[key := FreshOtp(code, email, now)];
      reply := if mailed then Ok else Fail(500);
    }

    /** Lines 594-656: action `send_otp`. */
    method SendOtp(rawEmail: string, now: int, code: string, userExists: bool, mailed: bool) returns (reply: Response)
      requires Valid()
      modifies this
      ensures Valid()
      ensures var o := SendOtpStep(old(otpStorage), NormalEmail(rawEmail), now, code, userExists, mailed);
              reply == o.reply && otpStorage == o.store
      ensures loginAttempts == old(loginAttempts)
    {
      var email := NormalEmail(rawEmail);
      if email == [] || !MatchesEmailPattern(email) {
        return Fail(400);
      }
      if !userExists {
        return Ok;
      }
      reply := Issue(email, now, code, mailed);
    }

    /** Lines 856-913: `resend_otp_view`. */
    method ResendOtp(rawEmail: string, now: int, code: string, userExists: bool, mailed: bool) returns (reply: Response)
      requires Valid()
      modifies this
      ensures Valid()
      ensures var o := ResendOtpStep(old(otpStorage), NormalEmail(rawEmail), now, code, userExists, mailed);
              reply == o.reply && otpStorage == o.store
      ensures loginAttempts == old(loginAttempts)
    {
      var email := NormalEmail(rawEmail);
      if email == [] {
        return Fail(400);
      }
      if !userExists {
        return Ok;
      }
      reply := Issue(email, now, code, mailed);
    }

    /** Lines 661-712: action `verify_otp`. */
    method VerifyOtp(rawEmail: string, rawCode: string, now: int) returns (reply: Response)
      requires Valid()
      modifies this
      ensures Valid()
      ensures var o := VerifyOtpStep(old(otpStorage), NormalEmail(rawEmail), Strip(rawCode), now);
              reply == o.reply && otpStorage == o.store
      ensures loginAttempts == old(loginAttempts)
    {
      reply := VerifyCode(NormalEmail(rawEmail), Strip(rawCode), now);
    }

    /** Lines 670-712: the stored record checked against a normalised e-mail and code. */
    method VerifyCode(email: string, code: string, now: int) returns (reply: Response)
      requires Valid()
      modifies this
      ensures Valid()
      ensures var o := VerifyOtpStep(old(otpStorage), email, code, now);
              reply == o.reply && otpStorage == o.store
      ensures loginAttempts == old(loginAttempts)
    {
      if email == [] || code == [] {
        return Fail(400);
      }
      var key := OtpKey(email);
      if key !in otpStorage {
        return Fail(400);
      }
      var rec := otpStorage[key];
      if now - rec.createdAt > OtpLifetime {
        otpStorage := otpStorage - {key};
        return Fail(400);
      }
      if rec.attempts >= MaxOtpAttempts {
        otpStorage := otpStorage - {key};
        return Fail(429);
      }
      if rec.code != code {
        otpStorage := otpStorage[key := rec.(attempts := rec.attempts + 1)];
        return Fail(400);
      }
      otpStorage := otpStorage[key := rec.(verified := true)];
      reply := Ok;
    }

    /** Lines 715-830: action `reset_password`. */
    method ResetPassword(rawEmail: string, rawCode: string, newPassword: string, confirmPassword: string,
                         userExists: bool) returns (reply: Response)
      requires Valid()
      modifies this
      ensures Valid()
      ensures var o := ResetPasswordStep(old(otpStorage), NormalEmail(rawEmail), Strip(rawCode), newPassword,
                                         confirmPassword, userExists);
              reply == o.reply && otpStorage == o.store
      ensures loginAttempts == old(loginAttempts)
    {
      var email := NormalEmail(rawEmail);
      var code := Strip(rawCode);
      if email == [] || code == [] {
        return Fail(400);
      }
      var key := OtpKey(email);
      if key !in otpStorage {
        return Fail(400);
      }
      var rec := otpStorage[key];
      if !rec.verified || rec.code != code {
        return Fail(400);
      }
      if CheckPasswordStrength(newPassword).Some? {
        return Fail(400);
      }
      if confirmPassword == [] || newPassword != confirmPassword {
        return Fail(400);
      }
      if !userExists {
        return Fail(404);
      }
      otpStorage := otpStorage - {key};
      reply := Ok;
    }

    /** Lines 580-853: `forgot_password_view` on a POST, dispatching on `action`. */
    method ForgotPassword(action: string, rawEmail: string, rawCode: string, newPassword: string,
                          confirmPassword: string, now: int, code: string, userExists: bool, mailed: bool)
      returns (reply: Response)
      requires Valid()
      modifies this
      ensures Valid()
      ensures action == "send_otp" ==>
                var o := SendOtpStep(old(otpStorage), NormalEmail(rawEmail), now, code, userExists, mailed);
                reply == o.reply && otpStorage == o.store
      ensures action == "verify_otp" ==>
                var o := VerifyOtpStep(old(otpStorage), NormalEmail(rawEmail), Strip(rawCode), now);
                reply == o.reply && otpStorage == o.store
      ensures action == "reset_password" ==>
                var o := ResetPasswordStep(old(otpStorage), NormalEmail(rawEmail), Strip(rawCode), newPassword,
                                           confirmPassword, userExists);
                reply == o.reply && otpStorage == o.store
      ensures action !in {"send_otp", "verify_otp", "reset_password"} ==>
                reply == Fail(400) && otpStorage == old(otpStorage)
      ensures loginAttempts == old(loginAttempts)
    {
      if action == "send_otp" {
        reply := SendOtp(rawEmail, now, code, userExists, mailed);
      } else if action == "verify_otp" {
        reply := VerifyOtp(rawEmail, rawCode, now);
      } else if action == "reset_password" {
        reply := ResetPassword(rawEmail, rawCode, newPassword, confirmPassword, userExists);
      } else {
        reply := Fail(400);
      }
    }
  }
}
