/**
 * POST /auth/otp: one-time codes for the password reset.  "generate" draws a
 * code, stores its hash as the user's only OTP row and mails the code;
 * "verify" checks a code against the newest unexpired OTP of an email and
 * counts wrong codes in the row's failed_attempts column, locking the OTP
 * once the configured maximum is reached.
 *
 * password_hash, password_verify and FILTER_VALIDATE_EMAIL are parameters
 * (hashOf, matches, validEmail); random_int is the parameter draw; NOW() is
 * the parameter now, in seconds; whether the mail went out is the parameter
 * sent; fault stands for a PDOException from one of the statements.
 */
module Otp {
  import opened Wrappers
  import opened Strings
  import opened Php
  import Seqs
  import ConfigLoader
  import ResponseHelper

  /** A user row as far as OTPs need it: user_id, user and email. */
  datatype Account = Account(id: int, username: string, email: string)

  /** A user_otp row; created_at and expires_at in seconds. */
  datatype OtpRow = OtpRow(id: int, userId: int, hash: string, createdAt: int, expiresAt: int, failedAttempts: int)

  // ---------------------------------------------------------------------------
  // The action switch

  datatype Action = Generate | Verify | Invalid

  /**
   * The switch on the body's action field: a missing action is 422 before the
   * switch, and the case labels are compared loosely.
   */
  function ActionOf(action: Value): (r: Action)
    ensures r == Generate <==> action != Null && LooseEq(action, Str("generate"))
    ensures r == Verify <==> action != Null && !LooseEq(action, Str("generate")) && LooseEq(action, Str("verify"))
  {
    if action == Null then Invalid
    else if LooseEq(action, Str("generate")) then Generate
    else if LooseEq(action, Str("verify")) then Verify
    else Invalid
  }

  /** A word that starts and ends with a letter is not numeric. */
  lemma WordNotNumeric(w: string)
    requires |w| > 0 && 'a' <= w[0] <= 'z' && 'a' <= w[|w| - 1] <= 'z'
    ensures !IsIntString(w)
  {
    assert w[0] !in NumericBlanks;
    TrimLeftFixed(w, NumericBlanks);
    assert w[|w| - 1] !in NumericBlanks;
    TrimRightFixed(w, NumericBlanks);
    assert StripSign(w) == w;
    assert !IsDigit(w[0]);
  }

  /** The two action names select their handlers. */
  lemma ActionNames()
    ensures ActionOf(Str("generate")) == Generate && ActionOf(Str("verify")) == Verify
  {
    WordNotNumeric("generate");
    WordNotNumeric("verify");
    assert LooseEq(Str("generate"), Str("generate"));
    assert "verify" != "generate" by { assert "verify"[0] != "generate"[0]; }
    assert !LooseEq(Str("verify"), Str("generate"));
    assert LooseEq(Str("verify"), Str("verify"));
  }

  /** The labels are compared loosely: JSON true matches the first one, false matches neither. */
  lemma ActionBooleans()
    ensures ActionOf(Bool(true)) == Generate
    ensures ActionOf(Bool(false)) == Invalid
  {
    assert Truthy(Str("generate")) && Truthy(Str("verify"));
  }

  /** The number 0 matches neither label. */
  lemma ActionZero()
    ensures ActionOf(Int(0)) == Invalid
  {
    WordNotNumeric("generate");
    WordNotNumeric("verify");
    assert IntToString(0) == "0";
    assert !LooseEq(Int(0), Str("generate"));
    assert !LooseEq(Int(0), Str("verify"));
  }

  // ---------------------------------------------------------------------------
  // The code

  /** The code pattern on the trimmed code: exactly n ASCII digits. */
  predicate CodeFormatOk(code: string, length: int)
  {
    length >= 0 && |code| == length && AllDigits(code)
  }

  /** str_pad(random_int(0, 10^n - 1), n, '0', STR_PAD_LEFT). */
  function PaddedCode(draw: nat, length: int): (r: string)
    ensures AllDigits(r)
    ensures length >= 1 && draw < Pow10(length) ==> |r| == length
  {
    DigitsFit(draw, length);
    var digits := NatToString(draw);
    var r := LeftPad(digits, if length < 0 then 0 else length, '0');
    assert r == r[..|r| - |digits|] + r[|r| - |digits|..];
    r
  }

  lemma DigitsFit(draw: nat, length: int)
    ensures length >= 1 && draw < Pow10(length) ==> |NatToString(draw)| <= length
  {
    if length >= 1 && draw < Pow10(length) {
      NatToStringLength(draw, length);
    }
  }

  /**
   * Every code the generator can draw passes the format check of the
   * verifier, and reads back as the number drawn.
   */
  lemma GeneratedCodeWellFormed(draw: nat, length: int)
    requires length >= 1 && draw < Pow10(length)
    ensures CodeFormatOk(PaddedCode(draw, length), length)
    ensures DigitsValue(PaddedCode(draw, length)) == draw
  {
    var digits := NatToString(draw);
    PaddedZeros(draw, length);
    ZeroPaddedValue(PaddedCode(draw, length), digits);
    DigitsOfNat(draw);
  }

  /** The code is the digits of the draw with zeros in front. */
  lemma PaddedZeros(draw: nat, length: int)
    ensures ZeroPadded(PaddedCode(draw, length), NatToString(draw))
  {
  }

  /** Two different draws never give the same code. */
  lemma DistinctDrawsDistinctCodes(a: nat, b: nat, length: int)
    requires length >= 1 && a < Pow10(length) && b < Pow10(length) && a != b
    ensures PaddedCode(a, length) != PaddedCode(b, length)
  {
    GeneratedCodeWellFormed(a, length);
    GeneratedCodeWellFormed(b, length);
  }

  // ---------------------------------------------------------------------------
  // generate

  function WithEmail(email: string): Account -> bool
  {
    (a: Account) => a.email == email
  }

  /** WHERE user_id = ? AND created_at > DATE_SUB(NOW(), INTERVAL ? MINUTE). */
  function RecentFor(userId: int, since: int): OtpRow -> bool
  {
    (o: OtpRow) => o.userId == userId && o.createdAt > since
  }

  /** COUNT(*) of the user's OTPs created inside the rate-limit window is positive. */
  predicate RateLimited(otps: seq<OtpRow>, userId: int, now: int, minutes: int)
  {
    Seqs.Count(otps, RecentFor(userId, now - minutes * 60)) > 0
  }

  lemma RateLimitedMeans(otps: seq<OtpRow>, userId: int, now: int, minutes: int)
    ensures RateLimited(otps, userId, now, minutes) <==>
      exists i :: 0 <= i < |otps| && otps[i].userId == userId && otps[i].createdAt > now - minutes * 60
  {
    Seqs.CountPositive(otps, RecentFor(userId, now - minutes * 60));
  }

  /**
   * The checks of handleGenerateOTP before it writes: the service switch,
   * the email (a string, valid once trimmed, of a known user) and the rate
   * limit.  Ok carries the user found.
   */
  function GenerateCheck(config: ConfigLoader.OtpConfig, accounts: seq<Account>, otps: seq<OtpRow>,
                         email: Value, validEmail: string -> bool, now: int): (r: Reply<Account>)
    ensures !config.enabled ==> r == Fail(ServiceUnavailable)
    ensures config.enabled && !email.Str? ==> r == Fail(Unprocessable)
    ensures config.enabled && email.Str? && !validEmail(Trim(email.s)) ==> r == Fail(Unprocessable)
    ensures config.enabled && email.Str? && validEmail(Trim(email.s)) ==>
      match Seqs.FindFirst(accounts, WithEmail(Trim(email.s)))
      case None => r == Fail(NotFound)
      case Some(u) => r == if RateLimited(otps, u.id, now, config.rateLimitMinutes) then Fail(TooManyRequests) else Ok(u)
  {
    if !config.enabled then Fail(ServiceUnavailable)
    else if !email.Str? || !validEmail(Trim(email.s)) then Fail(Unprocessable)
    else
      match Seqs.FindFirst(accounts, WithEmail(Trim(email.s)))
      case None => Fail(NotFound)
      case Some(u) => if RateLimited(otps, u.id, now, config.rateLimitMinutes) then Fail(TooManyRequests) else Ok(u)
  }

  /** The checks of handleGenerateOTP before its transaction: the service switch and the email's form. */
  predicate GenerateAccepted(config: ConfigLoader.OtpConfig, email: Value, validEmail: string -> bool)
  {
    config.enabled && email.Str? && validEmail(Trim(email.s))
  }

  function NotOfUser(userId: int): OtpRow -> bool
  {
    (o: OtpRow) => o.userId != userId
  }

  /** DELETE FROM user_otp WHERE user_id = ?, then the INSERT of the new row. */
  function Replaced(otps: seq<OtpRow>, userId: int, row: OtpRow): seq<OtpRow>
  {
    Seqs.Filter(otps, NotOfUser(userId)) + [row]
  }

  /** The inserted row: expires expiry_minutes·60 seconds from now, no failed attempt yet. */
  function FreshOtp(id: int, userId: int, hash: string, now: int, expiryMinutes: int): (o: OtpRow)
    ensures o.failedAttempts == 0 && o.userId == userId && o.createdAt == now
    ensures o.expiresAt - o.createdAt == 60 * expiryMinutes
  {
    OtpRow(id, userId, hash, now, now + expiryMinutes * 60, 0)
  }

  /** Generation leaves the other users' OTPs as they were and gives the user the new row only. */
  lemma ReplacedExact(otps: seq<OtpRow>, userId: int, row: OtpRow)
    requires row.userId == userId
    ensures forall o :: o in Replaced(otps, userId, row) && o.userId != userId <==> o in otps && o.userId != userId
    ensures forall o :: o in Replaced(otps, userId, row) && o.userId == userId <==> o == row
  {
  }

  /** At most one OTP row per user. */
  predicate OnePerUser(otps: seq<OtpRow>)
  {
    forall i, j :: 0 <= i < j < |otps| ==> otps[i].userId != otps[j].userId
  }

  /** Generation keeps every user at one OTP at most. */
  lemma ReplacedOnePerUser(otps: seq<OtpRow>, userId: int, row: OtpRow)
    requires OnePerUser(otps) && row.userId == userId
    ensures OnePerUser(Replaced(otps, userId, row))
  {
    var kept := Seqs.Filter(otps, NotOfUser(userId));
    var r := Replaced(otps, userId, row);
    forall i, j | 0 <= i < j < |r| ensures r[i].userId != r[j].userId {
      assert r[i] == kept[i] && kept[i] in otps;
      if j == |r| - 1 {
        assert r[j] == row;
      } else {
        KeptOnePerUser(otps, userId, i, j);
      }
    }
  }

  /** Two rows the DELETE keeps belong to different users. */
  lemma KeptOnePerUser(otps: seq<OtpRow>, userId: int, i: nat, j: nat)
    requires OnePerUser(otps)
    requires i < j < |Seqs.Filter(otps, NotOfUser(userId))|
    ensures Seqs.Filter(otps, NotOfUser(userId))[i].userId != Seqs.Filter(otps, NotOfUser(userId))[j].userId
  {
    FilterDistinctUsers(otps, NotOfUser(userId));
  }

  lemma {:induction false} FilterDistinctUsers(otps: seq<OtpRow>, p: OtpRow -> bool)
    requires OnePerUser(otps)
    ensures OnePerUser(Seqs.Filter(otps, p))
  {
    if |otps| > 0 {
      var rest := otps[1..];
      assert OnePerUser(rest) by {
        forall i, j | 0 <= i < j < |rest| ensures rest[i].userId != rest[j].userId {
          assert rest[i] == otps[i + 1] && rest[j] == otps[j + 1];
        }
      }
      FilterDistinctUsers(rest, p);
      var f := Seqs.Filter(otps, p);
      var tail := Seqs.Filter(rest, p);
      if p(otps[0]) {
        assert f == [otps[0]] + tail;
        forall j | 0 <= j < |tail| ensures tail[j].userId != otps[0].userId {
          assert tail[j] in rest;
          var k :| 0 <= k < |rest| && rest[k] == tail[j];
          assert otps[k + 1] == tail[j];
        }
        forall i, j | 0 <= i < j < |f| ensures f[i].userId != f[j].userId {
          if i == 0 {
            assert f[j] == tail[j - 1];
          } else {
            assert f[i] == tail[i - 1] && f[j] == tail[j - 1];
          }
        }
      } else {
        assert f == tail;
      }
    }
  }

  /** The data block of a successful generate. */
  datatype Generated = Generated(email: string, expiresIn: int, emailSent: bool, maxAttempts: int)

  // ---------------------------------------------------------------------------
  // verify

  /**
   * The checks of handleVerifyOTP before the lookup: the service switch, both
   * fields strings, and the trimmed code exactly n digits.  Ok carries the
   * trimmed email and code.
   */
  function VerifyCheck(config: ConfigLoader.OtpConfig, email: Value, code: Value): (r: Reply<(string, string)>)
    ensures !config.enabled ==> r == Fail(ServiceUnavailable)
    ensures config.enabled && !(email.Str? && code.Str?) ==> r == Fail(Unprocessable)
    ensures config.enabled && email.Str? && code.Str? ==>
      r == if CodeFormatOk(Trim(code.s), config.length) then Ok((Trim(email.s), Trim(code.s))) else Fail(Unprocessable)
  {
    if !config.enabled then Fail(ServiceUnavailable)
    else if !email.Str? || !code.Str? then Fail(Unprocessable)
    else if !CodeFormatOk(Trim(code.s), config.length) then Fail(Unprocessable)
    else Ok((Trim(email.s), Trim(code.s)))
  }

  /** The join of an OTP with its user, filtered by email: the OTP's owner has that email. */
  predicate OwnedByEmail(accounts: seq<Account>, userId: int, email: string)
  {
    exists k :: 0 <= k < |accounts| && accounts[k].id == userId && accounts[k].email == email
  }

  /** ... AND uo.expires_at > NOW(). */
  function LiveFor(accounts: seq<Account>, email: string, now: int): OtpRow -> bool
  {
    (o: OtpRow) => o.expiresAt > now && OwnedByEmail(accounts, o.userId, email)
  }

  /** ORDER BY uo.created_at DESC; rows created in the same second are taken highest id first. */
  function Recency(o: OtpRow): (int, int) { (o.createdAt, o.id) }

  /** The OTP the verifier reads (LIMIT 1): the first live OTP in the ORDER BY. */
  function Latest(otps: seq<OtpRow>, accounts: seq<Account>, email: string, now: int): (r: Option<OtpRow>)
    ensures r.None? <==> forall o :: o in otps ==> !LiveFor(accounts, email, now)(o)
    ensures r.Some? ==> r.value in otps && LiveFor(accounts, email, now)(r.value)
  {
    var live := Seqs.Filter(otps, LiveFor(accounts, email, now));
    var sorted := Seqs.SortDesc(live, Recency);
    if |sorted| == 0 then None
    else
      assert sorted[0] in multiset(live);
      assert sorted[0] in live;
      Some(sorted[0])
  }

  /** The OTP read is the newest live one: no live OTP of the email was created later. */
  lemma LatestIsNewest(otps: seq<OtpRow>, accounts: seq<Account>, email: string, now: int)
    requires Latest(otps, accounts, email, now).Some?
    ensures forall o :: o in otps && LiveFor(accounts, email, now)(o) ==>
      o.createdAt <= Latest(otps, accounts, email, now).value.createdAt
  {
    var live := Seqs.Filter(otps, LiveFor(accounts, email, now));
    var sorted := Seqs.SortDesc(live, Recency);
    forall o | o in otps && LiveFor(accounts, email, now)(o)
      ensures o.createdAt <= sorted[0].createdAt
    {
      assert o in live;
      assert o in multiset(sorted);
      var k :| 0 <= k < |sorted| && sorted[k] == o;
      if k > 0 { assert Seqs.KeyGe(Recency(sorted[0]), Recency(sorted[k])); }
    }
  }

  /** The verdict on one submitted code. */
  datatype Verdict = Accepted | Rejected(code: int)

  /**
   * One verification against an OTP whose counter stands at failed: a locked
   * OTP (failed >= max) is 429 without looking at the code; a wrong code
   * moves the counter to failed + 1 and is 401 while attempts remain, 429 on
   * the last one; a right code is accepted and leaves the counter alone.
   */
  function Attempt(failed: int, maxAttempts: int, matches: bool): (r: (Verdict, int))
  {
    if failed >= maxAttempts then (Rejected(TooManyRequests), failed)
    else if !matches then (Rejected(if maxAttempts - (failed + 1) > 0 then Unauthorized else TooManyRequests), failed + 1)
    else (Accepted, failed)
  }

  /** The counter never passes the maximum, and only a wrong code moves it, by exactly one. */
  lemma AttemptCounter(failed: int, maxAttempts: int, matches: bool)
    ensures var (v, f) := Attempt(failed, maxAttempts, matches);
      && (failed <= maxAttempts ==> f <= maxAttempts)
      && (f != failed <==> !matches && failed < maxAttempts)
      && (f != failed ==> f == failed + 1)
      && (v == Accepted <==> matches && failed < maxAttempts)
      && (v.Rejected? ==> v.code == Unauthorized || v.code == TooManyRequests)
  {
  }

  /** The number of wrong codes in a run of attempts. */
  function Misses(tries: seq<bool>): (n: nat)
    ensures n <= |tries|
  {
    if |tries| == 0 then 0 else (if tries[0] then 0 else 1) + Misses(tries[1..])
  }

  lemma {:induction false} MissesPrefix(tries: seq<bool>, i: nat)
    requires 1 <= i <= |tries|
    ensures Misses(tries[..i]) == (if tries[0] then 0 else 1) + Misses(tries[1..][..i - 1])
  {
    assert tries[..i][1..] == tries[1..][..i - 1];
  }

  /** A run of verifications against one OTP: the verdicts and the final counter. */
  function Run(failed: int, maxAttempts: int, tries: seq<bool>): (r: (seq<Verdict>, int))
    ensures |r.0| == |tries|
    decreases |tries|
  {
    if |tries| == 0 then ([], failed)
    else
      var (v, f) := Attempt(failed, maxAttempts, tries[0]);
      var (vs, g) := Run(f, maxAttempts, tries[1..]);
      ([v] + vs, g)
  }

  function Min(a: int, b: int): int { if a <= b then a else b }

  /** The stored counter after a run: the wrong codes counted, capped at the maximum. */
  lemma {:induction false} RunCounter(failed: int, maxAttempts: int, tries: seq<bool>)
    ensures Run(failed, maxAttempts, tries).1 ==
      if failed >= maxAttempts then failed else Min(maxAttempts, failed + Misses(tries))
    decreases |tries|
  {
    if |tries| > 0 {
      var f := Attempt(failed, maxAttempts, tries[0]).1;
      RunCounter(f, maxAttempts, tries[1..]);
    }
  }

  /**
   * The verdict on the i-th code of a run depends only on the wrong codes
   * before it: it is accepted exactly when it is right and fewer than max
   * wrong codes were counted, it is 401 exactly when it is wrong and attempts
   * remain after it, and in every other case it is 429.
   */
  lemma {:induction false} RunVerdicts(failed: int, maxAttempts: int, tries: seq<bool>)
    ensures var vs := Run(failed, maxAttempts, tries).0;
      forall i :: 0 <= i < |tries| ==>
        && (vs[i] == Accepted <==> tries[i] && failed + Misses(tries[..i]) < maxAttempts)
        && (vs[i] == Rejected(Unauthorized) <==> !tries[i] && failed + Misses(tries[..i]) + 1 < maxAttempts)
        && (vs[i] == Accepted || vs[i] == Rejected(Unauthorized) || vs[i] == Rejected(TooManyRequests))
    decreases |tries|
  {
    if |tries| > 0 {
      var f := Attempt(failed, maxAttempts, tries[0]).1;
      RunVerdicts(f, maxAttempts, tries[1..]);
      var vs := Run(failed, maxAttempts, tries).0;
      var rest := Run(f, maxAttempts, tries[1..]).0;
      assert vs == [Attempt(failed, maxAttempts, tries[0]).0] + rest;
      forall i | 1 <= i < |tries|
        ensures (failed + Misses(tries[..i]) < maxAttempts) == (f + Misses(tries[1..][..i - 1]) < maxAttempts)
        ensures (failed + Misses(tries[..i]) + 1 < maxAttempts) == (f + Misses(tries[1..][..i - 1]) + 1 < maxAttempts)
      {
        MissesPrefix(tries, i);
      }
      assert tries[..0] == [];
      forall i | 1 <= i < |tries| ensures vs[i] == rest[i - 1] && tries[i] == tries[1..][i - 1] {
      }
    }
  }

  /** Once max wrong codes are counted the OTP is locked: every later code, even the right one, is 429. */
  lemma LockedForGood(failed: int, maxAttempts: int, tries: seq<bool>, i: nat)
    requires i < |tries| && failed + Misses(tries[..i]) >= maxAttempts
    ensures Run(failed, maxAttempts, tries).0[i] == Rejected(TooManyRequests)
  {
    RunVerdicts(failed, maxAttempts, tries);
  }

  /** UPDATE user_otp SET failed_attempts = ? WHERE user_otp_id = ?. */
  function SetAttempts(otps: seq<OtpRow>, id: int, n: int): (r: seq<OtpRow>)
    ensures |r| == |otps|
    ensures forall i :: 0 <= i < |r| ==> r[i] == if otps[i].id == id then otps[i].(failedAttempts := n) else otps[i]
  {
    seq(|otps|, i requires 0 <= i < |otps| => if otps[i].id == id then otps[i].(failedAttempts := n) else otps[i])
  }

  /** The counter update leaves the owners alone, so one OTP per user still holds. */
  lemma SetAttemptsOnePerUser(otps: seq<OtpRow>, id: int, n: int)
    requires OnePerUser(otps)
    ensures OnePerUser(SetAttempts(otps, id, n))
  {
    var r := SetAttempts(otps, id, n);
    assert forall i :: 0 <= i < |r| ==> r[i].userId == otps[i].userId;
  }

  /**
   * The data block a successful verify hands to success(), without its
   * timestamp and message: the owner's id, username and email.
   */
  function VerifiedArray(userId: int, username: string, email: string): Value
  {
    Arr([(StrKey("user_id"), Int(userId)), (StrKey("username"), Str(username)), (StrKey("email"), Str(email))])
  }

  /** The data block the client receives: success() cleans the data, which drops user_id. */
  datatype Verified = Verified(username: string, email: string)

  function VerifiedValue(v: Verified): Value
  {
    Arr([(StrKey("username"), Str(v.username)), (StrKey("email"), Str(v.email))])
  }

  /** Cleaning the handler's data block leaves exactly the username and the email, in that order. */
  lemma VerifiedIsCleaned(userId: int, username: string, email: string)
    ensures ResponseHelper.CleanData(VerifiedArray(userId, username, email)) == VerifiedValue(Verified(username, email))
  {
    var entries := VerifiedArray(userId, username, email).entries;
    assert ResponseHelper.EntryAt(entries, IntKey(0)).None?;
    var keep := ResponseHelper.KeepEntry(ResponseHelper.FieldsToRemove);
    assert !keep(entries[0]) && keep(entries[1]) && keep(entries[2]);
    assert entries[1..][1..] == [entries[2]];
    assert Seqs.Filter(entries, keep) == [entries[1], entries[2]];
  }

  /** u.user of the joined owner. */
  function OwnerName(accounts: seq<Account>, userId: int, email: string): string
  {
    match Seqs.FindFirst(accounts, (a: Account) => a.id == userId && a.email == email)
    case Some(a) => a.username
    case None => ""
  }

  /**
   * Generating and then verifying the code just drawn succeeds: while the new
   * OTP is unexpired, for an email no other account shares, with at least
   * one attempt allowed and a hash the verifier recognises.
   */
  lemma GenerateThenVerify(otps: seq<OtpRow>, accounts: seq<Account>, u: Account, row: OtpRow, code: string,
                           maxAttempts: int, later: int, matches: (string, string) -> bool)
    requires u in accounts && forall a :: a in accounts && a.email == u.email ==> a.id == u.id
    requires row.userId == u.id && row.failedAttempts == 0 && row.expiresAt > later
    requires matches(code, row.hash) && maxAttempts >= 1
    ensures Latest(Replaced(otps, u.id, row), accounts, u.email, later) == Some(row)
    ensures Attempt(row.failedAttempts, maxAttempts, matches(code, row.hash)).0 == Accepted
  {
    var after := Replaced(otps, u.id, row);
    var live := LiveFor(accounts, u.email, later);
    var k :| 0 <= k < |accounts| && accounts[k] == u;
    assert live(row);
    forall o | o in after && live(o) ensures o == row {
      var j :| 0 <= j < |accounts| && accounts[j].id == o.userId && accounts[j].email == u.email;
      assert accounts[j] in accounts;
      ReplacedExact(otps, u.id, row);
    }
  }

  // ---------------------------------------------------------------------------
  // The store

  /** Every OTP id is below the next one handed out, and no counter is negative. */
  predicate WellNumbered(otps: seq<OtpRow>, next: int)
  {
    && next >= 1
    && forall i :: 0 <= i < |otps| ==> 1 <= otps[i].id < next && otps[i].failedAttempts >= 0
  }

  lemma ReplacedWellNumbered(otps: seq<OtpRow>, next: int, userId: int, row: OtpRow)
    requires WellNumbered(otps, next) && row.id == next && row.failedAttempts == 0
    ensures WellNumbered(Replaced(otps, userId, row), next + 1)
  {
    var r := Replaced(otps, userId, row);
    forall i | 0 <= i < |r| ensures 1 <= r[i].id < next + 1 && r[i].failedAttempts >= 0 {
      if i < |r| - 1 {
        assert r[i] in otps;
      }
    }
  }

  lemma SetAttemptsWellNumbered(otps: seq<OtpRow>, next: int, id: int, n: int)
    requires WellNumbered(otps, next) && n >= 0
    ensures WellNumbered(SetAttempts(otps, id, n), next)
  {
  }

  class OtpStore {
    var accounts: seq<Account>
    var otps: seq<OtpRow>
    var nextOtpId: int

    /** Every OTP id is below the next one handed out, and no counter is negative. */
    ghost predicate Valid()
      reads this
    {
      WellNumbered(otps, nextOtpId)
    }

    constructor (accounts: seq<Account>)
      ensures Valid() && this.accounts == accounts && otps == [] && nextOtpId == 1
    {
      this.accounts := accounts;
      otps := [];
      nextOtpId := 1;
    }

    /**
     * handleGenerateOTP.  A failed check changes nothing; otherwise all of the
     * user's OTPs are replaced by one fresh row holding the hash of the padded
     * code, and the answer reports its lifetime in seconds.  fault stands for
     * a database error in a statement of the transaction, the user and
     * rate-limit lookups among them, which answers 500 and rolls back.
     */
    method Generate(config: ConfigLoader.OtpConfig, email: Value, validEmail: string -> bool, now: int,
                    draw: nat, hashOf: string -> string, sent: bool, fault: bool) returns (r: Reply<Generated>)
      requires Valid()
      modifies this
      ensures Valid() && accounts == old(accounts)
      ensures r.Fail? ==> otps == old(otps) && nextOtpId == old(nextOtpId)
      ensures GenerateAccepted(config, email, validEmail) && fault ==> r == Fail(ServerError)
      ensures var c := GenerateCheck(config, accounts, old(otps), email, validEmail, now);
        c.Fail? && !(GenerateAccepted(config, email, validEmail) && fault) ==> r == Fail(c.code)
      ensures var c := GenerateCheck(config, accounts, old(otps), email, validEmail, now);
        c.Ok? && !fault ==>
          && otps == Replaced(old(otps), c.data.id,
                              FreshOtp(old(nextOtpId), c.data.id, hashOf(PaddedCode(draw, config.length)), now, config.expiryMinutes))
          && nextOtpId == old(nextOtpId) + 1
          && r == Ok(Generated(Trim(email.s), config.expiryMinutes * 60, config.emailEnabled && sent, config.maxAttempts))
    {
      var c := GenerateCheck(config, accounts, otps, email, validEmail, now);
      if !GenerateAccepted(config, email, validEmail) {
        return Fail(c.code);
      }
      if fault {
        return Fail(ServerError);
      }
      if c.Fail? {
        return Fail(c.code);
      }
      var u := c.data;
      var code := PaddedCode(draw, config.length);
      var row := FreshOtp(nextOtpId, u.id, hashOf(code), now, config.expiryMinutes);
      Replace(u.id, row);
      r := Ok(Generated(Trim(email.s), config.expiryMinutes * 60, config.emailEnabled && sent, config.maxAttempts));
    }

    /**
     * handleVerifyOTP.  The counter of the OTP read changes only on a wrong
     * code below the maximum, and then to exactly one more; a right code is
     * answered with the owner and changes nothing.
     */
    method Verify(config: ConfigLoader.OtpConfig, email: Value, code: Value, now: int,
                  matches: (string, string) -> bool, fault: bool) returns (r: Reply<Verified>)
      requires Valid()
      modifies this
      ensures Valid() && accounts == old(accounts) && nextOtpId == old(nextOtpId)
      ensures var c := VerifyCheck(config, email, code);
        c.Fail? || fault ==> otps == old(otps) && r == if c.Fail? then Fail(c.code) else Fail(ServerError)
      ensures var c := VerifyCheck(config, email, code);
        c.Ok? && !fault ==>
          match Latest(old(otps), accounts, c.data.0, now)
          case None => r == Fail(NotFound) && otps == old(otps)
          case Some(o) =>
            var (v, f) := Attempt(o.failedAttempts, config.maxAttempts, matches(c.data.1, o.hash));
            && otps == (if f == o.failedAttempts then old(otps) else SetAttempts(old(otps), o.id, f))
            && r == if v == Accepted then Ok(Verified(OwnerName(accounts, o.userId, c.data.0), c.data.0))
                    else Fail(v.code)
    {
      var c := VerifyCheck(config, email, code);
      if c.Fail? {
        return Fail(c.code);
      }
      if fault {
        return Fail(ServerError);
      }
      var (e, submitted) := c.data;
      var found := Latest(otps, accounts, e, now);
      if found.None? {
        return Fail(NotFound);
      }
      var o := found.value;
      var (v, f) := Attempt(o.failedAttempts, config.maxAttempts, matches(submitted, o.hash));
      AttemptCounter(o.failedAttempts, config.maxAttempts, matches(submitted, o.hash));
      Record(o, f);
      if v == Accepted {
        r := Ok(Verified(OwnerName(accounts, o.userId, e), e));
      } else {
        r := Fail(v.code);
      }
    }

    /** The attempt counter's UPDATE, issued only when the counter moves. */
    method Record(o: OtpRow, f: int)
      requires Valid() && o in otps && (f == o.failedAttempts || f == o.failedAttempts + 1)
      modifies this
      ensures Valid() && accounts == old(accounts) && nextOtpId == old(nextOtpId)
      ensures otps == if f == o.failedAttempts then old(otps) else SetAttempts(old(otps), o.id, f)
    {
      if f != o.failedAttempts {
        CountMiss(o);
      }
    }

    /** The DELETE of the user's OTPs and the INSERT of the new row under the next id. */
    method Replace(userId: int, row: OtpRow)
      requires Valid() && row.id == nextOtpId && row.failedAttempts == 0
      modifies this
      ensures Valid() && accounts == old(accounts)
      ensures otps == Replaced(old(otps), userId, row) && nextOtpId == old(nextOtpId) + 1
    {
      ReplacedWellNumbered(otps, nextOtpId, userId, row);
      otps := Replaced(otps, userId, row);
      nextOtpId := nextOtpId + 1;
    }

    /** The UPDATE that counts one more wrong code on a stored OTP. */
    method CountMiss(o: OtpRow)
      requires Valid() && o in otps
      modifies this
      ensures Valid() && accounts == old(accounts) && nextOtpId == old(nextOtpId)
      ensures otps == SetAttempts(old(otps), o.id, o.failedAttempts + 1)
    {
      var k :| 0 <= k < |otps| && otps[k] == o;
      SetAttemptsWellNumbered(otps, nextOtpId, o.id, o.failedAttempts + 1);
      otps := SetAttempts(otps, o.id, o.failedAttempts + 1);
    }
  }
}
