/** POST /api/resend-verification: a new one-time code for a registered
    address. The code is a random number with exactly the requested number
    of digits; it is stored as a new token valid for ten minutes and the
    same code is e-mailed. The random draw, the current time, the new
    token's id and whether the mail provider fails are parameters. */
module ResendVerificationRoute {
  import opened Common
  import opened Text
  import opened Http
  import opened Store
  import opened Draws
  import EmailVerifyRoute

  datatype ResendRequest = ResendRequest(email: Option<string>)

  datatype ResendDecision = ResendRefused(reply: Reply) | Issue(userIndex: nat)

  /** The message handed to the mail provider. */
  datatype Mail = Mail(to: string, otp: string)

  const EmailRequired := "Email is required"
  const InvalidEmail := "Invalid email"
  const CodeSent := "New verification code sent to your email"
  const InternalError := "Internal server error"

  /** Ten minutes, in milliseconds. */
  const OtpLifetime: int := 10 * 60 * 1000

  const OtpLength: nat := 6

  /** floor(u * (max - min + 1) + min) with min = 10^(length-1) and
      max = 10^length - 1. */
  function OtpValue(length: nat, u: real): (n: nat)
    requires length >= 1 && IsDraw(u)
    ensures Pow10(length - 1) <= n < Pow10(length)
  {
    var min := Pow10(length - 1);
    var max := Pow10(length) - 1;
    assert max - min + 1 == 9 * min;
    ScaledDrawInRange(u, min, max - min + 1);
    (u * (max - min + 1) as real + min as real).Floor
  }

  /** generateOtp: the decimal digits of OtpValue. */
  function GenerateOtp(length: nat, u: real): (otp: string)
    requires length >= 1 && IsDraw(u)
    ensures |otp| == length
    ensures forall i :: 0 <= i < |otp| ==> IsDigit(otp[i])
    ensures otp[0] != '0'
    ensures ParseDigits(otp) == OtpValue(length, u)
    ensures IsTrimmed(otp)
  {
    var n := OtpValue(length, u);
    NatToStringLength(n, length);
    NatToStringRoundTrip(n);
    var s := NatToString(n);
    assert IsDigit(s[0]) && IsDigit(s[|s| - 1]);
    s
  }

  function ResendCheck(req: ResendRequest, users: seq<User>): (d: ResendDecision)
    ensures !Present(req.email) <==> d == ResendRefused(Json(400, EmailRequired))
    ensures Present(req.email) && UserByEmail(users, NormalizeEmail(req.email.value)).None? <==>
            d == ResendRefused(Json(400, InvalidEmail))
    ensures d.Issue? ==> UserByEmail(users, NormalizeEmail(req.email.value)) == Some(d.userIndex)
    ensures Present(req.email) && UserByEmail(users, NormalizeEmail(req.email.value)).Some? ==>
            d == Issue(UserByEmail(users, NormalizeEmail(req.email.value)).value)
  {
    if !Present(req.email) then ResendRefused(Json(400, EmailRequired))
    else
      var k := UserByEmail(users, NormalizeEmail(req.email.value));
      if k.None? then ResendRefused(Json(400, InvalidEmail)) else Issue(k.value)
  }

  /** The token issued for a user at time now. */
  function NewToken(tokenId: string, u: User, draw: real, now: int): (t: VerificationToken)
    requires IsDraw(draw)
    ensures t.userId == u.id && |t.otp| == OtpLength && !t.used
    ensures t.expiresAt == now + 600000
  {
    VerificationToken(tokenId, u.id, GenerateOtp(OtpLength, draw), now + OtpLifetime, false)
  }

  method Resend(db: Database, req: ResendRequest, now: int, draw: real, tokenId: string, mailFails: bool)
    returns (reply: Reply, mail: Option<Mail>)
    requires db.Valid() && IsDraw(draw)
    modifies db
    ensures db.Valid()
    ensures db.users == old(db.users) && db.students == old(db.students) && db.teachers == old(db.teachers)
    ensures |old(db.tokens)| <= |db.tokens| <= |old(db.tokens)| + 1
    ensures db.tokens[..|old(db.tokens)|] == old(db.tokens)
    ensures var d := ResendCheck(req, old(db.users));
      (d.ResendRefused? ==> reply == d.reply && mail == None && db.tokens == old(db.tokens))
      && (d.Issue? ==>
            var t := NewToken(tokenId, old(db.users)[d.userIndex], draw, now);
            (TokenIdTaken(old(db.tokens), tokenId) ==>
               reply == Json(500, InternalError) && mail == None && db.tokens == old(db.tokens))
            && (!TokenIdTaken(old(db.tokens), tokenId) ==>
               db.tokens == old(db.tokens) + [t]
               && (mailFails ==> reply == Json(500, InternalError) && mail == None)
               && (!mailFails ==> reply == Json(200, CodeSent)
                                  && mail == Some(Mail(old(db.users)[d.userIndex].email, t.otp)))))
  {
    var d := ResendCheck(req, db.users);
    if d.ResendRefused? {
      return d.reply, None;
    }
    var user := db.users[d.userIndex];
    var otp := GenerateOtp(OtpLength, draw);
    var expiresAt := now + 10 * 60 * 1000;
    var err := db.CreateToken(VerificationToken(tokenId, user.id, otp, expiresAt, false));
    if err.Some? {
      return Json(500, InternalError), None;
    }
    if mailFails {
      return Json(500, InternalError), None;
    }
    mail := Some(Mail(user.email, otp));
    reply := Json(200, CodeSent);
  }

  /** A freshly issued code verifies the account, by the address it was sent
      to, at any time up to its expiry. */
  lemma IssuedCodeVerifies(users: seq<User>, tokens: seq<VerificationToken>, k: nat, tokenId: string,
                           draw: real, now: int, at: int)
    requires UsersUnique(users) && k < |users| && IsDraw(draw)
    requires NormalizeEmail(users[k].email) == users[k].email && users[k].email != ""
    requires at <= now + OtpLifetime
    ensures var t := NewToken(tokenId, users[k], draw, now);
      EmailVerifyRoute.VerifyCheck(EmailVerifyRoute.VerifyRequest(Some(users[k].email), Some(t.otp)),
                                   users, tokens + [t], at)
      == EmailVerifyRoute.VerifyAccepted(k, |tokens|)
  {
    var t := NewToken(tokenId, users[k], draw, now);
    TrimOfTrimmed(t.otp);
    var found := UserByEmail(users, users[k].email);
    assert found.Some?;
    assert users[found.value].email == users[k].email;
    assert found.value == k;
    var all := tokens + [t];
    assert EmailVerifyRoute.Redeemable(all[|tokens|], users[k].id, t.otp);
  }
}
