/** POST /api/email-verify: finds the user by the normalised address, picks
    the most recently created unused token of that user whose code equals
    the trimmed input, refuses it if it has expired, and otherwise marks the
    address verified and the token used in one transaction. Time is an
    integer number of milliseconds passed in as now. */
module EmailVerifyRoute {
  import opened Common
  import opened Text
  import opened Http
  import opened Store

  datatype VerifyRequest = VerifyRequest(email: Option<string>, otp: Option<string>)

  datatype VerifyDecision = VerifyRefused(reply: Reply) | VerifyAccepted(userIndex: nat, tokenIndex: nat)

  const FieldsMissing := "Fields are missing"
  const InvalidEmailOrCode := "Invalid email or code"
  const InvalidCode := "Invalid verification code"
  const CodeExpired := "Verification code is expired"
  const Verified := "Email verified successfully"

  /** A token that can still be redeemed by this user with this code. */
  predicate Redeemable(t: VerificationToken, userId: string, otp: string)
  {
    t.userId == userId && t.otp == otp && !t.used
  }

  /** findFirst ordered by creation, newest first: the last redeemable
      token in the table. */
  function SelectToken(tokens: seq<VerificationToken>, userId: string, otp: string): (r: Option<nat>)
    ensures r.Some? ==> r.value < |tokens| && Redeemable(tokens[r.value], userId, otp)
    ensures r.Some? ==> forall j :: r.value < j < |tokens| ==> !Redeemable(tokens[j], userId, otp)
    ensures r.None? <==> forall j :: 0 <= j < |tokens| ==> !Redeemable(tokens[j], userId, otp)
  {
    LastIndex(tokens, (t: VerificationToken) => Redeemable(t, userId, otp))
  }

  function VerifyCheck(req: VerifyRequest, users: seq<User>, tokens: seq<VerificationToken>, now: int): (d: VerifyDecision)
    ensures !Present(req.email) || !Present(req.otp) ==> d == VerifyRefused(Json(400, FieldsMissing))
    ensures d.VerifyRefused? ==> d.reply.status == 400 && d.reply.redirectTo == None
    ensures d.VerifyAccepted? ==>
      Present(req.email) && Present(req.otp)
      && UserByEmail(users, NormalizeEmail(req.email.value)) == Some(d.userIndex)
      && SelectToken(tokens, users[d.userIndex].id, Trim(req.otp.value)) == Some(d.tokenIndex)
      && now <= tokens[d.tokenIndex].expiresAt
    ensures Present(req.email) && Present(req.otp) ==>
      var k := UserByEmail(users, NormalizeEmail(req.email.value));
      (k.None? ==> d == VerifyRefused(Json(400, InvalidEmailOrCode)))
      && (k.Some? && SelectToken(tokens, users[k.value].id, Trim(req.otp.value)).None? ==>
            d == VerifyRefused(Json(400, InvalidCode)))
      && (k.Some? && SelectToken(tokens, users[k.value].id, Trim(req.otp.value)).Some? ==>
            var t := SelectToken(tokens, users[k.value].id, Trim(req.otp.value)).value;
            (tokens[t].expiresAt < now <==> d == VerifyRefused(Json(400, CodeExpired)))
            && (now <= tokens[t].expiresAt ==> d == VerifyAccepted(k.value, t)))
  {
    if !Present(req.email) || !Present(req.otp) then VerifyRefused(Json(400, FieldsMissing))
    else
      var normalizedEmail := NormalizeEmail(req.email.value);
      var trimmedOtp := Trim(req.otp.value);
      var k := UserByEmail(users, normalizedEmail);
      if k.None? then VerifyRefused(Json(400, InvalidEmailOrCode))
      else
        var t := SelectToken(tokens, users[k.value].id, trimmedOtp);
        if t.None? then VerifyRefused(Json(400, InvalidCode))
        else if tokens[t.value].expiresAt < now then VerifyRefused(Json(400, CodeExpired))
        else VerifyAccepted(k.value, t.value)
  }

  method VerifyEmail(db: Database, req: VerifyRequest, now: int) returns (reply: Reply)
    requires db.Valid()
    modifies db
    ensures db.Valid()
    ensures db.students == old(db.students) && db.teachers == old(db.teachers)
    ensures var d := VerifyCheck(req, old(db.users), old(db.tokens), now);
      (d.VerifyRefused? ==> reply == d.reply && db.users == old(db.users) && db.tokens == old(db.tokens))
      && (d.VerifyAccepted? ==>
            reply == Redirect(200, Verified, Path("/login"))
            && db.users == old(db.users)[d.userIndex := WithEmailVerified(old(db.users)[d.userIndex])]
            && db.tokens == old(db.tokens)[d.tokenIndex := old(db.tokens)[d.tokenIndex].(used := true)])
  {
    var d := VerifyCheck(req, db.users, db.tokens, now);
    if d.VerifyRefused? {
      return d.reply;
    }
    db.VerifyEmail(d.userIndex, d.tokenIndex);
    reply := Redirect(200, Verified, Path("/login"));
  }

  /** A token marked used is never the one accepted. */
  lemma UsedTokenNeverAccepted(req: VerifyRequest, users: seq<User>, tokens: seq<VerificationToken>, now: int, j: nat)
    requires j < |tokens| && tokens[j].used
    ensures var d := VerifyCheck(req, users, tokens, now);
      d.VerifyAccepted? ==> d.tokenIndex != j
  {
  }

  /** The expiry test is strict: a token that expires exactly now is still
      accepted, one millisecond later it is refused. */
  lemma ExpiryBoundary(req: VerifyRequest, users: seq<User>, tokens: seq<VerificationToken>)
    requires Present(req.email) && Present(req.otp)
    requires UserByEmail(users, NormalizeEmail(req.email.value)).Some?
    requires SelectToken(tokens, users[UserByEmail(users, NormalizeEmail(req.email.value)).value].id,
                         Trim(req.otp.value)).Some?
    ensures var t := SelectToken(tokens, users[UserByEmail(users, NormalizeEmail(req.email.value)).value].id,
                                 Trim(req.otp.value)).value;
      VerifyCheck(req, users, tokens, tokens[t].expiresAt).VerifyAccepted?
      && VerifyCheck(req, users, tokens, tokens[t].expiresAt + 1) == VerifyRefused(Json(400, CodeExpired))
  {
  }

  /** Setting the verified flag keeps every address where it was, so the
      user is found at the same position. */
  lemma LookupAfterVerify(users: seq<User>, k: nat, email: string)
    requires UsersUnique(users) && k < |users|
    ensures var after := users[k := WithEmailVerified(users[k])];
      UsersUnique(after) && UserByEmail(after, email) == UserByEmail(users, email)
  {
    var after := users[k := WithEmailVerified(users[k])];
    var a := UserByEmail(after, email);
    var b := UserByEmail(users, email);
    if a.Some? {
      assert users[a.value].email == email;
      assert b.Some?;
      assert users[b.value].email == users[a.value].email;
    } else {
      forall j | 0 <= j < |users|
        ensures users[j].email != email
      {
        assert after[j].email == users[j].email;
      }
    }
  }

  /** A code cannot be redeemed twice: once the accepted token is used, the
      same request is refused, unless another unused token of the user
      carries the same code. */
  lemma ReplayRefused(req: VerifyRequest, users: seq<User>, tokens: seq<VerificationToken>, now: int, later: int)
    requires UsersUnique(users)
    requires VerifyCheck(req, users, tokens, now).VerifyAccepted?
    requires var d := VerifyCheck(req, users, tokens, now);
      forall j :: 0 <= j < |tokens| && j != d.tokenIndex ==>
        !Redeemable(tokens[j], users[d.userIndex].id, Trim(req.otp.value))
    ensures var d := VerifyCheck(req, users, tokens, now);
      var users' := users[d.userIndex := WithEmailVerified(users[d.userIndex])];
      var tokens' := tokens[d.tokenIndex := tokens[d.tokenIndex].(used := true)];
      VerifyCheck(req, users', tokens', later) == VerifyRefused(Json(400, InvalidCode))
  {
    var d := VerifyCheck(req, users, tokens, now);
    var users' := users[d.userIndex := WithEmailVerified(users[d.userIndex])];
    var tokens' := tokens[d.tokenIndex := tokens[d.tokenIndex].(used := true)];
    LookupAfterVerify(users, d.userIndex, NormalizeEmail(req.email.value));
    assert users'[d.userIndex].id == users[d.userIndex].id;
    forall j | 0 <= j < |tokens'|
      ensures !Redeemable(tokens'[j], users[d.userIndex].id, Trim(req.otp.value))
    {
    }
  }
}
