/** The identity helpers the two teacher seed scripts share (both define
    the same three): a random card number unused in this run, and the user
    row created under the first free e-mail and phone candidates. */
module SeedIdentity {
  import opened Common
  import opened Text
  import opened Draws
  import opened Store

  /** Math.floor(100 + u * 900): a three-digit number. */
  function CardNumber(u: real): (n: nat)
    requires IsDraw(u)
    ensures 100 <= n <= 999
  {
    ScaledDrawInRange(u, 100, 900);
    (u * 900 as real + 100 as real).Floor
  }

  /** "exe" followed by three digits, the first of them not zero. */
  predicate IsCardNo(c: string)
  {
    |c| == 6 && c[..3] == "exe" && c[3] != '0' && forall i :: 3 <= i < 6 ==> IsDigit(c[i])
  }

  /** The card number a draw gives: `exe${n}`. */
  function CardForDraw(u: real): (c: string)
    requires IsDraw(u)
    ensures IsCardNo(c)
    ensures ParseDigits(c[3..]) == CardNumber(u)
  {
    var n := CardNumber(u);
    assert Pow10(2) == 100 && Pow10(3) == 1000 by {
      assert Pow10(1) == 10;
    }
    NatToStringLength(n, 3);
    NatToStringRoundTrip(n);
    var c := "exe" + NatToString(n);
    assert c[3..] == NatToString(n);
    c
  }

  /** Two draws give the same card exactly when they give the same number. */
  lemma CardForDrawInjective(u: real, v: real)
    requires IsDraw(u) && IsDraw(v)
    ensures CardForDraw(u) == CardForDraw(v) <==> CardNumber(u) == CardNumber(v)
  {
    if CardForDraw(u) == CardForDraw(v) {
      assert CardForDraw(u)[3..] == CardForDraw(v)[3..];
    }
  }

  /** The position of the first draw whose card is not taken yet. */
  function FreshIndex(used: set<string>, draws: seq<real>): (r: Option<nat>)
    requires AllDraws(draws)
    ensures r.Some? ==> r.value < |draws| && CardForDraw(draws[r.value]) !in used
    ensures r.Some? ==> forall j :: 0 <= j < r.value ==> CardForDraw(draws[j]) in used
    ensures r.None? ==> forall j :: 0 <= j < |draws| ==> CardForDraw(draws[j]) in used
  {
    if draws == [] then None
    else if CardForDraw(draws[0]) !in used then Some(0)
    else
      var r := FreshIndex(used, draws[1..]);
      if r.Some? then Some(r.value + 1) else None
  }

  /** The set of card numbers handed out in one run of a seed script. */
  class CardRegistry {
    var cards: set<string>

    constructor()
      ensures cards == {}
    {
      cards := {};
    }

    /** genCardNo / genCard: draw until the card is not in the set, then add
        it. The source draws without end; here the draws are a finite stream
        and None means the stream ran out before a free card came up. */
    method GenCardNo(draws: seq<real>) returns (card: Option<string>)
      requires AllDraws(draws)
      modifies this
      ensures var i := FreshIndex(old(cards), draws);
        (i.Some? ==> card == Some(CardForDraw(draws[i.value])) && cards == old(cards) + {card.value})
        && (i.None? ==> card == None && cards == old(cards))
      ensures card.Some? ==> IsCardNo(card.value) && card.value !in old(cards)
    {
      var k := 0;
      while k < |draws|
        invariant 0 <= k <= |draws|
        invariant cards == old(cards)
        invariant forall j :: 0 <= j < k ==> CardForDraw(draws[j]) in cards
      {
        var c := CardForDraw(draws[k]);
        if c !in cards {
          cards := cards + {c};
          return Some(c);
        }
        k := k + 1;
      }
      card := None;
    }
  }

  const EmailDomain := "@campus.test"

  /** The k-th address tried for a base: base@campus.test, then
      base1@campus.test, base2@campus.test, and so on. */
  function EmailCandidate(base: string, k: nat): (e: string)
    ensures |e| > |base| + |EmailDomain| || (k == 0 && |e| == |base| + |EmailDomain|)
    ensures e[..|base|] == base && e[|e| - |EmailDomain|..] == EmailDomain
  {
    if k == 0 then base + EmailDomain else base + NatToString(k) + EmailDomain
  }

  /** Different suffixes give different addresses, so the search for a free
      address never tries the same one twice. */
  lemma EmailCandidateInjective(base: string, a: nat, b: nat)
    requires EmailCandidate(base, a) == EmailCandidate(base, b)
    ensures a == b
  {
    var ea := EmailCandidate(base, a);
    var mid := (k: nat) => if k == 0 then "" else NatToString(k);
    assert ea == base + mid(a) + EmailDomain;
    assert ea == base + mid(b) + EmailDomain;
    assert |mid(a)| == |mid(b)|;
    assert ea[|base|..|ea| - |EmailDomain|] == mid(a);
    assert ea[|base|..|ea| - |EmailDomain|] == mid(b);
    if a != 0 && b != 0 {
      NatToStringInjective(a, b);
    }
  }

  predicate IsPhoneBase(p: string)
  {
    |p| >= 1 && IsDigit(p[|p| - 1])
  }

  function DigitValue(c: char): (d: nat)
    requires IsDigit(c)
    ensures d < 10 && DigitChar(d) == c
  {
    c as int - '0' as int
  }

  /** The k-th phone tried: the base with its last digit d replaced by
      (d + k) mod 10. */
  function PhoneCandidate(base: string, k: nat): (p: string)
    requires IsPhoneBase(base)
    ensures |p| == |base| && p[..|base| - 1] == base[..|base| - 1] && IsDigit(p[|p| - 1])
  {
    base[..|base| - 1] + NatToString((DigitValue(base[|base| - 1]) + k) % 10)
  }

  /** The first phone tried is the base itself. */
  lemma PhoneCandidateZero(base: string)
    requires IsPhoneBase(base)
    ensures PhoneCandidate(base, 0) == base
  {
    var d := DigitValue(base[|base| - 1]);
    assert NatToString(d % 10) == [base[|base| - 1]];
  }

  /** There are only ten phone candidates: the k-th is the (k mod 10)-th. */
  lemma PhoneCandidatesRepeat(base: string, k: nat)
    requires IsPhoneBase(base)
    ensures PhoneCandidate(base, k) == PhoneCandidate(base, k % 10)
  {
    var d := DigitValue(base[|base| - 1]);
    assert (d + k) % 10 == (d + k % 10) % 10 by {
      assert d + k == (d + k % 10) + 10 * (k / 10);
    }
  }

  /** So when the first ten are all taken every candidate is, and the
      source's search would not end. */
  lemma PhonesExhausted(users: seq<User>, base: string)
    requires IsPhoneBase(base)
    requires forall m :: 0 <= m < 10 ==> UserByPhone(users, PhoneCandidate(base, m)).Some?
    ensures forall k: nat :: UserByPhone(users, PhoneCandidate(base, k)).Some?
  {
    forall k: nat
      ensures UserByPhone(users, PhoneCandidate(base, k)).Some?
    {
      PhoneCandidatesRepeat(base, k);
    }
  }

  /** "98" and an eight-digit random number. */
  function PhoneBase(u: real): (p: string)
    requires IsDraw(u)
    ensures |p| == 10 && p[..2] == "98" && forall i :: 0 <= i < |p| ==> IsDigit(p[i])
    ensures IsPhoneBase(p)
  {
    ScaledDrawInRange(u, 10000000, 90000000);
    var n: nat := (u * 90000000 as real + 10000000 as real).Floor;
    assert Pow10(7) == 10000000 && Pow10(8) == 100000000 by {
      assert Pow10(1) == 10 && Pow10(2) == 100 && Pow10(3) == 1000 && Pow10(4) == 10000;
      assert Pow10(5) == 100000 && Pow10(6) == 1000000;
    }
    NatToStringLength(n, 8);
    "98" + NatToString(n)
  }

  /** The users whose address is none of the first k candidates. */
  ghost function UnmatchedUsers(users: seq<User>, base: string, k: nat): set<nat>
  {
    set j | 0 <= j < |users| && forall m :: 0 <= m < k ==> users[j].email != EmailCandidate(base, m)
  }

  /** A user holding the k-th candidate matches none of the earlier ones, so
      the set of unmatched users loses it when k is passed. */
  lemma UnmatchedShrinks(users: seq<User>, base: string, k: nat, j: nat)
    requires j < |users| && users[j].email == EmailCandidate(base, k)
    ensures UnmatchedUsers(users, base, k + 1) < UnmatchedUsers(users, base, k)
  {
    forall m | 0 <= m < k
      ensures users[j].email != EmailCandidate(base, m)
    {
      if users[j].email == EmailCandidate(base, m) {
        EmailCandidateInjective(base, m, k);
      }
    }
    assert j in UnmatchedUsers(users, base, k);
    assert j !in UnmatchedUsers(users, base, k + 1);
  }

  /** Every one of the first k candidates belongs to some user. */
  predicate EmailsTakenBelow(users: seq<User>, base: string, k: nat)
  {
    forall m :: 0 <= m < k ==> UserByEmail(users, EmailCandidate(base, m)).Some?
  }

  /** The e-mail loop of safeCreateUser: the first candidate no user has.
      It ends because every candidate it passes is held by a different
      user. */
  method FirstFreeEmail(users: seq<User>, base: string) returns (k: nat)
    ensures EmailsTakenBelow(users, base, k)
    ensures UserByEmail(users, EmailCandidate(base, k)).None?
  {
    k := 0;
    var found := UserByEmail(users, EmailCandidate(base, k));
    while found.Some?
      invariant EmailsTakenBelow(users, base, k)
      invariant found == UserByEmail(users, EmailCandidate(base, k))
      decreases UnmatchedUsers(users, base, k)
    {
      UnmatchedShrinks(users, base, k, found.value);
      k := k + 1;
      found := UserByEmail(users, EmailCandidate(base, k));
    }
  }

  /** The phone loop of safeCreateUser, stopped after the ten distinct
      candidates: 10 means all of them are taken. */
  method FirstFreePhone(users: seq<User>, base: string) returns (p: nat)
    requires IsPhoneBase(base)
    ensures p <= 10
    ensures forall m :: 0 <= m < p ==> UserByPhone(users, PhoneCandidate(base, m)).Some?
    ensures p < 10 ==> UserByPhone(users, PhoneCandidate(base, p)).None?
  {
    p := 0;
    while p < 10 && UserByPhone(users, PhoneCandidate(base, p)).Some?
      invariant p <= 10
      invariant forall m :: 0 <= m < p ==> UserByPhone(users, PhoneCandidate(base, m)).Some?
    {
      p := p + 1;
    }
  }

  /** safeCreateUser: the first free e-mail candidate, the first free phone
      candidate, then one new unverified TEACHER row. emailSuffix and
      phoneSuffix are the candidates chosen. When all ten phone candidates
      are taken (phoneSuffix = 10) nothing is created, where the source
      would search forever. */
  method SafeCreateUser(db: Database, emailBase: string, phoneBase: string, passwordHash: string, newId: string)
    returns (user: Option<User>, emailSuffix: nat, phoneSuffix: nat)
    requires db.Valid() && IsPhoneBase(phoneBase)
    modifies db
    ensures db.Valid()
    ensures db.students == old(db.students) && db.teachers == old(db.teachers) && db.tokens == old(db.tokens)
    ensures EmailsTakenBelow(old(db.users), emailBase, emailSuffix)
    ensures UserByEmail(old(db.users), EmailCandidate(emailBase, emailSuffix)).None?
    ensures phoneSuffix <= 10
    ensures forall m :: 0 <= m < phoneSuffix ==> UserByPhone(old(db.users), PhoneCandidate(phoneBase, m)).Some?
    ensures phoneSuffix < 10 ==> UserByPhone(old(db.users), PhoneCandidate(phoneBase, phoneSuffix)).None?
    ensures user.None? <==> phoneSuffix == 10 || UserById(old(db.users), newId).Some?
    ensures user.None? ==> db.users == old(db.users)
    ensures user.Some? ==>
      user.value == User(newId, EmailCandidate(emailBase, emailSuffix), PhoneCandidate(phoneBase, phoneSuffix),
                         passwordHash, TEACHER, false, false)
      && db.users == old(db.users) + [user.value]
  {
    emailSuffix := FirstFreeEmail(db.users, emailBase);
    phoneSuffix := FirstFreePhone(db.users, phoneBase);
    if phoneSuffix == 10 {
      return None, emailSuffix, phoneSuffix;
    }
    var u := User(newId, EmailCandidate(emailBase, emailSuffix), PhoneCandidate(phoneBase, phoneSuffix),
                  passwordHash, TEACHER, false, false);
    var err := db.CreateUser(u);
    user := if err.Some? then None else Some(u);
  }
}
