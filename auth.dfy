/**
 * The stored tables of the local account service (src/services/auth.ts):
 * the e-mail code table, the account table and the session slot, as the
 * fields of `AuthStore`. The password hash, the clock, the random code draw
 * and the random ids are parameters.
 */
module Auth {
  import opened Wrappers
  import opened Text
  import opened AuthIdentity

  /** `AuthMethod`. */
  datatype AuthMethod = ByEmail | ByPhone

  /** `AuthSession`. */
  datatype AuthSession = AuthSession(token: string, userId: string, role: Role, createdAt: int)

  /** `EmailCodeRecord`. */
  datatype EmailCodeRecord = EmailCodeRecord(email: string, code: string, expiresAt: int, createdAt: int)

  /** The parameters of `registerUser`. */
  datatype RegisterRequest = RegisterRequest(
    role: Role,
    via: AuthMethod,
    email: Option<string>,
    phone: Option<string>,
    password: string,
    displayName: Option<string>,
    companyName: Option<string>,
    contactName: Option<string>,
    emailCode: Option<string>)

  const BadEmailFormat := "邮箱格式不正确"
  const NoCodeSent := "请先获取验证码"
  const CodeExpired := "验证码已过期，请重新获取"
  const WrongCode := "验证码不正确"
  const EnterValidEmail := "请输入正确的邮箱"
  const EnterEmailCode := "请输入邮箱验证码"
  const EnterValidPhone := "请输入正确的手机号"
  const AccountExists := "该账号已存在，请直接登录"
  const NoSuchAccount := "账号不存在或角色不匹配"
  const WrongPassword := "密码不正确"

  // ------------------------------------------------- normalising twice

  /** Validating the normalised address gives the same answer as validating the raw one. */
  lemma {:induction false} ValidEmailAfterNormalize(email: string)
    ensures IsValidEmail(NormalizeEmail(email)) == IsValidEmail(email)
  {
    var v := NormalizeEmail(email);
    NormalizeEmailIdempotent(email);
    assert NormalizeEmail(v) == v;
  }

  /** Validating the normalised number gives the same answer as validating the raw one. */
  lemma {:induction false} ValidCnPhoneAfterNormalize(phone: string)
    ensures IsValidCnPhone(NormalizePhone(phone)) == IsValidCnPhone(phone)
  {
    var v := NormalizePhone(phone);
    NormalizePhoneIdempotent(phone);
    assert NormalizePhone(v) == v;
  }

  /** Normalising a present e-mail identifier a second time keeps it, as far as a truthiness test can tell. */
  lemma EmailIdentifierTwice(email: Option<string>)
    ensures Truthy(NormalizedIdentifier(NormalizedIdentifier(email, NormalizeEmail), NormalizeEmail))
         == Truthy(NormalizedIdentifier(email, NormalizeEmail))
    ensures Truthy(NormalizedIdentifier(email, NormalizeEmail)) ==>
      NormalizedIdentifier(NormalizedIdentifier(email, NormalizeEmail), NormalizeEmail) == NormalizedIdentifier(email, NormalizeEmail)
  {
    if Truthy(email) {
      var v := NormalizeEmail(email.value);
      NormalizeEmailIdempotent(email.value);
      assert NormalizeEmail(v) == v;
    }
  }

  /** Normalising a present phone identifier a second time keeps it, as far as a truthiness test can tell. */
  lemma PhoneIdentifierTwice(phone: Option<string>)
    ensures Truthy(NormalizedIdentifier(NormalizedIdentifier(phone, NormalizePhone), NormalizePhone))
         == Truthy(NormalizedIdentifier(phone, NormalizePhone))
    ensures Truthy(NormalizedIdentifier(phone, NormalizePhone)) ==>
      NormalizedIdentifier(NormalizedIdentifier(phone, NormalizePhone), NormalizePhone) == NormalizedIdentifier(phone, NormalizePhone)
  {
    if Truthy(phone) {
      var v := NormalizePhone(phone.value);
      NormalizePhoneIdempotent(phone.value);
      assert NormalizePhone(v) == v;
    }
  }

  /** Looking up by identifiers that were normalised already finds the same user. */
  lemma LookupAfterNormalize(users: seq<StoredUser>, role: Role, email: Option<string>, phone: Option<string>)
    ensures FindUserByIdentifier(users, role, NormalizedIdentifier(email, NormalizeEmail), NormalizedIdentifier(phone, NormalizePhone))
         == FindUserByIdentifier(users, role, email, phone)
  {
    var qe := NormalizedIdentifier(email, NormalizeEmail);
    var qp := NormalizedIdentifier(phone, NormalizePhone);
    EmailIdentifierTwice(email);
    PhoneIdentifierTwice(phone);
    FindUserAgree(users, role, NormalizedIdentifier(qe, NormalizeEmail), NormalizedIdentifier(qp, NormalizePhone), qe, qp);
  }

  // ----------------------------------------------------------------- codes

  /** `10 ** k`. */
  function Pow10(k: nat): nat {
    if k == 0 then 1 else 10 * Pow10(k - 1)
  }

  function DigitChar(d: nat): char
    requires d < 10
  {
    ('0' as int + d) as char
  }

  /** `n.toString()` for a natural number. */
  function Decimal(n: nat): (r: string)
    ensures r != [] && forall k :: 0 <= k < |r| ==> IsDigit(r[k])
  {
    if n < 10 then [DigitChar(n)] else Decimal(n / 10) + [DigitChar(n % 10)]
  }

  function DigitValue(c: char): nat
    requires IsDigit(c)
  {
    c as int - '0' as int
  }

  /** The number a string of decimal digits denotes. */
  function DigitsValue(s: string): nat
    requires forall k :: 0 <= k < |s| ==> IsDigit(s[k])
  {
    if s == [] then 0 else 10 * DigitsValue(s[..|s| - 1]) + DigitValue(s[|s| - 1])
  }

  /** Reading the decimal text of `n` back gives `n`. */
  lemma {:induction false} DecimalRoundTrip(n: nat)
    ensures DigitsValue(Decimal(n)) == n
  {
    if n >= 10 {
      var r := Decimal(n);
      assert r[..|r| - 1] == Decimal(n / 10);
      DecimalRoundTrip(n / 10);
    }
  }

  /** A number with `k + 1` digits is written with `k + 1` characters. */
  lemma {:induction false} DecimalLength(n: nat, k: nat)
    requires Pow10(k) <= n < Pow10(k + 1)
    ensures |Decimal(n)| == k + 1
  {
    if k > 0 {
      assert Pow10(k) == 10 * Pow10(k - 1);
      assert Pow10(k + 1) == 10 * Pow10(k);
      DecimalLength(n / 10, k - 1);
    }
  }

  /** `Math.floor(100000 + Math.random() * 900000).toString()`, the random draw given as `draw`: six digits. */
  function CodeOf(draw: nat): (r: string)
    requires draw < 900000
    ensures |r| == 6 && forall k :: 0 <= k < 6 ==> IsDigit(r[k])
    ensures DigitsValue(r) == 100000 + draw
  {
    assert Pow10(5) == 100000 && Pow10(6) == 1000000;
    DecimalLength(100000 + draw, 5);
    DecimalRoundTrip(100000 + draw);
    Decimal(100000 + draw)
  }

  /**
   * `verifyEmailCode` against the code table, the clock reading `now`. The
   * table is a plain object, so an address with no record of its own whose
   * normalised text is an inherited property name (`constructor`,
   * `__proto__`) finds a truthy value with neither `expiresAt` nor `code`:
   * it is not expired (comparing with `undefined` is false) and its code
   * never equals the typed one.
   */
  function CheckEmailCode(codes: map<string, EmailCodeRecord>, email: string, code: string, now: int): (r: Result<(), string>)
    ensures r.Ok? <==> NormalizeEmail(email) in codes && now <= codes[NormalizeEmail(email)].expiresAt
                       && codes[NormalizeEmail(email)].code == Trim(code)
    ensures r == Err(NoCodeSent) <==> NormalizeEmail(email) !in codes && NormalizeEmail(email) !in InheritedKeys
    ensures r == Err(CodeExpired) <==> NormalizeEmail(email) in codes && now > codes[NormalizeEmail(email)].expiresAt
    ensures r == Err(WrongCode) <==>
      (NormalizeEmail(email) in codes && now <= codes[NormalizeEmail(email)].expiresAt
       && codes[NormalizeEmail(email)].code != Trim(code))
      || (NormalizeEmail(email) !in codes && NormalizeEmail(email) in InheritedKeys)
  {
    var key := NormalizeEmail(email);
    if key !in codes then
      if key in InheritedKeys then Err(WrongCode) else Err(NoCodeSent)
    else if now > codes[key].expiresAt then Err(CodeExpired)
    else if codes[key].code != Trim(code) then Err(WrongCode)
    else Ok(())
  }

  /** The address `constructor`, with no record of its own, reads the inherited property: the code is wrong, not missing. */
  lemma InheritedCodeKey(codes: map<string, EmailCodeRecord>, code: string, now: int)
    requires "constructor" !in codes
    ensures CheckEmailCode(codes, "constructor", code, now) == Err(WrongCode)
  {
    ConstructorIsNormal();
    assert "constructor" in InheritedKeys;
    InheritedKeyRefused(codes, "constructor", code, now);
  }

  lemma ConstructorIsNormal()
    ensures NormalizeEmail("constructor") == "constructor"
  {
    TrimKeeps("constructor");
    LowerKeeps("constructor");
  }

  lemma InheritedKeyRefused(codes: map<string, EmailCodeRecord>, email: string, code: string, now: int)
    requires NormalizeEmail(email) in InheritedKeys && NormalizeEmail(email) !in codes
    ensures CheckEmailCode(codes, email, code, now) == Err(WrongCode)
  {
  }

  /** The record `sendEmailCode` stores for a valid address. */
  function CodeRecordOf(email: string, draw: nat, now: int, ttl: int): EmailCodeRecord
    requires draw < 900000
  {
    EmailCodeRecord(NormalizeEmail(email), CodeOf(draw), now + ttl, now)
  }

  /**
   * A code just sent for an address is accepted for any spelling of that
   * address with the same normalised form, typed with or without surrounding
   * white space, up to and including its expiry instant and not after; it is
   * rejected as wrong for any other text; the verdicts for every other
   * address stay what they were.
   */
  lemma SendThenVerify(codes: map<string, EmailCodeRecord>, email: string, draw: nat, now: int, ttl: int,
                       email2: string, code: string, later: int)
    requires draw < 900000
    ensures var codes' := codes[NormalizeEmail(email) := CodeRecordOf(email, draw, now, ttl)];
      NormalizeEmail(email2) == NormalizeEmail(email) ==>
        CheckEmailCode(codes', email2, code, later) ==
          if later > now + ttl then Err(CodeExpired)
          else if Trim(code) != CodeOf(draw) then Err(WrongCode)
          else Ok(())
    ensures var codes' := codes[NormalizeEmail(email) := CodeRecordOf(email, draw, now, ttl)];
      NormalizeEmail(email2) != NormalizeEmail(email) ==>
        CheckEmailCode(codes', email2, code, later) == CheckEmailCode(codes, email2, code, later)
  {
  }

  /** `sendEmailCode`'s default lifetime of a code: five minutes, in milliseconds. */
  const DefaultCodeTtl: int := 5 * 60 * 1000

  /** With the default lifetime, a code is accepted exactly five minutes after it was sent, and expired one millisecond later. */
  lemma DefaultTtlWindow(codes: map<string, EmailCodeRecord>, email: string, draw: nat, now: int)
    requires draw < 900000
    ensures var codes' := codes[NormalizeEmail(email) := CodeRecordOf(email, draw, now, DefaultCodeTtl)];
      CheckEmailCode(codes', email, CodeOf(draw), now + 300000) == Ok(())
      && CheckEmailCode(codes', email, CodeOf(draw), now + 300001) == Err(CodeExpired)
  {
    TrimKeeps(CodeOf(draw));
    SendThenVerify(codes, email, draw, now, DefaultCodeTtl, email, CodeOf(draw), now + 300000);
    SendThenVerify(codes, email, draw, now, DefaultCodeTtl, email, CodeOf(draw), now + 300001);
  }

  // ----------------------------------------------------------- registering

  /** `hashPassword`: the digest, given as `hash`, of the trimmed password. */
  function HashPassword(hash: string -> string, password: string): string {
    hash(Trim(password))
  }

  /** `x?.trim() || undefined`. */
  function OptionalName(x: Option<string>): (r: Option<string>)
    ensures r.Some? ==> x.Some? && r.value != [] && r.value == Trim(x.value)
    ensures r.None? ==> x.None? || AllSpace(x.value)
  {
    if x.Some? && Trim(x.value) != "" then Some(Trim(x.value))
    else if x.Some? then TrimEmptyIff(x.value); None
    else None
  }

  /** The checks of `registerUser` before the duplicate test, in the order it makes them. */
  function ValidateRegistration(codes: map<string, EmailCodeRecord>, req: RegisterRequest,
                                email: Option<string>, phone: Option<string>, now: int): Result<(), string> {
    if req.via == ByEmail then
      if !Truthy(email) || !IsValidEmail(email.value) then Err(EnterValidEmail)
      else if req.role == Candidate then
        if !Truthy(req.emailCode) then Err(EnterEmailCode)
        else CheckEmailCode(codes, email.value, req.emailCode.value, now)
      else Ok(())
    else if !Truthy(phone) || !IsValidCnPhone(phone.value) then Err(EnterValidPhone)
    else Ok(())
  }

  /** `registerUser`'s outcome for the tables it reads. */
  function Registration(users: seq<StoredUser>, codes: map<string, EmailCodeRecord>, req: RegisterRequest,
                        hash: string -> string, now: int, id: string): Result<StoredUser, string> {
    var email := NormalizedIdentifier(req.email, NormalizeEmail);
    var phone := NormalizedIdentifier(req.phone, NormalizePhone);
    match ValidateRegistration(codes, req, email, phone, now)
    case Err(e) => Err(e)
    case Ok(_) =>
      if FindUserByIdentifier(users, req.role, email, phone).Some? then Err(AccountExists)
      else Ok(StoredUser(id, req.role, email, phone, HashPassword(hash, req.password), now,
                         OptionalName(req.displayName), OptionalName(req.companyName), OptionalName(req.contactName)))
  }

  /**
   * `login`'s outcome for the user table it reads: the user the identifiers
   * find, exactly when there is one and its stored hash is the hash of the
   * password; no such account when nobody is found.
   */
  function LoginOutcome(users: seq<StoredUser>, role: Role, email: Option<string>, phone: Option<string>,
                        password: string, hash: string -> string): (r: Result<StoredUser, string>)
    ensures r.Ok? <==> FindUserByIdentifier(users, role, email, phone).Some?
                       && FindUserByIdentifier(users, role, email, phone).value.passwordHash == HashPassword(hash, password)
    ensures r.Ok? ==> FindUserByIdentifier(users, role, email, phone) == Some(r.value)
    ensures r == Err(NoSuchAccount) <==> FindUserByIdentifier(users, role, email, phone).None?
    ensures r == Err(WrongPassword) <==>
      FindUserByIdentifier(users, role, email, phone).Some?
      && FindUserByIdentifier(users, role, email, phone).value.passwordHash != HashPassword(hash, password)
  {
    match FindUserByIdentifier(users, role, email, phone)
    case None => Err(NoSuchAccount)
    case Some(u) => if u.passwordHash != HashPassword(hash, password) then Err(WrongPassword) else Ok(u)
  }

  /** A request that fails a check is refused with that check's message. */
  lemma RegistrationStops(users: seq<StoredUser>, codes: map<string, EmailCodeRecord>, req: RegisterRequest,
                          hash: string -> string, now: int, id: string)
    requires ValidateRegistration(codes, req, NormalizedIdentifier(req.email, NormalizeEmail),
                                  NormalizedIdentifier(req.phone, NormalizePhone), now).Err?
    ensures Registration(users, codes, req, hash, now, id)
         == Err(ValidateRegistration(codes, req, NormalizedIdentifier(req.email, NormalizeEmail),
                                     NormalizedIdentifier(req.phone, NormalizePhone), now).error)
  {
  }

  /** A request that passes every check is refused only for an existing account. */
  lemma RegistrationProceeds(users: seq<StoredUser>, codes: map<string, EmailCodeRecord>, req: RegisterRequest,
                             hash: string -> string, now: int, id: string)
    requires ValidateRegistration(codes, req, NormalizedIdentifier(req.email, NormalizeEmail),
                                  NormalizedIdentifier(req.phone, NormalizePhone), now).Ok?
    ensures FindUserByIdentifier(users, req.role, NormalizedIdentifier(req.email, NormalizeEmail),
                                 NormalizedIdentifier(req.phone, NormalizePhone)).Some? ==>
      Registration(users, codes, req, hash, now, id) == Err(AccountExists)
    ensures FindUserByIdentifier(users, req.role, NormalizedIdentifier(req.email, NormalizeEmail),
                                 NormalizedIdentifier(req.phone, NormalizePhone)).None? ==>
      Registration(users, codes, req, hash, now, id)
      == Ok(StoredUser(id, req.role, NormalizedIdentifier(req.email, NormalizeEmail), NormalizedIdentifier(req.phone, NormalizePhone),
                       HashPassword(hash, req.password), now,
                       OptionalName(req.displayName), OptionalName(req.companyName), OptionalName(req.contactName)))
  {
  }

  /** A registered user is found again by the identifiers it registered with, and nobody was found by them before. */
  lemma RegisteredUserMatches(users: seq<StoredUser>, codes: map<string, EmailCodeRecord>, req: RegisterRequest,
                              hash: string -> string, now: int, id: string)
    requires Registration(users, codes, req, hash, now, id).Ok?
    ensures UserMatches(Registration(users, codes, req, hash, now, id).value, req.role,
      NormalizedIdentifier(req.email, NormalizeEmail), NormalizedIdentifier(req.phone, NormalizePhone))
    ensures FindUser(users, req.role, NormalizedIdentifier(req.email, NormalizeEmail), NormalizedIdentifier(req.phone, NormalizePhone)).None?
    ensures Registration(users, codes, req, hash, now, id).value.passwordHash == HashPassword(hash, req.password)
  {
    var email := NormalizedIdentifier(req.email, NormalizeEmail);
    var phone := NormalizedIdentifier(req.phone, NormalizePhone);
    var u := Registration(users, codes, req, hash, now, id).value;
    RegistrationAccepted(users, codes, req, hash, now, id);
    LookupAfterNormalize(users, req.role, req.email, req.phone);
    EmailIdentifierTwice(req.email);
    PhoneIdentifierTwice(req.phone);
    if Truthy(email) {
      assert NormalizeEmail(u.email.value) == email.value;
    } else {
      assert Truthy(phone);
      assert NormalizePhone(u.phone.value) == phone.value;
    }
  }

  /** What an accepted registration has established, and the user it builds. */
  lemma RegistrationAccepted(users: seq<StoredUser>, codes: map<string, EmailCodeRecord>, req: RegisterRequest,
                             hash: string -> string, now: int, id: string)
    requires Registration(users, codes, req, hash, now, id).Ok?
    ensures Truthy(NormalizedIdentifier(req.email, NormalizeEmail)) || Truthy(NormalizedIdentifier(req.phone, NormalizePhone))
    ensures FindUserByIdentifier(users, req.role, NormalizedIdentifier(req.email, NormalizeEmail),
                                 NormalizedIdentifier(req.phone, NormalizePhone)).None?
    ensures Registration(users, codes, req, hash, now, id).value
         == StoredUser(id, req.role, NormalizedIdentifier(req.email, NormalizeEmail), NormalizedIdentifier(req.phone, NormalizePhone),
                       HashPassword(hash, req.password), now,
                       OptionalName(req.displayName), OptionalName(req.companyName), OptionalName(req.contactName))
  {
    var email := NormalizedIdentifier(req.email, NormalizeEmail);
    var phone := NormalizedIdentifier(req.phone, NormalizePhone);
    assert ValidateRegistration(codes, req, email, phone, now).Ok?;
  }

  /** A request whose identifiers find a user is refused, whatever else it carries. */
  lemma RegistrationRefusesExisting(users: seq<StoredUser>, codes: map<string, EmailCodeRecord>, req: RegisterRequest,
                                    hash: string -> string, now: int, id: string)
    requires FindUserByIdentifier(users, req.role, req.email, req.phone).Some?
    ensures Registration(users, codes, req, hash, now, id).Err?
  {
    LookupAfterNormalize(users, req.role, req.email, req.phone);
  }

  /**
   * A successful registration appends a user nobody matched before, so the
   * same request never registers a second account, and logging in with the
   * same identifiers and password returns the new user.
   */
  lemma RegisterThenLogin(users: seq<StoredUser>, codes: map<string, EmailCodeRecord>, req: RegisterRequest,
                          hash: string -> string, now: int, id: string,
                          codes2: map<string, EmailCodeRecord>, now2: int, id2: string)
    requires Registration(users, codes, req, hash, now, id).Ok?
    ensures FindUserByIdentifier(users, req.role, req.email, req.phone).None?
    ensures Registration(users + [Registration(users, codes, req, hash, now, id).value], codes2, req, hash, now2, id2).Err?
    ensures LoginOutcome(users + [Registration(users, codes, req, hash, now, id).value], req.role, req.email, req.phone, req.password, hash)
         == Ok(Registration(users, codes, req, hash, now, id).value)
  {
    var qe := NormalizedIdentifier(req.email, NormalizeEmail);
    var qp := NormalizedIdentifier(req.phone, NormalizePhone);
    var u := Registration(users, codes, req, hash, now, id).value;
    RegisteredUserMatches(users, codes, req, hash, now, id);
    FindUserAppend(users, u, req.role, qe, qp);
    assert FindUserByIdentifier(users + [u], req.role, req.email, req.phone) == Some(u);
    RegistrationRefusesExisting(users + [u], codes2, req, hash, now2, id2);
  }

  // ------------------------------------------------------------------ store

  /** The three stored tables: the accounts, the e-mail codes by address, and the session slot. */
  class AuthStore {
    var users: seq<StoredUser>
    var codes: map<string, EmailCodeRecord>
    var session: Option<AuthSession>

    /** Empty storage. */
    constructor ()
      ensures users == [] && codes == map[] && session == None
    {
      users := [];
      codes := map[];
      session := None;
    }

    /** `sendEmailCode`: an invalid address throws and stores nothing; a valid one replaces its own record only. */
    method SendEmailCode(email: string, draw: nat, now: int, ttl: int) returns (r: Result<EmailCodeRecord, string>)
      requires draw < 900000
      modifies this
      ensures !IsValidEmail(NormalizeEmail(email)) ==> r == Err(BadEmailFormat) && codes == old(codes)
      ensures IsValidEmail(NormalizeEmail(email)) ==>
        r == Ok(CodeRecordOf(email, draw, now, ttl)) && codes == old(codes)[NormalizeEmail(email) := r.value]
      ensures users == old(users) && session == old(session)
    {
      var normalized := NormalizeEmail(email);
      if !IsValidEmail(normalized) {
        return Err(BadEmailFormat);
      }
      var rec := CodeRecordOf(email, draw, now, ttl);
      StoreCode(normalized, rec);
      r := Ok(rec);
    }

    /** `all[normalized] = rec` followed by the save: one record replaced, nothing else touched. */
    method StoreCode(key: string, rec: EmailCodeRecord)
      modifies this
      ensures codes == old(codes)[key := rec]
      ensures users == old(users) && session == old(session)
    {
      codes := codes[key := rec];
    }

    /** `verifyEmailCode`: reads the table, changes nothing. */
    method VerifyEmailCode(email: string, code: string, now: int) returns (r: Result<(), string>)
      ensures r == CheckEmailCode(codes, email, code, now)
    {
      var normalized := NormalizeEmail(email);
      if normalized !in codes {
        if normalized in InheritedKeys {
          return Err(WrongCode);
        }
        return Err(NoCodeSent);
      }
      var rec := codes[normalized];
      if now > rec.expiresAt {
        return Err(CodeExpired);
      }
      if rec.code != Trim(code) {
        return Err(WrongCode);
      }
      r := Ok(());
    }

    /** The checks `registerUser` makes before the duplicate test, each failure returned as its message; reads the tables only. */
    method CheckRegistration(req: RegisterRequest, email: Option<string>, phone: Option<string>, now: int)
      returns (checks: Result<(), string>)
      ensures checks == ValidateRegistration(codes, req, email, phone, now)
    {
      if req.via == ByEmail {
        if !Truthy(email) || !IsValidEmail(email.value) {
          checks := Err(EnterValidEmail);
        } else if req.role == Candidate {
          if !Truthy(req.emailCode) {
            checks := Err(EnterEmailCode);
          } else {
            checks := VerifyEmailCode(email.value, req.emailCode.value, now);
          }
        } else {
          checks := Ok(());
        }
      } else if !Truthy(phone) || !IsValidCnPhone(phone.value) {
        checks := Err(EnterValidPhone);
      } else {
        checks := Ok(());
      }
    }

    /** The end of `registerUser`: an account the identifiers already find is refused, otherwise the new user is appended. */
    method AddAccount(req: RegisterRequest, email: Option<string>, phone: Option<string>, passwordHash: string, now: int, id: string)
      returns (r: Result<StoredUser, string>)
      modifies this
      ensures FindUserByIdentifier(old(users), req.role, email, phone).Some? ==> r == Err(AccountExists) && users == old(users)
      ensures FindUserByIdentifier(old(users), req.role, email, phone).None? ==>
        r == Ok(StoredUser(id, req.role, email, phone, passwordHash, now,
                           OptionalName(req.displayName), OptionalName(req.companyName), OptionalName(req.contactName)))
        && users == old(users) + [r.value]
      ensures codes == old(codes) && session == old(session)
    {
      var existed := FindUserByIdentifier(users, req.role, email, phone);
      if existed.Some? {
        return Err(AccountExists);
      }
      var user := StoredUser(id, req.role, email, phone, passwordHash, now,
                             OptionalName(req.displayName), OptionalName(req.companyName), OptionalName(req.contactName));
      users := users + [user];
      r := Ok(user);
    }

    /** `registerUser`: on success exactly one user is appended; on failure nothing changes. */
    method RegisterUser(req: RegisterRequest, hash: string -> string, now: int, id: string)
      returns (r: Result<StoredUser, string>)
      modifies this
      ensures r == Registration(old(users), old(codes), req, hash, now, id)
      ensures r.Ok? ==> users == old(users) + [r.value]
      ensures r.Err? ==> users == old(users)
      ensures codes == old(codes) && session == old(session)
    {
      var passwordHash := HashPassword(hash, req.password);
      var email := NormalizedIdentifier(req.email, NormalizeEmail);
      var phone := NormalizedIdentifier(req.phone, NormalizePhone);
      var checks := CheckRegistration(req, email, phone, now);
      if checks.Err? {
        RegistrationStops(users, codes, req, hash, now, id);
        return Err(checks.error);
      }
      RegistrationProceeds(users, codes, req, hash, now, id);
      r := AddAccount(req, email, phone, passwordHash, now, id);
    }

    /** `login`: reads the table, changes nothing. */
    method Login(role: Role, email: Option<string>, phone: Option<string>, password: string, hash: string -> string)
      returns (r: Result<StoredUser, string>)
      ensures r == LoginOutcome(users, role, email, phone, password, hash)
      ensures r.Ok? ==> r.value in users && r.value.passwordHash == HashPassword(hash, password)
    {
      var user := FindUserByIdentifier(users, role, email, phone);
      if user.None? {
        return Err(NoSuchAccount);
      }
      var passwordHash := HashPassword(hash, password);
      if user.value.passwordHash != passwordHash {
        return Err(WrongPassword);
      }
      r := Ok(user.value);
    }

    /** `createSession`: the slot holds a session for the user. */
    method CreateSession(user: StoredUser, token: string, now: int) returns (s: AuthSession)
      modifies this
      ensures s == AuthSession(token, user.id, user.role, now) && session == Some(s)
      ensures users == old(users) && codes == old(codes)
    {
      s := AuthSession(token, user.id, user.role, now);
      session := Some(s);
    }

    /** `clearSession`: the slot is emptied. */
    method ClearSession()
      modifies this
      ensures session == None
      ensures users == old(users) && codes == old(codes)
    {
      session := None;
    }
  }
}
