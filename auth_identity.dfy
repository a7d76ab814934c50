/**
 * Identifier handling of the local account service
 * (src/services/auth.ts:44-60, 91-101): normalising and validating e-mail
 * addresses and mainland phone numbers, and the rule by which a stored
 * user is found from a role and an identifier.
 */
module AuthIdentity {
  import opened Wrappers
  import opened Text

  /** `AuthRole`. */
  datatype Role = Candidate | Company

  /** `StoredUser`. */
  datatype StoredUser = StoredUser(
    id: string,
    role: Role,
    email: Option<string>,
    phone: Option<string>,
    passwordHash: string,
    createdAt: int,
    displayName: Option<string>,
    companyName: Option<string>,
    contactName: Option<string>)

  // ----------------------------------------------------------- normalising

  /** `normalizeEmail`: trimmed and lower-cased. */
  function NormalizeEmail(email: string): (r: string)
    ensures r == [] || (!IsSpace(r[0]) && !IsSpace(r[|r| - 1]))
    ensures forall k :: 0 <= k < |r| ==> !('A' <= r[k] <= 'Z')
  {
    var t := Trim(email);
    LowerKeepsEnds(t);
    LowerHasNoUpper(t);
    Lower(t)
  }

  /** Lower-casing leaves no upper-case ASCII letter. */
  lemma LowerHasNoUpper(t: string)
    ensures forall k :: 0 <= k < |Lower(t)| ==> !('A' <= Lower(t)[k] <= 'Z')
  {
    forall k | 0 <= k < |t| ensures !('A' <= LowerChar(t[k]) <= 'Z') {
      LowerCharNotUpper(t[k]);
    }
  }

  lemma LowerCharNotUpper(c: char)
    ensures !('A' <= LowerChar(c) <= 'Z')
  {
    if 'A' <= c <= 'Z' {
      assert LowerChar(c) as int == c as int + 32;
    }
  }

  /** Lower-casing neither adds nor removes white space at the ends. */
  lemma LowerKeepsEnds(t: string)
    requires t == [] || (!IsSpace(t[0]) && !IsSpace(t[|t| - 1]))
    ensures Lower(t) == [] || (!IsSpace(Lower(t)[0]) && !IsSpace(Lower(t)[|t| - 1]))
  {
    if t != [] {
      LowerCharNotSpace(t[0]);
      LowerCharNotSpace(t[|t| - 1]);
    }
  }

  lemma LowerCharNotSpace(c: char)
    requires !IsSpace(c)
    ensures !IsSpace(LowerChar(c))
  {
  }

  /**
   * `normalizePhone`: every white-space character removed. The `trim` the
   * source applies afterwards finds nothing to remove; NormalizePhoneTrimmed
   * proves it.
   */
  function NormalizePhone(phone: string): (r: string)
    ensures forall k :: 0 <= k < |r| ==> !IsSpace(r[k])
  {
    Filter(phone, NotSpace)
  }

  /** The final `trim` of `normalizePhone` has nothing left to remove. */
  lemma NormalizePhoneTrimmed(phone: string)
    ensures Trim(NormalizePhone(phone)) == NormalizePhone(phone)
  {
    var v := NormalizePhone(phone);
    assert v != [] ==> NotSpace(v[0]) && NotSpace(v[|v| - 1]);
    TrimKeeps(v);
  }

  /** Lower-casing text without upper-case ASCII letters changes nothing. */
  lemma LowerKeeps(s: string)
    requires forall k :: 0 <= k < |s| ==> !('A' <= s[k] <= 'Z')
    ensures Lower(s) == s
  {
    assert forall k :: 0 <= k < |s| ==> Lower(s)[k] == s[k];
  }

  /** Normalising an e-mail address twice is normalising it once. */
  lemma NormalizeEmailIdempotent(email: string)
    ensures NormalizeEmail(NormalizeEmail(email)) == NormalizeEmail(email)
  {
    var v := NormalizeEmail(email);
    TrimKeeps(v);
    LowerKeeps(v);
  }

  /** Normalising a phone number twice is normalising it once. */
  lemma NormalizePhoneIdempotent(phone: string)
    ensures NormalizePhone(NormalizePhone(phone)) == NormalizePhone(phone)
  {
    var v := NormalizePhone(phone);
    FilterKeepsAll(v, NotSpace);
  }

  /** White space anywhere in a phone number makes no difference. */
  lemma PhoneSpacesIgnored(a: string, c: char, b: string)
    requires IsSpace(c)
    ensures NormalizePhone(a + [c] + b) == NormalizePhone(a + b)
  {
    FilterAppend(a + [c], b, NotSpace);
    FilterAppend(a, [c], NotSpace);
    FilterAppend(a, b, NotSpace);
    assert Filter([c], NotSpace) == [];
  }

  // ----------------------------------------------------------- validating

  /** `[^\s@]`. */
  predicate EmailChar(c: char) { !IsSpace(c) && c != '@' }

  predicate AllEmailChars(s: string) {
    forall k :: 0 <= k < |s| ==> EmailChar(s[k])
  }

  /** What follows the `@`: `[^\s@]+\.[^\s@]+` up to the end. */
  predicate DomainOk(d: string) {
    AllEmailChars(d) && exists j :: 1 <= j < |d| - 1 && d[j] == '.'
  }

  /** The e-mail pattern tested on `v`: a non-empty local part, the first `@`, and a domain with an inner dot. */
  predicate EmailPatternMatches(v: string) {
    match IndexOfChar(v, '@')
    case None => false
    case Some(i) => i > 0 && AllEmailChars(v[..i]) && DomainOk(v[i + 1..])
  }

  /** `isValidEmail`: the pattern tested on the normalised address. */
  predicate IsValidEmail(email: string) {
    EmailPatternMatches(NormalizeEmail(email))
  }

  /**
   * `^[^\s@]+@[^\s@]+\.[^\s@]+$` read as a shape: one `@` at `i`, a dot at
   * `j` with text on both sides after it, and every other character neither
   * white space nor `@`.
   */
  predicate EmailShape(v: string) {
    exists i, j :: 0 < i && i + 1 < j < |v| - 1 && v[i] == '@' && v[j] == '.'
      && forall k :: 0 <= k < |v| && k != i ==> EmailChar(v[k])
  }

  /** A text the pattern accepts has the shape. */
  lemma EmailPatternSound(v: string)
    requires EmailPatternMatches(v)
    ensures EmailShape(v)
  {
    var i := IndexOfChar(v, '@').value;
    var d := v[i + 1..];
    var j' :| 1 <= j' < |d| - 1 && d[j'] == '.';
    forall k | 0 <= k < |v| && k != i ensures EmailChar(v[k]) {
      if k < i {
        assert v[..i][k] == v[k];
      } else {
        assert d[k - i - 1] == v[k];
      }
    }
    assert v[i + 1 + j'] == '.';
  }

  /** A text of the shape is accepted by the pattern. */
  lemma EmailPatternComplete(v: string)
    requires EmailShape(v)
    ensures EmailPatternMatches(v)
  {
    var i, j :| 0 < i && i + 1 < j < |v| - 1 && v[i] == '@' && v[j] == '.'
      && forall k :: 0 <= k < |v| && k != i ==> EmailChar(v[k]);
    assert '@' !in v[..i];
    assert IndexOfChar(v, '@') == Some(i);
    var d := v[i + 1..];
    assert d[j - i - 1] == '.';
    assert AllEmailChars(d) by {
      forall k | 0 <= k < |d| ensures EmailChar(d[k]) {
        assert d[k] == v[i + 1 + k];
      }
    }
  }

  /** A text of the shape has no white space and one `@` only. */
  lemma EmailShapeChars(v: string)
    requires EmailShape(v)
    ensures forall k :: 0 <= k < |v| ==> !IsSpace(v[k])
    ensures forall k, l :: 0 <= k < l < |v| ==> !(v[k] == '@' && v[l] == '@')
  {
    var i, j :| 0 < i && i + 1 < j < |v| - 1 && v[i] == '@' && v[j] == '.'
      && forall k :: 0 <= k < |v| && k != i ==> EmailChar(v[k]);
    forall k | 0 <= k < |v| ensures !IsSpace(v[k]) {
      if k != i {
        assert EmailChar(v[k]);
      }
    }
  }

  /**
   * The pattern matches exactly the texts of that shape; such a text has no
   * white space and exactly one `@`.
   */
  lemma EmailPatternIff(v: string)
    ensures EmailPatternMatches(v) <==> EmailShape(v)
    ensures EmailPatternMatches(v) ==> forall k :: 0 <= k < |v| ==> !IsSpace(v[k])
    ensures EmailPatternMatches(v) ==> forall k, l :: 0 <= k < l < |v| ==> !(v[k] == '@' && v[l] == '@')
  {
    if EmailPatternMatches(v) {
      EmailPatternSound(v);
      EmailShapeChars(v);
    }
    if EmailShape(v) {
      EmailPatternComplete(v);
    }
  }

  /** `^1[3-9]\d{9}$`. */
  predicate CnPhonePatternMatches(v: string) {
    |v| == 11 && v[0] == '1' && '3' <= v[1] <= '9' && forall k :: 2 <= k < 11 ==> IsDigit(v[k])
  }

  /** `isValidCnPhone`: the pattern tested on the normalised number. */
  predicate IsValidCnPhone(phone: string) {
    CnPhonePatternMatches(NormalizePhone(phone))
  }

  /** A valid number is eleven digits without white space. */
  lemma ValidCnPhoneDigits(phone: string)
    requires IsValidCnPhone(phone)
    ensures |NormalizePhone(phone)| == 11
    ensures forall k :: 0 <= k < 11 ==> IsDigit(NormalizePhone(phone)[k])
  {
  }

  /** White space anywhere in the input never changes the verdict. */
  lemma CnPhoneIgnoresSpaces(a: string, c: char, b: string)
    requires IsSpace(c)
    ensures IsValidCnPhone(a + [c] + b) == IsValidCnPhone(a + b)
  {
    PhoneSpacesIgnored(a, c, b);
  }

  // ---------------------------------------------------------------- lookup

  /** A present, non-empty string: what a truthiness test on `string | undefined` accepts. */
  predicate Truthy(x: Option<string>) {
    x.Some? && x.value != ""
  }

  /** `x ? normalize(x) : undefined`. */
  function NormalizedIdentifier(x: Option<string>, normalize: string -> string): (r: Option<string>)
    ensures r.Some? <==> Truthy(x)
  {
    if Truthy(x) then Some(normalize(x.value)) else None
  }

  /**
   * The `find` callback of `findUserByIdentifier`: the role must agree; when
   * the query and the user both have an e-mail address the addresses decide,
   * otherwise when both have a phone number the numbers decide.
   */
  predicate UserMatches(u: StoredUser, role: Role, email: Option<string>, phone: Option<string>) {
    if u.role != role then false
    else if Truthy(email) && Truthy(u.email) then NormalizeEmail(u.email.value) == email.value
    else if Truthy(phone) && Truthy(u.phone) then NormalizePhone(u.phone.value) == phone.value
    else false
  }

  /** The `find` of `findUserByIdentifier` for identifiers already normalised: the first user, in table order, they match. */
  function FindUser(users: seq<StoredUser>, role: Role, email: Option<string>, phone: Option<string>): (r: Option<StoredUser>)
    ensures r.None? <==> forall k :: 0 <= k < |users| ==> !UserMatches(users[k], role, email, phone)
    ensures r.Some? ==> exists k :: (0 <= k < |users| && users[k] == r.value && UserMatches(users[k], role, email, phone)
      && forall j :: 0 <= j < k ==> !UserMatches(users[j], role, email, phone))
  {
    match FirstIndex(users, u => UserMatches(u, role, email, phone))
    case None => None
    case Some(k) => Some(users[k])
  }

  /**
   * `findUserByIdentifier`: each present identifier normalised, then the first
   * user they match. A user found is in the table, has the role asked for, and
   * shares a normalised e-mail address or phone number with the query.
   */
  function FindUserByIdentifier(users: seq<StoredUser>, role: Role, email: Option<string>, phone: Option<string>)
    : (r: Option<StoredUser>)
    ensures r.Some? ==> (r.value in users && r.value.role == role
      && ((Truthy(email) && Truthy(r.value.email) && NormalizeEmail(r.value.email.value) == NormalizeEmail(email.value))
          || (Truthy(phone) && Truthy(r.value.phone) && NormalizePhone(r.value.phone.value) == NormalizePhone(phone.value))))
  {
    FindUser(users, role, NormalizedIdentifier(email, NormalizeEmail), NormalizedIdentifier(phone, NormalizePhone))
  }

  /** The matching rule sees identifiers only through truthiness and their values. */
  lemma MatchesAgree(u: StoredUser, role: Role, e1: Option<string>, p1: Option<string>, e2: Option<string>, p2: Option<string>)
    requires Truthy(e1) == Truthy(e2) && (Truthy(e1) ==> e1 == e2)
    requires Truthy(p1) == Truthy(p2) && (Truthy(p1) ==> p1 == p2)
    ensures UserMatches(u, role, e1, p1) == UserMatches(u, role, e2, p2)
  {
  }

  /** Identifiers that agree for the matching rule find the same user. */
  lemma FindUserAgree(users: seq<StoredUser>, role: Role, e1: Option<string>, p1: Option<string>, e2: Option<string>, p2: Option<string>)
    requires Truthy(e1) == Truthy(e2) && (Truthy(e1) ==> e1 == e2)
    requires Truthy(p1) == Truthy(p2) && (Truthy(p1) ==> p1 == p2)
    ensures FindUser(users, role, e1, p1) == FindUser(users, role, e2, p2)
  {
    forall i | 0 <= i < |users|
      ensures UserMatches(users[i], role, e1, p1) == UserMatches(users[i], role, e2, p2)
    {
      MatchesAgree(users[i], role, e1, p1, e2, p2);
    }
    FirstIndexAgree(users, u => UserMatches(u, role, e1, p1), u => UserMatches(u, role, e2, p2));
  }

  /** A user appended to a table in which nobody matched is the one found. */
  lemma FindUserAppend(users: seq<StoredUser>, u: StoredUser, role: Role, email: Option<string>, phone: Option<string>)
    requires FindUser(users, role, email, phone).None?
    requires UserMatches(u, role, email, phone)
    ensures FindUser(users + [u], role, email, phone) == Some(u)
  {
    var users' := users + [u];
    assert forall k :: 0 <= k < |users| ==> users'[k] == users[k];
    assert users'[|users|] == u;
  }

  /** When the query and the user both carry an e-mail address, the phone numbers are never consulted. */
  lemma EmailShadowsPhone(u: StoredUser, role: Role, email: Option<string>, phone1: Option<string>, phone2: Option<string>)
    requires Truthy(email) && Truthy(u.email)
    ensures UserMatches(u, role, email, phone1) == UserMatches(u, role, email, phone2)
    ensures UserMatches(u, role, email, phone1) <==> u.role == role && NormalizeEmail(u.email.value) == email.value
  {
  }

  /** Two tests that agree on every element find the same first position. */
  lemma {:induction false} FirstIndexAgree<T>(xs: seq<T>, p: T -> bool, q: T -> bool)
    requires forall i :: 0 <= i < |xs| ==> p(xs[i]) == q(xs[i])
    ensures FirstIndex(xs, p) == FirstIndex(xs, q)
  {
    if xs != [] && !p(xs[0]) {
      FirstIndexAgree(xs[1..], p, q);
    }
  }
}
