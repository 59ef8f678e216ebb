/**
 * `AuthController` (backend/src/controllers/auth.controller.ts): ordered
 * early-return checks on the request body, then a branch on what the
 * authentication service answered. The service (password hashing, token
 * signing, the user table) is not modelled: its answer is a parameter.
 */
module AuthController {
  import opened Common
  import opened Entities
  import opened JsonValues
  import opened Http

  datatype RegisterBody = RegisterBody(email: Json, password: Json, name: Json)

  datatype LoginBody = LoginBody(email: Json, password: Json)

  /** What an authentication service call came back with: a value, `null`, or a thrown error. */
  datatype ServiceAnswer<+T> = Found(value: T) | NotThere | Threw

  /** `{ token, user: { id, email, name } }`: the user type carries nothing else. */
  datatype Session = Session(token: string, user: User)

  /** `{ user: { id, email, name, createdAt } }` */
  datatype Profile = Profile(user: User, createdAt: string)

  const MinPasswordLength: nat := 8

  function Refuse<T>(status: int, code: ErrorCode): Response<T>
  {
    Failure(status, ErrorBody(code, NoDetails))
  }

  // ----- the e-mail pattern /^[^\s@]+@[^\s@]+\.[^\s@]+$/ -----

  /** No white space and no `@`. */
  predicate Plain(t: string)
  {
    forall k :: 0 <= k < |t| ==> !IsSpace(t[k]) && t[k] != '@'
  }

  /** The pattern by its parts: plain text, `@`, plain text, `.`, plain text, none of them empty. */
  predicate EmailPattern(s: string)
  {
    exists i, j :: 0 <= i < |s| && 0 <= j < |s| && PatternAt(s, i, j)
  }

  /** The `@` of the pattern at index `i` and the `.` at index `j`. */
  predicate PatternAt(s: string, i: int, j: int)
  {
    0 < i && i + 1 < j && j + 1 < |s| && s[i] == '@' && s[j] == '.'
    && Plain(s[..i]) && Plain(s[i + 1..j]) && Plain(s[j + 1..])
  }

  /**
   * A direct reading of the pattern: the first `@` is not at the start,
   * nothing on either side of it is white space or another `@`, and the
   * domain has a `.` that is neither its first nor its last character.
   */
  predicate IsEmail(s: string)
  {
    var i := FirstIndex(s, '@');
    var domain := if i < |s| then s[i + 1..] else [];
    && 0 < i < |s|
    && Plain(s[..i]) && Plain(domain)
    && |domain| >= 3 && '.' in domain[1..|domain| - 1]
  }

  /** The direct reading accepts exactly the strings the regular expression matches. */
  lemma IsEmailMatchesPattern(s: string)
    ensures IsEmail(s) <==> EmailPattern(s)
  {
    if IsEmail(s) {
      IsEmailGivesPattern(s);
    }
    if EmailPattern(s) {
      PatternGivesIsEmail(s);
    }
  }

  lemma PlainSplit(a: string, c: char, b: string)
    ensures Plain(a + [c] + b) <==> Plain(a) && !IsSpace(c) && c != '@' && Plain(b)
  {
    var t := a + [c] + b;
    assert forall k :: 0 <= k < |a| ==> t[k] == a[k];
    assert t[|a|] == c;
    assert forall k :: 0 <= k < |b| ==> t[|a| + 1 + k] == b[k];
  }

  lemma SliceAround(s: string, a: nat, j: nat)
    requires a <= j < |s|
    ensures s[a..] == s[a..j] + [s[j]] + s[j + 1..]
  {
  }

  lemma IsEmailGivesPattern(s: string)
    requires IsEmail(s)
    ensures EmailPattern(s)
  {
    var i := FirstIndex(s, '@');
    var domain := s[i + 1..];
    assert 0 < i < |s| && Plain(s[..i]) && Plain(domain);
    var inner := domain[1..|domain| - 1];
    var k :| 0 <= k < |inner| && inner[k] == '.';
    var j := i + 2 + k;
    assert s[j] == '.' by {
      assert inner[k] == domain[k + 1] == s[j];
    }
    SliceAround(s, i + 1, j);
    PlainSplit(s[i + 1..j], s[j], s[j + 1..]);
    assert 0 < i && i + 1 < j && j + 1 < |s| && s[i] == '@';
    assert Plain(s[i + 1..j]) && Plain(s[j + 1..]);
    assert PatternAt(s, i, j);
  }

  lemma PatternGivesIsEmail(s: string)
    requires EmailPattern(s)
    ensures IsEmail(s)
  {
    var i, j :| 0 <= i < |s| && 0 <= j < |s| && PatternAt(s, i, j);
    FirstAt(s, i);
    DomainShape(s, i, j);
    EmailAtFirst(s, i);
  }

  /** The direct reading, given where the first `@` is. */
  lemma EmailAtFirst(s: string, i: nat)
    requires 0 < i < |s| && FirstIndex(s, '@') == i && Plain(s[..i])
    requires var domain := s[i + 1..]; Plain(domain) && |domain| >= 3 && '.' in domain[1..|domain| - 1]
    ensures IsEmail(s)
  {
  }

  /** An `@` preceded only by plain text is the first one. */
  lemma FirstAt(s: string, i: nat)
    requires i < |s| && s[i] == '@' && Plain(s[..i])
    ensures FirstIndex(s, '@') == i
  {
    forall k | 0 <= k < i ensures s[k] != '@' {
      assert s[k] == s[..i][k];
    }
    FirstIndexIs(s, '@', i);
  }

  /** Plain text, a `.` and plain text after the `@` make a domain the direct reading accepts. */
  lemma DomainShape(s: string, i: nat, j: nat)
    requires i + 1 < j && j + 1 < |s| && s[j] == '.'
    requires Plain(s[i + 1..j]) && Plain(s[j + 1..])
    ensures var domain := s[i + 1..]; Plain(domain) && |domain| >= 3 && '.' in domain[1..|domain| - 1]
  {
    var domain := s[i + 1..];
    SliceAround(s, i + 1, j);
    PlainSplit(s[i + 1..j], s[j], s[j + 1..]);
    assert domain[1..|domain| - 1][j - i - 2] == '.';
  }

  // ----- handlers -----

  /**
   * `password.length < 8`: a string compares its length, an object its
   * numeric `length` property; a number, a boolean or an object without a
   * numeric `length` has none, and `undefined < 8` is false.
   */
  predicate TooShort(password: Json)
  {
    match password
    case JString(s) => |s| < MinPasswordLength
    case JObject(length) => length.Some? && length.value < MinPasswordLength
    case _ => false
  }

  /** Every check `register` makes before it calls the service passes. */
  predicate RegisterChecksPass(body: RegisterBody)
  {
    Truthy(body.email) && Truthy(body.password) && Truthy(body.name) && !TooShort(body.password)
    && EmailPattern(ToStr(body.email))
  }

  /** `register` */
  function Register(body: RegisterBody, answer: ServiceAnswer<Session>): (r: Response<Session>)
    ensures !Truthy(body.email) || !Truthy(body.password) || !Truthy(body.name) ==>
      r == Refuse(400, MISSING_FIELDS)
    ensures Truthy(body.email) && Truthy(body.password) && Truthy(body.name) && TooShort(body.password) ==>
      r == Refuse(400, PASSWORD_TOO_SHORT)
    ensures r == Refuse(400, INVALID_EMAIL) <==>
      Truthy(body.email) && Truthy(body.password) && Truthy(body.name) && !TooShort(body.password)
      && !EmailPattern(ToStr(body.email))
    ensures r.Success? <==>
      Truthy(body.email) && Truthy(body.password) && Truthy(body.name) && !TooShort(body.password)
      && EmailPattern(ToStr(body.email)) && answer.Found?
    ensures r.Success? ==> r == Success(201, answer.value)
    ensures RegisterChecksPass(body) ==> (r == Refuse(409, USER_ALREADY_EXISTS) <==> answer.NotThere?)
    ensures RegisterChecksPass(body) ==> (r == Refuse(500, INTERNAL_SERVER_ERROR) <==> answer.Threw?)
    ensures !RegisterChecksPass(body) ==> r.Failure? && r.status == 400
  {
    IsEmailMatchesPattern(ToStr(body.email));
    if !Truthy(body.email) || !Truthy(body.password) || !Truthy(body.name) then Refuse(400, MISSING_FIELDS)
    else if TooShort(body.password) then Refuse(400, PASSWORD_TOO_SHORT)
    else if !IsEmail(ToStr(body.email)) then Refuse(400, INVALID_EMAIL)
    else match answer
      case NotThere => Refuse(409, USER_ALREADY_EXISTS)
      case Found(session) => Success(201, Session(session.token, User(session.user.id, session.user.email, session.user.name)))
      case Threw => Refuse(500, INTERNAL_SERVER_ERROR)
  }

  /** A request the checks refuse gets the same answer whatever the service would have said: it is never asked. */
  lemma RegisterChecksBeforeService(body: RegisterBody, a1: ServiceAnswer<Session>, a2: ServiceAnswer<Session>)
    requires !RegisterChecksPass(body)
    ensures Register(body, a1) == Register(body, a2)
  {
    IsEmailMatchesPattern(ToStr(body.email));
  }

  /** An object password whose `length` is a number below 8 is refused as too short, like a short string. */
  lemma ObjectPasswordLengthChecked(email: Json, name: Json, n: int, answer: ServiceAnswer<Session>)
    requires Truthy(email) && Truthy(name) && n < MinPasswordLength
    ensures Register(RegisterBody(email, JObject(Some(n)), name), answer) == Refuse(400, PASSWORD_TOO_SHORT)
  {
  }

  /** A password that is a number is not checked for length (it has none). */
  lemma NumericPasswordSkipsLengthCheck(n: int)
    requires n != 0
    ensures !TooShort(JNumber(n)) && Truthy(JNumber(n))
  {
  }

  /** "a@b.c" matches; "a@b" (no dot in the domain) and "a b@c.d" (white space) do not. */
  lemma EmailExamples()
    ensures EmailPattern("a@b.c")
    ensures !EmailPattern("a@b")
    ensures !EmailPattern("a b@c.d")
  {
    var ok := "a@b.c";
    assert ok[..1] == "a" && ok[2..3] == "b" && ok[4..] == "c";
    assert Plain("a") && Plain("b") && Plain("c");
    assert ok[1] == '@' && ok[3] == '.';
    assert PatternAt(ok, 1, 3);
    var spaced := "a b@c.d";
    forall i | 0 < i < |spaced| && spaced[i] == '@' ensures !Plain(spaced[..i]) {
      assert spaced[..i][1] == ' ';
    }
  }

  /** `login` */
  function Login(body: LoginBody, answer: ServiceAnswer<Session>): (r: Response<Session>)
    ensures !Truthy(body.email) || !Truthy(body.password) ==> r == Refuse(400, MISSING_FIELDS)
    ensures Truthy(body.email) && Truthy(body.password) ==>
      && (answer.NotThere? <==> r == Refuse(401, INVALID_CREDENTIALS))
      && (answer.Found? ==> r == Success(200, answer.value))
      && (r.Success? ==> answer.Found?)
      && (answer.Threw? <==> r == Refuse(500, INTERNAL_SERVER_ERROR))
  {
    if !Truthy(body.email) || !Truthy(body.password) then Refuse(400, MISSING_FIELDS)
    else match answer
      case NotThere => Refuse(401, INVALID_CREDENTIALS)
      case Found(session) => Success(200, Session(session.token, User(session.user.id, session.user.email, session.user.name)))
      case Threw => Refuse(500, INTERNAL_SERVER_ERROR)
  }

  /** `me`: the profile of the user the token named. */
  function Me(answer: ServiceAnswer<Profile>): (r: Response<Profile>)
    ensures answer.NotThere? <==> r == Refuse(404, USER_NOT_FOUND)
    ensures answer.Found? ==> r == Success(200, answer.value)
    ensures r.Success? ==> answer.Found?
    ensures answer.Threw? <==> r == Refuse(500, INTERNAL_SERVER_ERROR)
  {
    match answer
    case NotThere => Refuse(404, USER_NOT_FOUND)
    case Found(p) => Success(200, Profile(User(p.user.id, p.user.email, p.user.name), p.createdAt))
    case Threw => Refuse(500, INTERNAL_SERVER_ERROR)
  }
}
