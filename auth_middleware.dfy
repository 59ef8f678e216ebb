/**
 * `authMiddleware` (backend/src/middleware/auth.middleware.ts): reads the
 * `Authorization` header, takes the token after "Bearer ", and lets the
 * request through only when the token verifies. Token verification (the
 * JSON Web Token library) is a parameter: it either yields the payload's
 * user id or fails with an error name.
 */
module AuthMiddleware {
  import opened Common
  import opened JsonValues
  import opened Http

  const BearerPrefix: string := "Bearer "

  /** The secret used when JWT_SECRET is unset or empty. */
  const DefaultSecret: string := "your-secret-key-change-in-production"

  /** What `jwt.verify` does: return the payload (whose `userId` may be missing) or throw an error with a name. */
  datatype Verification = Decoded(userId: Option<string>) | Failed(errorName: string)

  /** `next()` with `req.userId` set, or a 401 answer with the code. */
  datatype Outcome = Next(userId: Option<string>) | Deny(status: int, code: ErrorCode)

  // ----- `String.prototype.split` with a one-character separator -----

  function Split(s: string, sep: char): (r: seq<string>)
    ensures |r| >= 1
    ensures r[0] == s[..FirstIndex(s, sep)]
    decreases |s|
  {
    var i := FirstIndex(s, sep);
    if i == |s| then [s] else [s[..i]] + Split(s[i + 1..], sep)
  }

  function Join(parts: seq<string>, sep: char): string
  {
    if |parts| <= 1 then (if parts == [] then "" else parts[0])
    else parts[0] + [sep] + Join(parts[1..], sep)
  }

  /** Splitting loses nothing: joining the pieces with the separator gives the text back, and no piece holds the separator. */
  lemma SplitJoin(s: string, sep: char)
    ensures Join(Split(s, sep), sep) == s
    ensures forall k :: 0 <= k < |Split(s, sep)| ==> sep !in Split(s, sep)[k]
  {
    JoinSplit(s, sep);
    PiecesFree(s, sep);
  }

  lemma {:induction false} JoinSplit(s: string, sep: char)
    ensures Join(Split(s, sep), sep) == s
    decreases |s|
  {
    var i := FirstIndex(s, sep);
    if i == |s| {
      assert s[..i] == s;
    } else {
      var head, rest := s[..i], s[i + 1..];
      JoinSplit(rest, sep);
      SplitAt(s, sep);
      JoinCons(head, Split(rest, sep), sep);
      Reassemble(s, i);
    }
  }

  lemma Reassemble(s: string, i: nat)
    requires i < |s|
    ensures s[..i] + [s[i]] + s[i + 1..] == s
  {
  }

  lemma SplitAt(s: string, sep: char)
    requires FirstIndex(s, sep) < |s|
    ensures Split(s, sep) == [s[..FirstIndex(s, sep)]] + Split(s[FirstIndex(s, sep) + 1..], sep)
  {
  }

  lemma JoinCons(head: string, tail: seq<string>, sep: char)
    requires |tail| >= 1
    ensures Join([head] + tail, sep) == head + [sep] + Join(tail, sep)
  {
    assert ([head] + tail)[1..] == tail;
  }

  lemma {:induction false} PiecesFree(s: string, sep: char)
    ensures forall k :: 0 <= k < |Split(s, sep)| ==> sep !in Split(s, sep)[k]
    decreases |s|
  {
    var i := FirstIndex(s, sep);
    if i < |s| {
      var rest := s[i + 1..];
      var tail := Split(rest, sep);
      PiecesFree(rest, sep);
      assert Split(s, sep) == [s[..i]] + tail;
      forall k | 0 <= k < |Split(s, sep)| ensures sep !in Split(s, sep)[k] {
        if k > 0 {
          assert Split(s, sep)[k] == tail[k - 1];
        }
      }
    }
  }

  /** `authHeader.startsWith(prefix)`. */
  predicate StartsWith(s: string, prefix: string)
  {
    |prefix| <= |s| && s[..|prefix|] == prefix
  }

  /** `authHeader.split(' ')[1]`, which is `undefined` when there is no second piece. */
  function SecondField(header: string): Option<string>
  {
    var parts := Split(header, ' ');
    if |parts| > 1 then Some(parts[1]) else None
  }

  /** For a header that starts with "Bearer ", the token is the text after the prefix up to the next space. */
  lemma BearerToken(header: string)
    requires StartsWith(header, BearerPrefix)
    ensures var after := header[|BearerPrefix|..];
      SecondField(header) == Some(after[..FirstIndex(after, ' ')])
  {
    assert header[6] == ' ';
    assert forall k :: 0 <= k < 6 ==> header[k] == BearerPrefix[k];
    FirstIndexIs(header, ' ', 6);
    assert Split(header, ' ')[1..] == Split(header[7..], ' ');
  }

  /** `JWT_SECRET || default` */
  function Secret(env: Option<string>): (r: string)
    ensures env.Some? && env.value != "" ==> r == env.value
    ensures env.None? || env.value == "" ==> r == DefaultSecret
  {
    if env.Some? && env.value != "" then env.value else DefaultSecret
  }

  /** The whole middleware. */
  function Authenticate(header: Option<string>, jwtSecret: Option<string>, verify: (string, string) -> Verification)
    : (r: Outcome)
    ensures header.None? || !StartsWith(header.value, BearerPrefix) ==> r == Deny(401, NO_TOKEN)
    ensures r.Next? <==>
      && header.Some? && StartsWith(header.value, BearerPrefix)
      && var token := SecondField(header.value);
      && token.Some? && token.value != ""
      && verify(token.value, Secret(jwtSecret)).Decoded?
    ensures r.Next? ==> r.userId == verify(SecondField(header.value).value, Secret(jwtSecret)).userId
    ensures r.Deny? ==> r.status == 401
    ensures r == Deny(401, EXPIRED_TOKEN) <==>
      && header.Some? && StartsWith(header.value, BearerPrefix)
      && var token := SecondField(header.value);
      && token.Some? && token.value != ""
      && verify(token.value, Secret(jwtSecret)) == Failed("TokenExpiredError")
    ensures header.Some? && StartsWith(header.value, BearerPrefix) && SecondField(header.value) == Some("") ==>
      r == Deny(401, NO_TOKEN)
  {
    if header.None? || header.value == "" || !StartsWith(header.value, BearerPrefix) then Deny(401, NO_TOKEN)
    else
      var token := SecondField(header.value);
      if token.None? || token.value == "" then Deny(401, NO_TOKEN)
      else match verify(token.value, Secret(jwtSecret))
        case Decoded(userId) => Next(userId)
        case Failed(name) => Deny(401, if name == "TokenExpiredError" then EXPIRED_TOKEN else INVALID_TOKEN)
  }

  /**
   * A header that starts with "Bearer " carries an empty token exactly when
   * nothing but a space (or nothing at all) follows the prefix, and any such
   * header is refused with NO_TOKEN.
   */
  lemma EmptyTokenAlwaysRefused(header: string, jwtSecret: Option<string>, verify: (string, string) -> Verification)
    requires StartsWith(header, BearerPrefix)
    ensures SecondField(header) == Some("") <==> |header| == |BearerPrefix| || header[|BearerPrefix|] == ' '
    ensures SecondField(header) == Some("") ==> Authenticate(Some(header), jwtSecret, verify) == Deny(401, NO_TOKEN)
  {
    BearerToken(header);
    var after := header[|BearerPrefix|..];
    assert |header| == |BearerPrefix| || header[|BearerPrefix|] == ' ' <==> after == [] || after[0] == ' ';
  }

  /** "Bearer " alone and "Bearer  x" (two spaces) both carry an empty token and are refused with NO_TOKEN. */
  lemma EmptyTokenRefused(jwtSecret: Option<string>, verify: (string, string) -> Verification)
    ensures Authenticate(Some("Bearer "), jwtSecret, verify) == Deny(401, NO_TOKEN)
    ensures Authenticate(Some("Bearer  x"), jwtSecret, verify) == Deny(401, NO_TOKEN)
  {
    BearerToken("Bearer ");
    BearerToken("Bearer  x");
    assert "Bearer  x"[7..][0] == ' ';
  }

  /** Every failure other than expiry is reported as an invalid token. */
  lemma FailureClassification(header: string, jwtSecret: Option<string>, verify: (string, string) -> Verification)
    requires StartsWith(header, BearerPrefix)
    requires SecondField(header).Some? && SecondField(header).value != ""
    requires verify(SecondField(header).value, Secret(jwtSecret)).Failed?
    ensures var name := verify(SecondField(header).value, Secret(jwtSecret)).errorName;
      Authenticate(Some(header), jwtSecret, verify) == Deny(401, if name == "TokenExpiredError" then EXPIRED_TOKEN else INVALID_TOKEN)
  {
  }
}
