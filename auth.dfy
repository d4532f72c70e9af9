/**
 * The token middleware in front of the quest listing and the submit handler. Verifying a
 * token's signature and expiry is left abstract: `verify` maps a token to the claims it
 * carries, or to nothing when it does not verify.
 */
module Auth {
  import opened Wrappers
  import opened Seqs
  import opened Models

  /** The claims the login handler signs: the team's id and email. */
  datatype Claims = Claims(id: TeamId, email: string)

  /** `Missing token` (status 401), `Invalid token` (status 403), or the caller's claims. */
  datatype AuthResult = MissingToken | InvalidToken | Authenticated(claims: Claims)

  function FirstSpace(s: string): Option<nat> {
    FirstIndex(s, (c: char) => c == ' ')
  }

  /** `header.split(' ')[1]`: the text between the first space and the next one (or the end);
      nothing when the header has no space. */
  function SecondField(header: string): (r: Option<string>)
    ensures r.None? <==> ' ' !in header
    ensures r.Some? ==> ' ' !in r.value
  {
    match FirstSpace(header)
    case None =>
      assert forall c :: c in header ==> c != ' ';
      None
    case Some(i) =>
      var rest := header[i + 1..];
      match FirstSpace(rest)
      case None => Some(rest)
      case Some(j) => Some(rest[..j])
  }

  /** `SecondField` inverts joining with spaces: for a first field and a second field without
      spaces, followed by nothing or by a space and anything, it returns the second field. */
  lemma SecondFieldOfJoin(first: string, second: string, tail: string)
    requires ' ' !in first && ' ' !in second
    requires tail == [] || tail[0] == ' '
    ensures SecondField(first + " " + second + tail) == Some(second)
  {
    var h := first + " " + second + tail;
    assert h[|first|] == ' ';
    assert forall k :: 0 <= k < |first| ==> h[k] == first[k];
    var rest := h[|first| + 1..];
    assert rest == second + tail;
    assert forall k :: 0 <= k < |second| ==> rest[k] == second[k];
    if tail != [] {
      assert rest[|second|] == ' ';
    } else {
      assert rest == second;
    }
  }

  /**
   * `authHeader && authHeader.split(' ')[1]`, then `if (!token)`: the token, or nothing when
   * the header is absent or empty, has no second field, or its second field is empty.
   */
  function BearerToken(header: Option<string>): (r: Option<string>)
    ensures r.Some? ==> r.value != "" && ' ' !in r.value
    ensures r.Some? <==> header.Some? && SecondField(header.value).Some? && SecondField(header.value).value != ""
    ensures r.Some? ==> r == SecondField(header.value)
  {
    if header.None? || header.value == "" then None
    else match SecondField(header.value)
      case None => None
      case Some(t) => if t == "" then None else Some(t)
  }

  /** `authenticateToken`: a missing token, a token that does not verify, or the claims it carries. */
  function Authenticate(header: Option<string>, verify: string -> Option<Claims>): (r: AuthResult)
    ensures r == MissingToken <==> BearerToken(header).None?
    ensures r == InvalidToken <==> BearerToken(header).Some? && verify(BearerToken(header).value).None?
    ensures r.Authenticated? ==> BearerToken(header).Some? && verify(BearerToken(header).value) == Some(r.claims)
  {
    match BearerToken(header)
    case None => MissingToken
    case Some(t) =>
      match verify(t)
      case None => InvalidToken
      case Some(c) => Authenticated(c)
  }

  /** `Bearer abc` yields the token `abc`. */
  lemma BearerTokenAccepted()
    ensures BearerToken(Some("Bearer abc")) == Some("abc")
  {
    assert "Bearer abc" == "Bearer" + " " + "abc" + "";
    SecondFieldOfJoin("Bearer", "abc", "");
  }

  /** No header, an empty one, and `Bearer` alone yield no token. */
  lemma BearerTokenMissing()
    ensures BearerToken(None) == None
    ensures BearerToken(Some("")) == None
    ensures BearerToken(Some("Bearer")) == None
  {
    assert ' ' !in "Bearer";
  }

  /** `Bearer  abc`, with two spaces, yields no token: its second field is empty. */
  lemma BearerTokenDoubleSpace()
    ensures BearerToken(Some("Bearer  abc")) == None
  {
    assert "Bearer  abc" == "Bearer" + " " + "" + " abc";
    SecondFieldOfJoin("Bearer", "", " abc");
  }
}
