/**
 * The authorization gate in front of protected routes, and the accessors
 * that read the identity it leaves in the request context.
 */
module Middleware {
  import opened Wrappers
  import opened GoStrings
  import opened Jwt

  const StatusUnauthorized := 401

  /** Why a request was turned away. */
  datatype Rejection = MissingHeader | InvalidFormat | InvalidToken

  /** The gate's verdict on one request. */
  datatype Decision = Reject(reason: Rejection) | Accept(claims: Claims)

  /** The response written to the client, if any. */
  datatype Response = NoResponse | Json(status: int, error: string, message: string)

  /** The 401 body written for each rejection. */
  function RejectionResponse(reason: Rejection): (r: Response)
    ensures r.Json? && r.status == StatusUnauthorized
  {
    match reason
    case MissingHeader =>
      Json(StatusUnauthorized, "Authorization header required", "Please provide a valid Bearer token")
    case InvalidFormat =>
      Json(StatusUnauthorized, "Invalid authorization format", "Authorization header must be in format: Bearer <token>")
    case InvalidToken =>
      Json(StatusUnauthorized, "Invalid or expired token", "Please login again")
  }

  /** The token of a `Bearer <token>` header: split on a space, exactly two pieces, the first `Bearer`. */
  function BearerToken(header: string): (r: Option<string>)
    ensures r.Some? <==> |Split(header, ' ')| == 2 && Split(header, ' ')[0] == "Bearer"
    ensures r.Some? ==> Split(header, ' ') == ["Bearer", r.value]
  {
    var parts := Split(header, ' ');
    if |parts| != 2 || parts[0] != "Bearer" then None else Some(parts[1])
  }

  /** The header is the word `Bearer`, one space, and a rest without spaces (possibly empty). */
  predicate WellFormedBearer(header: string)
  {
    |header| >= 7 && header[..7] == "Bearer " && ' ' !in header[7..]
  }

  /** `BearerToken` yields `token` exactly when the header is `Bearer ` followed by a space-free `token`. */
  lemma {:induction false} BearerTokenExactly(header: string, token: string)
    ensures BearerToken(header) == Some(token) <==> header == "Bearer " + token && ' ' !in token
  {
    if BearerToken(header) == Some(token) {
      var parts := Split(header, ' ');
      JoinSplit(header, ' ');
      SplitPiecesHaveNoSeparator(header, ' ', 1);
      assert Join(parts, ' ') == "Bearer" + [' '] + token;
    }
    if header == "Bearer " + token && ' ' !in token {
      var parts := ["Bearer", token];
      assert Join(parts, ' ') == header;
      SplitJoin(parts, ' ');
    }
  }

  /** A header is accepted in form exactly when it is well formed, and what is handed on is the rest after `Bearer `. */
  lemma BearerTokenAccepts(header: string)
    ensures BearerToken(header).Some? <==> WellFormedBearer(header)
    ensures BearerToken(header).Some? ==> BearerToken(header).value == header[7..]
  {
    if BearerToken(header).Some? {
      BearerTokenExactly(header, BearerToken(header).value);
    }
    if WellFormedBearer(header) {
      assert header == "Bearer " + header[7..];
      BearerTokenExactly(header, header[7..]);
    }
  }

  /** `"Bearer  x"` splits into three pieces, the middle one empty, so it is refused. */
  lemma DoubleSpaceRefused()
    ensures Split("Bearer  x", ' ') == ["Bearer", "", "x"]
    ensures BearerToken("Bearer  x") == None
  {
    var parts := ["Bearer", "", "x"];
    assert Join(parts, ' ') == "Bearer  x" by {
      assert Join(parts[2..], ' ') == "x";
      assert Join(parts[1..], ' ') == "" + [' '] + "x";
    }
    assert forall i :: 0 <= i < |parts| ==> ' ' !in parts[i] by {
      assert parts[0] == "Bearer" && ' ' !in "Bearer";
    }
    SplitJoin(parts, ' ');
  }

  /** `"Bearer "` splits into `Bearer` and an empty piece, and the empty token is handed on. */
  lemma TrailingSpaceGivesEmptyToken()
    ensures Split("Bearer ", ' ') == ["Bearer", ""]
    ensures BearerToken("Bearer ") == Some("")
  {
    var parts := ["Bearer", ""];
    assert Join(parts, ' ') == "Bearer ";
    assert ' ' !in "Bearer";
    SplitJoin(parts, ' ');
  }

  /** The scheme word is compared case-sensitively. */
  lemma SchemeIsCaseSensitive()
    ensures BearerToken("bearer x") == None
  {
    BearerTokenAccepts("bearer x");
    assert "bearer x"[0] != "Bearer "[0];
  }

  /** The gate's decision for the `Authorization` header value `header` at clock reading `now`. */
  function Decide(header: string, svc: TokenService, now: int): (d: Decision)
    ensures d == Reject(MissingHeader) <==> header == ""
    ensures d == Reject(InvalidFormat) <==> header != "" && BearerToken(header).None?
    ensures d.Accept? ==> BearerToken(header).Some? && ValidateToken(svc, BearerToken(header).value, now) == Ok(d.claims)
  {
    if header == "" then Reject(MissingHeader)
    else match BearerToken(header)
      case None => Reject(InvalidFormat)
      case Some(token) =>
        match ValidateToken(svc, token, now)
        case Err(_) => Reject(InvalidToken)
        case Ok(claims) => Accept(claims)
  }

  /**
   * The three rejections and the acceptance, each by what the header is:
   * empty; not `Bearer ` plus a space-free token; a token that does not validate;
   * a token that validates, whose claims are then the decision's.
   */
  lemma DecideCases(header: string, svc: TokenService, now: int)
    ensures Decide(header, svc, now) == Reject(MissingHeader) <==> header == ""
    ensures Decide(header, svc, now) == Reject(InvalidFormat) <==> header != "" && !WellFormedBearer(header)
    ensures Decide(header, svc, now) == Reject(InvalidToken) <==>
      WellFormedBearer(header) && ValidateToken(svc, header[7..], now).Err?
    ensures Decide(header, svc, now).Accept? <==>
      WellFormedBearer(header) && ValidateToken(svc, header[7..], now).Ok?
    ensures Decide(header, svc, now).Accept? ==>
      ValidateToken(svc, header[7..], now) == Ok(Decide(header, svc, now).claims)
  {
    BearerTokenAccepts(header);
  }

  /** Under the signer's assumptions, a token just issued gets through the gate with the claims it was built from. */
  lemma IssuedTokenPassesGate(svc: TokenService, userId: string, role: string, email: string,
                              expiryRead: int, issuedRead: int, now: int)
    requires SignedTokensParse(svc.signer) && TokensHaveNoSpace(svc.signer)
    requires GenerateToken(svc, userId, role, email, expiryRead, issuedRead).Ok?
    requires now < expiryRead + TokenLifetime
    ensures Decide("Bearer " + GenerateToken(svc, userId, role, email, expiryRead, issuedRead).value, svc, now)
            == Accept(MakeClaims(userId, role, email, expiryRead, issuedRead))
  {
    var c := MakeClaims(userId, role, email, expiryRead, issuedRead);
    var token := GenerateToken(svc, userId, role, email, expiryRead, issuedRead).value;
    assert ' ' !in token by {
      assert svc.signer.sign(svc.secret, c) == Some(token);
    }
    BearerTokenExactly("Bearer " + token, token);
    IssuedTokenValidates(svc, userId, role, email, expiryRead, issuedRead, now);
  }

  /** The per-request context: headers in, keys, abort and next flags, response out. */
  class RequestContext {
    const headers: map<string, string>
    var keys: map<string, string>
    var aborted: bool
    var nextCalled: bool
    var response: Response

    /** A fresh request: nothing set, nothing written, neither aborted nor passed on. */
    constructor (headers: map<string, string>)
      ensures this.headers == headers
      ensures keys == map[] && !aborted && !nextCalled && response == NoResponse
    {
      this.headers := headers;
      keys := map[];
      aborted := false;
      nextCalled := false;
      response := NoResponse;
    }

    /** `c.GetHeader`: the header's value, or "" when it is absent. */
    function GetHeader(name: string): (r: string)
      ensures name in headers ==> r == headers[name]
      ensures name !in headers ==> r == ""
    {
      if name in headers then headers[name] else ""
    }

    /** `c.Set` */
    method Set(key: string, value: string)
      modifies this
      ensures keys == old(keys)[key := value]
      ensures aborted == old(aborted) && nextCalled == old(nextCalled) && response == old(response)
    {
      keys := keys[key := value];
    }

    /** `c.JSON` */
    method WriteJson(r: Response)
      modifies this
      ensures response == r
      ensures keys == old(keys) && aborted == old(aborted) && nextCalled == old(nextCalled)
    {
      response := r;
    }

    /** `c.Abort`: no later handler runs. */
    method Abort()
      modifies this
      ensures aborted
      ensures keys == old(keys) && nextCalled == old(nextCalled) && response == old(response)
    {
      aborted := true;
    }

    /** `c.Next`: control passes to the protected handler. */
    method Next()
      modifies this
      ensures nextCalled
      ensures keys == old(keys) && aborted == old(aborted) && response == old(response)
    {
      nextCalled := true;
    }

    /**
     * `AuthMiddleware`: on each rejection write its 401 body and abort; on
     * acceptance set user_id, user_email and user_role from the claims and
     * pass the request on.
     */
    method AuthMiddleware(svc: TokenService, now: int)
      modifies this
      ensures match Decide(GetHeader("Authorization"), svc, now)
        case Reject(reason) =>
          && aborted && response == RejectionResponse(reason)
          && keys == old(keys) && nextCalled == old(nextCalled)
        case Accept(c) =>
          && nextCalled
          && keys == old(keys)["user_id" := c.userId]["user_email" := c.email]["user_role" := c.role]
          && aborted == old(aborted) && response == old(response)
    {
      var authHeader := GetHeader("Authorization");
      if authHeader == "" {
        WriteJson(RejectionResponse(MissingHeader));
        Abort();
        return;
      }

      var parts := Split(authHeader, ' ');
      if |parts| != 2 || parts[0] != "Bearer" {
        WriteJson(RejectionResponse(InvalidFormat));
        Abort();
        return;
      }

      var token := parts[1];
      var validated := ValidateToken(svc, token, now);
      if validated.Err? {
        WriteJson(RejectionResponse(InvalidToken));
        Abort();
        return;
      }

      var claims := validated.value;
      Set("user_id", claims.userId);
      Set("user_email", claims.email);
      Set("user_role", claims.role);
      Next();
    }

    /** `GetUserID`: the stored user id, or an error when the gate has not set one. */
    function GetUserID(): (r: Result<string, string>)
      reads this
      ensures r.Ok? <==> "user_id" in keys
      ensures r.Ok? ==> r.value == keys["user_id"]
      ensures r.Err? ==> r.error == "user ID not found in context"
    {
      if "user_id" in keys then Ok(keys["user_id"]) else Err("user ID not found in context")
    }

    /** `GetUserEmail`; its caller must have passed the gate, since a missing value panics. */
    function GetUserEmail(): (r: string)
      reads this
      requires "user_email" in keys
      ensures r == keys["user_email"]
    {
      keys["user_email"]
    }

    /** `GetUserRole`; its caller must have passed the gate, since a missing value panics. */
    function GetUserRole(): (r: string)
      reads this
      requires "user_role" in keys
      ensures r == keys["user_role"]
    {
      keys["user_role"]
    }
  }

  /**
   * One protected request from arrival to the end of the gate: it either is
   * aborted with a 401 or is passed on, never both and never neither, and a
   * request passed on exposes the validated identity.
   */
  method ServeProtected(headers: map<string, string>, svc: TokenService, now: int) returns (ctx: RequestContext)
    ensures fresh(ctx) && ctx.headers == headers
    ensures ctx.aborted != ctx.nextCalled
    ensures ctx.aborted <==> ctx.response.Json? && ctx.response.status == StatusUnauthorized
    ensures ctx.aborted <==> Decide(ctx.GetHeader("Authorization"), svc, now).Reject?
    ensures ctx.nextCalled ==> "user_id" in ctx.keys && "user_email" in ctx.keys && "user_role" in ctx.keys
    ensures ctx.nextCalled ==>
      var c := Decide(ctx.GetHeader("Authorization"), svc, now).claims;
      && ctx.GetUserID() == Ok(c.userId)
      && ctx.GetUserEmail() == c.email
      && ctx.GetUserRole() == c.role
  {
    ctx := new RequestContext(headers);
    ctx.AuthMiddleware(svc, now);
  }
}
