/** The authentication middleware (pkg/middlewares/auth.go): it reads the
    `x-auth-token` header, splits it into whitespace-separated fields, accepts
    only the "bearer" scheme (compared after lower-casing), verifies the second
    field as a token and, on success only, stores the payload in the request
    context and lets the request through. The effect on the request context is
    returned as a value. */
module Middleware {
  import opened Base
  import opened Token

  const AuthorizationHeaderKey: string := "x-auth-token"
  const AuthorizationPayloadKey: string := "x-auth-token_payload"

  /** unicode.IsSpace, which strings.Fields splits on. */
  predicate IsSpace(c: char) {
    || c == '\t' || c == '\n' || c == '\U{000B}' || c == '\U{000C}' || c == '\r' || c == ' '
    || c == '\U{0085}' || c == '\U{00A0}' || c == '\U{1680}'
    || ('\U{2000}' <= c <= '\U{200A}')
    || c == '\U{2028}' || c == '\U{2029}' || c == '\U{202F}' || c == '\U{205F}' || c == '\U{3000}'
  }

  predicate AllSpace(s: string) {
    forall i :: 0 <= i < |s| ==> IsSpace(s[i])
  }

  /** A field as strings.Fields returns it: non-empty, without whitespace. */
  predicate IsWord(w: string) {
    |w| > 0 && forall i :: 0 <= i < |w| ==> !IsSpace(w[i])
  }

  /** The length of the longest whitespace-free prefix of s. */
  function WordLength(s: string): (n: nat)
    ensures n <= |s|
    ensures forall i :: 0 <= i < n ==> !IsSpace(s[i])
    ensures n < |s| ==> IsSpace(s[n])
    ensures |s| > 0 && !IsSpace(s[0]) ==> n > 0
  {
    if s == [] || IsSpace(s[0]) then 0 else 1 + WordLength(s[1..])
  }

  /** strings.Fields: the maximal whitespace-free runs of s, in order. */
  function Fields(s: string): (r: seq<string>)
    ensures forall i :: 0 <= i < |r| ==> IsWord(r[i])
    decreases |s|
  {
    if s == [] then []
    else if IsSpace(s[0]) then Fields(s[1..])
    else
      var n := WordLength(s);
      [s[..n]] + Fields(s[n..])
  }

  /** The characters of s that are not whitespace, in order. */
  function RemoveSpaces(s: string): (r: string)
    ensures |r| <= |s|
  {
    if s == [] then []
    else (if IsSpace(s[0]) then [] else [s[0]]) + RemoveSpaces(s[1..])
  }

  function Concat(ws: seq<string>): string {
    if ws == [] then [] else ws[0] + Concat(ws[1..])
  }

  lemma {:induction false} RemoveSpacesAppend(a: string, b: string)
    ensures RemoveSpaces(a + b) == RemoveSpaces(a) + RemoveSpaces(b)
    decreases |a|
  {
    if a == [] {
      assert a + b == b;
    } else {
      assert (a + b)[0] == a[0];
      assert (a + b)[1..] == a[1..] + b;
      RemoveSpacesAppend(a[1..], b);
    }
  }

  lemma {:induction false} RemoveSpacesOfWord(w: string)
    requires forall i :: 0 <= i < |w| ==> !IsSpace(w[i])
    ensures RemoveSpaces(w) == w
    decreases |w|
  {
    if w != [] {
      RemoveSpacesOfWord(w[1..]);
    }
  }

  /** Splitting loses exactly the whitespace: gluing the fields back together
      gives the header's non-whitespace characters, in their order. */
  lemma {:induction false} FieldsKeepEverythingButSpace(s: string)
    ensures Concat(Fields(s)) == RemoveSpaces(s)
    decreases |s|
  {
    if s == [] {
    } else if IsSpace(s[0]) {
      FieldsKeepEverythingButSpace(s[1..]);
    } else {
      var n := WordLength(s);
      FieldsKeepEverythingButSpace(s[n..]);
      assert ([s[..n]] + Fields(s[n..]))[1..] == Fields(s[n..]);
      RemoveSpacesOfWord(s[..n]);
      RemoveSpacesAppend(s[..n], s[n..]);
      assert s[..n] + s[n..] == s;
    }
  }

  /** A string has no fields exactly when it is all whitespace. */
  lemma {:induction false} NoFieldsIffAllSpace(s: string)
    ensures Fields(s) == [] <==> AllSpace(s)
    decreases |s|
  {
    if s != [] && IsSpace(s[0]) {
      NoFieldsIffAllSpace(s[1..]);
      assert AllSpace(s) <==> AllSpace(s[1..]) by {
        if AllSpace(s[1..]) {
          forall i | 0 <= i < |s| ensures IsSpace(s[i]) {
            if i > 0 { assert s[i] == s[1..][i - 1]; }
          }
        }
      }
    }
  }

  lemma WordLengthOfWord(w: string, rest: string)
    requires IsWord(w)
    requires rest == [] || IsSpace(rest[0])
    ensures WordLength(w + rest) == |w|
  {
    var s := w + rest;
    assert forall i :: 0 <= i < |w| ==> s[i] == w[i];
    assert |w| < |s| ==> s[|w|] == rest[0];
  }

  /** Leading whitespace is skipped and a word followed by whitespace (or by
      nothing) becomes the next field. */
  lemma {:induction false} FieldsCons(lead: string, w: string, rest: string)
    requires AllSpace(lead) && IsWord(w)
    requires rest == [] || IsSpace(rest[0])
    ensures Fields(lead + w + rest) == [w] + Fields(rest)
    decreases |lead|
  {
    var s := lead + w + rest;
    if lead == [] {
      assert s == w + rest;
      WordLengthOfWord(w, rest);
      assert s[..|w|] == w;
      assert s[|w|..] == rest;
    } else {
      assert s[0] == lead[0];
      assert s[1..] == lead[1..] + w + rest;
      FieldsCons(lead[1..], w, rest);
    }
  }

  /** strings.ToLower restricted to ASCII letters. No character outside ASCII
      lower-cases to one of the letters of "bearer", so comparing the result
      with "bearer" gives the same answer as the Unicode-wide function. */
  function ToLowerAscii(s: string): (r: string)
    ensures |r| == |s|
  {
    seq(|s|, i requires 0 <= i < |s| => if 'A' <= s[i] <= 'Z' then (s[i] as int + 32) as char else s[i])
  }

  predicate IsBearer(scheme: string) {
    ToLowerAscii(scheme) == "bearer"
  }

  /** The scheme test is case-insensitive and nothing else: each letter may be
      upper or lower case, and no other string passes. */
  lemma BearerIsCaseInsensitive(scheme: string)
    ensures IsBearer(scheme) <==>
      |scheme| == 6 && forall i :: 0 <= i < 6 ==> scheme[i] == "bearer"[i] || scheme[i] == "BEARER"[i]
  {
    if |scheme| == 6 && forall i :: 0 <= i < 6 ==> scheme[i] == "bearer"[i] || scheme[i] == "BEARER"[i] {
      assert ToLowerAscii(scheme) == "bearer" by {
        forall i | 0 <= i < 6 ensures ToLowerAscii(scheme)[i] == "bearer"[i] {
          assert scheme[i] == "bearer"[i] || scheme[i] == "BEARER"[i];
        }
      }
    }
    if IsBearer(scheme) {
      forall i | 0 <= i < 6 ensures scheme[i] == "bearer"[i] || scheme[i] == "BEARER"[i] {
        assert ToLowerAscii(scheme)[i] == "bearer"[i];
      }
    }
  }

  lemma BearerSpellings()
    ensures IsBearer("Bearer") && IsBearer("BEARER") && IsBearer("bearer") && IsBearer("bEaReR")
    ensures !IsBearer("Basic") && !IsBearer("Bearer:") && !IsBearer("Token")
  {
    BearerIsCaseInsensitive("Bearer:");
    BearerIsCaseInsensitive("Basic");
    BearerIsCaseInsensitive("Token");
    BearerIsCaseInsensitive("Bearer");
    BearerIsCaseInsensitive("BEARER");
    BearerIsCaseInsensitive("bearer");
    BearerIsCaseInsensitive("bEaReR");
  }

  datatype AuthError =
    | MissingHeader                             // "provide an authorization header"
    | InvalidHeaderFormat                       // "invalid authorization header format"
    | UnsupportedAuthorizationType(scheme: string)
    | Rejected(cause: TokenError)               // the maker's error, passed on

  /** What the middleware does to the request: abort it with an error, or
      store the payload under `key` in the context and call the next handler. */
  datatype Outcome = Abort(error: AuthError) | Next(key: string, payload: Payload)

  /** AuthMiddleWare, for one request whose `x-auth-token` header is `header`
      (the empty string when the header is absent). */
  function AuthMiddleware(maker: PasetoMaker, header: string, now: Time): (r: Outcome)
    ensures r == Abort(MissingHeader) <==> |header| == 0
    ensures r == Abort(InvalidHeaderFormat) <==> |header| > 0 && |Fields(header)| < 2
    ensures r.Next? <==>
      |Fields(header)| >= 2 && IsBearer(Fields(header)[0]) && VerifyToken(maker, Fields(header)[1], now).Ok?
    ensures r.Next? ==> r.key == AuthorizationPayloadKey && VerifyToken(maker, Fields(header)[1], now) == Ok(r.payload)
  {
    if |header| == 0 then Abort(MissingHeader)
    else
      var fields := Fields(header);
      if |fields| < 2 then Abort(InvalidHeaderFormat)
      else if !IsBearer(fields[0]) then Abort(UnsupportedAuthorizationType(ToLowerAscii(fields[0])))
      else
        match VerifyToken(maker, fields[1], now)
        case Err(e) => Abort(Rejected(e))
        case Ok(payload) => Next(AuthorizationPayloadKey, payload)
  }

  /** A non-empty header made only of whitespace has fewer than two fields. */
  lemma WhitespaceHeaderRejected(maker: PasetoMaker, header: string, now: Time)
    requires |header| > 0 && AllSpace(header)
    ensures AuthMiddleware(maker, header, now) == Abort(InvalidHeaderFormat)
  {
    NoFieldsIffAllSpace(header);
  }

  /** A header holding a single field, however padded, is rejected as
      malformed; this is the case of a bare token without a scheme. */
  lemma SingleFieldRejected(maker: PasetoMaker, lead: string, w: string, trail: string, now: Time)
    requires AllSpace(lead) && IsWord(w) && AllSpace(trail)
    ensures AuthMiddleware(maker, lead + w + trail, now) == Abort(InvalidHeaderFormat)
  {
    FieldsCons(lead, w, trail);
    NoFieldsIffAllSpace(trail);
  }

  /** The token is the second field: whitespace before, between and after the
      fields may be of any length and kind, and fields after the token are
      ignored. The outcome then depends only on the scheme and the token. */
  lemma TokenIsSecondField(maker: PasetoMaker, lead: string, scheme: string, gap: string, token: string, rest: string, now: Time)
    requires AllSpace(lead) && IsWord(scheme) && |gap| > 0 && AllSpace(gap) && IsWord(token)
    requires rest == [] || IsSpace(rest[0])
    ensures var r := AuthMiddleware(maker, lead + scheme + gap + token + rest, now);
      && (!IsBearer(scheme) ==> r == Abort(UnsupportedAuthorizationType(ToLowerAscii(scheme))))
      && (IsBearer(scheme) && VerifyToken(maker, token, now).Err? ==> r == Abort(Rejected(VerifyToken(maker, token, now).error)))
      && (IsBearer(scheme) && VerifyToken(maker, token, now).Ok? ==> r == Next(AuthorizationPayloadKey, VerifyToken(maker, token, now).value))
  {
    var header := lead + scheme + gap + token + rest;
    FieldsCons(gap, token, rest);
    assert gap == [] || IsSpace(gap[0]);
    var tail := gap + token + rest;
    FieldsCons(lead, scheme, tail);
    assert header == lead + scheme + tail;
    assert Fields(header) == [scheme] + ([token] + Fields(rest));
  }

  /** A header "Bearer <token>" carrying a token the maker just issued lets the
      request through with the issued payload until the token expires. */
  lemma IssuedTokenAuthenticates(maker: PasetoMaker, tokenId: Option<Uuid>, userId: ObjectId, duration: Duration, issued: Time, now: Time)
    requires Authenticated(maker.cipher)
    requires CreateToken(maker, tokenId, userId, duration, issued).Ok?
    requires IsWord(CreateToken(maker, tokenId, userId, duration, issued).value)
    requires now <= issued + duration
    ensures AuthMiddleware(maker, "Bearer " + CreateToken(maker, tokenId, userId, duration, issued).value, now)
         == Next(AuthorizationPayloadKey, Payload(tokenId.value, userId, issued, issued + duration))
  {
    var token := CreateToken(maker, tokenId, userId, duration, issued).value;
    CreateThenVerify(maker, tokenId, userId, duration, issued, now);
    BearerSpellings();
    TokenIsSecondField(maker, [], "Bearer", " ", token, [], now);
    assert [] + "Bearer" + " " + token + [] == "Bearer " + token;
  }
}
