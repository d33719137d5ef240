/**
 * The OAuth2 token record (Sources/Types/Tokens/AccessToken.swift): its `scope` field is a
 * whitespace-separated list of scope names, parsed and written by two loops.
 */
module AccessTokens {
  import opened Wrappers
  import opened Text
  import opened Json
  import opened Constants

  datatype AccessToken = AccessToken(
    refreshToken: Option<string>,
    accessToken: string,
    expiresIn: int,
    tokenType: string,
    scopes: seq<OAuth2Scope>)

  /** `init(from:)` fails with a decoding error, or stops the process on an unknown scope name. */
  datatype TokenError = Malformed(error: DecodeError) | UnknownScope(name: string)

  /** The scopes named by `parts`, in order, or the first part that names no scope. */
  function ScopesOfParts(parts: seq<string>): (r: Result<seq<OAuth2Scope>, string>)
    ensures r.Success? ==> |r.value| == |parts|
  {
    if |parts| == 0 then Success([])
    else match ScopeFromRaw(parts[0])
      case None => Failure(parts[0])
      case Some(s) =>
        match ScopesOfParts(parts[1..])
        case Failure(name) => Failure(name)
        case Success(rest) => Success([s] + rest)
  }

  /** A successful parse names every piece: writing the scopes back gives the pieces. */
  lemma {:induction false} ParsedNamesParts(parts: seq<string>)
    requires ScopesOfParts(parts).Success?
    ensures ScopeNames(ScopesOfParts(parts).value) == parts
  {
    if |parts| > 0 {
      ParsedNamesParts(parts[1..]);
      var r := ScopesOfParts(parts).value;
      assert r[1..] == ScopesOfParts(parts[1..]).value;
    }
  }

  /** A failed parse names a piece that is no scope. */
  lemma {:induction false} FailedNamesPiece(parts: seq<string>)
    requires ScopesOfParts(parts).Failure?
    ensures ScopesOfParts(parts).error in parts && ScopeFromRaw(ScopesOfParts(parts).error).None?
  {
    if ScopeFromRaw(parts[0]).Some? {
      FailedNamesPiece(parts[1..]);
    }
  }

  /** The specification of the scope loop: split on `CharacterSet.whitespaces`, then look each piece up. */
  function ParseScopes(s: string): Result<seq<OAuth2Scope>, string>
  {
    ScopesOfParts(Components(s, Whitespaces))
  }

  /** The raw names of `scopes`, in order. */
  function ScopeNames(scopes: seq<OAuth2Scope>): (names: seq<string>)
    ensures |names| == |scopes| && forall k :: 0 <= k < |scopes| ==> names[k] == ScopeRaw(scopes[k])
  {
    if |scopes| == 0 then [] else [ScopeRaw(scopes[0])] + ScopeNames(scopes[1..])
  }

  function ScopeString(scopes: seq<OAuth2Scope>): string
  {
    Join(ScopeNames(scopes), " ")
  }

  /** `init(from:)`'s loop: one `OAuth2Scope(rawValue:)!` per piece, appended in order. */
  method DecodeScopes(scopeString: string) returns (r: Result<seq<OAuth2Scope>, string>)
    ensures r == ParseScopes(scopeString)
  {
    var pieces := Components(scopeString, Whitespaces);
    var scopes: seq<OAuth2Scope> := [];
    var i := 0;
    AppendNothing(ScopesOfParts(pieces));
    assert pieces[0..] == pieces;
    while i < |pieces|
      invariant 0 <= i <= |pieces|
      invariant ScopesOfParts(pieces) == AppendAll(scopes, ScopesOfParts(pieces[i..]))
    {
      match ScopeFromRaw(pieces[i])
      case None =>
        FailureStops(pieces[i..]);
        return Failure(pieces[i]);
      case Some(scope) =>
        StepParts(scopes, pieces[i..]);
        assert pieces[i..][1..] == pieces[i + 1..];
        scopes := scopes + [scope];
        i := i + 1;
    }
    assert ScopesOfParts(pieces[i..]) == Success([]);
    assert scopes + [] == scopes;
    return Success(scopes);
  }

  /** The loop's accumulator in front of what the rest of the pieces give. */
  function AppendAll(done: seq<OAuth2Scope>, rest: Result<seq<OAuth2Scope>, string>): Result<seq<OAuth2Scope>, string>
  {
    match rest
    case Success(more) => Success(done + more)
    case Failure(name) => Failure(name)
  }

  lemma FailureStops(parts: seq<string>)
    requires |parts| > 0 && ScopeFromRaw(parts[0]).None?
    ensures ScopesOfParts(parts) == Failure(parts[0])
  {
  }

  lemma StepParts(done: seq<OAuth2Scope>, parts: seq<string>)
    requires |parts| > 0 && ScopeFromRaw(parts[0]).Some?
    ensures AppendAll(done, ScopesOfParts(parts)) ==
      AppendAll(done + [ScopeFromRaw(parts[0]).value], ScopesOfParts(parts[1..]))
  {
    var s := ScopeFromRaw(parts[0]).value;
    match ScopesOfParts(parts[1..])
    case Success(more) =>
      assert ScopesOfParts(parts) == Success([s] + more);
      assert done + [s] + more == done + ([s] + more);
    case Failure(name) =>
      assert ScopesOfParts(parts) == Failure(name);
  }

  lemma AppendNothing(r: Result<seq<OAuth2Scope>, string>)
    ensures AppendAll([], r) == r
  {
    if r.Success? { assert [] + r.value == r.value; }
  }

  /** `encode(to:)`'s loop: the raw value of each scope appended in order, then joined by one space. */
  method EncodeScopes(scopes: seq<OAuth2Scope>) returns (s: string)
    ensures s == ScopeString(scopes)
  {
    var names: seq<string> := [];
    var i := 0;
    while i < |scopes|
      invariant 0 <= i <= |scopes|
      invariant names == ScopeNames(scopes[..i])
    {
      NamesSnoc(scopes[..i], scopes[i]);
      assert scopes[..i + 1] == scopes[..i] + [scopes[i]];
      names := names + [ScopeRaw(scopes[i])];
      i := i + 1;
    }
    assert scopes[..i] == scopes;
    s := Join(names, " ");
  }

  lemma NamesSnoc(scopes: seq<OAuth2Scope>, s: OAuth2Scope)
    ensures ScopeNames(scopes + [s]) == ScopeNames(scopes) + [ScopeRaw(s)]
  {
  }

  /** Every non-empty scope list written by `encode` is parsed back to itself. */
  lemma ScopesRoundTrip(scopes: seq<OAuth2Scope>)
    requires |scopes| > 0
    ensures ParseScopes(ScopeString(scopes)) == Success(scopes)
  {
    var names := ScopeNames(scopes);
    forall k | 0 <= k < |names| ensures NoneIn(names[k], Whitespaces) {
      ScopeRawPlain(scopes[k]);
    }
    ComponentsOfJoin(names, ' ', Whitespaces);
    PartsOfNames(scopes);
  }

  lemma {:induction false} PartsOfNames(scopes: seq<OAuth2Scope>)
    ensures ScopesOfParts(ScopeNames(scopes)) == Success(scopes)
  {
    if |scopes| > 0 {
      ScopeRoundTrip(scopes[0]);
      PartsOfNames(scopes[1..]);
      assert ScopeNames(scopes)[1..] == ScopeNames(scopes[1..]);
      assert [scopes[0]] + scopes[1..] == scopes;
    }
  }

  /** The empty list is written as `""`, and `""` is one empty piece, which names no scope. */
  lemma EmptyScopesDoNotRoundTrip()
    ensures ScopeString([]) == ""
    ensures ParseScopes("") == Failure("")
  {
    assert Components("", Whitespaces) == [""];
    if ScopeFromRaw("").Some? {
      ScopeRawPlain(ScopeFromRaw("").value);
    }
  }

  /** A doubled or leading space makes an empty piece, which names no scope. */
  lemma DoubledSpaceFails(scopes: seq<OAuth2Scope>)
    ensures ParseScopes(" " + ScopeString(scopes)).Failure?
  {
    var s := ScopeString(scopes);
    assert " " + s == [] + [' '] + s;
    ComponentsOfRun([], ' ', s, Whitespaces);
    if ScopeFromRaw("").Some? {
      ScopeRawPlain(ScopeFromRaw("").value);
    }
  }

  /** The keyed fields of `init(from:)`, in its order; the scope string is parsed separately. */
  function DecodeFields(doc: Value): (r: Result<(AccessToken, string), DecodeError>)
    ensures r.Success? <==> && doc.Object? && GetString(doc.fields, "access_token").Success?
                            && GetInt(doc.fields, "expires_in").Success? && GetString(doc.fields, "token_type").Success?
                            && GetString(doc.fields, "scope").Success?
    ensures r.Success? ==> var (t, scope) := r.value;
      && (t.refreshToken.Some? <==> GetString(doc.fields, "refresh_token").Success?)
      && (t.refreshToken.Some? ==> doc.fields["refresh_token"] == Str(t.refreshToken.value))
      && doc.fields["access_token"] == Str(t.accessToken) && doc.fields["expires_in"] == Number(t.expiresIn)
      && doc.fields["token_type"] == Str(t.tokenType) && doc.fields["scope"] == Str(scope)
      && t.scopes == []
  {
    var fields :- Container(doc, "");
    var accessToken :- GetString(fields, "access_token");
    var expiresIn :- GetInt(fields, "expires_in");
    var tokenType :- GetString(fields, "token_type");
    var scope :- GetString(fields, "scope");
    Success((AccessToken(GetString(fields, "refresh_token").ToOption(), accessToken, expiresIn, tokenType, []), scope))
  }

  /** The specification of `init(from:)`. */
  function TokenOf(doc: Value): Result<AccessToken, TokenError>
  {
    match DecodeFields(doc)
    case Failure(e) => Failure(Malformed(e))
    case Success((t, scope)) =>
      match ParseScopes(scope)
      case Failure(name) => Failure(UnknownScope(name))
      case Success(scopes) => Success(t.(scopes := scopes))
  }

  /** `init(from:)`: the keyed fields, then the scope loop. */
  method DecodeToken(doc: Value) returns (r: Result<AccessToken, TokenError>)
    ensures r == TokenOf(doc)
  {
    match DecodeFields(doc)
    case Failure(e) =>
      return Failure(Malformed(e));
    case Success((t, scope)) =>
      var scopes := DecodeScopes(scope);
      match scopes
      case Failure(name) =>
        return Failure(UnknownScope(name));
      case Success(list) =>
        return Success(t.(scopes := list));
  }

  /** The specification of `encode(to:)`: `refresh_token` only when present. */
  function TokenDocument(t: AccessToken): Value
  {
    var fields := map["access_token" := Str(t.accessToken), "expires_in" := Number(t.expiresIn),
                      "token_type" := Str(t.tokenType), "scope" := Str(ScopeString(t.scopes))];
    Object(if t.refreshToken.Some? then fields["refresh_token" := Str(t.refreshToken.value)] else fields)
  }

  /** `encode(to:)`. */
  method EncodeToken(t: AccessToken) returns (v: Value)
    ensures v == TokenDocument(t)
  {
    var scope := EncodeScopes(t.scopes);
    var fields := map["access_token" := Str(t.accessToken), "expires_in" := Number(t.expiresIn),
                      "token_type" := Str(t.tokenType), "scope" := Str(scope)];
    if t.refreshToken.Some? {
      fields := fields["refresh_token" := Str(t.refreshToken.value)];
    }
    v := Object(fields);
  }

  /** A token with at least one scope and a 64-bit `expires_in` is read back unchanged. */
  lemma TokenRoundTrip(t: AccessToken)
    requires |t.scopes| > 0 && IntMin <= t.expiresIn <= IntMax
    ensures TokenOf(TokenDocument(t)) == Success(t)
  {
    ScopesRoundTrip(t.scopes);
    var d := DecodeFields(TokenDocument(t));
    assert d.Success?;
    assert d.value.1 == ScopeString(t.scopes);
    assert d.value.0 == t.(scopes := []);
  }
}
