/** The authorization parameters of the redirect to Google
    (lib/omniauth/strategies/google_oauth2.rb, lines 16 and 24-39). The
    parameter map produced by the generic OAuth2 layer is updated step by
    step: request values are passed through, the scope is normalised,
    access_type gets its default and openid_realm is renamed. */
module Authorize {
  import opened RubyValues
  import opened Text
  import opened Scopes

  /** The keys passed through from the request by default. */
  const DefaultAuthorizeOptions: seq<string> :=
    ["access_type", "hd", "login_hint", "prompt", "request_visible_actions",
     "scope", "state", "redirect_uri", "include_granted_scopes", "openid_realm"]

  /** Calling `split` on a scope value that is not a String raises
      NoMethodError. */
  datatype AuthorizeError = ScopeNotAString(scope: Value)

  /** The request supplies key k: its value is neither nil nor "". */
  predicate Supplied(request: map<string, Value>, k: string)
  {
    k in request && request[k] != Nil && request[k] != Str("")
  }

  /** The parameters after the pass-through loop has visited keys in order. */
  function CopyPassthrough(params: map<string, Value>, request: map<string, Value>,
                           keys: seq<string>): (r: map<string, Value>)
    ensures forall k :: k in keys && Supplied(request, k) ==> k in r && r[k] == request[k]
    ensures forall k :: !(k in keys && Supplied(request, k)) ==> Agree(r, params, k)
  {
    if keys == [] then params
    else
      var p := CopyPassthrough(params, request, keys[..|keys| - 1]);
      var k := keys[|keys| - 1];
      assert forall j :: j in keys <==> j in keys[..|keys| - 1] || j == k;
      if Supplied(request, k) then p[k := request[k]] else p
  }

  /** With the default authorize_options, each of the ten listed keys takes
      a supplied request value, and a request key the list does not name,
      such as "code" or "client_id", is never copied into the parameters. */
  lemma DefaultOptionsPassThrough(params0: map<string, Value>, request: map<string, Value>)
    ensures var p := CopyPassthrough(params0, request, DefaultAuthorizeOptions);
      && (forall k :: k in DefaultAuthorizeOptions && Supplied(request, k) ==> k in p && p[k] == request[k])
      && Agree(p, params0, "code") && Agree(p, params0, "client_id")
      && (Supplied(request, "hd") ==> p["hd"] == request["hd"])
  {
    assert "hd" in DefaultAuthorizeOptions;
    assert "code" !in DefaultAuthorizeOptions && "client_id" !in DefaultAuthorizeOptions;
  }

  /** `params[:scope] || DEFAULT_SCOPE`, or None when that value is not a
      String (and `split` would raise). */
  function ScopeSource(params: map<string, Value>): Option<string>
  {
    var v := Get(params, "scope");
    if !Truthy(v) then Some(DefaultScope)
    else if v.Str? then Some(v.s)
    else None
  }

  /** The pass-through loop: each key of authorizeOptions, in order, takes
      the request's value when the request supplies one. */
  method PassThrough(params0: map<string, Value>, request: map<string, Value>,
                     authorizeOptions: seq<string>)
    returns (params: map<string, Value>)
    ensures params == CopyPassthrough(params0, request, authorizeOptions)
  {
    params := params0;
    var i := 0;
    while i < |authorizeOptions|
      invariant 0 <= i <= |authorizeOptions|
      invariant params == CopyPassthrough(params0, request, authorizeOptions[..i])
    {
      var k := authorizeOptions[i];
      assert authorizeOptions[..i + 1][..i] == authorizeOptions[..i];
      if Supplied(request, k) {
        params := params[k := request[k]];
      }
      i := i + 1;
    }
    assert authorizeOptions[..i] == authorizeOptions;
  }

  /** `scope_list.map!`: every token replaced by its normalised form. */
  method NormalizeInPlace(tokens: seq<string>) returns (scopeList: seq<string>)
    ensures scopeList == NormalizeAll(tokens)
  {
    scopeList := tokens;
    var j := 0;
    while j < |scopeList|
      invariant 0 <= j <= |scopeList| == |tokens|
      invariant forall m :: 0 <= m < j ==> scopeList[m] == NormalizeToken(tokens[m])
      invariant forall m :: j <= m < |scopeList| ==> scopeList[m] == tokens[m]
    {
      scopeList := scopeList[j := NormalizeToken(scopeList[j])];
      j := j + 1;
    }
  }

  /** The scope step: split the scope string, qualify every token, join
      the tokens with single spaces. */
  method ScopeStep(raw: string) returns (scope: string)
    ensures scope == NormalizeScope(raw)
  {
    var scopeList := NormalizeInPlace(Tokenize(raw));
    scope := Join(scopeList, " ");
  }

  /** The last two steps: access_type defaults to "offline" and a non-nil
      openid_realm is renamed to "openid.realm". */
  method DefaultAccessAndRealm(params0: map<string, Value>) returns (params: map<string, Value>)
    ensures "access_type" in params
    ensures params["access_type"] == (if Get(params0, "access_type") == Nil then Str("offline") else params0["access_type"])
    ensures Get(params0, "openid_realm") != Nil ==>
      "openid_realm" !in params && "openid.realm" in params && params["openid.realm"] == params0["openid_realm"]
    ensures Get(params0, "openid_realm") == Nil ==>
      Agree(params, params0, "openid_realm") && Agree(params, params0, "openid.realm")
    ensures forall k :: k != "access_type" && k != "openid_realm" && k != "openid.realm" ==> Agree(params, params0, k)
    // the scope instance of the clause above, stated for callers
    ensures Agree(params, params0, "scope")
  {
    params := params0;
    if Get(params, "access_type") == Nil {
      params := params["access_type" := Str("offline")];
    }
    if Get(params, "openid_realm") != Nil {
      var realm := params["openid_realm"];
      params := (params - {"openid_realm"})["openid.realm" := realm];
    }
  }

  /** authorize_params: the final parameter map, or the error the scope
      step raises. */
  method AuthorizeParams(base: map<string, Value>, request: map<string, Value>,
                         authorizeOptions: seq<string>)
    returns (r: Result<map<string, Value>, AuthorizeError>)
    ensures var p := CopyPassthrough(base, request, authorizeOptions);
      r.Failure? <==> ScopeSource(p).None?
    ensures var p := CopyPassthrough(base, request, authorizeOptions);
      r.Failure? ==> r.error == ScopeNotAString(Get(p, "scope"))
    // the scope is the normalised scope string
    ensures var p := CopyPassthrough(base, request, authorizeOptions);
      r.Success? ==>
        "scope" in r.value && r.value["scope"] == Str(NormalizeScope(ScopeSource(p).value))
    // access_type is "offline" unless it already held something other than nil
    ensures var p := CopyPassthrough(base, request, authorizeOptions);
      r.Success? ==>
        && "access_type" in r.value
        && r.value["access_type"] == (if Get(p, "access_type") == Nil then Str("offline") else p["access_type"])
    // a non-nil openid_realm moves to "openid.realm"
    ensures var p := CopyPassthrough(base, request, authorizeOptions);
      r.Success? && Get(p, "openid_realm") != Nil ==>
        "openid_realm" !in r.value && "openid.realm" in r.value && r.value["openid.realm"] == p["openid_realm"]
    // a nil or missing openid_realm changes neither key
    ensures var p := CopyPassthrough(base, request, authorizeOptions);
      r.Success? && Get(p, "openid_realm") == Nil ==>
        Agree(r.value, p, "openid_realm") && Agree(r.value, p, "openid.realm")
    // every other key is as the pass-through loop left it
    ensures var p := CopyPassthrough(base, request, authorizeOptions);
      r.Success? ==>
        forall k :: OtherKey(k) ==> Agree(r.value, p, k)
  {
    var params := PassThrough(base, request, authorizeOptions);
    var source := ScopeSource(params);
    if source.None? {
      return Failure(ScopeNotAString(Get(params, "scope")));
    }
    var scope := ScopeStep(source.value);
    var scoped := params["scope" := Str(scope)];
    var final := DefaultAccessAndRealm(scoped);
    forall k | OtherKey(k) ensures Agree(final, params, k) {
      assert Agree(final, scoped, k);
      assert Agree(scoped, params, k);
    }
    r := Success(final);
  }

  /** A key none of the later steps writes. */
  predicate OtherKey(k: string)
  {
    k != "scope" && k != "access_type" && k != "openid_realm" && k != "openid.realm"
  }

  /** A scope that is missing, nil or false yields "email profile". */
  lemma MissingScopeDefaults(params: map<string, Value>)
    requires !Truthy(Get(params, "scope"))
    ensures ScopeSource(params).Some?
    ensures NormalizeScope(ScopeSource(params).value) == "email profile"
  {
    DefaultScopeNormalizes();
  }

  /** The scope step is idempotent: a parameter map that already holds the
      normalised scope gets the same scope again. */
  lemma ScopeStepIdempotent(params: map<string, Value>)
    requires ScopeSource(params).Some?
    ensures var s := NormalizeScope(ScopeSource(params).value);
      var again := params["scope" := Str(s)];
      ScopeSource(again) == Some(s) && NormalizeScope(ScopeSource(again).value) == s
  {
    NormalizeScopeIdempotent(ScopeSource(params).value);
  }
}
