/** How the callback obtains its access token
    (lib/omniauth/strategies/google_oauth2.rb, lines 86-103 and 149-157):
    an authorization code is exchanged at the token endpoint, otherwise an
    ID token and access token supplied by the client are used directly when
    Google's tokeninfo endpoint confirms they were issued to this client,
    otherwise the generic OAuth2 flow runs. */
module TokenRouting {
  import opened RubyValues

  /** The request to the token endpoint that exchanges a code: the code, the
      token parameters (redirect_uri defaulting to "postmessage") and the
      configured auth_token_params. */
  datatype CodeExchange = CodeExchange(
    code: Value,
    tokenParams: map<string, Value>,
    authTokenParams: map<string, Value>)

  datatype TokenPath =
    | ExchangeXhrCode(exchange: CodeExchange)       // an XHR request carrying a code
    | ExchangeCode(exchange: CodeExchange)          // any other request carrying a code
    | UseSuppliedTokens(params: map<string, Value>)  // `AccessToken.from_hash(client, request.params.dup)`
    | InheritedFlow                                  // `orig_build_access_token`

  /** `{ :redirect_uri => 'postmessage' }.merge(token_params)`: the token
      parameters win over the default. */
  function ExchangeParams(tokenParams: map<string, Value>): (r: map<string, Value>)
    ensures "redirect_uri" in r
    ensures "redirect_uri" in tokenParams ==> r["redirect_uri"] == tokenParams["redirect_uri"]
    ensures "redirect_uri" !in tokenParams ==> r["redirect_uri"] == Str("postmessage")
    ensures forall k :: k != "redirect_uri" ==> Agree(r, tokenParams, k)
  {
    map["redirect_uri" := Str("postmessage")] + tokenParams
  }

  /** `options.auth_token_params || {}`. */
  function AuthTokenParams(configured: Option<map<string, Value>>): map<string, Value>
  {
    if configured.Some? then configured.value else map[]
  }

  function Exchange(request: map<string, Value>, tokenParams: map<string, Value>,
                    configured: Option<map<string, Value>>): CodeExchange
  {
    CodeExchange(Get(request, "code"), ExchangeParams(tokenParams), AuthTokenParams(configured))
  }

  /** `verify_token(id_token, access_token)`: false without a query when
      either token is missing, otherwise whether tokeninfo reports the
      tokens as issued to this client. `issuedTo` stands for the
      `issued_to` field of the tokeninfo response for the two tokens. */
  predicate VerifyToken(idToken: Value, accessToken: Value,
                        issuedTo: (Value, Value) -> Value, clientId: Value)
  {
    Truthy(idToken) && Truthy(accessToken) && issuedTo(idToken, accessToken) == clientId
  }

  /** `custom_build_access_token`, the branch it takes. */
  function ChooseTokenPath(xhr: bool, request: map<string, Value>, tokenParams: map<string, Value>,
                           configured: Option<map<string, Value>>,
                           issuedTo: (Value, Value) -> Value, clientId: Value): TokenPath
  {
    if xhr && Truthy(Get(request, "code")) then
      ExchangeXhrCode(Exchange(request, tokenParams, configured))
    else if Truthy(Get(request, "code")) then
      ExchangeCode(Exchange(request, tokenParams, configured))
    else if VerifyToken(Get(request, "id_token"), Get(request, "access_token"), issuedTo, clientId) then
      UseSuppliedTokens(request)
    else InheritedFlow
  }

  /** A code always wins: whatever tokens the request carries and whatever
      tokeninfo would say, the code is exchanged, and the exchange is the
      same for XHR and other requests. */
  lemma CodeIsExchanged(xhr: bool, request: map<string, Value>, tokenParams: map<string, Value>,
                        configured: Option<map<string, Value>>,
                        issuedTo: (Value, Value) -> Value, clientId: Value)
    requires Truthy(Get(request, "code"))
    ensures var path := ChooseTokenPath(xhr, request, tokenParams, configured, issuedTo, clientId);
      && (path.ExchangeXhrCode? <==> xhr)
      && (path.ExchangeXhrCode? || path.ExchangeCode?)
      && path.exchange.code == request["code"]
      && path.exchange.tokenParams["redirect_uri"]
           == (if "redirect_uri" in tokenParams then tokenParams["redirect_uri"] else Str("postmessage"))
  {
  }

  /** The XHR and non-XHR code branches send the same exchange request: both
      use the "postmessage" redirect default. */
  lemma XhrSameExchange(request: map<string, Value>, tokenParams: map<string, Value>,
                        configured: Option<map<string, Value>>,
                        issuedTo: (Value, Value) -> Value, clientId: Value)
    requires Truthy(Get(request, "code"))
    ensures ChooseTokenPath(true, request, tokenParams, configured, issuedTo, clientId).exchange
         == ChooseTokenPath(false, request, tokenParams, configured, issuedTo, clientId).exchange
  {
  }

  /** Without an ID token and an access token the tokeninfo endpoint is not
      consulted: the path does not depend on what it would answer. */
  lemma TokenInfoNotConsulted(xhr: bool, request: map<string, Value>, tokenParams: map<string, Value>,
                              configured: Option<map<string, Value>>,
                              issuedTo1: (Value, Value) -> Value, issuedTo2: (Value, Value) -> Value,
                              clientId: Value)
    requires !Truthy(Get(request, "id_token")) || !Truthy(Get(request, "access_token"))
    ensures ChooseTokenPath(xhr, request, tokenParams, configured, issuedTo1, clientId)
         == ChooseTokenPath(xhr, request, tokenParams, configured, issuedTo2, clientId)
    ensures !ChooseTokenPath(xhr, request, tokenParams, configured, issuedTo1, clientId).UseSuppliedTokens?
  {
  }

  /** Without a code, the supplied tokens are used exactly when both are
      present and tokeninfo reports them issued to this client; then the
      access token is built from the whole request parameter map. */
  lemma SuppliedTokensUsed(xhr: bool, request: map<string, Value>, tokenParams: map<string, Value>,
                           configured: Option<map<string, Value>>,
                           issuedTo: (Value, Value) -> Value, clientId: Value)
    requires !Truthy(Get(request, "code"))
    ensures var path := ChooseTokenPath(xhr, request, tokenParams, configured, issuedTo, clientId);
      var idToken, accessToken := Get(request, "id_token"), Get(request, "access_token");
      && (path.UseSuppliedTokens? <==>
            Truthy(idToken) && Truthy(accessToken) && issuedTo(idToken, accessToken) == clientId)
      && (path.UseSuppliedTokens? ==> path.params == request)
      && (!path.UseSuppliedTokens? <==> path.InheritedFlow?)
  {
  }
}
