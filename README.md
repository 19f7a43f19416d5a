# Google OAuth2 strategy for OmniAuth, modelled in Dafny

This project models the core of the OmniAuth strategy for Google's OAuth2 /
OpenID Connect sign-in (`lib/omniauth/strategies/google_oauth2.rb`). It covers:

- the authorization parameters sent with the redirect to Google:
  - request values are passed through;
  - the scope list is tokenised and short scope names get the Google prefix;
  - `access_type` defaults to `offline`;
  - `openid_realm` is renamed to `openid.realm`;
- the choice of how the callback obtains its access token:
  - an authorization code is exchanged, for XHR and for other requests;
  - otherwise an ID token and access token that Google's tokeninfo endpoint confirms are used;
  - otherwise the generic OAuth2 flow runs;
- the identity:
  - `uid`;
  - the `info` hash with the resized profile image URL;
  - the `extra` hash with the decoded ID token;
  - the recursive `prune!` that removes nil and empty values;
  - the cached profile and friends responses.

Ruby values are `RubyValues.Value` (nil, booleans, integers, strings,
arrays and hashes with string keys). The parameter hash from the OAuth2 layer
does not distinguish `:scope` from `"scope"`, so keys are strings throughout.
The Ruby string operations the code uses are written out in `Text`:
- `split(" ")` cuts at runs of the six ASCII white-space characters and drops empty fields;
- `split(",")` keeps inner empty fields and drops trailing ones;
- `gsub` with a literal pattern works left to right without overlaps;
- `index`;
- `join`;
- `Integer#to_s`.

Files:
- `values.dfy`: module `RubyValues`.
- `text.dfy`: module `Text`.
- `scopes.dfy`: module `Scopes`, the scope normalisation.
- `authorize.dfy`: module `Authorize`, `authorize_params`.
- `prune.dfy`: module `Prune`.
- `image.dfy`: module `Images`, `image_url` and `image_params`.
- `routing.dfy`: module `TokenRouting`, `custom_build_access_token` and `verify_token`.
- `identity.dfy`: module `Identity`, `uid`, `info`, `extra` and the response caches.

The steps that change state in place are methods with loops or with step-by-step updates. These are proved equal to a function that specifies them, and the lemmas then state what those functions mean:
- the pass-through loop and the `map!` over the scope list;
- `delete_if` in `prune!`;
- the `insert` into the image path;
- the appends in `image_params`.

The `||=` caches form a class. Their methods state the new value of each field in terms of its old value.

Several behaviours of the code differ from what a reader of the method and option names might expect. The model follows the code in each case:
- **`uid` with neither a truthy `sub` nor a verified email.** One might expect identity resolution to fail. Line 41 returns nil (`Identity.UidSources`).
- **Empty `sub`.** One might expect an empty `sub` to fall back to the email. In Ruby `""` is truthy, so line 41 returns `""` as the uid (`Identity.EmptySubIsUid`).
- **Failure to decode the ID token.** One might expect a decoding or claim failure only to omit the claims. Lines 59-71 do not rescue the `JWT.decode` error, so it propagates out of `extra` (`Identity.Extra`).
- **Arrays in pruning.** One might expect nil and empty values inside arrays to be removed too. Line 109 descends only into hashes (`Prune.ArrayNotDescended`).
- **Short names that are base scopes.** One might expect every short scope name to get the `https://www.googleapis.com/auth/` prefix. `profile`, `email` and `openid` (line 9) are kept as they are (`Scopes.NormalizeTokenMeaning`, `Scopes.MixedSeparators`).
- **The size segment and URI syntax.** One might expect any size option to produce a URL. The segment is written into the path, and the `URI#path=` setter on line 126 raises when the resulting path is not valid URI syntax, for example when a String width holds a space. In `Images.ImageUrlOf` this is the `InvalidPath` result; the parameter `pathValid` decides which paths are rejected.

## Model

| member | source | states |
|---|---|---|
| Authorize.CopyPassthrough | lib/omniauth/strategies/google_oauth2.rb:26-28 | after the loop over the authorize options, a key takes the request's value exactly when it is listed and the request supplies it, meaning the value is neither nil nor ""; every other key keeps its old value or stays absent |
| Authorize.PassThrough | lib/omniauth/strategies/google_oauth2.rb:26-28 | the loop, visiting the keys in order, produces the `CopyPassthrough` map |
| Authorize.NormalizeInPlace | lib/omniauth/strategies/google_oauth2.rb:32 | `map!` replaces every token by its normalised form, in place and in order |
| Authorize.ScopeStep | lib/omniauth/strategies/google_oauth2.rb:30-33 | the scope string becomes the normalised tokens joined by single spaces |
| Authorize.DefaultAccessAndRealm | lib/omniauth/strategies/google_oauth2.rb:34-35 | access_type becomes "offline" only when it is nil or missing; a non-nil openid_realm is removed and its value stored under "openid.realm"; a nil realm changes neither key; all other keys are untouched |
| Authorize.AuthorizeParams | lib/omniauth/strategies/google_oauth2.rb:24-36 | it fails exactly when the scope after pass-through is truthy but not a String, because `split` raises; otherwise scope, access_type and the realm keys are as above, relative to the passed-through map, and every other key is as the pass-through left it |
| Authorize.DefaultOptionsPassThrough | lib/omniauth/strategies/google_oauth2.rb:16-28 | with the default option list every listed key takes a supplied request value, and unlisted request keys such as "code" and "client_id" are never copied |
| Scopes.NormalizeToken | lib/omniauth/strategies/google_oauth2.rb:32 | characterised by `Scopes.NormalizeTokenMeaning`: a token is kept exactly when it is a URL or a base scope, otherwise prefixed |
| Scopes.NormalizeScope | lib/omniauth/strategies/google_oauth2.rb:30-33 | characterised by `Scopes.OutputTokens`, `Scopes.OutputTokensAreQualified` and `Scopes.NormalizeScopeIdempotent` |
| Images.ImageSizeOptsPassed | lib/omniauth/strategies/google_oauth2.rb:132-134 | characterised by `Images.ImageUrlKeepsPath`: when neither option is truthy the path is left alone |
| TokenRouting.VerifyToken | lib/omniauth/strategies/google_oauth2.rb:149-157 | characterised by `TokenRouting.TokenInfoNotConsulted` and `TokenRouting.SuppliedTokensUsed`: false without both tokens whatever tokeninfo says, otherwise whether issued_to equals the client id |
| TokenRouting.ChooseTokenPath | lib/omniauth/strategies/google_oauth2.rb:86-101 | characterised by `TokenRouting.CodeIsExchanged`, `TokenRouting.SuppliedTokensUsed` and `TokenRouting.TokenInfoNotConsulted` |
| Identity.Uid | lib/omniauth/strategies/google_oauth2.rb:41 | characterised by `Identity.UidSources`: a truthy sub, else the verified email, else nil |
| Authorize.MissingScopeDefaults | lib/omniauth/strategies/google_oauth2.rb:30-33 | a missing, nil or false scope yields "email profile" |
| Authorize.ScopeStepIdempotent | lib/omniauth/strategies/google_oauth2.rb:30-33 | a map that already holds the normalised scope gets the same scope again |
| Scopes.NormalizeTokenMeaning | lib/omniauth/strategies/google_oauth2.rb:32 | a token is kept exactly when it starts with http:// or https:// or is one of profile, email or openid; otherwise it gets the https://www.googleapis.com/auth/ prefix; the result is non-empty and free of separators |
| Scopes.MatchesUrlAtStart | lib/omniauth/strategies/google_oauth2.rb:32 | for a token without a newline, the line-anchored `^https?://` match is the same as starting with the scheme |
| Scopes.TokensArePlain | lib/omniauth/strategies/google_oauth2.rb:31 | splitting on white space and then on commas leaves tokens with neither |
| Scopes.OutputTokens | lib/omniauth/strategies/google_oauth2.rb:31-33 | splitting the produced scope string again gives back the normalised token list |
| Scopes.OutputTokensAreQualified | lib/omniauth/strategies/google_oauth2.rb:31-33 | every token of the produced scope is a URL or a base scope |
| Scopes.NormalizeScopeIdempotent | lib/omniauth/strategies/google_oauth2.rb:30-33 | normalising a normalised scope string changes nothing, for every input |
| Scopes.DefaultScopeNormalizes | lib/omniauth/strategies/google_oauth2.rb:30-33 | the default "email,profile" becomes "email profile" |
| Scopes.BaseScopeTriple | lib/omniauth/strategies/google_oauth2.rb:31-33 | commas and spaces both separate scopes: "a,b c" of base scopes becomes "a b c" |
| Scopes.ShortScopeAndUrl | lib/omniauth/strategies/google_oauth2.rb:32 | a short name gets the prefix and a full URL next to it is kept |
| Text.JoinFields | lib/omniauth/strategies/google_oauth2.rb:31 | cutting at a separator and joining with it gives back the string |
| Text.IndexOf | lib/omniauth/strategies/google_oauth2.rb:122 | `index` returns the first position where the pattern occurs, or nil when it does not occur |
| Text.ReplaceAbsent | lib/omniauth/strategies/google_oauth2.rb:126 | `gsub` changes nothing when the pattern does not occur |
| Text.DecimalString | lib/omniauth/strategies/google_oauth2.rb:139 | `Integer#to_s` gives a minus sign only for a negative number, then digits without leading zeros that read back as the number |
| Prune.PruneHash | lib/omniauth/strategies/google_oauth2.rb:107-112 | the `delete_if` loop first prunes nested hashes in place and then deletes blank entries; the result equals `Pruned` |
| Prune.PrunedEntry | lib/omniauth/strategies/google_oauth2.rb:108-111 | an entry is deleted exactly when its pruned value is nil, "", [] or {}; a value that is not a hash is kept unchanged or deleted |
| Prune.PruneClean | lib/omniauth/strategies/google_oauth2.rb:107-112 | no hash reachable through hashes in the result holds a blank value; hashes inside arrays are not visited |
| Prune.PruneWithin | lib/omniauth/strategies/google_oauth2.rb:107-112 | pruning only deletes keys, at any depth; it never changes a non-hash value and never adds anything |
| Prune.CleanFixed | lib/omniauth/strategies/google_oauth2.rb:107-112 | a tree without blank values is left alone |
| Prune.PruneIdempotent | lib/omniauth/strategies/google_oauth2.rb:107-112 | pruning twice is pruning once |
| Prune.ArrayNotDescended | lib/omniauth/strategies/google_oauth2.rb:109-110 | an array holding nil is kept as it is |
| Prune.FalseAndZeroKept | lib/omniauth/strategies/google_oauth2.rb:110 | false and 0 are kept; "" and a hash holding only nil are deleted |
| Images.ImageParams | lib/omniauth/strategies/google_oauth2.rb:136-147 | the appended tokens, in order: s<N> for an Integer size; w<W> and h<H> for a hash size when they are truthy; c for a "square" aspect; they are joined with "-" behind a "/" |
| Images.InsertSegment | lib/omniauth/strategies/google_oauth2.rb:125-126 | the in-place `insert` of the `image_params` segment at the index, followed by the collapse of "//", gives `ResizedPath` with the segment "/" plus the tokens joined by "-" |
| Images.ImageUrl | lib/omniauth/strategies/google_oauth2.rb:118-130 | the step-by-step path update equals `ImageUrlOf`, including the error the path setter raises when it rejects the new path |
| Images.ImageUrlWithoutPicture | lib/omniauth/strategies/google_oauth2.rb:119-121 | no truthy picture gives nil; a picture that is not a String makes gsub raise |
| Images.ImageUrlKeepsPath | lib/omniauth/strategies/google_oauth2.rb:122-129 | without "/photo.jpg" in the path, or without either size option, the path setter is not called and the URL is written back unchanged |
| Images.ImageUrlInsertsSegment | lib/omniauth/strategies/google_oauth2.rb:122-129 | for Integer, boolean or unset sizes that yield at least one token, and a path without "//", the new path is the old one with the segment immediately before the first "/photo.jpg"; the URL with only that change results when the path setter accepts it, and `InvalidPath` with that path when it does not |
| Images.ImageUrlEmptySegment | lib/omniauth/strategies/google_oauth2.rb:124-126 | for a path without "//", options that yield no token insert a bare "/", which the collapsing of "//" removes, so the URL is unchanged unless the path setter rejects the path |
| Images.SegmentInserted | lib/omniauth/strategies/google_oauth2.rb:125-126 | inserting "/" and a non-empty slash-free text at a slash of a path without "//" creates no "//", so the collapse step changes nothing |
| Images.EmptySegmentLeavesPath | lib/omniauth/strategies/google_oauth2.rb:125-126 | for a path without "//", inserting "/" before a slash and collapsing "//" gives back the path |
| Images.DoubledSchemeRepaired | lib/omniauth/strategies/google_oauth2.rb:121 | "https:" in front of an https URL without a doubled scheme is removed again by the gsub |
| Images.DoubledSchemeSized | lib/omniauth/strategies/google_oauth2.rb:118-147 | for a doubled-scheme picture URL whose path holds no "//", an Integer size N and an aspect other than "square", the scheme is repaired, "/s<N>" lands immediately before "/photo.jpg", the new path holds no "//", and the URL results unless the path setter rejects that path |
| Images.ImageTokensPlain | lib/omniauth/strategies/google_oauth2.rb:138-144 | for Integer, boolean or unset sizes, every token is non-empty and free of "/" |
| TokenRouting.ExchangeParams | lib/omniauth/strategies/google_oauth2.rb:89-94 | redirect_uri is "postmessage" unless the token params set it; the token params are otherwise copied |
| TokenRouting.CodeIsExchanged | lib/omniauth/strategies/google_oauth2.rb:87-95 | a truthy code is always exchanged, whatever tokens are present; it is labelled XHR exactly when the request is XHR |
| TokenRouting.XhrSameExchange | lib/omniauth/strategies/google_oauth2.rb:87-95 | the XHR and non-XHR code branches send the same exchange request |
| TokenRouting.TokenInfoNotConsulted | lib/omniauth/strategies/google_oauth2.rb:149-150 | without both an ID token and an access token, tokeninfo is not consulted and the supplied tokens are not used |
| TokenRouting.SuppliedTokensUsed | lib/omniauth/strategies/google_oauth2.rb:96-100 | without a code, the supplied tokens are used exactly when both are truthy and tokeninfo's issued_to equals the client id, and then the whole request map is used; otherwise the inherited flow runs |
| Identity.VerifiedEmail | lib/omniauth/strategies/google_oauth2.rb:114-116 | an email is returned only when email_verified is truthy, and then it is the profile's email |
| Identity.UidSources | lib/omniauth/strategies/google_oauth2.rb:41 | a truthy sub wins; otherwise the verified email; otherwise nil |
| Identity.EmptySubIsUid | lib/omniauth/strategies/google_oauth2.rb:41 | an empty sub is the uid |
| Identity.Info | lib/omniauth/strategies/google_oauth2.rb:43-54 | info fails exactly when image_url raises (gsub, URI.parse or the path setter); otherwise it is the pruned six-key hash |
| Identity.InfoContents | lib/omniauth/strategies/google_oauth2.rb:43-54 | info holds only its six keys and no blank value; the email appears only when verified; "urls" appears exactly when the profile link is not blank |
| Identity.Extra | lib/omniauth/strategies/google_oauth2.rb:56-76 | extra fails exactly when there is a non-nil ID token and decoding it raises; otherwise it is the pruned hash of token, claims, profile and friends |
| Identity.ExtraContents | lib/omniauth/strategies/google_oauth2.rb:56-76 | claims appear only with a token; the profile appears, pruned, exactly when skip_info is off and it does not prune to empty; the friends appear, pruned, exactly when neither skip option is set and they do not prune to blank; a non-blank token and non-blank claims are kept |
| Identity.ProfileCache.RawInfo | lib/omniauth/strategies/google_oauth2.rb:78-80 | a truthy cached profile is returned; otherwise the fetched one is cached and returned |
| Identity.ProfileCache.RawFriendInfo | lib/omniauth/strategies/google_oauth2.rb:82-84 | a truthy cached friends list is returned for any id; otherwise the list fetched for this id is cached and returned |
| Identity.ProfileCache.constructor | lib/omniauth/strategies/google_oauth2.rb:78-84 | both caches start empty |

## Left out

- HTTP:
  - The profile and friends responses, the tokeninfo `issued_to` field and the token exchange are parameters or abstract values.
  - Transport and JSON parse failures are not modelled.
- JWT: `JWT.decode` and its claim checks (issuer, audience, expiry, not-before, issued-at) are a parameter `decode`. Only its success or error, and the `.first` payload, are modelled.
- `URI.parse` is a parameter. `URI#to_s` is modelled as head, path and tail written back in order.
- Images.ImageUrl: the syntax check that the `URI#path=` setter applies to the new path is a parameter `pathValid`. The model says where the setter's error arises but not which paths it rejects.
- String encodings: strings are sequences of characters. A Ruby string with an invalid byte sequence, on which `split(" ")` and `=~` (lines 31-32) raise, cannot be expressed.
- The `inspect` form that string interpolation gives an array or hash is a parameter.
- Session:
  - The write of the state parameter into the session (line 37) is not modelled.
  - `orig_build_access_token`, `client.auth_code.get_token` and `AccessToken.from_hash` are not modelled. The model stops at which request or path is chosen.
- Option DSL: `option` declarations, `options.auth_token_params` key symbolisation (`deep_symbolize`) and `skip_info?` are inputs.
- Identity.Extra: the profile stored under "raw_info" is the cached profile object itself, so the in-place `prune!` also prunes the cache. Values here are immutable, so this aliasing is not modelled.
- Identity.Info and Identity.Extra: take the profile as a hash. A profile body that is not a JSON object, on which `raw_info['sub']` would raise, is not modelled.
- Images.ImageTokensPlain: says nothing about String, array or hash widths and heights, whose text may contain "/".
- Symbols are not distinguished from strings. An `image_aspect_ratio` of `:square`, which the code does not treat as square, is not modelled.
- Ruby floats are not modelled.
