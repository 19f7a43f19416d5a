/** The identity built from the profile (lib/omniauth/strategies/google_oauth2.rb,
    lines 41-84 and 114-116): uid, the info hash and the extra hash, and the
    per-instance caching of the profile and friends responses. The profile
    is the parsed body of the openIdConnect endpoint; responses and the ID
    token decoder are parameters. */
module Identity {
  import opened RubyValues
  import opened Prune
  import opened Images

  const ProfileUrl: string := "https://www.googleapis.com/plus/v1/people/me/openIdConnect"

  /** The URL of the visible-people list for a profile id. */
  function FriendsUrl(id: Value, inspect: Value -> string): string
  {
    "https://www.googleapis.com/plus/v1/people/" + Interpolate(id, inspect) + "/people/visible"
  }

  /** `verified_email`: the email only when the profile marks it verified. */
  function VerifiedEmail(rawInfo: map<string, Value>): (r: Value)
    ensures r != Nil ==> Truthy(Get(rawInfo, "email_verified")) && "email" in rawInfo && r == rawInfo["email"]
    ensures Truthy(Get(rawInfo, "email_verified")) ==> r == Get(rawInfo, "email")
  {
    if Truthy(Get(rawInfo, "email_verified")) then Get(rawInfo, "email") else Nil
  }

  /** `uid`: the profile's `sub` when it is truthy, else the verified email. */
  function Uid(rawInfo: map<string, Value>): (r: Value)
  {
    var sub := Get(rawInfo, "sub");
    if Truthy(sub) then sub else VerifiedEmail(rawInfo)
  }

  /** Where uid comes from: `sub` wins, even an empty string; otherwise the
      email, and only a verified one; otherwise nil. */
  lemma UidSources(rawInfo: map<string, Value>)
    ensures Truthy(Get(rawInfo, "sub")) ==> Uid(rawInfo) == rawInfo["sub"]
    ensures !Truthy(Get(rawInfo, "sub")) && Truthy(Get(rawInfo, "email_verified")) ==>
      Uid(rawInfo) == Get(rawInfo, "email")
    ensures !Truthy(Get(rawInfo, "sub")) && !Truthy(Get(rawInfo, "email_verified")) ==> Uid(rawInfo) == Nil
    ensures Uid(rawInfo) != Nil ==>
      Uid(rawInfo) == Get(rawInfo, "sub") || (Truthy(Get(rawInfo, "email_verified")) && Uid(rawInfo) == Get(rawInfo, "email"))
  {
  }

  /** An empty `sub` is truthy in Ruby, so it is the uid. */
  lemma EmptySubIsUid(rawInfo: map<string, Value>)
    requires "sub" in rawInfo && rawInfo["sub"] == Str("")
    ensures Uid(rawInfo) == Str("")
  {
  }

  // ---------------------------------------------------------------------
  // info

  /** The hash `info` builds before pruning. */
  function InfoHash(rawInfo: map<string, Value>, image: Value): map<string, Value>
  {
    map[
      "name" := Get(rawInfo, "name"),
      "email" := VerifiedEmail(rawInfo),
      "first_name" := Get(rawInfo, "given_name"),
      "last_name" := Get(rawInfo, "family_name"),
      "image" := image,
      "urls" := Hash(map["Google" := Get(rawInfo, "profile")])]
  }

  /** `info`: the pruned hash, or the error image_url raises. */
  method Info(rawInfo: map<string, Value>, imageSize: Value, aspectRatio: Value, inspect: Value -> string,
              parse: string -> Option<Uri>, pathValid: string -> bool)
    returns (r: Result<map<string, Value>, ImageError>)
    ensures var image := ImageUrlOf(Get(rawInfo, "picture"), imageSize, aspectRatio, inspect, parse, pathValid);
      && (r.Failure? <==> image.Failure?)
      && (r.Failure? ==> r.error == image.error)
      && (r.Success? ==> r.value == Pruned(InfoHash(rawInfo, image.value)))
  {
    var image := ImageUrl(Get(rawInfo, "picture"), imageSize, aspectRatio, inspect, parse, pathValid);
    if image.Failure? {
      return Failure(image.error);
    }
    var info := PruneHash(InfoHash(rawInfo, image.value));
    r := Success(info);
  }

  /** What the info hash holds: only its six keys, no blank value, the email
      only when verified, and the profile link under "urls" exactly when
      the profile carries a non-blank one. */
  lemma InfoContents(rawInfo: map<string, Value>, image: Value)
    ensures var info := Pruned(InfoHash(rawInfo, image));
      && info.Keys <= {"name", "email", "first_name", "last_name", "image", "urls"}
      && (forall k :: k in info ==> !Blank(info[k]) && Clean(info[k]))
      && ("email" in info ==> Truthy(Get(rawInfo, "email_verified")) && info["email"] == PruneValue(Get(rawInfo, "email")))
      && ("urls" in info <==> !Blank(PruneValue(Get(rawInfo, "profile"))))
      && ("urls" in info ==> info["urls"] == Hash(map["Google" := PruneValue(Get(rawInfo, "profile"))]))
  {
    var h := InfoHash(rawInfo, image);
    var info := Pruned(h);
    PruneClean(Hash(h));
    PrunedEntry(h, "email");
    PrunedEntry(h, "urls");
    var urls := map["Google" := Get(rawInfo, "profile")];
    PrunedEntry(urls, "Google");
    if "urls" in info {
      assert Pruned(urls).Keys == {"Google"};
    } else {
      assert Pruned(urls) == map[] by {
        assert "Google" !in Pruned(urls);
      }
    }
  }

  // ---------------------------------------------------------------------
  // extra

  /** Why JWT.decode raised; the claim checks themselves are not part of
      this model. */
  datatype DecodeError = DecodeError(reason: string)

  /** The hash `extra` builds before pruning, given the decoded claims. */
  function ExtraHash(idToken: Value, claims: Option<Value>, skipInfo: bool, skipFriends: bool,
                     rawInfo: map<string, Value>, friends: Value): map<string, Value>
  {
    var withToken := map["id_token" := idToken];
    var withClaims := if claims.Some? then withToken["id_info" := claims.value] else withToken;
    var withInfo := if skipInfo then withClaims else withClaims["raw_info" := Hash(rawInfo)];
    if skipInfo || skipFriends then withInfo else withInfo["raw_friend_info" := friends]
  }

  /** `extra`: the ID token, its claims when there is a token (a decoding
      error propagates), the profile unless skip_info, the friends list
      unless skip_info or skip_friends; then pruned. `friendsFor` stands
      for the friends request made with the profile's `sub`. */
  method Extra(idToken: Value, decode: Value -> Result<Value, DecodeError>,
               skipInfo: bool, skipFriends: bool,
               rawInfo: map<string, Value>, friendsFor: Value -> Value)
    returns (r: Result<map<string, Value>, DecodeError>)
    ensures idToken != Nil && decode(idToken).Failure? <==> r.Failure?
    ensures r.Failure? ==> r.error == decode(idToken).error
    ensures r.Success? ==>
      var claims := if idToken != Nil then Some(decode(idToken).value) else None;
      r.value == Pruned(ExtraHash(idToken, claims, skipInfo, skipFriends, rawInfo,
                                  friendsFor(Get(rawInfo, "sub"))))
  {
    var hash := map["id_token" := idToken];
    if idToken != Nil {
      var decoded := decode(idToken);
      if decoded.Failure? {
        return Failure(decoded.error);
      }
      hash := hash["id_info" := decoded.value];
    }
    if !skipInfo {
      hash := hash["raw_info" := Hash(rawInfo)];
    }
    if !(skipInfo || skipFriends) {
      hash := hash["raw_friend_info" := friendsFor(Get(rawInfo, "sub"))];
    }
    var pruned := PruneHash(hash);
    r := Success(pruned);
  }

  /** Which keys extra holds: the claims only with a token; the profile
      exactly when skip_info is off and it does not prune to empty; the
      friends exactly when neither skip option is set and they do not prune
      to blank; a non-blank token and non-blank claims are always kept. */
  lemma ExtraContents(idToken: Value, claims: Option<Value>, skipInfo: bool, skipFriends: bool,
                      rawInfo: map<string, Value>, friends: Value)
    ensures var extra := Pruned(ExtraHash(idToken, claims, skipInfo, skipFriends, rawInfo, friends));
      && extra.Keys <= {"id_token", "id_info", "raw_info", "raw_friend_info"}
      && ("id_info" in extra ==> claims.Some?)
      && ("raw_info" in extra <==> !skipInfo && Pruned(rawInfo) != map[])
      && ("raw_info" in extra ==> extra["raw_info"] == PruneValue(Hash(rawInfo)))
      && ("raw_friend_info" in extra <==> !skipInfo && !skipFriends && !Blank(PruneValue(friends)))
      && ("raw_friend_info" in extra ==> extra["raw_friend_info"] == PruneValue(friends))
      && (!Blank(PruneValue(idToken)) ==> "id_token" in extra)
      && (claims.Some? && !Blank(PruneValue(claims.value)) ==> "id_info" in extra)
  {
    var h := ExtraHash(idToken, claims, skipInfo, skipFriends, rawInfo, friends);
    PrunedEntry(h, "id_token");
    PrunedEntry(h, "id_info");
    PrunedEntry(h, "raw_info");
    PrunedEntry(h, "raw_friend_info");
  }

  // ---------------------------------------------------------------------
  // Cached responses

  /** The strategy instance's `@raw_info` and `@raw_friend_info`. `||=`
      keeps a cached value only when it is truthy; nil or false is fetched
      again. `get` stands for a GET request returning its parsed body. */
  class ProfileCache {
    var rawInfo: Value
    var rawFriendInfo: Value

    constructor ()
      ensures rawInfo == Nil && rawFriendInfo == Nil
    {
      rawInfo := Nil;
      rawFriendInfo := Nil;
    }

    /** `raw_info`. */
    method RawInfo(get: string -> Value) returns (v: Value)
      modifies this
      ensures v == (if Truthy(old(rawInfo)) then old(rawInfo) else get(ProfileUrl))
      ensures rawInfo == v && rawFriendInfo == old(rawFriendInfo)
    {
      if !Truthy(rawInfo) {
        rawInfo := get(ProfileUrl);
      }
      v := rawInfo;
    }

    /** `raw_friend_info(id)`: once a truthy list is cached it is returned
      for any id. */
    method RawFriendInfo(id: Value, get: string -> Value, inspect: Value -> string) returns (v: Value)
      modifies this
      ensures v == (if Truthy(old(rawFriendInfo)) then old(rawFriendInfo) else get(FriendsUrl(id, inspect)))
      ensures rawFriendInfo == v && rawInfo == old(rawInfo)
    {
      if !Truthy(rawFriendInfo) {
        rawFriendInfo := get(FriendsUrl(id, inspect));
      }
      v := rawFriendInfo;
    }
  }
}
