/** The profile-image URL (lib/omniauth/strategies/google_oauth2.rb, lines
    118-147): the picture URL from the profile, repaired when its scheme is
    doubled, with a size segment inserted before the "/photo.jpg" file of its
    path when a size or aspect option is configured. */
module Images {
  import opened RubyValues
  import opened Text

  /** A parsed URI: everything before the path, the path (nil for an opaque
      URI such as "mailto:x"), and everything after it. `URI#to_s` writes the
      three back one after another. */
  datatype Uri = Uri(head: string, path: Option<string>, tail: string)

  function UriText(u: Uri): string
  {
    u.head + (if u.path.Some? then u.path.value else "") + u.tail
  }

  const PhotoMarker: string := "/photo.jpg"
  const DoubledScheme: string := "https:https"
  const Scheme: string := "https"
  const DoubleSlash: string := "//"

  datatype ImageError =
    | PictureNotAString(picture: Value)  // gsub on a non-String picture raises
    | InvalidUri(text: string)            // URI.parse raises
    | InvalidPath(path: string)           // the validating `URI#path=` setter raises

  /** `image_size_opts_passed?`: either option is set to something truthy. */
  predicate ImageSizeOptsPassed(imageSize: Value, aspectRatio: Value)
  {
    Truthy(imageSize) || Truthy(aspectRatio)
  }

  /** String interpolation `"#{v}"`. Arrays and hashes print their `inspect`
      form, which is taken as a parameter. */
  function Interpolate(v: Value, inspect: Value -> string): string
  {
    match v
    case Nil => ""
    case Bool(b) => if b then "true" else "false"
    case Int(i) => DecimalString(i)
    case Str(s) => s
    case _ => inspect(v)
  }

  /** The tokens `image_params` collects, in order. */
  function ImageTokens(imageSize: Value, aspectRatio: Value, inspect: Value -> string): seq<string>
  {
    var sizeTokens :=
      if imageSize.Int? then ["s" + DecimalString(imageSize.i)]
      else if imageSize.Hash? then
        var width := Get(imageSize.entries, "width");
        var height := Get(imageSize.entries, "height");
        (if Truthy(width) then ["w" + Interpolate(width, inspect)] else [])
        + (if Truthy(height) then ["h" + Interpolate(height, inspect)] else [])
      else [];
    sizeTokens + (if aspectRatio == Str("square") then ["c"] else [])
  }

  /** `image_params`: the tokens are appended one by one and joined with
      "-" behind a "/". */
  method ImageParams(imageSize: Value, aspectRatio: Value, inspect: Value -> string)
    returns (segment: string)
    ensures segment == "/" + Join(ImageTokens(imageSize, aspectRatio, inspect), "-")
  {
    var tokens: seq<string> := [];
    if imageSize.Int? {
      tokens := tokens + ["s" + DecimalString(imageSize.i)];
    } else if imageSize.Hash? {
      var width := Get(imageSize.entries, "width");
      var height := Get(imageSize.entries, "height");
      if Truthy(width) {
        tokens := tokens + ["w" + Interpolate(width, inspect)];
      }
      if Truthy(height) {
        tokens := tokens + ["h" + Interpolate(height, inspect)];
      }
      assert tokens == (if Truthy(width) then ["w" + Interpolate(width, inspect)] else [])
        + (if Truthy(height) then ["h" + Interpolate(height, inspect)] else []);
    }
    if aspectRatio == Str("square") {
      tokens := tokens + ["c"];
    } else {
      assert tokens == tokens + [];
    }
    segment := "/" + Join(tokens, "-");
  }

  /** The path after the size segment is inserted at index i and every
      "//" is collapsed. */
  function ResizedPath(path: string, i: nat, segment: string): string
    requires i <= |path|
  {
    ReplaceAll(path[..i] + segment + path[i..], DoubleSlash, "/")
  }

  /** `u.path.to_s`. */
  function PathText(u: Uri): string
  {
    if u.path.Some? then u.path.value else ""
  }

  /** The branch that inserts the size segment is taken: the path holds
      "/photo.jpg" and a size option is set. */
  predicate PathResized(u: Uri, imageSize: Value, aspectRatio: Value)
  {
    IndexOf(PathText(u), PhotoMarker).Some? && ImageSizeOptsPassed(imageSize, aspectRatio)
  }

  /** The URI `image_url` writes out for a parsed picture URI. */
  function ResizedUri(u: Uri, imageSize: Value, aspectRatio: Value, inspect: Value -> string): Uri
  {
    if PathResized(u, imageSize, aspectRatio) then
      var segment := "/" + Join(ImageTokens(imageSize, aspectRatio, inspect), "-");
      u.(path := Some(ResizedPath(PathText(u), IndexOf(PathText(u), PhotoMarker).value, segment)))
    else u
  }

  /** `image_url`: nil without a picture, otherwise the rebuilt URL, or the
      error gsub, URI.parse or the path setter raises. `pathValid` stands
      for the check `URI#path=` makes of the new path of this URI. */
  function ImageUrlOf(picture: Value, imageSize: Value, aspectRatio: Value, inspect: Value -> string,
                      parse: string -> Option<Uri>, pathValid: string -> bool): Result<Value, ImageError>
  {
    if !Truthy(picture) then Success(Nil)
    else if !picture.Str? then Failure(PictureNotAString(picture))
    else
      var repaired := ReplaceAll(picture.s, DoubledScheme, Scheme);
      match parse(repaired)
      case None => Failure(InvalidUri(repaired))
      case Some(u) =>
        var v := ResizedUri(u, imageSize, aspectRatio, inspect);
        if PathResized(u, imageSize, aspectRatio) && !pathValid(PathText(v)) then Failure(InvalidPath(PathText(v)))
        else Success(Str(UriText(v)))
  }

  /** Lines 125-126 on the path text: `insert` puts the segment at the
      index in place, then every "//" is collapsed. */
  method InsertSegment(path: string, index: nat, imageSize: Value, aspectRatio: Value, inspect: Value -> string)
    returns (newPath: string)
    requires index <= |path|
    ensures newPath == ResizedPath(path, index, "/" + Join(ImageTokens(imageSize, aspectRatio, inspect), "-"))
  {
    var segment := ImageParams(imageSize, aspectRatio, inspect);
    newPath := path[..index] + segment + path[index..];
    newPath := ReplaceAll(newPath, DoubleSlash, "/");
  }

  /** `image_url` step by step: the path is changed in place by `insert`
      and then reassigned, through the validating setter, with the
      collapsed copy. */
  method ImageUrl(picture: Value, imageSize: Value, aspectRatio: Value, inspect: Value -> string,
                  parse: string -> Option<Uri>, pathValid: string -> bool)
    returns (r: Result<Value, ImageError>)
    ensures r == ImageUrlOf(picture, imageSize, aspectRatio, inspect, parse, pathValid)
  {
    if !Truthy(picture) {
      return Success(Nil);
    }
    if !picture.Str? {
      return Failure(PictureNotAString(picture));
    }
    var repaired := ReplaceAll(picture.s, DoubledScheme, Scheme);
    var parsed := parse(repaired);
    if parsed.None? {
      return Failure(InvalidUri(repaired));
    }
    var u := parsed.value;
    var pathIndex := IndexOf(PathText(u), PhotoMarker);
    if pathIndex.Some? && ImageSizeOptsPassed(imageSize, aspectRatio) {
      var path := InsertSegment(PathText(u), pathIndex.value, imageSize, aspectRatio, inspect);
      assert PathText(ResizedUri(u, imageSize, aspectRatio, inspect)) == path;
      if !pathValid(path) {
        return Failure(InvalidPath(path));
      }
      u := u.(path := Some(path));
    }
    r := Success(Str(UriText(u)));
  }

  // ---------------------------------------------------------------------
  // What the rewriting does

  /** "//" occurs at j exactly when two slashes stand there. */
  lemma DoubleSlashAt(s: string, j: nat)
    ensures MatchAt(s, DoubleSlash, j) <==> j + 1 < |s| && s[j] == '/' && s[j + 1] == '/'
  {
    if j + 1 < |s| {
      assert s[j..j + 2] == [s[j], s[j + 1]];
    }
  }

  /** Two strings without "//" joined without a slash on both sides of the
      seam contain no "//". */
  lemma NoDoubleSlashConcat(a: string, b: string)
    requires NoMatch(a, DoubleSlash) && NoMatch(b, DoubleSlash)
    requires a == [] || b == [] || a[|a| - 1] != '/' || b[0] != '/'
    ensures NoMatch(a + b, DoubleSlash)
  {
    var s := a + b;
    forall j: nat ensures !MatchAt(s, DoubleSlash, j) {
      DoubleSlashAt(s, j);
      if j + 1 < |s| {
        if j + 1 < |a| {
          DoubleSlashAt(a, j);
          assert s[j] == a[j] && s[j + 1] == a[j + 1];
        } else if j >= |a| {
          DoubleSlashAt(b, j - |a|);
          assert s[j] == b[j - |a|] && s[j + 1] == b[j + 1 - |a|];
        } else {
          assert s[j] == a[|a| - 1] && s[j + 1] == b[0];
        }
      }
    }
  }

  /** A string with no slash after its first character contains no "//". */
  lemma NoDoubleSlashLeading(x: string)
    requires NoneIn(x, {'/'})
    ensures NoMatch("/" + x, DoubleSlash) && NoMatch(x, DoubleSlash)
  {
    forall j: nat ensures !MatchAt("/" + x, DoubleSlash, j) && !MatchAt(x, DoubleSlash, j) {
      DoubleSlashAt("/" + x, j);
      DoubleSlashAt(x, j);
      if j + 1 < |"/" + x| {
        assert ("/" + x)[j + 1] == x[j];
      }
    }
  }

  /** A prefix of a string without "//" has none either. */
  lemma NoDoubleSlashPrefix(s: string, k: nat)
    requires k <= |s| && NoMatch(s, DoubleSlash)
    ensures NoMatch(s[..k], DoubleSlash)
  {
    forall j: nat ensures !MatchAt(s[..k], DoubleSlash, j) {
      DoubleSlashAt(s[..k], j);
      DoubleSlashAt(s, j);
    }
  }

  /** Size options whose values print without a slash: an Integer size, or
      a width and height that are Integers, booleans or unset. */
  predicate SlashFreeSize(imageSize: Value)
  {
    imageSize.Hash? ==>
      var width := Get(imageSize.entries, "width");
      var height := Get(imageSize.entries, "height");
      (width.Nil? || width.Bool? || width.Int?) && (height.Nil? || height.Bool? || height.Int?)
  }

  /** Every token is non-empty and, for slash-free size options, holds no
      slash. */
  lemma ImageTokensPlain(imageSize: Value, aspectRatio: Value, inspect: Value -> string)
    requires SlashFreeSize(imageSize)
    ensures forall i :: 0 <= i < |ImageTokens(imageSize, aspectRatio, inspect)| ==>
      ImageTokens(imageSize, aspectRatio, inspect)[i] != "" &&
      NoneIn(ImageTokens(imageSize, aspectRatio, inspect)[i], {'/'})
  {
    var tokens := ImageTokens(imageSize, aspectRatio, inspect);
    forall i | 0 <= i < |tokens| ensures tokens[i] != "" && NoneIn(tokens[i], {'/'}) {
      var c := tokens[i][0];
      forall j | 0 <= j < |tokens[i]| ensures tokens[i][j] != '/' {
        if j > 0 {
          assert tokens[i][j] in tokens[i][1..];
        }
      }
    }
  }

  /** A slash followed by a non-empty, slash-free text, inserted at a
      slash of a path without "//", creates no "//". */
  lemma InsertCreatesNoDoubleSlash(path: string, i: nat, joined: string)
    requires NoMatch(path, DoubleSlash)
    requires i < |path| && path[i] == '/'
    requires joined != "" && NoneIn(joined, {'/'})
    ensures NoMatch(path[..i] + ("/" + joined) + path[i..], DoubleSlash)
  {
    var segment := "/" + joined;
    var front := path[..i];
    NoDoubleSlashLeading(joined);
    NoDoubleSlashPrefix(path, i);
    NoMatchSuffix(path, DoubleSlash, i);
    if i > 0 {
      DoubleSlashAt(path, i - 1);
      assert front[|front| - 1] == path[i - 1];
    }
    NoDoubleSlashConcat(front, segment);
    assert segment[|segment| - 1] == joined[|joined| - 1];
    NoDoubleSlashConcat(front + segment, path[i..]);
  }

  /** Inserting "/" and a non-empty, slash-free text (the joined tokens)
      at a slash of a path without "//" leaves no "//" to collapse: the path
      is the old path with the segment in front of the slash. */
  lemma SegmentInserted(path: string, i: nat, joined: string)
    requires NoMatch(path, DoubleSlash)
    requires i < |path| && path[i] == '/'
    requires joined != "" && NoneIn(joined, {'/'})
    ensures ResizedPath(path, i, "/" + joined) == path[..i] + ("/" + joined) + path[i..]
  {
    InsertCreatesNoDoubleSlash(path, i, joined);
    ReplaceAbsent(path[..i] + ("/" + joined) + path[i..], DoubleSlash, "/");
  }

  /** Before the inserted slash nothing matches "//": the prefix has no
      "//" and the slash follows a character of the prefix only where that
      character is not a slash. */
  lemma NoDoubleSlashBeforeInsert(path: string, i: nat)
    requires NoMatch(path, DoubleSlash)
    requires i < |path| && path[i] == '/'
    ensures forall j: nat :: j < i ==> !MatchAt(path[..i] + ("/" + path[i..]), DoubleSlash, j)
  {
    var s := path[..i] + ("/" + path[i..]);
    forall j: nat | j < i ensures !MatchAt(s, DoubleSlash, j) {
      DoubleSlashAt(s, j);
      DoubleSlashAt(path, j);
      if j + 1 == i {
        assert s[j + 1] == '/' && s[j] == path[j];
      } else {
        assert s[j] == path[j] && s[j + 1] == path[j + 1];
      }
    }
  }

  /** With options that produce no token (a String size, an aspect other
      than "square") the segment is a bare "/", and collapsing "//" removes
      it again: the path is unchanged. */
  lemma EmptySegmentLeavesPath(path: string, i: nat)
    requires NoMatch(path, DoubleSlash)
    requires i < |path| && path[i] == '/'
    ensures ResizedPath(path, i, "/" + Join([], "-")) == path
  {
    var rest := "/" + path[i..];
    assert "/" + Join([], "-") == "/";
    assert path[..i] + "/" + path[i..] == path[..i] + rest;
    NoDoubleSlashBeforeInsert(path, i);
    ReplaceSkip(path[..i], rest, DoubleSlash, "/");
    assert rest[..2] == DoubleSlash;
    assert rest[2..] == path[i + 1..];
    NoMatchSuffix(path, DoubleSlash, i + 1);
    ReplaceAbsent(path[i + 1..], DoubleSlash, "/");
    assert path == path[..i] + "/" + path[i + 1..];
  }

  /** A picture URL whose scheme is doubled ("https:https://...") is
      repaired to the URL itself. */
  lemma DoubledSchemeRepaired(url: string)
    requires IsPrefix(Scheme, url) && NoMatch(url, DoubledScheme)
    ensures ReplaceAll("https:" + url, DoubledScheme, Scheme) == url
  {
    var s := "https:" + url;
    assert s[..|DoubledScheme|] == DoubledScheme;
    assert s[|DoubledScheme|..] == url[5..];
    assert ReplaceAll(s, DoubledScheme, Scheme) == Scheme + ReplaceAll(url[5..], DoubledScheme, Scheme);
    NoMatchSuffix(url, DoubledScheme, 5);
    ReplaceAbsent(url[5..], DoubledScheme, Scheme);
    assert url == Scheme + url[5..];
  }

  // ---------------------------------------------------------------------
  // image_url as a whole

  /** No picture, no image; a picture that is not a String makes gsub raise. */
  lemma ImageUrlWithoutPicture(picture: Value, imageSize: Value, aspectRatio: Value, inspect: Value -> string,
                               parse: string -> Option<Uri>, pathValid: string -> bool)
    requires !picture.Str?
    ensures !Truthy(picture) ==> ImageUrlOf(picture, imageSize, aspectRatio, inspect, parse, pathValid) == Success(Nil)
    ensures Truthy(picture) ==>
      ImageUrlOf(picture, imageSize, aspectRatio, inspect, parse, pathValid) == Failure(PictureNotAString(picture))
  {
  }

  /** Without "/photo.jpg" in the path, or without size options, the path
      setter is not called and the URL is the parsed (and repaired) picture
      URL written back unchanged. */
  lemma ImageUrlKeepsPath(picture: Value, imageSize: Value, aspectRatio: Value, inspect: Value -> string,
                          parse: string -> Option<Uri>, pathValid: string -> bool, u: Uri)
    requires picture.Str? && parse(ReplaceAll(picture.s, DoubledScheme, Scheme)) == Some(u)
    requires u.path.None? || IndexOf(u.path.value, PhotoMarker).None? || !ImageSizeOptsPassed(imageSize, aspectRatio)
    ensures ImageUrlOf(picture, imageSize, aspectRatio, inspect, parse, pathValid) == Success(Str(UriText(u)))
  {
  }

  /** With size options whose tokens are slash-free, the new path is the old
      one with the segment immediately before the first "/photo.jpg"; the
      URL with only that change comes out when the path setter accepts the
      new path, and the setter's error when it does not. */
  lemma ImageUrlInsertsSegment(picture: Value, imageSize: Value, aspectRatio: Value, inspect: Value -> string,
                               parse: string -> Option<Uri>, pathValid: string -> bool, u: Uri, i: nat)
    requires picture.Str? && parse(ReplaceAll(picture.s, DoubledScheme, Scheme)) == Some(u)
    requires u.path.Some? && NoMatch(u.path.value, DoubleSlash)
    requires IndexOf(u.path.value, PhotoMarker) == Some(i)
    requires SlashFreeSize(imageSize) && ImageTokens(imageSize, aspectRatio, inspect) != []
    ensures var p := u.path.value;
      var segment := "/" + Join(ImageTokens(imageSize, aspectRatio, inspect), "-");
      var newPath := p[..i] + segment + p[i..];
      ImageUrlOf(picture, imageSize, aspectRatio, inspect, parse, pathValid)
        == if pathValid(newPath) then Success(Str(u.head + newPath + u.tail)) else Failure(InvalidPath(newPath))
  {
    var p := u.path.value;
    var tokens := ImageTokens(imageSize, aspectRatio, inspect);
    var joined := Join(tokens, "-");
    assert PathResized(u, imageSize, aspectRatio) by {
      if !Truthy(imageSize) {
        assert aspectRatio == Str("square");
      }
    }
    assert PathText(ResizedUri(u, imageSize, aspectRatio, inspect)) == p[..i] + ("/" + joined) + p[i..] by {
      assert p[i] == p[i..i + |PhotoMarker|][0] == '/';
      ImageTokensPlain(imageSize, aspectRatio, inspect);
      assert tokens[0] != "";
      JoinAvoid(tokens, "-", {'/'});
      SegmentInserted(p, i, joined);
    }
  }

  /** Options that are set but yield no token insert a bare "/", which the
      collapsing of "//" removes again: the URL is unchanged, unless the
      path setter rejects the path it is given back. */
  lemma ImageUrlEmptySegment(picture: Value, imageSize: Value, aspectRatio: Value, inspect: Value -> string,
                             parse: string -> Option<Uri>, pathValid: string -> bool, u: Uri)
    requires picture.Str? && parse(ReplaceAll(picture.s, DoubledScheme, Scheme)) == Some(u)
    requires u.path.Some? && NoMatch(u.path.value, DoubleSlash)
    requires ImageTokens(imageSize, aspectRatio, inspect) == []
    ensures ImageUrlOf(picture, imageSize, aspectRatio, inspect, parse, pathValid)
      == if PathResized(u, imageSize, aspectRatio) && !pathValid(u.path.value) then Failure(InvalidPath(u.path.value))
         else Success(Str(UriText(u)))
  {
    var p := u.path.value;
    if PathResized(u, imageSize, aspectRatio) {
      var index := IndexOf(p, PhotoMarker).value;
      assert PathText(ResizedUri(u, imageSize, aspectRatio, inspect)) == p by {
        assert p[index] == p[index..index + |PhotoMarker|][0] == '/';
        EmptySegmentLeavesPath(p, index);
      }
    }
  }

  /** An Integer size alone yields the one token "s<N>", which holds no
      slash. */
  lemma IntegerSizeToken(n: int, aspectRatio: Value, inspect: Value -> string)
    requires aspectRatio != Str("square")
    ensures ImageTokens(Int(n), aspectRatio, inspect) == ["s" + DecimalString(n)]
    ensures "/" + Join(ImageTokens(Int(n), aspectRatio, inspect), "-") == "/s" + DecimalString(n)
    ensures NoneIn("s" + DecimalString(n), {'/'})
  {
    var digits := DecimalString(n);
    PrependAvoid('s', digits, {'/'});
    assert Join(["s" + digits], "-") == "s" + digits;
  }

  /** An Integer image_size on a picture URL with a doubled scheme: the
      scheme is repaired, "/s<N>" lands immediately before the first
      "/photo.jpg", and the path holds no "//"; the URL comes out unless the
      path setter rejects that path. */
  lemma DoubledSchemeSized(url: string, n: int, aspectRatio: Value, inspect: Value -> string,
                           parse: string -> Option<Uri>, pathValid: string -> bool, u: Uri, i: nat)
    requires IsPrefix(Scheme, url) && NoMatch(url, DoubledScheme) && parse(url) == Some(u)
    requires u.path.Some? && NoMatch(u.path.value, DoubleSlash)
    requires IndexOf(u.path.value, PhotoMarker) == Some(i)
    requires aspectRatio != Str("square")
    ensures var p := u.path.value;
      var newPath := p[..i] + ("/s" + DecimalString(n)) + p[i..];
      && ImageUrlOf(Str("https:" + url), Int(n), aspectRatio, inspect, parse, pathValid)
           == (if pathValid(newPath) then Success(Str(u.head + newPath + u.tail)) else Failure(InvalidPath(newPath)))
      && NoMatch(newPath, DoubleSlash)
  {
    var p := u.path.value;
    DoubledSchemeRepaired(url);
    IntegerSizeToken(n, aspectRatio, inspect);
    ImageUrlInsertsSegment(Str("https:" + url), Int(n), aspectRatio, inspect, parse, pathValid, u, i);
    assert p[i] == p[i..i + |PhotoMarker|][0] == '/';
    InsertCreatesNoDoubleSlash(p, i, "s" + DecimalString(n));
  }
}
