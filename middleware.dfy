/**
 * middleware.ts: the request middleware for /tags/ paths. It takes the tag
 * segment after "/tags/", decodes it, and redirects to the slug of the
 * decoded tag when that differs from the segment; a segment that does not
 * decode is let through. The slugger (github-slugger's `slug`) is a
 * parameter about which nothing is assumed.
 */
module NextMiddleware {
  import opened Wrappers
  import opened Uri
  import opened JsStrings

  /** "/tags/" */
  const TagsPrefix: Bytes := [0x2F, 0x74, 0x61, 0x67, 0x73, 0x2F]

  /** NextResponse.next() or NextResponse.redirect to a path on the same site. */
  datatype Response = Next | Redirect(path: Bytes)

  /** The request path with the middleware applied. */
  function Middleware(pathname: Bytes, slug: Bytes -> Bytes): (r: Response)
    ensures !StartsWith(pathname, TagsPrefix) ==> r == Next
  {
    if StartsWith(pathname, TagsPrefix) then
      var parts := Split(pathname, TagsPrefix);
      if |parts| > 1 then
        var tagPart := Split(parts[1], [Slash])[0];
        match DecodeURIComponent(tagPart)
        case URIError => Next  // the catch block logs the error and falls through
        case Ok(decodedTag) =>
          var slugifiedTag := slug(decodedTag);
          if slugifiedTag != tagPart then
            Redirect(Replace(pathname, TagsPrefix + tagPart, TagsPrefix + slugifiedTag))
          else Next
      else Next
    else Next
  }

  /** The text after the leading "/tags/" up to the next '/', or to the end. */
  function TagSegment(pathname: Bytes): Bytes
    requires StartsWith(pathname, TagsPrefix)
  {
    BeforeFirst(pathname[|TagsPrefix|..], [Slash])
  }

  lemma ByteOccursAt(s: Bytes, x: byte, m: nat)
    ensures OccursAt(s, [x], m) <==> m < |s| && s[m] == x
  {
    if m < |s| {
      assert s[m..m + 1] == [s[m]];
    }
  }

  lemma {:induction false} SplitHead(s: Bytes, sep: Bytes)
    requires |sep| > 0
    ensures Split(s, sep)[0] == BeforeFirst(s, sep)
  {
  }

  /** The first '/' of a piece cut just before a '/' is the first '/' of the whole. */
  lemma BeforeFirstSlashOfPiece(rest: Bytes, j: nat)
    requires j < |rest| && rest[j] == Slash
    ensures BeforeFirst(rest[..j], [Slash]) == BeforeFirst(rest, [Slash])
  {
    var piece := rest[..j];
    ByteOccursAt(rest, Slash, j);
    var k := IndexOf(rest, [Slash]).value;
    assert k <= j;
    forall m: nat | m < k ensures !OccursAt(piece, [Slash], m) {
      ByteOccursAt(rest, Slash, m);
      ByteOccursAt(piece, Slash, m);
    }
    if k < j {
      ByteOccursAt(rest, Slash, k);
      ByteOccursAt(piece, Slash, k);
      IndexOfFirst(piece, [Slash], k);
    } else {
      forall m: nat ensures !OccursAt(piece, [Slash], m) {
        ByteOccursAt(rest, Slash, m);
        ByteOccursAt(piece, Slash, m);
      }
      assert IndexOf(piece, [Slash]).None?;
    }
  }

  /** Splitting a /tags/ path: an empty first piece, then the pieces of the rest. */
  lemma SplitTagsPath(pathname: Bytes)
    requires StartsWith(pathname, TagsPrefix)
    ensures Split(pathname, TagsPrefix) == [[]] + Split(pathname[|TagsPrefix|..], TagsPrefix)
  {
    assert OccursAt(pathname, TagsPrefix, 0);
    IndexOfFirst(pathname, TagsPrefix, 0);
    assert pathname[..0] == [];
  }

  /** Cutting at the next "/tags/" first does not change where the first '/' is. */
  lemma SlashBeforeNextPrefix(rest: Bytes)
    ensures BeforeFirst(BeforeFirst(rest, TagsPrefix), [Slash]) == BeforeFirst(rest, [Slash])
  {
    match IndexOf(rest, TagsPrefix) {
      case None =>
      case Some(j) =>
        assert rest[j..j + |TagsPrefix|] == TagsPrefix;
        assert rest[j] == Slash;
        BeforeFirstSlashOfPiece(rest, j);
    }
  }

  /** The piece before the first '/' holds no '/' and starts the string. */
  lemma BeforeFirstSlash(rest: Bytes)
    ensures Slash !in BeforeFirst(rest, [Slash])
    ensures rest == BeforeFirst(rest, [Slash]) + rest[|BeforeFirst(rest, [Slash])|..]
  {
    match IndexOf(rest, [Slash]) {
      case None =>
        forall m | 0 <= m < |rest| ensures rest[m] != Slash {
          ByteOccursAt(rest, Slash, m);
        }
      case Some(k) =>
        forall m | 0 <= m < k ensures rest[m] != Slash {
          ByteOccursAt(rest, Slash, m);
        }
    }
  }

  /**
   * On a path that starts with "/tags/", split('/tags/') always gives at
   * least two pieces, and the tag part the middleware takes is the segment
   * after the leading "/tags/" up to the next '/'; it contains no '/', and the
   * path is "/tags/", the segment and what follows it.
   */
  lemma TagPartIsSegment(pathname: Bytes)
    requires StartsWith(pathname, TagsPrefix)
    ensures |Split(pathname, TagsPrefix)| > 1
    ensures Split(Split(pathname, TagsPrefix)[1], [Slash])[0] == TagSegment(pathname)
    ensures Slash !in TagSegment(pathname)
    ensures pathname == TagsPrefix + TagSegment(pathname) + pathname[|TagsPrefix| + |TagSegment(pathname)|..]
  {
    TagPieceIsSegment(pathname);
    SegmentSplitsPath(pathname);
  }

  lemma TagPieceIsSegment(pathname: Bytes)
    requires StartsWith(pathname, TagsPrefix)
    ensures |Split(pathname, TagsPrefix)| > 1
    ensures Split(Split(pathname, TagsPrefix)[1], [Slash])[0] == TagSegment(pathname)
  {
    var rest := pathname[|TagsPrefix|..];
    SplitTagsPath(pathname);
    var piece := Split(pathname, TagsPrefix)[1];
    assert piece == Split(rest, TagsPrefix)[0];
    SplitHead(rest, TagsPrefix);
    SplitHead(piece, [Slash]);
    SlashBeforeNextPrefix(rest);
  }

  lemma SegmentSplitsPath(pathname: Bytes)
    requires StartsWith(pathname, TagsPrefix)
    ensures Slash !in TagSegment(pathname)
    ensures pathname == TagsPrefix + TagSegment(pathname) + pathname[|TagsPrefix| + |TagSegment(pathname)|..]
  {
    var rest := pathname[|TagsPrefix|..];
    BeforeFirstSlash(rest);
    var seg := TagSegment(pathname);
    assert pathname == TagsPrefix + rest;
    assert rest[|seg|..] == pathname[|TagsPrefix| + |seg|..];
  }

  /**
   * What the middleware does with a /tags/ path: a segment that does not
   * decode is let through; otherwise it redirects exactly when the slug of
   * the decoded segment differs from the segment.
   */
  lemma MiddlewareOnTagPath(pathname: Bytes, slug: Bytes -> Bytes)
    requires StartsWith(pathname, TagsPrefix)
    ensures var tag := TagSegment(pathname);
      Middleware(pathname, slug) ==
        match DecodeURIComponent(tag)
        case URIError => Next
        case Ok(decoded) =>
          if slug(decoded) != tag then Redirect(Replace(pathname, TagsPrefix + tag, TagsPrefix + slug(decoded)))
          else Next
  {
    TagPartIsSegment(pathname);
  }

  /** The middleware redirects iff the segment decodes and its slug differs from the segment. */
  lemma RedirectIff(pathname: Bytes, slug: Bytes -> Bytes)
    ensures Middleware(pathname, slug).Redirect? <==>
      && StartsWith(pathname, TagsPrefix)
      && DecodeURIComponent(TagSegment(pathname)).Ok?
      && slug(DecodeURIComponent(TagSegment(pathname)).value) != TagSegment(pathname)
  {
    if StartsWith(pathname, TagsPrefix) {
      MiddlewareOnTagPath(pathname, slug);
    }
  }

  /** A segment with a malformed escape or invalid UTF-8 is let through, never redirected. */
  lemma DecodeErrorPassesThrough(pathname: Bytes, slug: Bytes -> Bytes)
    requires StartsWith(pathname, TagsPrefix)
    requires DecodeURIComponent(TagSegment(pathname)) == URIError
    ensures Middleware(pathname, slug) == Next
  {
    MiddlewareOnTagPath(pathname, slug);
  }

  /**
   * The redirect target is "/tags/", the slug, and the rest of the original
   * path after the segment: the replaced occurrence is the one at position 0.
   * This needs a slug without '$', which replace would otherwise read as a
   * substitution pattern.
   */
  lemma RedirectPath(pathname: Bytes, slug: Bytes -> Bytes, decoded: Bytes)
    requires StartsWith(pathname, TagsPrefix)
    requires DecodeURIComponent(TagSegment(pathname)) == Ok(decoded)
    requires slug(decoded) != TagSegment(pathname)
    requires Dollar !in slug(decoded)
    ensures Middleware(pathname, slug)
         == Redirect(TagsPrefix + slug(decoded) + pathname[|TagsPrefix| + |TagSegment(pathname)|..])
  {
    var tag := TagSegment(pathname);
    MiddlewareOnTagPath(pathname, slug);
    TagPartIsSegment(pathname);
    var pattern := TagsPrefix + tag;
    assert pathname[..|pattern|] == pattern;
    ReplaceAtStart(pathname, pattern, TagsPrefix + slug(decoded));
  }

  /**
   * replace() reads "$&" in the replacement as the matched text: a slug of
   * "$&" for "/tags/A" sends the browser to "/tags//tags/A".
   */
  lemma DollarInSlugIsSubstituted()
    ensures Middleware([0x2F, 0x74, 0x61, 0x67, 0x73, 0x2F, 0x41], _ => [Dollar, Ampersand])
         == Redirect([0x2F, 0x74, 0x61, 0x67, 0x73, 0x2F, 0x2F, 0x74, 0x61, 0x67, 0x73, 0x2F, 0x41])
  {
    var pathname: Bytes := [0x2F, 0x74, 0x61, 0x67, 0x73, 0x2F, 0x41];
    var slug: Bytes -> Bytes := _ => [Dollar, Ampersand];
    assert StartsWith(pathname, TagsPrefix);
    MiddlewareOnTagPath(pathname, slug);
    var rest: Bytes := [0x41];
    assert pathname[|TagsPrefix|..] == rest;
    ByteOccursAt(rest, Slash, 0);
    assert IndexOf(rest, [Slash]).None?;
    assert TagSegment(pathname) == rest;
    DecodeWithoutPercent(rest);
    var pattern := TagsPrefix + rest;
    assert pattern == pathname;
    assert OccursAt(pathname, pattern, 0);
    IndexOfFirst(pathname, pattern, 0);
    SubstitutionLiteralPrefix(pattern, pathname, 0, TagsPrefix, [Dollar, Ampersand]);
    assert GetSubstitution(pattern, pathname, 0, [Dollar, Ampersand]) == pattern;
  }
}
