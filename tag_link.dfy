/**
 * components/Tag.jsx: the link a tag is rendered as. Its target is
 * "/tags/" followed by encodeURIComponent of the formatted tag; its visible
 * label is the tag text itself.
 */
module TagLink {
  import opened Uri
  import opened JsStrings
  import TagUtils
  import opened NextMiddleware

  datatype Link = Link(href: Bytes, caption: Bytes)

  function Tag(text: Bytes): (link: Link)
    ensures link.caption == text
    ensures StartsWith(link.href, TagsPrefix)
  {
    var encodedTag := EncodeURIComponent(TagUtils.FormatTagForUrl(text));
    Link(TagsPrefix + encodedTag, text)
  }

  /**
   * The href is "/tags/" and the encoded tag, and what follows "/tags/"
   * holds only unescaped characters and %XX triplets, so no '/'.
   */
  lemma HrefIsPrefixAndEncoding(text: Bytes)
    ensures Tag(text).href == TagsPrefix + EncodeURIComponent(text)
    ensures IsPercentEncoded(Tag(text).href[|TagsPrefix|..])
    ensures Slash !in Tag(text).href[|TagsPrefix|..]
  {
    EncodeIsPercentEncoded(text);
    assert Tag(text).href[|TagsPrefix|..] == EncodeURIComponent(text);
  }

  /**
   * The segment the middleware takes from a tag link is the whole encoded
   * tag, and getTagFromUrl turns it back into the text, for every
   * well-formed text.
   */
  lemma HrefSegmentRoundTrip(text: Bytes)
    requires ValidUtf8(text)
    ensures TagSegment(Tag(text).href) == EncodeURIComponent(text)
    ensures TagUtils.GetTagFromUrl(TagSegment(Tag(text).href)) == Ok(text)
  {
    var encoded := EncodeURIComponent(text);
    HrefIsPrefixAndEncoding(text);
    assert Tag(text).href[|TagsPrefix|..] == encoded;
    forall m: nat ensures !OccursAt(encoded, [Slash], m) {
      ByteOccursAt(encoded, Slash, m);
    }
    assert IndexOf(encoded, [Slash]).None?;
    DecodeEncode(text);
  }

  /**
   * A tag link reaches the middleware, which redirects it exactly when the
   * slug of the text differs from the encoded text, and then to "/tags/"
   * and the slug.
   */
  lemma MiddlewareOnTagLink(text: Bytes, slug: Bytes -> Bytes)
    requires ValidUtf8(text)
    requires Dollar !in slug(text)
    ensures Middleware(Tag(text).href, slug) ==
      if slug(text) == EncodeURIComponent(text) then Next else Redirect(TagsPrefix + slug(text))
  {
    var href := Tag(text).href;
    HrefSegmentRoundTrip(text);
    MiddlewareOnTagPath(href, slug);
    if slug(text) != EncodeURIComponent(text) {
      RedirectPath(href, slug, text);
      assert |TagsPrefix| + |TagSegment(href)| == |href|;
      assert href[|href|..] == [];
      assert TagsPrefix + slug(text) + [] == TagsPrefix + slug(text);
    }
  }
}
