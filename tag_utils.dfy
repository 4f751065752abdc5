/**
 * utils/tag.ts: the pair of helpers the tag pages use to put a tag into a
 * URL and to read it back.
 */
module TagUtils {
  import opened Uri

  /**
   * formatTagForUrl: the tag as it is; making it URL-safe is left to
   * encodeURIComponent at the call site.
   */
  function FormatTagForUrl(tag: Bytes): Bytes {
    tag
  }

  /** getTagFromUrl: decodeURIComponent, which throws on a malformed segment. */
  function GetTagFromUrl(urlTag: Bytes): Result<Bytes> {
    DecodeURIComponent(urlTag)
  }

  /** Formatting never changes a tag. */
  lemma FormatIsIdentity(tag: Bytes)
    ensures FormatTagForUrl(tag) == tag
  {
  }

  /** Reading back an encoded, formatted tag gives the tag, for every well-formed tag. */
  lemma GetTagFromUrlRoundTrip(tag: Bytes)
    requires ValidUtf8(tag)
    ensures GetTagFromUrl(EncodeURIComponent(FormatTagForUrl(tag))) == Ok(tag)
  {
    DecodeEncode(tag);
  }

  /** A URL segment without '%' is the tag itself. */
  lemma GetTagFromUrlWithoutPercent(urlTag: Bytes)
    requires Percent !in urlTag
    ensures GetTagFromUrl(urlTag) == Ok(urlTag)
  {
    DecodeWithoutPercent(urlTag);
  }

  /** A '%' that is not followed by two hexadecimal digits makes getTagFromUrl throw. */
  lemma GetTagFromUrlRejectsBadEscape(urlTag: Bytes, i: nat)
    requires i < |urlTag| && urlTag[i] == Percent
    requires !(i + 2 < |urlTag| && IsHexDigit(urlTag[i + 1]) && IsHexDigit(urlTag[i + 2]))
    ensures GetTagFromUrl(urlTag) == URIError
  {
    DecodeRejectsBadEscape(urlTag, i);
  }

  /** %XX triplets whose bytes are not valid UTF-8 make getTagFromUrl throw. */
  lemma GetTagFromUrlRejectsInvalidUtf8(bytes: Bytes)
    requires !ValidUtf8(bytes)
    ensures GetTagFromUrl(EscapeAll(bytes)) == URIError
  {
    DecodeEscapeAll(bytes);
  }
}

/**
 * utils/tag.js: the same two helpers written again in CommonJS form and
 * published through module.exports.
 */
module TagUtilsCjs {
  import opened Uri
  import TagUtils

  function FormatTagForUrl(tag: Bytes): Bytes {
    tag
  }

  function GetTagFromUrl(urlTag: Bytes): Result<Bytes> {
    DecodeURIComponent(urlTag)
  }

  /** The module.exports object. */
  datatype Exports = Exports(formatTagForUrl: Bytes -> Bytes, getTagFromUrl: Bytes -> Result<Bytes>)

  const ModuleExports: Exports := Exports(FormatTagForUrl, GetTagFromUrl)

  /** The exported pair behaves like the utils/tag.ts functions on every input. */
  lemma ExportsMatchTypeScript(tag: Bytes)
    ensures ModuleExports.formatTagForUrl(tag) == TagUtils.FormatTagForUrl(tag) == tag
    ensures ModuleExports.getTagFromUrl(tag) == TagUtils.GetTagFromUrl(tag)
  {
  }

  /** The exported reader undoes encodeURIComponent on every well-formed tag. */
  lemma ExportedRoundTrip(tag: Bytes)
    requires ValidUtf8(tag)
    ensures ModuleExports.getTagFromUrl(EncodeURIComponent(ModuleExports.formatTagForUrl(tag))) == Ok(tag)
  {
    DecodeEncode(tag);
  }

  /** The exported reader returns a segment without '%' unchanged. */
  lemma ExportedWithoutPercent(urlTag: Bytes)
    requires Percent !in urlTag
    ensures ModuleExports.getTagFromUrl(urlTag) == Ok(urlTag)
  {
    DecodeWithoutPercent(urlTag);
  }

  /** The exported reader throws on a malformed escape. */
  lemma ExportedRejectsBadEscape(urlTag: Bytes, i: nat)
    requires i < |urlTag| && urlTag[i] == Percent
    requires !(i + 2 < |urlTag| && IsHexDigit(urlTag[i + 1]) && IsHexDigit(urlTag[i + 2]))
    ensures ModuleExports.getTagFromUrl(urlTag) == URIError
  {
    DecodeRejectsBadEscape(urlTag, i);
  }
}
