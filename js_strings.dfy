/**
 * The String.prototype operations the tag redirect relies on (startsWith,
 * indexOf, split with a string separator, replace with a string pattern),
 * as ECMA-262 defines them, on the byte representation of strings.
 */
module JsStrings {
  import opened Wrappers
  import opened Uri

  /** '$' */
  const Dollar: byte := 0x24
  /** '&' */
  const Ampersand: byte := 0x26
  /** '`' */
  const Backtick: byte := 0x60
  /** ''' */
  const Apostrophe: byte := 0x27

  predicate StartsWith(s: Bytes, prefix: Bytes) {
    |prefix| <= |s| && s[..|prefix|] == prefix
  }

  /** pat occurs in s at position i. */
  predicate OccursAt(s: Bytes, pat: Bytes, i: nat) {
    i + |pat| <= |s| && s[i..i + |pat|] == pat
  }

  lemma OccursAtTail(s: Bytes, pat: Bytes, j: nat)
    requires |s| > 0
    ensures OccursAt(s[1..], pat, j) <==> OccursAt(s, pat, j + 1)
  {
    if j + 1 + |pat| <= |s| {
      assert s[1..][j..j + |pat|] == s[j + 1..j + 1 + |pat|];
    }
  }

  /** indexOf: the first position at which pat occurs in s, if any. */
  function IndexOf(s: Bytes, pat: Bytes): (r: Option<nat>)
    ensures r.Some? ==> OccursAt(s, pat, r.value)
    ensures r.Some? ==> forall j :: 0 <= j < r.value ==> !OccursAt(s, pat, j)
    ensures r.None? ==> forall j: nat :: !OccursAt(s, pat, j)
    decreases |s|
  {
    if |s| < |pat| then None
    else if s[..|pat|] == pat then Some(0)
    else
      var r := IndexOf(s[1..], pat);
      assert !OccursAt(s, pat, 0) by {
        assert s[0..|pat|] == s[..|pat|];
      }
      assert forall j: nat | j >= 1 :: OccursAt(s, pat, j) <==> OccursAt(s[1..], pat, j - 1) by {
        forall j: nat | j >= 1 ensures OccursAt(s, pat, j) <==> OccursAt(s[1..], pat, j - 1) {
          OccursAtTail(s, pat, j - 1);
        }
      }
      match r
      case None => None
      case Some(i) => Some(i + 1)
  }

  /** The first occurrence is the one IndexOf reports. */
  lemma IndexOfFirst(s: Bytes, pat: Bytes, i: nat)
    requires OccursAt(s, pat, i)
    requires forall j :: 0 <= j < i ==> !OccursAt(s, pat, j)
    ensures IndexOf(s, pat) == Some(i)
  {
  }

  /** split with a non-empty string separator and no limit. */
  function Split(s: Bytes, sep: Bytes): (parts: seq<Bytes>)
    requires |sep| > 0
    ensures |parts| >= 1
    decreases |s|
  {
    match IndexOf(s, sep)
    case None => [s]
    case Some(i) => [s[..i]] + Split(s[i + |sep|..], sep)
  }

  /** The first piece of a split is everything before the first separator. */
  function BeforeFirst(s: Bytes, sep: Bytes): Bytes {
    match IndexOf(s, sep)
    case None => s
    case Some(i) => s[..i]
  }

  /**
   * replace with a string pattern: only the first occurrence is replaced,
   * and the replacement text goes through GetSubstitution.
   */
  function Replace(s: Bytes, pattern: Bytes, replacement: Bytes): Bytes {
    match IndexOf(s, pattern)
    case None => s
    case Some(p) => s[..p] + GetSubstitution(pattern, s, p, replacement) + s[p + |pattern|..]
  }

  /**
   * GetSubstitution of ECMA-262 for a match without capture groups: "$$"
   * stands for '$', "$&" for the matched text, "$`" for the text before it
   * and "$'" for the text after it; every other '$' stands for itself.
   */
  function GetSubstitution(matched: Bytes, str: Bytes, position: nat, template: Bytes): Bytes
    requires position + |matched| <= |str|
    decreases |template|
  {
    if template == [] then []
    else if template[0] == Dollar && |template| >= 2 then
      var c := template[1];
      if c == Dollar then [Dollar] + GetSubstitution(matched, str, position, template[2..])
      else if c == Ampersand then matched + GetSubstitution(matched, str, position, template[2..])
      else if c == Backtick then str[..position] + GetSubstitution(matched, str, position, template[2..])
      else if c == Apostrophe then str[position + |matched|..] + GetSubstitution(matched, str, position, template[2..])
      else [Dollar] + GetSubstitution(matched, str, position, template[1..])
    else [template[0]] + GetSubstitution(matched, str, position, template[1..])
  }

  /** A replacement text that starts without '$' keeps that start as it is. */
  lemma {:induction false} SubstitutionLiteralPrefix(matched: Bytes, str: Bytes, position: nat, literal: Bytes, template: Bytes)
    requires position + |matched| <= |str|
    requires Dollar !in literal
    ensures GetSubstitution(matched, str, position, literal + template)
         == literal + GetSubstitution(matched, str, position, template)
    decreases |literal|
  {
    if literal == [] {
      assert literal + template == template;
    } else {
      SubstitutionLiteralPrefix(matched, str, position, literal[1..], template);
      assert (literal + template)[1..] == literal[1..] + template;
      assert literal == [literal[0]] + literal[1..];
    }
  }

  /** Replacing a pattern the string starts with, by a text without '$'. */
  lemma ReplaceAtStart(s: Bytes, pattern: Bytes, replacement: Bytes)
    requires StartsWith(s, pattern)
    requires Dollar !in replacement
    ensures Replace(s, pattern, replacement) == replacement + s[|pattern|..]
  {
    assert OccursAt(s, pattern, 0);
    IndexOfFirst(s, pattern, 0);
    SubstitutionLiteralPrefix(pattern, s, 0, replacement, []);
    assert replacement + [] == replacement;
    assert s[..0] == [];
  }
}
