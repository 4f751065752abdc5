/**
 * components/CustomSearch.tsx: the site search dialog. A query is matched,
 * case-insensitively and as a substring, against the title, the summary and
 * the tags of every entry of the search index; the dialog opens on Ctrl+K or
 * Cmd+K and closes on Escape. Unicode case mapping is the parameter `lower`.
 */
module CustomSearch {
  import opened Wrappers

  /** One entry of search.json; a field the entry lacks is None. */
  datatype SearchItem = SearchItem(
    path: string,
    title: Option<string>,
    summary: Option<string>,
    tags: Option<seq<string>>)

  /** ECMAScript WhiteSpace and LineTerminator code points: what trim() removes. */
  predicate IsWhiteSpace(c: char) {
    c == '\t' || c == '\n' || c == '\U{000B}' || c == '\U{000C}' || c == '\r' || c == ' '
    || c == '\U{00A0}' || c == '\U{1680}' || ('\U{2000}' <= c <= '\U{200A}')
    || c == '\U{2028}' || c == '\U{2029}' || c == '\U{202F}' || c == '\U{205F}'
    || c == '\U{3000}' || c == '\U{FEFF}'
  }

  predicate Blank(s: string) {
    forall i :: 0 <= i < |s| ==> IsWhiteSpace(s[i])
  }

  /** Drops the leading run of white space and nothing else. */
  function TrimStart(s: string): (r: string)
    ensures |r| <= |s| && r == s[|s| - |r|..]
    ensures Blank(s[..|s| - |r|])
    ensures r == [] || !IsWhiteSpace(r[0])
  {
    if |s| > 0 && IsWhiteSpace(s[0]) then
      var r := TrimStart(s[1..]);
      assert s[..|s| - |r|] == [s[0]] + s[1..][..|s| - 1 - |r|];
      r
    else
      s
  }

  /** Drops the trailing run of white space and nothing else. */
  function TrimEnd(s: string): (r: string)
    ensures |r| <= |s| && r == s[..|r|]
    ensures Blank(s[|r|..])
    ensures r == [] || !IsWhiteSpace(r[|r| - 1])
  {
    if |s| > 0 && IsWhiteSpace(s[|s| - 1]) then
      var r := TrimEnd(s[..|s| - 1]);
      assert s[|r|..] == s[..|s| - 1][|r|..] + [s[|s| - 1]];
      r
    else
      s
  }

  /** String.prototype.trim: empty exactly when the whole string is white space. */
  function Trim(s: string): (r: string)
    ensures r == [] <==> Blank(s)
    ensures r == [] || (!IsWhiteSpace(r[0]) && !IsWhiteSpace(r[|r| - 1]))
  {
    TrimBlank(s);
    TrimEnd(TrimStart(s))
  }

  lemma TrimBlank(s: string)
    ensures TrimEnd(TrimStart(s)) == [] <==> Blank(s)
    ensures TrimEnd(TrimStart(s)) == [] || !IsWhiteSpace(TrimEnd(TrimStart(s))[0])
  {
    var t := TrimStart(s);
    var u := TrimEnd(t);
    if u == [] {
      assert t[|u|..] == t;
      assert Blank(t);
      assert t == [];
      assert s[..|s| - |t|] == s;
    } else {
      assert u[0] == t[0];
      assert !Blank(s) by {
        assert s[|s| - |t|] == t[0];
      }
    }
  }

  predicate OccursAt(s: string, sub: string, i: nat) {
    i + |sub| <= |s| && s[i..i + |sub|] == sub
  }

  /** String.prototype.includes with no position: sub occurs somewhere in s. */
  function Includes(s: string, sub: string): (r: bool)
    ensures r <==> exists i: nat :: OccursAt(s, sub, i)
    decreases |s|
  {
    if |sub| > |s| then false
    else if s[..|sub|] == sub then
      assert OccursAt(s, sub, 0);
      true
    else
      var r := Includes(s[1..], sub);
      IncludesStep(s, sub, r);
      r
  }

  /** An occurrence in s that is not at 0 is an occurrence in s[1..], one place earlier. */
  lemma IncludesStep(s: string, sub: string, r: bool)
    requires |sub| <= |s| && s[..|sub|] != sub
    requires r <==> exists i: nat :: OccursAt(s[1..], sub, i)
    ensures r <==> exists i: nat :: OccursAt(s, sub, i)
  {
    if r {
      var i: nat :| OccursAt(s[1..], sub, i);
      assert s[i + 1..i + 1 + |sub|] == s[1..][i..i + |sub|];
      assert OccursAt(s, sub, i + 1);
    } else {
      forall i: nat ensures !OccursAt(s, sub, i) {
        if i > 0 && i + |sub| <= |s| {
          assert s[i..i + |sub|] == s[1..][i - 1..i - 1 + |sub|];
          assert !OccursAt(s[1..], sub, i - 1);
        } else if i == 0 {
          assert s[i..i + |sub|] == s[..|sub|];
        }
      }
    }
  }

  /** The texts of an entry the filter looks at: title, summary and tags, when present. */
  function PresentTexts(item: SearchItem): seq<string> {
    (if item.title.Some? then [item.title.value] else [])
    + (if item.summary.Some? then [item.summary.value] else [])
    + (if item.tags.Some? then item.tags.value else [])
  }

  /**
   * The filter callback: the lower-cased title, summary or some lower-cased
   * tag includes the lower-cased query. Optional chaining makes a missing
   * field a non-match.
   */
  function Matches(item: SearchItem, query: string, lower: string -> string): (r: bool)
    ensures r <==> exists k :: 0 <= k < |PresentTexts(item)|
                                && Includes(lower(PresentTexts(item)[k]), lower(query))
  {
    var q := lower(query);
    var r := (item.title.Some? && Includes(lower(item.title.value), q))
      || (item.summary.Some? && Includes(lower(item.summary.value), q))
      || (item.tags.Some? && exists k :: 0 <= k < |item.tags.value| && Includes(lower(item.tags.value[k]), q));
    MatchesPresentTexts(item, q, lower, r);
    r
  }

  lemma MatchesPresentTexts(item: SearchItem, q: string, lower: string -> string, r: bool)
    requires r <==> (
      (item.title.Some? && Includes(lower(item.title.value), q))
      || (item.summary.Some? && Includes(lower(item.summary.value), q))
      || (item.tags.Some? && exists k :: 0 <= k < |item.tags.value| && Includes(lower(item.tags.value[k]), q)))
    ensures r <==> exists k :: 0 <= k < |PresentTexts(item)| && Includes(lower(PresentTexts(item)[k]), q)
  {
    var texts := PresentTexts(item);
    var t := if item.title.Some? then [item.title.value] else [];
    var m := if item.summary.Some? then [item.summary.value] else [];
    assert texts == t + m + (if item.tags.Some? then item.tags.value else []);
    if r {
      if item.title.Some? && Includes(lower(item.title.value), q) {
        assert texts[0] == item.title.value;
      } else if item.summary.Some? && Includes(lower(item.summary.value), q) {
        assert texts[|t|] == item.summary.value;
      } else {
        var k :| 0 <= k < |item.tags.value| && Includes(lower(item.tags.value[k]), q);
        assert texts[|t| + |m| + k] == item.tags.value[k];
      }
    } else {
      forall k | 0 <= k < |texts| ensures !Includes(lower(texts[k]), q) {
        if k < |t| {
        } else if k < |t| + |m| {
        } else {
          assert texts[k] == item.tags.value[k - |t| - |m|];
        }
      }
    }
  }

  /** a can be obtained from b by deleting elements: same items, same order. */
  predicate IsSubsequence<T(==)>(a: seq<T>, b: seq<T>)
    decreases |b|
  {
    |a| == 0 || (|b| > 0 && ((a[0] == b[0] && IsSubsequence(a[1..], b[1..])) || IsSubsequence(a, b[1..])))
  }

  /** searchIndex.filter(...): keeps exactly the matching entries, in index order. */
  function Filter(index: seq<SearchItem>, query: string, lower: string -> string): (r: seq<SearchItem>)
    ensures IsSubsequence(r, index)
    ensures forall x :: x in r ==> Matches(x, query, lower)
    ensures forall x :: x in index && Matches(x, query, lower) ==> x in r
    ensures forall x :: multiset(r)[x] == if Matches(x, query, lower) then multiset(index)[x] else 0
  {
    if |index| == 0 then []
    else
      var rest := Filter(index[1..], query, lower);
      assert index == [index[0]] + index[1..];
      assert multiset(index) == multiset([index[0]]) + multiset(index[1..]);
      if Matches(index[0], query, lower) then
        var r := [index[0]] + rest;
        assert r[1..] == rest;
        assert multiset(r) == multiset([index[0]]) + multiset(rest);
        r
      else
        assert forall x :: x in index ==> x == index[0] || x in index[1..];
        rest
  }

  /**
   * handleSearch: nothing for a blank query or an empty index; otherwise the
   * filter, applied to the query as typed (trim only gates the blank test).
   */
  function HandleSearch(query: string, index: seq<SearchItem>, lower: string -> string): (r: seq<SearchItem>)
    ensures Blank(query) ==> r == []
    ensures |index| == 0 ==> r == []
    ensures IsSubsequence(r, index)
    ensures forall x :: x in r ==> Matches(x, query, lower)
    ensures !Blank(query) ==> forall x :: x in index && Matches(x, query, lower) ==> x in r
    ensures !Blank(query) ==>
      forall x :: multiset(r)[x] == if Matches(x, query, lower) then multiset(index)[x] else 0
  {
    if Trim(query) == [] || |index| == 0 then []
    else Filter(index, query, lower)
  }

  /** An entry with no title, summary or tags never matches any query. */
  lemma MissingFieldsNeverMatch(item: SearchItem, query: string, lower: string -> string)
    requires item.title.None? && item.summary.None? && item.tags.None?
    ensures !Matches(item, query, lower)
  {
    assert PresentTexts(item) == [];
  }

  /**
   * The query is matched untrimmed: with case mapping the identity, " a"
   * passes the blank test but finds no title "a", which "a" finds.
   */
  lemma UntrimmedQueryMisses()
    ensures var item := SearchItem("p", Some("a"), None, None);
      var lower := (s: string) => s;
      HandleSearch(" a", [item], lower) == [] && HandleSearch("a", [item], lower) == [item]
  {
    var item := SearchItem("p", Some("a"), None, None);
    var lower := (s: string) => s;
    assert !IsWhiteSpace(" a"[1]);
    assert !Blank(" a");
    assert !IsWhiteSpace("a"[0]);
    assert !Blank("a");
    assert PresentTexts(item) == ["a"];
    assert !Includes("a", " a");
    assert "a"[0..1] == "a";
    assert Includes("a", "a");
    assert Matches(item, "a", lower);
    assert !Matches(item, " a", lower);
    assert Filter([item], " a", lower) == [];
  }

  /** A keydown event as the listener sees it. */
  datatype KeyEvent = KeyEvent(key: string, ctrlKey: bool, metaKey: bool)

  /**
   * handleKeyDown on isOpen: Ctrl+K or Cmd+K opens, Escape closes, any
   * other key leaves the dialog as it is.
   */
  function KeyDownOpen(isOpen: bool, e: KeyEvent): (r: bool)
    ensures (e.ctrlKey || e.metaKey) && e.key == "k" ==> r
    ensures e.key == "Escape" ==> !r
    ensures e.key != "k" && e.key != "Escape" ==> r == isOpen
    ensures !e.ctrlKey && !e.metaKey ==> (r <==> isOpen && e.key != "Escape")
  {
    var afterShortcut := if (e.ctrlKey || e.metaKey) && e.key == "k" then true else isOpen;
    if e.key == "Escape" then false else afterShortcut
  }

  /** Repeating a key changes nothing further. */
  lemma KeyDownIdempotent(isOpen: bool, e: KeyEvent)
    ensures KeyDownOpen(KeyDownOpen(isOpen, e), e) == KeyDownOpen(isOpen, e)
  {
  }

  /**
   * The provider's state. Valid() is what the effect on [searchQuery,
   * searchIndex] keeps: the results are handleSearch of the current query
   * over the current index.
   */
  class SearchProvider {
    var isOpen: bool
    var searchQuery: string
    var searchIndex: seq<SearchItem>
    var searchResults: seq<SearchItem>
    const lower: string -> string

    ghost predicate Valid()
      reads this
    {
      searchResults == HandleSearch(searchQuery, searchIndex, lower)
    }

    /** useState initial values: closed, empty query, empty index, no results. */
    constructor(lower: string -> string)
      ensures Valid()
      ensures !isOpen && searchQuery == [] && searchIndex == [] && searchResults == []
      ensures this.lower == lower
    {
      this.lower := lower;
      isOpen := false;
      searchQuery := [];
      searchIndex := [];
      searchResults := [];
    }

    /** setSearchIndex after the index is fetched, then the effect re-runs the search. */
    method LoadIndex(data: seq<SearchItem>)
      modifies this
      ensures Valid()
      ensures searchIndex == data
      ensures isOpen == old(isOpen) && searchQuery == old(searchQuery)
    {
      searchIndex := data;
      searchResults := HandleSearch(searchQuery, searchIndex, lower);
    }

    /** setSearchQuery from the input field, then the effect re-runs the search. */
    method SetQuery(query: string)
      modifies this
      ensures Valid()
      ensures searchQuery == query
      ensures isOpen == old(isOpen) && searchIndex == old(searchIndex)
    {
      searchQuery := query;
      searchResults := HandleSearch(searchQuery, searchIndex, lower);
    }

    /** The keydown listener. */
    method KeyDown(e: KeyEvent)
      modifies this`isOpen
      ensures isOpen == KeyDownOpen(old(isOpen), e)
    {
      if (e.ctrlKey || e.metaKey) && e.key == "k" {
        isOpen := true;
      }
      if e.key == "Escape" {
        isOpen := false;
      }
    }

    /** window.toggleSearch. */
    method Toggle()
      modifies this`isOpen
      ensures isOpen == !old(isOpen)
    {
      isOpen := !isOpen;
    }

    /** The dialog's onClose. */
    method Close()
      modifies this`isOpen
      ensures !isOpen
    {
      isOpen := false;
    }

    /** Clicking result k: navigate to "/" + its path and close the dialog. */
    method SelectResult(k: nat) returns (target: string)
      requires k < |searchResults|
      modifies this`isOpen
      ensures target == "/" + searchResults[k].path
      ensures !isOpen
    {
      target := "/" + searchResults[k].path;
      isOpen := false;
    }
  }
}
