/**
 * app/tags/page.tsx: the tag index page. The keys of tag-data.json are
 * ordered by descending count with a stable sort, and each tag is shown
 * with its count; an empty dictionary shows the fallback text instead.
 */
module TagsPage {

  /**
   * Inserts tag after every entry whose count is at least its own: one step
   * of a stable sort under the comparator `tagData[b] - tagData[a]`.
   */
  function Insert(tag: string, sorted: seq<string>, tagData: map<string, nat>): (r: seq<string>)
    requires tag in tagData
    requires forall t :: t in sorted ==> t in tagData
    ensures multiset(r) == multiset(sorted) + multiset{tag}
    ensures forall t :: t in r ==> t == tag || t in sorted
  {
    if |sorted| == 0 then [tag]
    else if tagData[sorted[0]] >= tagData[tag] then
      assert sorted == [sorted[0]] + sorted[1..];
      [sorted[0]] + Insert(tag, sorted[1..], tagData)
    else
      [tag] + sorted
  }

  /** Object.keys(tagData).sort(comparator), with keys the key order Object.keys produces. */
  function SortByCount(keys: seq<string>, tagData: map<string, nat>): (r: seq<string>)
    requires forall t :: t in keys ==> t in tagData
    ensures multiset(r) == multiset(keys)
    ensures forall t :: t in r ==> t in keys
  {
    if |keys| == 0 then []
    else
      var init := keys[..|keys| - 1];
      assert keys == init + [keys[|keys| - 1]];
      Insert(keys[|keys| - 1], SortByCount(init, tagData), tagData)
  }

  predicate NonIncreasing(s: seq<string>, tagData: map<string, nat>)
    requires forall t :: t in s ==> t in tagData
  {
    forall i, j :: 0 <= i < j < |s| ==> tagData[s[i]] >= tagData[s[j]]
  }

  /** The tags of s whose count is c, in the order of s. */
  function WithCount(s: seq<string>, tagData: map<string, nat>, c: nat): seq<string>
    requires forall t :: t in s ==> t in tagData
  {
    if |s| == 0 then []
    else WithCount(s[..|s| - 1], tagData, c) + (if tagData[s[|s| - 1]] == c then [s[|s| - 1]] else [])
  }

  lemma {:induction false} InsertNonIncreasing(tag: string, sorted: seq<string>, tagData: map<string, nat>)
    requires tag in tagData
    requires forall t :: t in sorted ==> t in tagData
    requires NonIncreasing(sorted, tagData)
    ensures NonIncreasing(Insert(tag, sorted, tagData), tagData)
    decreases |sorted|
  {
    if |sorted| > 0 && tagData[sorted[0]] >= tagData[tag] {
      var head := sorted[0];
      var rest := Insert(tag, sorted[1..], tagData);
      var r := Insert(tag, sorted, tagData);
      InsertUnfold(tag, sorted, tagData);
      InsertNonIncreasing(tag, sorted[1..], tagData);
      forall t | t in rest ensures tagData[t] <= tagData[head] {
        if t != tag {
          var k :| 0 <= k < |sorted[1..]| && sorted[1..][k] == t;
          assert sorted[k + 1] == t;
        }
      }
      forall i, j | 0 <= i < j < |r| ensures tagData[r[i]] >= tagData[r[j]] {
        assert r[j] == rest[j - 1];
        if i > 0 {
          assert r[i] == rest[i - 1];
        }
      }
    }
  }

  /** The sorted tags, heaviest first. */
  lemma {:induction false} SortedNonIncreasing(keys: seq<string>, tagData: map<string, nat>)
    requires forall t :: t in keys ==> t in tagData
    ensures NonIncreasing(SortByCount(keys, tagData), tagData)
    decreases |keys|
  {
    if |keys| > 0 {
      var init := keys[..|keys| - 1];
      SortedNonIncreasing(init, tagData);
      var sorted := SortByCount(init, tagData);
      InsertNonIncreasing(keys[|keys| - 1], sorted, tagData);
    }
  }

  lemma WithCountAppend(a: seq<string>, b: seq<string>, tagData: map<string, nat>, c: nat)
    requires forall t :: t in a + b ==> t in tagData
    ensures WithCount(a + b, tagData, c) == WithCount(a, tagData, c) + WithCount(b, tagData, c)
    decreases |b|
  {
    if |b| == 0 {
      assert a + b == a;
    } else {
      assert (a + b)[..|a + b| - 1] == a + b[..|b| - 1];
      WithCountAppend(a, b[..|b| - 1], tagData, c);
    }
  }

  lemma {:induction false} WithCountNone(s: seq<string>, tagData: map<string, nat>, c: nat)
    requires forall t :: t in s ==> t in tagData && tagData[t] != c
    ensures WithCount(s, tagData, c) == []
    decreases |s|
  {
    if |s| > 0 {
      WithCountNone(s[..|s| - 1], tagData, c);
    }
  }

  /**
   * Inserting into a sorted list places the new tag after every tag of its
   * count, so among tags of one count it comes last.
   */
  lemma {:induction false} InsertStable(tag: string, sorted: seq<string>, tagData: map<string, nat>, c: nat)
    requires tag in tagData
    requires forall t :: t in sorted ==> t in tagData
    requires NonIncreasing(sorted, tagData)
    ensures WithCount(Insert(tag, sorted, tagData), tagData, c)
         == WithCount(sorted, tagData, c) + (if tagData[tag] == c then [tag] else [])
    decreases |sorted|
  {
    if |sorted| == 0 {
      assert [tag][..0] == [];
    } else if tagData[sorted[0]] >= tagData[tag] {
      InsertStable(tag, sorted[1..], tagData, c);
      InsertAfterHead(tag, sorted, tagData, c);
    } else {
      InsertBeforeAll(tag, sorted, tagData, c);
    }
  }

  lemma InsertAfterHead(tag: string, sorted: seq<string>, tagData: map<string, nat>, c: nat)
    requires tag in tagData
    requires forall t :: t in sorted ==> t in tagData
    requires |sorted| > 0 && tagData[sorted[0]] >= tagData[tag]
    requires WithCount(Insert(tag, sorted[1..], tagData), tagData, c)
          == WithCount(sorted[1..], tagData, c) + (if tagData[tag] == c then [tag] else [])
    ensures WithCount(Insert(tag, sorted, tagData), tagData, c)
         == WithCount(sorted, tagData, c) + (if tagData[tag] == c then [tag] else [])
  {
    var head := [sorted[0]];
    var tail := sorted[1..];
    var rest := Insert(tag, tail, tagData);
    InsertUnfold(tag, sorted, tagData);
    assert head + tail == sorted;
    WithCountAppend(head, tail, tagData, c);
    WithCountAppend(head, rest, tagData, c);
    SeqAssoc(WithCount(head, tagData, c), WithCount(tail, tagData, c), if tagData[tag] == c then [tag] else []);
  }

  lemma InsertUnfold(tag: string, sorted: seq<string>, tagData: map<string, nat>)
    requires tag in tagData
    requires forall t :: t in sorted ==> t in tagData
    requires |sorted| > 0 && tagData[sorted[0]] >= tagData[tag]
    ensures forall t :: t in Insert(tag, sorted[1..], tagData) ==> t in tagData
    ensures Insert(tag, sorted, tagData) == [sorted[0]] + Insert(tag, sorted[1..], tagData)
    ensures forall t :: t in [sorted[0]] + Insert(tag, sorted[1..], tagData) ==> t in tagData
  {
  }

  lemma SeqAssoc(a: seq<string>, b: seq<string>, c: seq<string>)
    ensures a + (b + c) == (a + b) + c
  {
  }

  lemma InsertBeforeAll(tag: string, sorted: seq<string>, tagData: map<string, nat>, c: nat)
    requires tag in tagData
    requires forall t :: t in sorted ==> t in tagData
    requires NonIncreasing(sorted, tagData)
    requires |sorted| > 0 && tagData[sorted[0]] < tagData[tag]
    ensures WithCount(Insert(tag, sorted, tagData), tagData, c)
         == WithCount(sorted, tagData, c) + (if tagData[tag] == c then [tag] else [])
  {
    assert [tag][..0] == [];
    WithCountAppend([tag], sorted, tagData, c);
    if tagData[tag] == c {
      forall t | t in sorted ensures tagData[t] != c {
        var i :| 0 <= i < |sorted| && sorted[i] == t;
      }
      WithCountNone(sorted, tagData, c);
    }
  }

  /** Tags of equal count keep the order Object.keys gave them. */
  lemma {:induction false} SortStable(keys: seq<string>, tagData: map<string, nat>, c: nat)
    requires forall t :: t in keys ==> t in tagData
    ensures WithCount(SortByCount(keys, tagData), tagData, c) == WithCount(keys, tagData, c)
    decreases |keys|
  {
    if |keys| > 0 {
      var init := keys[..|keys| - 1];
      SortStable(init, tagData, c);
      var sorted := SortByCount(init, tagData);
      SortedNonIncreasing(init, tagData);
      InsertStable(keys[|keys| - 1], sorted, tagData, c);
    }
  }

  /** What Object.keys returns: every key of the dictionary, each once. */
  predicate EnumeratesKeys(keys: seq<string>, tagData: map<string, nat>) {
    (forall i, j :: 0 <= i < j < |keys| ==> keys[i] != keys[j])
    && (forall t :: t in keys ==> t in tagData)
    && (forall t :: t in tagData ==> t in keys)
  }

  lemma {:induction false} DistinctOnce(keys: seq<string>)
    requires forall i, j :: 0 <= i < j < |keys| ==> keys[i] != keys[j]
    ensures forall t :: multiset(keys)[t] == if t in keys then 1 else 0
    decreases |keys|
  {
    if |keys| > 0 {
      var init := keys[..|keys| - 1];
      var last := keys[|keys| - 1];
      DistinctOnce(init);
      assert keys == init + [last];
      assert last !in init;
    }
  }

  /**
   * sortedTags lists every key of the dictionary exactly once and nothing
   * else: no tag is lost or duplicated.
   */
  lemma SortedTagsOnce(keys: seq<string>, tagData: map<string, nat>)
    requires EnumeratesKeys(keys, tagData)
    ensures var sortedTags := SortByCount(keys, tagData);
      |sortedTags| == |keys|
      && forall t :: multiset(sortedTags)[t] == if t in tagData then 1 else 0
  {
    DistinctOnce(keys);
    assert |multiset(keys)| == |keys|;
  }

  lemma NoKeysIff(keys: seq<string>, tagData: map<string, nat>)
    requires EnumeratesKeys(keys, tagData)
    ensures |tagData| == 0 <==> |keys| == 0
  {
    if |tagData| > 0 {
      var t :| t in tagData;
      assert t in keys;
    }
    if |keys| > 0 {
      assert keys[0] in tagData;
    }
  }

  /** One tag on the page: its link text and the count shown beside it. */
  datatype Entry = Entry(tag: string, count: nat)

  /** The rendered page: the fallback text, and the entries in display order. */
  datatype Page = Page(fallback: bool, entries: seq<Entry>)

  /** The tags of the entries, in display order. */
  function EntryTags(entries: seq<Entry>): (tags: seq<string>)
    ensures |tags| == |entries|
    ensures forall i :: 0 <= i < |entries| ==> tags[i] == entries[i].tag
  {
    if entries == [] then [] else [entries[0].tag] + EntryTags(entries[1..])
  }

  /** One entry per tag, in the given order, each with its count. */
  function Entries(tags: seq<string>, tagData: map<string, nat>): (entries: seq<Entry>)
    requires forall t :: t in tags ==> t in tagData
    ensures EntryTags(entries) == tags
    ensures |entries| == |tags|
    ensures forall i :: 0 <= i < |entries| ==> entries[i].tag == tags[i] && entries[i].count == tagData[tags[i]]
  {
    if tags == [] then [] else [Entry(tags[0], tagData[tags[0]])] + Entries(tags[1..], tagData)
  }

  /**
   * TagsPage: the fallback text exactly when there are no tags; otherwise
   * one entry per tag, heaviest first, each showing tagData[tag].
   */
  function TagsPage(tagData: map<string, nat>, keys: seq<string>): (page: Page)
    requires EnumeratesKeys(keys, tagData)
    ensures page.fallback <==> |tagData| == 0
    ensures |page.entries| == |keys|
    ensures forall i :: 0 <= i < |page.entries| ==>
      page.entries[i].tag in tagData && page.entries[i].count == tagData[page.entries[i].tag]
    ensures forall i, j :: 0 <= i < j < |page.entries| ==> page.entries[i].count >= page.entries[j].count
    ensures forall t :: multiset(EntryTags(page.entries))[t] == if t in tagData then 1 else 0
  {
    var sortedTags := SortByCount(keys, tagData);
    SortedNonIncreasing(keys, tagData);
    SortedTagsOnce(keys, tagData);
    NoKeysIff(keys, tagData);
    Page(|sortedTags| == 0, Entries(sortedTags, tagData))
  }
}
