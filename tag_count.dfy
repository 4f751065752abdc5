/**
 * contentlayer.config.ts, createTagCount: counts how often every tag occurs
 * over the tag lists of the blog posts, leaving drafts out of a production
 * build. The dictionary is filled by two nested loops, one post and one tag
 * at a time.
 */
module TagCount {
  import opened Wrappers

  /** A post as the counter reads it; None is a missing field. */
  datatype Blog = Blog(tags: Option<seq<string>>, draft: Option<bool>)

  /** `file.tags && (!isProduction || file.draft !== true)`: an empty tag list is truthy. */
  predicate Counted(blog: Blog, isProduction: bool) {
    blog.tags.Some? && (!isProduction || blog.draft != Some(true))
  }

  /**
   * The tags the loops visit, in visiting order: a tag is visited exactly
   * when some counted post carries it.
   */
  function CountedTags(blogs: seq<Blog>, isProduction: bool): (s: seq<string>)
    ensures forall t :: t in s ==> exists b :: b in blogs && Counted(b, isProduction) && t in b.tags.value
    ensures forall b, t :: b in blogs && Counted(b, isProduction) && t in b.tags.value ==> t in s
  {
    if |blogs| == 0 then []
    else
      var init := blogs[..|blogs| - 1];
      var last := blogs[|blogs| - 1];
      assert forall b :: b in blogs ==> b in init || b == last;
      CountedTags(init, isProduction) + (if Counted(last, isProduction) then last.tags.value else [])
  }

  /** One step of the inner loop, with the key test on the dictionary's own keys. */
  function Add(m: map<string, nat>, tag: string): map<string, nat> {
    if tag in m then m[tag := m[tag] + 1] else m[tag := 1]
  }

  /**
   * The dictionary after visiting the tags in order: every visited tag is a
   * key, with its number of occurrences as the value.
   */
  function Tally(tags: seq<string>): map<string, nat> {
    if |tags| == 0 then map[]
    else Add(Tally(tags[..|tags| - 1]), tags[|tags| - 1])
  }

  /**
   * The dictionary after visiting some tags in order has every visited tag
   * as a key, and nothing else, with its number of occurrences as the value.
   */
  lemma {:induction false} TallyCounts(tags: seq<string>)
    ensures forall t :: t in Tally(tags) <==> t in tags
    ensures forall t :: t in Tally(tags) ==> Tally(tags)[t] == multiset(tags)[t] >= 1
    decreases |tags|
  {
    if |tags| > 0 {
      var init := tags[..|tags| - 1];
      assert tags == init + [tags[|tags| - 1]];
      TallyCounts(init);
    }
  }

  /**
   * Visiting one more tag t: t's count becomes its number of occurrences so
   * far plus one, and every other tag keeps its presence and its count.
   */
  lemma TallySnoc(tags: seq<string>, t: string)
    ensures Tally(tags + [t]) == Add(Tally(tags), t)
    ensures t in Tally(tags + [t]) && Tally(tags + [t])[t] == multiset(tags)[t] + 1
    ensures forall u :: u != t ==> (u in Tally(tags + [t]) <==> u in Tally(tags))
    ensures forall u :: u != t && u in Tally(tags) ==> Tally(tags + [t])[u] == Tally(tags)[u]
  {
    assert (tags + [t])[..|tags|] == tags;
    TallyCounts(tags);
  }

  /** Visiting tag j of a post extends the tally by that tag. */
  lemma TallyStep(before: seq<string>, tags: seq<string>, j: nat)
    requires j < |tags|
    ensures Tally(before + tags[..j + 1]) == Add(Tally(before + tags[..j]), tags[j])
  {
    assert tags[..j + 1] == tags[..j] + [tags[j]];
    assert before + tags[..j + 1] == (before + tags[..j]) + [tags[j]];
    TallySnoc(before + tags[..j], tags[j]);
  }

  lemma CountedTagsSnoc(blogs: seq<Blog>, i: nat, isProduction: bool)
    requires i < |blogs|
    ensures CountedTags(blogs[..i + 1], isProduction)
         == CountedTags(blogs[..i], isProduction) + (if Counted(blogs[i], isProduction) then blogs[i].tags.value else [])
  {
    assert blogs[..i + 1][..i] == blogs[..i];
  }

  lemma {:induction false} CountedTagsAppend(a: seq<Blog>, b: seq<Blog>, isProduction: bool)
    ensures CountedTags(a + b, isProduction) == CountedTags(a, isProduction) + CountedTags(b, isProduction)
    decreases |b|
  {
    if |b| == 0 {
      assert a + b == a;
    } else {
      var last := b[|b| - 1];
      assert (a + b)[..|a + b| - 1] == a + b[..|b| - 1];
      CountedTagsAppend(a, b[..|b| - 1], isProduction);
    }
  }

  /**
   * createTagCount. The result is the dictionary the source serialises to
   * tag-data.json: its keys are exactly the tags of counted posts and each
   * value is that tag's number of occurrences there.
   */
  method CreateTagCount(allBlogs: seq<Blog>, isProduction: bool) returns (tagCount: map<string, nat>)
    ensures tagCount == Tally(CountedTags(allBlogs, isProduction))
    ensures forall t :: t in tagCount <==> t in CountedTags(allBlogs, isProduction)
    ensures forall t :: t in tagCount ==> tagCount[t] == multiset(CountedTags(allBlogs, isProduction))[t]
  {
    tagCount := map[];
    var i := 0;
    assert allBlogs[..0] == [];
    while i < |allBlogs|
      invariant 0 <= i <= |allBlogs|
      invariant tagCount == Tally(CountedTags(allBlogs[..i], isProduction))
    {
      var file := allBlogs[i];
      var before := CountedTags(allBlogs[..i], isProduction);
      CountedTagsSnoc(allBlogs, i, isProduction);
      if file.tags.Some? && (!isProduction || file.draft != Some(true)) {
        var tags := file.tags.value;
        var j := 0;
        assert before + tags[..0] == before;
        while j < |tags|
          invariant 0 <= j <= |tags|
          invariant tagCount == Tally(before + tags[..j])
        {
          var tag := tags[j];
          ghost var prev := tagCount;
          if tag in tagCount {
            tagCount := tagCount[tag := tagCount[tag] + 1];
          } else {
            tagCount := tagCount[tag := 1];
          }
          assert tagCount == Add(prev, tag);
          TallyStep(before, tags, j);
          j := j + 1;
        }
        assert tags[..|tags|] == tags;
        assert CountedTags(allBlogs[..i + 1], isProduction) == before + tags;
      } else {
        assert CountedTags(allBlogs[..i + 1], isProduction) == before + [];
        assert before + [] == before;
      }
      i := i + 1;
    }
    assert allBlogs[..|allBlogs|] == allBlogs;
    TallyCounts(CountedTags(allBlogs, isProduction));
  }

  /** The values of a dictionary added up. */
  ghost function SumValues(m: map<string, nat>): nat
    decreases |m|
  {
    if |m| == 0 then 0
    else
      var k := Pick(m);
      m[k] + SumValues(m - {k})
  }

  ghost function Pick(m: map<string, nat>): (k: string)
    requires |m| > 0
    ensures k in m
  {
    var k :| k in m; k
  }

  /** The sum does not depend on which key is taken out first. */
  lemma {:induction false} SumValuesRemove(m: map<string, nat>, k: string)
    requires k in m
    ensures SumValues(m) == m[k] + SumValues(m - {k})
    decreases |m|
  {
    var j := Pick(m);
    if j != k {
      SumValuesRemove(m - {j}, k);
      SumValuesRemove(m - {k}, j);
      assert m - {j} - {k} == m - {k} - {j};
    }
  }

  /** All counts add up to the number of tag occurrences visited. */
  lemma {:induction false} SumOfCounts(tags: seq<string>)
    ensures SumValues(Tally(tags)) == |tags|
    decreases |tags|
  {
    if |tags| > 0 {
      var init := tags[..|tags| - 1];
      var t := tags[|tags| - 1];
      var m := Tally(init);
      SumOfCounts(init);
      var m' := Add(m, t);
      SumValuesRemove(m', t);
      if t in m {
        SumValuesRemove(m, t);
        assert m' - {t} == m - {t};
      } else {
        assert m' - {t} == m;
      }
    }
  }

  /** The sum over the dictionary createTagCount builds is the number of counted tag occurrences. */
  lemma CreateTagCountSum(allBlogs: seq<Blog>, isProduction: bool)
    ensures SumValues(Tally(CountedTags(allBlogs, isProduction))) == |CountedTags(allBlogs, isProduction)|
  {
    SumOfCounts(CountedTags(allBlogs, isProduction));
  }

  /** A post without a tags field changes nothing, wherever it stands. */
  lemma TaglessPostIgnored(before: seq<Blog>, blog: Blog, after: seq<Blog>, isProduction: bool)
    requires blog.tags.None?
    ensures CountedTags(before + [blog] + after, isProduction) == CountedTags(before + after, isProduction)
  {
    CountedTagsAppend(before + [blog], after, isProduction);
    CountedTagsAppend(before, [blog], isProduction);
    CountedTagsAppend(before, after, isProduction);
    assert [blog][..0] == [];
  }

  /** In production a post with draft === true changes nothing, wherever it stands. */
  lemma DraftSkippedInProduction(before: seq<Blog>, blog: Blog, after: seq<Blog>)
    requires blog.draft == Some(true)
    ensures CountedTags(before + [blog] + after, true) == CountedTags(before + after, true)
  {
    CountedTagsAppend(before + [blog], after, true);
    CountedTagsAppend(before, [blog], true);
    CountedTagsAppend(before, after, true);
    assert [blog][..0] == [];
  }

  /**
   * A post that passes the filter contributes all its tags, in place: in
   * production every tagged post not marked `draft: true`, and outside
   * production every tagged post, drafts included.
   */
  lemma CountedPostContributes(before: seq<Blog>, blog: Blog, after: seq<Blog>, isProduction: bool)
    requires Counted(blog, isProduction)
    ensures CountedTags(before + [blog] + after, isProduction)
         == CountedTags(before, isProduction) + blog.tags.value + CountedTags(after, isProduction)
  {
    CountedTagsAppend(before + [blog], after, isProduction);
    CountedTagsAppend(before, [blog], isProduction);
    assert [blog][..0] == [];
  }

  /** A tag repeated within one post is counted once per occurrence. */
  lemma RepeatedTagCountedTwice()
    ensures Tally(CountedTags([Blog(Some(["a", "a"]), None)], true)) == map["a" := 2]
  {
    var blogs := [Blog(Some(["a", "a"]), None)];
    assert blogs[..0] == [];
    assert CountedTags(blogs, true) == ["a", "a"];
    assert ["a", "a"][..1] == ["a"];
    assert ["a"][..0] == [];
  }

  /**
   * Names an empty object literal already answers `in` for: the methods of
   * Object.prototype. (`__proto__` is left out: assigning a string to it is
   * ignored, so such a tag is silently dropped.)
   */
  const ObjectPrototypeKeys: set<string> := {
    "constructor", "hasOwnProperty", "isPrototypeOf", "propertyIsEnumerable",
    "toLocaleString", "toString", "valueOf",
    "__defineGetter__", "__defineSetter__", "__lookupGetter__", "__lookupSetter__"
  }

  /** A dictionary value as written: a number, or the text of an inherited method with "1"s appended. */
  datatype Entry = Count(n: nat) | Garbled

  function Bump(e: Entry): (r: Entry)
    ensures e.Count? ==> r == Count(e.n + 1)
    ensures e.Garbled? ==> r.Garbled?
  {
    match e
    case Count(n) => Count(n + 1)
    case Garbled => Garbled
  }

  /**
   * The inner loop step as written: `tag in tagCount` also sees inherited
   * names, and `+= 1` on an inherited method concatenates text.
   */
  function AddAsWritten(m: map<string, Entry>, tag: string): map<string, Entry> {
    if tag in m then m[tag := Bump(m[tag])]
    else if tag in ObjectPrototypeKeys then m[tag := Garbled]
    else m[tag := Count(1)]
  }

  function TallyAsWritten(tags: seq<string>): (m: map<string, Entry>)
    ensures forall t :: t in m <==> t in tags
  {
    if |tags| == 0 then map[]
    else
      var init := tags[..|tags| - 1];
      assert tags == init + [tags[|tags| - 1]];
      AddAsWritten(TallyAsWritten(init), tags[|tags| - 1])
  }

  function Lift(m: map<string, nat>): map<string, Entry> {
    map t | t in m :: Count(m[t])
  }

  /** A post tagged "constructor" gets a non-numeric count where Tally gives 1. */
  lemma ConstructorTagGarbled()
    ensures TallyAsWritten(["constructor"]) == map["constructor" := Garbled]
    ensures Tally(["constructor"]) == map["constructor" := 1]
  {
    assert ["constructor"][..0] == [];
  }

  lemma LiftAdd(m: map<string, nat>, tag: string)
    requires tag !in ObjectPrototypeKeys
    ensures Lift(Add(m, tag)) == AddAsWritten(Lift(m), tag)
  {
    var l := Lift(Add(m, tag));
    var r := AddAsWritten(Lift(m), tag);
    assert l.Keys == r.Keys;
    forall t | t in l ensures l[t] == r[t] {
    }
  }

  /** Away from the inherited names the code as written and Tally agree. */
  lemma {:induction false} AsWrittenAgreesOffPrototype(tags: seq<string>)
    requires forall t :: t in tags ==> t !in ObjectPrototypeKeys
    ensures TallyAsWritten(tags) == Lift(Tally(tags))
    decreases |tags|
  {
    if |tags| > 0 {
      var init := tags[..|tags| - 1];
      assert forall t :: t in init ==> t in tags;
      AsWrittenAgreesOffPrototype(init);
      LiftAdd(Tally(init), tags[|tags| - 1]);
    }
  }
}
