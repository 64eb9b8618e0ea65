/**
 The resource directory page: a fixed list of resources, filtered by a
 language, a category and a free-text query, plus the two lists of filter
 choices (`'all'` followed by each distinct language or category).
 */
module Resources {
  import opened Collections

  datatype Resource = Resource(name: string, url: string, language: string, category: string, description: string)

  /** The three filter controls of the page. */
  datatype Criteria = Criteria(language: string, category: string, query: string)

  /** The choice that disables a language or category restriction. */
  const All: string := "all"

  /** The settings the page starts with: no restriction and an empty search box. */
  const Unrestricted: Criteria := Criteria(All, All, "")

  const Catalogue: seq<Resource> := [
    Resource("National Mental Health Program", "https://www.nimhans.ac.in/national-mental-health-programme-nmhp/",
             "English", "Government Program", "Comprehensive mental health initiative by the Government of India"),
    Resource("Manodarpan", "https://manodarpan.education.gov.in/",
             "Hindi", "Student Support", "An initiative to provide psychosocial support to students for their mental health and well-being"),
    Resource("Mindfulness Meditation Guide", "https://www.mindful.org/meditation/mindfulness-getting-started/",
             "English", "Self-Help", "Beginner's guide to mindfulness meditation practices"),
    Resource("Yoga for Stress Relief", "https://www.youtube.com/watch?v=4pKly2JojMw",
             "Hindi", "Exercise", "Yoga routines specifically designed for stress management"),
    Resource("Vandrevala Foundation", "https://www.vandrevalafoundation.com/",
             "English", "Crisis Support", "24/7 mental health helpline and support services"),
    Resource("Mental Health Awareness", "https://www.mhanational.org/",
             "English", "Education", "Resources for understanding and managing mental health conditions"),
    Resource("आत्म-सहायता गाइड", "https://www.mind.org.in/",
             "Hindi", "Self-Help", "मानसिक स्वास्थ्य के लिए स्व-सहायता संसाधन और मार्गदर्शिका"),
    Resource("Therapy Worksheets", "https://www.therapistaid.com/",
             "English", "Self-Help", "Free therapy worksheets and tools for mental health professionals and clients"),
    Resource("Sleep Foundation", "https://www.sleepfoundation.org/",
             "English", "Sleep", "Comprehensive resources for improving sleep quality and addressing sleep disorders")
  ]

  // ---------------------------------------------------------------------------
  // Case folding and substring search

  /** Lower-case for the letters A-Z; every other character is left alone. */
  function LowerChar(c: char): char {
    if 'A' <= c <= 'Z' then (c as int - 'A' as int + 'a' as int) as char else c
  }

  /** `String.prototype.toLowerCase`, restricted to ASCII letters. */
  function ToLower(s: string): (r: string)
    ensures |r| == |s|
  {
    if s == [] then [] else [LowerChar(s[0])] + ToLower(s[1..])
  }

  /** Lower-casing twice is lower-casing once. */
  lemma {:induction false} ToLowerIdempotent(s: string)
    ensures ToLower(ToLower(s)) == ToLower(s)
  {
    if s != [] {
      ToLowerIdempotent(s[1..]);
      assert ToLower(s)[1..] == ToLower(s[1..]);
    }
  }

  predicate StartsWith(s: string, prefix: string) {
    |prefix| <= |s| && s[..|prefix|] == prefix
  }

  /** `s.includes(q)`: `q` occurs at some position of `s`, tried from the left. */
  predicate Includes(s: string, q: string)
    decreases |s|
  {
    StartsWith(s, q) || (|s| > 0 && Includes(s[1..], q))
  }

  /** `q` occurs in `s` starting at position `i`. */
  predicate OccursAt(s: string, q: string, i: int) {
    0 <= i <= |s| - |q| && s[i..i + |q|] == q
  }

  /** The scan agrees with the textbook definition: some window of `s` equals `q`. */
  lemma {:induction false} IncludesIff(s: string, q: string)
    ensures Includes(s, q) <==> exists i :: OccursAt(s, q, i)
    decreases |s|
  {
    if StartsWith(s, q) {
      assert OccursAt(s, q, 0);
    }
    if |s| > 0 {
      IncludesIff(s[1..], q);
      if Includes(s[1..], q) {
        var i :| OccursAt(s[1..], q, i);
        assert s[i + 1..i + 1 + |q|] == s[1..][i..i + |q|];
        assert OccursAt(s, q, i + 1);
      }
    }
    if exists i :: OccursAt(s, q, i) {
      var i :| OccursAt(s, q, i);
      if i > 0 {
        assert s[1..][i - 1..i - 1 + |q|] == s[i..i + |q|];
        assert OccursAt(s[1..], q, i - 1);
      } else {
        assert StartsWith(s, q);
      }
    }
  }

  // ---------------------------------------------------------------------------
  // The filter

  predicate MatchesLanguage(r: Resource, c: Criteria) {
    c.language == All || r.language == c.language
  }

  predicate MatchesCategory(r: Resource, c: Criteria) {
    c.category == All || r.category == c.category
  }

  /** The lower-cased query occurs in the lower-cased name, description or category. */
  predicate MatchesSearch(r: Resource, c: Criteria) {
    var q := ToLower(c.query);
    Includes(ToLower(r.name), q) || Includes(ToLower(r.description), q) || Includes(ToLower(r.category), q)
  }

  predicate Matches(r: Resource, c: Criteria) {
    MatchesLanguage(r, c) && MatchesCategory(r, c) && MatchesSearch(r, c)
  }

  /** `resources.filter(...)`: the resources that satisfy all three tests, in their original order. */
  function Filter(rs: seq<Resource>, c: Criteria): (out: seq<Resource>)
    ensures |out| <= |rs|
    ensures forall r :: r in out <==> r in rs && Matches(r, c)
  {
    if rs == [] then []
    else
      assert rs == [rs[0]] + rs[1..];
      var rest := Filter(rs[1..], c);
      if Matches(rs[0], c) then [rs[0]] + rest else rest
  }

  /** The result keeps the input's order: it is a subsequence of the input. */
  lemma {:induction false} FilterIsSubsequence(rs: seq<Resource>, c: Criteria)
    ensures Subseq(Filter(rs, c), rs)
  {
    if rs != [] {
      FilterIsSubsequence(rs[1..], c);
      var rest := Filter(rs[1..], c);
      if Matches(rs[0], c) {
        assert ([rs[0]] + rest)[1..] == rest;
      }
    }
  }

  /**
   Every resource shown is shown as often as it occurs in the list, and a
   resource that does not match is not shown at all: repeated entries are all kept.
   */
  lemma {:induction false} FilterCounts(rs: seq<Resource>, c: Criteria)
    ensures forall r :: multiset(Filter(rs, c))[r] == if Matches(r, c) then multiset(rs)[r] else 0
  {
    if rs != [] {
      FilterCounts(rs[1..], c);
      assert rs == [rs[0]] + rs[1..];
    }
  }

  /** The empty query occurs in every string. */
  lemma EmptyQueryMatchesAll(r: Resource)
    ensures MatchesSearch(r, Criteria(All, All, ""))
  {
    assert StartsWith(ToLower(r.name), ToLower(""));
  }

  /** With `'all'`, `'all'` and an empty query, the whole list is shown. */
  lemma {:induction false} UnrestrictedKeepsAll(rs: seq<Resource>)
    ensures Filter(rs, Unrestricted) == rs
  {
    if rs != [] {
      EmptyQueryMatchesAll(rs[0]);
      UnrestrictedKeepsAll(rs[1..]);
      assert rs == [rs[0]] + rs[1..];
    }
  }

  /** Filtering a filtered list again with the same settings changes nothing. */
  lemma {:induction false} FilterIdempotent(rs: seq<Resource>, c: Criteria)
    ensures Filter(Filter(rs, c), c) == Filter(rs, c)
  {
    if rs != [] {
      FilterIdempotent(rs[1..], c);
      var rest := Filter(rs[1..], c);
      if Matches(rs[0], c) {
        assert ([rs[0]] + rest)[0] == rs[0] && ([rs[0]] + rest)[1..] == rest;
      }
    }
  }

  /** Picking a particular language shows a subsequence of what `'all'` shows. */
  lemma {:induction false} LanguageNarrows(rs: seq<Resource>, c: Criteria)
    ensures Subseq(Filter(rs, c), Filter(rs, c.(language := All)))
  {
    var wide := c.(language := All);
    if rs != [] {
      LanguageNarrows(rs[1..], c);
      var narrowRest := Filter(rs[1..], c);
      var wideRest := Filter(rs[1..], wide);
      if Matches(rs[0], c) {
        assert Matches(rs[0], wide);
        assert ([rs[0]] + narrowRest)[1..] == narrowRest && ([rs[0]] + wideRest)[1..] == wideRest;
      } else if Matches(rs[0], wide) {
        assert ([rs[0]] + wideRest)[1..] == wideRest;
        SubseqPrepend(narrowRest, wideRest, rs[0]);
      }
    }
  }

  /** Picking a particular category shows a subsequence of what `'all'` shows. */
  lemma {:induction false} CategoryNarrows(rs: seq<Resource>, c: Criteria)
    ensures Subseq(Filter(rs, c), Filter(rs, c.(category := All)))
  {
    var wide := c.(category := All);
    if rs != [] {
      CategoryNarrows(rs[1..], c);
      var narrowRest := Filter(rs[1..], c);
      var wideRest := Filter(rs[1..], wide);
      if Matches(rs[0], c) {
        assert Matches(rs[0], wide);
        assert ([rs[0]] + narrowRest)[1..] == narrowRest && ([rs[0]] + wideRest)[1..] == wideRest;
      } else if Matches(rs[0], wide) {
        assert ([rs[0]] + wideRest)[1..] == wideRest;
        SubseqPrepend(narrowRest, wideRest, rs[0]);
      }
    }
  }

  lemma SubseqPrepend(xs: seq<Resource>, ys: seq<Resource>, y: Resource)
    requires Subseq(xs, ys)
    ensures Subseq(xs, [y] + ys)
  {
    assert ([y] + ys)[1..] == ys;
  }

  /** Queries that differ only in the case of their letters give the same result. */
  lemma {:induction false} QueryCaseInsensitive(rs: seq<Resource>, c: Criteria, query: string)
    requires ToLower(query) == ToLower(c.query)
    ensures Filter(rs, c.(query := query)) == Filter(rs, c)
  {
    if rs != [] {
      QueryCaseInsensitive(rs[1..], c, query);
      assert Matches(rs[0], c.(query := query)) == Matches(rs[0], c);
    }
  }

  /** In particular, typing the query in lower case changes nothing. */
  lemma LowerCaseQuery(rs: seq<Resource>, c: Criteria)
    ensures Filter(rs, c.(query := ToLower(c.query))) == Filter(rs, c)
  {
    ToLowerIdempotent(c.query);
    QueryCaseInsensitive(rs, c, ToLower(c.query));
  }

  // ---------------------------------------------------------------------------
  // The filter choices

  function LanguagesOf(rs: seq<Resource>): (ls: seq<string>)
    ensures |ls| == |rs| && forall i :: 0 <= i < |rs| ==> ls[i] == rs[i].language
  {
    if rs == [] then [] else [rs[0].language] + LanguagesOf(rs[1..])
  }

  function CategoriesOf(rs: seq<Resource>): (cs: seq<string>)
    ensures |cs| == |rs| && forall i :: 0 <= i < |rs| ==> cs[i] == rs[i].category
  {
    if rs == [] then [] else [rs[0].category] + CategoriesOf(rs[1..])
  }

  /** `['all', ...Array.from(new Set(values))]`. */
  function Choices(values: seq<string>): seq<string> {
    [All] + Distinct(values)
  }

  /**
   A choice list starts with `'all'`, then holds every value once, in the order
   of its first appearance.
   */
  lemma ChoicesShape(values: seq<string>)
    ensures Choices(values)[0] == All
    ensures forall v :: v in Choices(values)[1..] <==> v in values
    ensures NoDuplicates(Choices(values)[1..])
    ensures forall i, j :: 1 <= i < j < |Choices(values)| ==>
              FirstIndex(values, Choices(values)[i]) < FirstIndex(values, Choices(values)[j])
  {
    var d := Distinct(values);
    assert Choices(values)[1..] == d;
    forall i, j | 1 <= i < j < |Choices(values)|
      ensures FirstIndex(values, Choices(values)[i]) < FirstIndex(values, Choices(values)[j])
    {
      assert Choices(values)[i] == d[i - 1] && Choices(values)[j] == d[j - 1];
      DistinctFirstOccurrenceOrder(values, i - 1, j - 1);
    }
  }

  function Languages(rs: seq<Resource>): seq<string> {
    Choices(LanguagesOf(rs))
  }

  function Categories(rs: seq<Resource>): seq<string> {
    Choices(CategoriesOf(rs))
  }
}
