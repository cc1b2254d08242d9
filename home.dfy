/** The home page: the category badges derived from the thread list, the `q`
    search parameter that the badges and the search box set, and which of the
    loading, error, empty, no-results and list sections are shown. JavaScript
    truthiness is written out: an empty string is falsy. */
module Home {
  import opened Wrappers
  import opened ThreadsSlice

  /** `threads.map((thread) => thread.category)`. */
  function CategoriesOf(threads: seq<Thread>): (r: seq<string>)
    ensures |r| == |threads| && forall i :: 0 <= i < |threads| ==> r[i] == threads[i].category
  {
    seq(|threads|, i requires 0 <= i < |threads| => threads[i].category)
  }

  ghost predicate NoDuplicates(s: seq<string>) {
    forall i, j :: 0 <= i < j < |s| ==> s[i] != s[j]
  }

  /** The position of the first occurrence of `x` in `s`. */
  ghost function IndexOf(s: seq<string>, x: string): (k: nat)
    requires x in s
    ensures k < |s| && s[k] == x && forall j :: 0 <= j < k ==> s[j] != x
  {
    if s[0] == x then 0 else 1 + IndexOf(s[1..], x)
  }

  lemma {:induction false} IndexOfAppend(p: seq<string>, x: string, y: string)
    requires y in p + [x]
    ensures y in p ==> IndexOf(p + [x], y) == IndexOf(p, y)
    ensures y !in p ==> IndexOf(p + [x], y) == |p|
  {
    var k := IndexOf(p + [x], y);
    if y in p {
      var q := IndexOf(p, y);
      assert (p + [x])[q] == y;
    }
  }

  /** The elements of `r` appear in the order of their first occurrences in `s`. */
  ghost predicate InFirstOccurrenceOrder(r: seq<string>, s: seq<string>) {
    && (forall x :: x in r ==> x in s)
    && forall i, j :: 0 <= i < j < |r| ==> IndexOf(s, r[i]) < IndexOf(s, r[j])
  }

  /** `Array.from(new Set(s))`: each value once, at the place a `Set` first saw it. */
  function Distinct(s: seq<string>): (r: seq<string>)
    ensures NoDuplicates(r)
    ensures forall x :: x in r <==> x in s
    decreases |s|
  {
    if s == [] then []
    else
      var p := s[..|s| - 1];
      assert s == p + [s[|s| - 1]];
      var d := Distinct(p);
      if s[|s| - 1] in d then d else d + [s[|s| - 1]]
  }

  lemma {:induction false} DistinctOrder(s: seq<string>)
    ensures InFirstOccurrenceOrder(Distinct(s), s)
    decreases |s|
  {
    if s != [] {
      var p, x := s[..|s| - 1], s[|s| - 1];
      assert s == p + [x];
      var d := Distinct(p);
      DistinctOrder(p);
      var r := Distinct(s);
      forall y | y in d ensures IndexOf(s, y) == IndexOf(p, y) && IndexOf(p, y) < |p| {
        IndexOfAppend(p, x, y);
      }
      if x !in d {
        IndexOfAppend(p, x, x);
        assert r == d + [x];
        forall i, j | 0 <= i < j < |r| ensures IndexOf(s, r[i]) < IndexOf(s, r[j]) {
          assert r[i] in d;
          if j < |d| {
            assert r[j] in d;
          }
        }
      } else {
        forall i, j | 0 <= i < j < |r| ensures IndexOf(s, r[i]) < IndexOf(s, r[j]) {
          assert r[i] in d && r[j] in d;
        }
      }
    }
  }

  /** `.filter(Boolean)` on strings: the empty string is dropped. */
  function WithoutEmpty(s: seq<string>): (r: seq<string>)
    ensures forall x :: x in r <==> x in s && x != ""
    decreases |s|
  {
    if s == [] then []
    else
      var p := s[..|s| - 1];
      assert s == p + [s[|s| - 1]];
      var w := WithoutEmpty(p);
      if s[|s| - 1] == "" then w else w + [s[|s| - 1]]
  }

  lemma {:induction false} WithoutEmptyKeepsOrder(r: seq<string>, s: seq<string>)
    requires NoDuplicates(r) && InFirstOccurrenceOrder(r, s)
    ensures NoDuplicates(WithoutEmpty(r)) && InFirstOccurrenceOrder(WithoutEmpty(r), s)
    decreases |r|
  {
    if r != [] {
      var p, x := r[..|r| - 1], r[|r| - 1];
      assert r == p + [x];
      assert InFirstOccurrenceOrder(p, s) by {
        forall i, j | 0 <= i < j < |p| ensures IndexOf(s, p[i]) < IndexOf(s, p[j]) {
          assert p[i] == r[i] && p[j] == r[j];
        }
      }
      WithoutEmptyKeepsOrder(p, s);
      var w := WithoutEmpty(p);
      if x != "" {
        var rw := WithoutEmpty(r);
        assert rw == w + [x];
        forall i, j | 0 <= i < j < |rw| ensures IndexOf(s, rw[i]) < IndexOf(s, rw[j]) && rw[i] != rw[j] {
          if j == |w| {
            assert rw[i] in p;
            var k :| 0 <= k < |p| && p[k] == rw[i];
            assert r[k] == rw[i] && r[|r| - 1] == x;
          }
        }
      }
    }
  }

  /** `categories`: the distinct non-empty categories of the threads. */
  function Categories(threads: seq<Thread>): (r: seq<string>)
    ensures forall c :: c in r <==> c != "" && c in CategoriesOf(threads)
  {
    WithoutEmpty(Distinct(CategoriesOf(threads)))
  }

  /** The category badges list no category twice and no empty one; every listed
      category is some thread's and every non-empty thread category is listed;
      they come in the order in which the threads first use them. */
  lemma CategoriesSpec(threads: seq<Thread>)
    ensures NoDuplicates(Categories(threads))
    ensures "" !in Categories(threads)
    ensures forall c :: c in Categories(threads) <==> c != "" && exists t :: t in threads && t.category == c
    ensures InFirstOccurrenceOrder(Categories(threads), CategoriesOf(threads))
  {
    var cats := CategoriesOf(threads);
    DistinctOrder(cats);
    WithoutEmptyKeepsOrder(Distinct(cats), cats);
    forall c ensures c in cats <==> exists t :: t in threads && t.category == c {
      if c in cats {
        var i :| 0 <= i < |cats| && cats[i] == c;
        assert threads[i] in threads;
      }
      if exists t :: t in threads && t.category == c {
        var t :| t in threads && t.category == c;
        var i :| 0 <= i < |threads| && threads[i] == t;
        assert cats[i] == c;
      }
    }
  }

  /** The URL search parameters, as far as `get`, `set` and `delete` see them. */
  class SearchParams {
    var entries: map<string, string>

    constructor (entries: map<string, string>)
      ensures this.entries == entries
    {
      this.entries := entries;
    }

    function Get(name: string): Option<string>
      reads this
    {
      if name in entries then Some(entries[name]) else None
    }

    /** `searchParams.get('q') || ''`. */
    function SearchQuery(): (q: string)
      reads this
      ensures q == "" <==> "q" !in entries || entries["q"] == ""
      ensures q != "" ==> entries["q"] == q
    {
      match Get("q")
      case None => ""
      case Some(v) => v
    }

    method Set(name: string, value: string)
      modifies this
      ensures entries == old(entries)[name := value]
    {
      entries := entries[name := value];
    }

    method Delete(name: string)
      modifies this
      ensures entries == old(entries) - {name}
    {
      entries := entries - {name};
    }
  }

  /** `handleCategoryClick`: clicking the category the page was rendered with
      removes `q`; clicking any other sets `q` to it. */
  method HandleCategoryClick(prev: SearchParams, searchQuery: string, category: string)
    modifies prev
    ensures prev.entries == if searchQuery == category then old(prev.entries) - {"q"} else old(prev.entries)["q" := category]
    ensures prev.SearchQuery() == if searchQuery == category then "" else category
  {
    if searchQuery == category {
      prev.Delete("q");
    } else {
      prev.Set("q", category);
    }
  }

  /** `handleSearchChange`: a non-empty value is stored in `q`, an empty one
      removes it; either way the search query reads back as the value. */
  method HandleSearchChange(prev: SearchParams, query: string)
    modifies prev
    ensures prev.entries == if query != "" then old(prev.entries)["q" := query] else old(prev.entries) - {"q"}
    ensures prev.SearchQuery() == query
  {
    if query != "" {
      prev.Set("q", query);
    } else {
      prev.Delete("q");
    }
  }

  /** Clicking a category badge that is not selected, then clicking it again after
      the page re-renders, leaves no filter; other parameters are kept. */
  method ClickCategoryTwice(params: SearchParams, category: string)
    requires category != "" && params.SearchQuery() != category
    modifies params
    ensures "q" !in params.entries && params.SearchQuery() == ""
    ensures params.entries == old(params.entries) - {"q"}
  {
    HandleCategoryClick(params, params.SearchQuery(), category);
    assert params.SearchQuery() == category;
    HandleCategoryClick(params, params.SearchQuery(), category);
  }

  /** `!error` for a `string | null` error. */
  function NoError(error: Option<string>): (b: bool)
    ensures !b <==> error.Some? && |error.value| > 0
  {
    error.None? || error.value == ""
  }

  /** One category badge, selected iff it is the current search query. */
  datatype BadgeView = BadgeView(category: string, selected: bool)

  datatype HomeView = HomeView(
    badges: seq<BadgeView>,
    skeleton: bool,
    errorBanner: Option<string>,
    emptyState: bool,
    noResults: bool,
    cards: seq<Thread>)

  /** The sections of the home page for the slice's state and the search query. */
  function RenderHome(threads: seq<Thread>, isLoading: bool, error: Option<string>, searchQuery: string): (v: HomeView)
    ensures |v.badges| == |Categories(threads)|
    ensures forall i :: 0 <= i < |v.badges| ==>
      v.badges[i].category == Categories(threads)[i] && (v.badges[i].selected <==> searchQuery == Categories(threads)[i])
    ensures v.skeleton <==> isLoading
    ensures v.errorBanner.Some? <==> !NoError(error)
    ensures v.emptyState <==> !isLoading && NoError(error) && |threads| == 0
    ensures v.noResults <==> !isLoading && NoError(error) && |threads| > 0 && |SelectFilteredThreads(threads, searchQuery)| == 0
    ensures !(v.emptyState && v.noResults)
    ensures v.noResults ==> searchQuery != ""
    ensures v.cards != [] ==> !v.emptyState && !v.noResults && !isLoading && NoError(error)
    ensures v.cards == if !isLoading && NoError(error) then SelectFilteredThreads(threads, searchQuery) else []
    ensures v.errorBanner == if NoError(error) then None else error
  {
    var categories := Categories(threads);
    var filtered := SelectFilteredThreads(threads, searchQuery);
    var ok := !isLoading && NoError(error);
    HomeView(
      seq(|categories|, i requires 0 <= i < |categories| => BadgeView(categories[i], searchQuery == categories[i])),
      isLoading,
      if NoError(error) then None else error,
      ok && |threads| == 0,
      ok && |threads| > 0 && |filtered| == 0,
      if ok then filtered else [])
  }
}
