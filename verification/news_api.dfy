/** The combining step of `getNewsHeadlines` (service/news-api.ts): one provider result
    per requested category, failed results dropped, the rest concatenated in category
    order and de-duplicated by title, keeping the first article with each title. */
module NewsApi {
  import opened Optional
  import opened Types
  import opened Sequences

  /** The category list used when the caller passes none. */
  const DefaultCategories: seq<string> := ["general"]

  function RequestedCategories(categories: Option<seq<string>>): seq<string> {
    categories.GetOr(DefaultCategories)
  }

  /** `result.data && !result.error`. */
  predicate Succeeded(r: Fetched<NewsResponse>) {
    r.data.Some? && !Truthy(r.error)
  }

  /** `results.filter(Succeeded).flatMap(r => r.data.articles)`. */
  function AllArticles(results: seq<Fetched<NewsResponse>>): seq<Article>
    decreases |results|
  {
    if |results| == 0 then []
    else (if Succeeded(results[0]) then results[0].data.value.articles else []) + AllArticles(results[1..])
  }

  /** The articles of the concatenation are exactly those of the successful results. */
  lemma {:induction false} AllArticlesMembers(results: seq<Fetched<NewsResponse>>, a: Article)
    ensures a in AllArticles(results) <==>
      exists i :: 0 <= i < |results| && Succeeded(results[i]) && a in results[i].data.value.articles
    decreases |results|
  {
    if |results| > 0 {
      AllArticlesMembers(results[1..], a);
      if exists i :: 0 <= i < |results| && Succeeded(results[i]) && a in results[i].data.value.articles {
        var i :| 0 <= i < |results| && Succeeded(results[i]) && a in results[i].data.value.articles;
        if i > 0 {
          assert results[1..][i - 1] == results[i];
        }
      }
      if a in AllArticles(results[1..]) {
        var i :| 0 <= i < |results[1..]| && Succeeded(results[1..][i]) && a in results[1..][i].data.value.articles;
        assert results[i + 1] == results[1..][i];
      }
    }
  }

  lemma {:induction false} AllArticlesConcat(xs: seq<Fetched<NewsResponse>>, ys: seq<Fetched<NewsResponse>>)
    ensures AllArticles(xs + ys) == AllArticles(xs) + AllArticles(ys)
    decreases |xs|
  {
    if |xs| > 0 {
      AllArticlesConcat(xs[1..], ys);
      assert (xs + ys)[1..] == xs[1..] + ys;
    } else {
      assert xs + ys == ys;
    }
  }

  /** A failed result contributes nothing: leaving it out changes no article. */
  lemma FailedResultContributesNothing(results: seq<Fetched<NewsResponse>>, i: nat)
    requires i < |results| && !Succeeded(results[i])
    ensures AllArticles(results[..i] + results[i + 1..]) == AllArticles(results)
  {
    assert results == results[..i] + ([results[i]] + results[i + 1..]);
    AllArticlesConcat(results[..i], [results[i]] + results[i + 1..]);
    AllArticlesConcat([results[i]], results[i + 1..]);
    AllArticlesConcat(results[..i], results[i + 1..]);
  }

  /** `xs.findIndex(a => a.title === title)`: the first position with that title, or -1. */
  function FindIndex(xs: seq<Article>, title: string): (r: int)
    ensures -1 <= r < |xs|
    ensures r == -1 <==> forall j :: 0 <= j < |xs| ==> xs[j].title != title
    ensures r >= 0 ==> xs[r].title == title && forall j :: 0 <= j < r ==> xs[j].title != title
    decreases |xs|
  {
    if |xs| == 0 then -1
    else if xs[0].title == title then 0
    else
      var k := FindIndex(xs[1..], title);
      if k == -1 then -1 else k + 1
  }

  /** No two articles share a title. */
  predicate DistinctTitles(xs: seq<Article>) {
    forall i, j :: 0 <= i < j < |xs| ==> xs[i].title != xs[j].title
  }

  /** `a` is the first article of `xs` that carries its title. */
  ghost predicate IsFirstOccurrence(xs: seq<Article>, a: Article) {
    exists j :: 0 <= j < |xs| && xs[j] == a && forall m :: 0 <= m < j ==> xs[m].title != a.title
  }

  /** The filter `index === self.findIndex(a => a.title === article.title)`, applied to
      the positions from `i` on. */
  function KeepFirstFrom(xs: seq<Article>, i: nat): (r: seq<Article>)
    requires i <= |xs|
    ensures |r| <= |xs| - i
    decreases |xs| - i
  {
    if i == |xs| then []
    else if FindIndex(xs, xs[i].title) == i then [xs[i]] + KeepFirstFrom(xs, i + 1)
    else KeepFirstFrom(xs, i + 1)
  }

  lemma {:induction false} KeepFirstFromSubsequence(xs: seq<Article>, i: nat)
    requires i <= |xs|
    ensures IsSubsequence(KeepFirstFrom(xs, i), xs[i..])
    decreases |xs| - i
  {
    if i < |xs| {
      KeepFirstFromSubsequence(xs, i + 1);
      var rest := KeepFirstFrom(xs, i + 1);
      assert xs[i..][1..] == xs[i + 1..];
      if FindIndex(xs, xs[i].title) == i {
        assert ([xs[i]] + rest)[1..] == rest;
      }
    }
  }

  /** `a` is the first article of its title in `xs`, found at or after position `i`. */
  predicate FirstAtOrAfter(xs: seq<Article>, i: nat, a: Article) {
    var f := FindIndex(xs, a.title);
    i <= f && xs[f] == a
  }

  /** Every article kept from position `i` on is the first of its title, at or after `i`. */
  lemma {:induction false} KeepFirstFromFirsts(xs: seq<Article>, i: nat)
    requires i <= |xs|
    ensures forall a :: a in KeepFirstFrom(xs, i) ==> FirstAtOrAfter(xs, i, a)
    decreases |xs| - i
  {
    if i < |xs| {
      KeepFirstFromFirsts(xs, i + 1);
    }
  }

  lemma {:induction false} KeepFirstFromDistinctTitles(xs: seq<Article>, i: nat)
    requires i <= |xs|
    ensures DistinctTitles(KeepFirstFrom(xs, i))
    decreases |xs| - i
  {
    if i < |xs| {
      KeepFirstFromDistinctTitles(xs, i + 1);
      KeepFirstFromFirsts(xs, i + 1);
      var rest := KeepFirstFrom(xs, i + 1);
      if FindIndex(xs, xs[i].title) == i {
        var r := [xs[i]] + rest;
        forall a, b | 0 <= a < b < |r| ensures r[a].title != r[b].title {
          assert r[b] == rest[b - 1];
          assert r[b] in rest;
          if a > 0 {
            assert r[a] == rest[a - 1];
          }
        }
      }
    }
  }

  /** Every first occurrence at or after `i` is kept. */
  lemma {:induction false} KeepFirstFromCovers(xs: seq<Article>, i: nat)
    requires i <= |xs|
    ensures forall j :: i <= j < |xs| && FindIndex(xs, xs[j].title) == j ==> xs[j] in KeepFirstFrom(xs, i)
    decreases |xs| - i
  {
    if i < |xs| {
      KeepFirstFromCovers(xs, i + 1);
      var rest := KeepFirstFrom(xs, i + 1);
      var keepHead := FindIndex(xs, xs[i].title) == i;
      assert KeepFirstFrom(xs, i) == if keepHead then [xs[i]] + rest else rest;
      forall j | i <= j < |xs| && FindIndex(xs, xs[j].title) == j
        ensures xs[j] in KeepFirstFrom(xs, i)
      {
        if j > i {
          assert xs[j] in rest;
        }
      }
    }
  }

  /** Kept articles appear in the order their titles first occur in `xs`. */
  predicate InFirstOccurrenceOrder(r: seq<Article>, xs: seq<Article>) {
    forall k, l :: 0 <= k < l < |r| ==> FindIndex(xs, r[k].title) < FindIndex(xs, r[l].title)
  }

  lemma {:induction false} KeepFirstFromOrdered(xs: seq<Article>, i: nat)
    requires i <= |xs|
    ensures InFirstOccurrenceOrder(KeepFirstFrom(xs, i), xs)
    decreases |xs| - i
  {
    if i < |xs| {
      KeepFirstFromOrdered(xs, i + 1);
      var rest := KeepFirstFrom(xs, i + 1);
      if FindIndex(xs, xs[i].title) == i {
        KeepFirstFromFirsts(xs, i + 1);
        var r := [xs[i]] + rest;
        forall k, l | 0 <= k < l < |r|
          ensures FindIndex(xs, r[k].title) < FindIndex(xs, r[l].title)
        {
          assert r[l] == rest[l - 1];
          assert FirstAtOrAfter(xs, i + 1, rest[l - 1]);
          if k > 0 {
            assert r[k] == rest[k - 1];
          }
        }
      }
    }
  }

  /** Keeps the first article of each title, in order. */
  function UniqueByTitle(xs: seq<Article>): (r: seq<Article>)
    ensures IsSubsequence(r, xs)
    ensures DistinctTitles(r)
    ensures forall k :: 0 <= k < |r| ==> IsFirstOccurrence(xs, r[k])
    ensures forall i :: 0 <= i < |xs| ==> exists k :: 0 <= k < |r| && r[k].title == xs[i].title
    ensures InFirstOccurrenceOrder(r, xs)
  {
    var r := KeepFirstFrom(xs, 0);
    assert xs[0..] == xs;
    KeepFirstFromSubsequence(xs, 0);
    KeepFirstFromOrdered(xs, 0);
    KeepFirstFromDistinctTitles(xs, 0);
    KeepFirstFromFirsts(xs, 0);
    KeepFirstFromCovers(xs, 0);
    forall k | 0 <= k < |r| ensures IsFirstOccurrence(xs, r[k]) {
      assert r[k] in r;
      var j := FindIndex(xs, r[k].title);
      assert xs[j] == r[k];
    }
    forall i | 0 <= i < |xs| ensures exists k :: 0 <= k < |r| && r[k].title == xs[i].title {
      var f := FindIndex(xs, xs[i].title);
      assert xs[f] in r;
      var k :| 0 <= k < |r| && r[k] == xs[f];
      assert r[k].title == xs[i].title;
    }
    r
  }

  lemma {:induction false} KeepFirstFromDistinct(xs: seq<Article>, i: nat)
    requires DistinctTitles(xs) && i <= |xs|
    ensures KeepFirstFrom(xs, i) == xs[i..]
    decreases |xs| - i
  {
    if i < |xs| {
      KeepFirstFromDistinct(xs, i + 1);
      var f := FindIndex(xs, xs[i].title);
      assert f == i;
      assert xs[i..] == [xs[i]] + xs[i + 1..];
    }
  }

  /** A list whose titles are already distinct is left as it is. */
  lemma UniqueByTitleOfDistinct(xs: seq<Article>)
    requires DistinctTitles(xs)
    ensures UniqueByTitle(xs) == xs
  {
    KeepFirstFromDistinct(xs, 0);
    assert xs[0..] == xs;
  }

  /** De-duplicating twice is the same as de-duplicating once. */
  lemma UniqueByTitleIdempotent(xs: seq<Article>)
    ensures UniqueByTitle(UniqueByTitle(xs)) == UniqueByTitle(xs)
  {
    UniqueByTitleOfDistinct(UniqueByTitle(xs));
  }

  /** One provider call per requested category, in the categories' order. */
  function CategoryResults(categories: seq<string>, topHeadlines: string -> Fetched<NewsResponse>)
    : (results: seq<Fetched<NewsResponse>>)
    ensures |results| == |categories|
    ensures forall i :: 0 <= i < |categories| ==> results[i] == topHeadlines(categories[i])
  {
    seq(|categories|, i requires 0 <= i < |categories| => topHeadlines(categories[i]))
  }

  /** `getNewsHeadlines(categories)`, with the per-category provider call passed in. It
      never reports an error: the merge itself cannot fail. */
  function GetNewsHeadlines(categories: Option<seq<string>>, topHeadlines: string -> Fetched<NewsResponse>)
    : (r: Fetched<NewsResponse>)
    ensures r.data.Some? && r.error.None?
    ensures r.data.value.status == "ok"
    ensures r.data.value.totalResults == |r.data.value.articles|
    ensures DistinctTitles(r.data.value.articles)
  {
    var results := CategoryResults(RequestedCategories(categories), topHeadlines);
    var unique := UniqueByTitle(AllArticles(results));
    Fetched(Some(NewsResponse("ok", |unique|, unique)), None)
  }

  /** Omitting the categories asks for the "general" category only. */
  lemma DefaultIsGeneral(topHeadlines: string -> Fetched<NewsResponse>)
    ensures GetNewsHeadlines(None, topHeadlines) == GetNewsHeadlines(Some(["general"]), topHeadlines)
  {
  }

  /** Each merged article came from a successful category result. */
  lemma MergedFromSucceeded(results: seq<Fetched<NewsResponse>>, k: nat)
    requires k < |UniqueByTitle(AllArticles(results))|
    ensures exists i :: (0 <= i < |results| && Succeeded(results[i]) &&
      UniqueByTitle(AllArticles(results))[k] in results[i].data.value.articles)
  {
    var merged := UniqueByTitle(AllArticles(results));
    SubsequenceMembers(merged, AllArticles(results));
    AllArticlesMembers(results, merged[k]);
  }

  /** Every title a successful category result carried is in the merged list. */
  lemma MergedCoversSucceeded(results: seq<Fetched<NewsResponse>>, i: nat, a: Article)
    requires i < |results| && Succeeded(results[i]) && a in results[i].data.value.articles
    ensures exists k :: (0 <= k < |UniqueByTitle(AllArticles(results))| &&
      UniqueByTitle(AllArticles(results))[k].title == a.title)
  {
    var all := AllArticles(results);
    var merged := UniqueByTitle(all);
    AllArticlesMembers(results, a);
    var j :| 0 <= j < |all| && all[j] == a;
    var k :| 0 <= k < |merged| && merged[k].title == all[j].title;
  }

  /** What the merged list holds: only articles of successful category results, in
      category order, each the first of its title, ordered by where the titles first
      occur, and every title that any successful result carried. */
  lemma HeadlinesMerge(categories: Option<seq<string>>, topHeadlines: string -> Fetched<NewsResponse>)
    ensures var results := CategoryResults(RequestedCategories(categories), topHeadlines);
      var merged := GetNewsHeadlines(categories, topHeadlines).data.value.articles;
      && IsSubsequence(merged, AllArticles(results))
      && (forall k :: 0 <= k < |merged| ==> IsFirstOccurrence(AllArticles(results), merged[k]))
      && InFirstOccurrenceOrder(merged, AllArticles(results))
      && (forall k :: 0 <= k < |merged| ==>
            exists i :: 0 <= i < |results| && Succeeded(results[i]) && merged[k] in results[i].data.value.articles)
      && (forall i, a :: 0 <= i < |results| && Succeeded(results[i]) && a in results[i].data.value.articles ==>
            exists k :: 0 <= k < |merged| && merged[k].title == a.title)
  {
    var results := CategoryResults(RequestedCategories(categories), topHeadlines);
    assert GetNewsHeadlines(categories, topHeadlines).data.value.articles == UniqueByTitle(AllArticles(results));
    forall k | 0 <= k < |UniqueByTitle(AllArticles(results))|
      ensures exists i :: (0 <= i < |results| && Succeeded(results[i]) &&
        UniqueByTitle(AllArticles(results))[k] in results[i].data.value.articles)
    {
      MergedFromSucceeded(results, k);
    }
    forall i, a | 0 <= i < |results| && Succeeded(results[i]) && a in results[i].data.value.articles
      ensures exists k :: (0 <= k < |UniqueByTitle(AllArticles(results))| &&
        UniqueByTitle(AllArticles(results))[k].title == a.title)
    {
      MergedCoversSucceeded(results, i, a);
    }
  }
}
