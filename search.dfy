/**
 * The pure core of the search widget: the documents, the filter settings,
 * the result filter run by `fetchSearchResults` and the autocomplete
 * suggestion list.
 */
module Search {
  import opened Text
  import opened Sequences

  /** One record of the in-memory data set. */
  datatype Doc = Doc(id: int, title: string, category: string, content: string)

  /**
   * The filter settings. `sortBy` and `itemsPerPage` are kept but never used
   * to order or cut the results.
   */
  datatype Filters = Filters(category: string, sortBy: string, itemsPerPage: int)

  /** The category value that disables category filtering. */
  const All := "all"

  /** Suggestions are only offered for terms longer than this. */
  const MinSuggestLength := 2

  /** At most this many suggestions are offered. */
  const MaxSuggestions := 5

  /** The settings the widget starts with. */
  const InitialFilters := Filters(All, "relevance", 10)

  /** The hard-coded sample data set, in display order. */
  const SampleData: seq<Doc> := [
    Doc(1, "JavaScript Basics", "programming", "Learn the basics of JavaScript programming"),
    Doc(2, "React Fundamentals", "programming", "Understanding React core concepts"),
    Doc(3, "Database Design", "database", "Introduction to database design principles")
  ]

  // ---------------------------------------------------------------- results

  /**
   * The test a document must pass to appear in the results. The empty term
   * matches every document of the selected category; any other term needs a
   * title or a content at least as long as itself.
   */
  predicate Matches(d: Doc, term: string, filters: Filters): (r: bool)
    ensures term == [] ==> (r <==> filters.category == All || d.category == filters.category)
    ensures r ==> |term| <= |d.title| || |term| <= |d.content|
  {
    (filters.category == All || d.category == filters.category) &&
    (ContainsIgnoringCase(d.title, term) || ContainsIgnoringCase(d.content, term))
  }

  function MatchTest(term: string, filters: Filters): Doc -> bool {
    d => Matches(d, term, filters)
  }

  /**
   * The result list a fetch writes: the documents of `data` that pass
   * `Matches`, in data order.
   */
  function FilterResults(data: seq<Doc>, term: string, filters: Filters): (r: seq<Doc>)
    ensures forall d :: d in r ==> d in data
    ensures filters.category != All ==> forall d :: d in r ==> d.category == filters.category
    ensures forall d :: d in r ==>
      ContainsIgnoringCase(d.title, term) || ContainsIgnoringCase(d.content, term)
    ensures forall d :: d in data && Matches(d, term, filters) ==> d in r
  {
    Filter(data, MatchTest(term, filters))
  }

  /**
   * The results are the documents of `data` at the increasing positions
   * `idx`, and those positions are exactly the ones whose documents match:
   * data order is kept and no matching document is left out.
   */
  lemma {:induction false} FilterResultsInDataOrder(data: seq<Doc>, term: string, filters: Filters)
    ensures var r, idx := FilterResults(data, term, filters), KeptIndices(data, MatchTest(term, filters));
      |r| == |idx| &&
      (forall k :: 0 <= k < |idx| ==> idx[k] < |data| && r[k] == data[idx[k]]) &&
      (forall k, l :: 0 <= k < l < |idx| ==> idx[k] < idx[l]) &&
      (forall i :: 0 <= i < |data| ==> (Matches(data[i], term, filters) <==> i in idx))
  {
    FilterSelectsExactly(data, MatchTest(term, filters));
  }

  /**
   * Only the term and the category decide the results; `sortBy` and
   * `itemsPerPage` have no effect on them.
   */
  lemma {:induction false} ResultsDependOnlyOnTermAndCategory(data: seq<Doc>, term: string, f: Filters, g: Filters)
    requires f.category == g.category
    ensures FilterResults(data, term, f) == FilterResults(data, term, g)
  {
    FilterCongruent(data, MatchTest(term, f), MatchTest(term, g));
  }

  /** Changing the sort key alone leaves the results, and their order, as they were. */
  lemma {:induction false} SortByIgnored(data: seq<Doc>, term: string, f: Filters, sortBy: string)
    ensures FilterResults(data, term, f.(sortBy := sortBy)) == FilterResults(data, term, f)
  {
    ResultsDependOnlyOnTermAndCategory(data, term, f.(sortBy := sortBy), f);
  }

  /** Running the filter again over its own results changes nothing. */
  lemma {:induction false} FilterResultsIdempotent(data: seq<Doc>, term: string, filters: Filters)
    ensures FilterResults(FilterResults(data, term, filters), term, filters) == FilterResults(data, term, filters)
  {
    FilterIdempotent(data, MatchTest(term, filters));
  }

  /** Filtering works document by document: a document added at the end is kept exactly when it matches. */
  lemma {:induction false} FilterResultsAppend(data: seq<Doc>, d: Doc, term: string, filters: Filters)
    ensures FilterResults(data + [d], term, filters) ==
            FilterResults(data, term, filters) + (if Matches(d, term, filters) then [d] else [])
  {
    FilterAppend(data, d, MatchTest(term, filters));
  }

  /**
   * A document that lacks some letter of the term, in either case, in both
   * its title and its content is never a result.
   */
  lemma {:induction false} MissingLetterExcludes(d: Doc, term: string, filters: Filters, c: char)
    requires 'a' <= c <= 'z' && c in Lower(term)
    requires c !in d.title && (c as int - 32) as char !in d.title
    requires c !in d.content && (c as int - 32) as char !in d.content
    ensures !Matches(d, term, filters)
  {
    LetterNotInLower(d.title, c);
    LetterNotInLower(d.content, c);
    if Contains(Lower(d.title), Lower(term)) {
      ContainsHasChars(Lower(d.title), Lower(term));
    }
    if Contains(Lower(d.content), Lower(term)) {
      ContainsHasChars(Lower(d.content), Lower(term));
    }
  }

  /**
   * Typing more characters never brings back a document: every result for
   * the longer term is a result for the shorter one.
   */
  lemma {:induction false} LongerTermNarrowsResults(data: seq<Doc>, term: string, more: string, filters: Filters)
    ensures forall d :: d in FilterResults(data, term + more, filters) ==> d in FilterResults(data, term, filters)
  {
    LowerAppend(term, more);
    var whole := Lower(term + more);
    assert whole[0..|term|] == Lower(term);
    forall d | d in FilterResults(data, term + more, filters)
      ensures d in FilterResults(data, term, filters)
    {
      if Contains(Lower(d.title), whole) {
        ContainsPiece(Lower(d.title), whole, 0, |term|);
      } else {
        ContainsPiece(Lower(d.content), whole, 0, |term|);
      }
      assert Matches(d, term, filters);
    }
  }

  // ------------------------------------------------------------ suggestions

  /** The test a document's title must pass to be suggested. */
  predicate TitleMentions(d: Doc, term: string) {
    ContainsIgnoringCase(d.title, term)
  }

  function TitleTest(term: string): Doc -> bool {
    d => TitleMentions(d, term)
  }

  /** `docs.map(item => item.title)`. */
  function Titles(docs: seq<Doc>): (r: seq<string>)
    ensures |r| == |docs|
    ensures forall k :: 0 <= k < |docs| ==> r[k] == docs[k].title
  {
    if docs == [] then [] else Titles(docs[..|docs| - 1]) + [docs[|docs| - 1].title]
  }

  /** The titles that mention `term`, ignoring case, in data order and without a cap. */
  function MatchingTitles(data: seq<Doc>, term: string): (r: seq<string>)
    ensures |r| <= |data|
    ensures forall s :: s in r ==> exists d :: d in data && d.title == s && ContainsIgnoringCase(s, term)
    ensures forall d :: d in data && ContainsIgnoringCase(d.title, term) ==> d.title in r
  {
    Titles(Filter(data, TitleTest(term)))
  }

  /**
   * The autocomplete list: empty for a term of two characters or fewer;
   * otherwise the first five titles that mention the term.
   */
  function Suggestions(data: seq<Doc>, term: string): (r: seq<string>)
    ensures |r| <= MaxSuggestions
    ensures |term| <= MinSuggestLength ==> r == []
    ensures |term| > MinSuggestLength ==>
      r <= MatchingTitles(data, term) &&
      |r| == if |MatchingTitles(data, term)| < MaxSuggestions then |MatchingTitles(data, term)| else MaxSuggestions
    ensures forall s :: s in r ==> exists d :: d in data && d.title == s && ContainsIgnoringCase(s, term)
  {
    if |term| > MinSuggestLength then Take(MatchingTitles(data, term), MaxSuggestions) else []
  }

  /**
   * Suggestion `k` is the title of the `k`-th document, in data order, whose
   * title mentions the term.
   */
  lemma {:induction false} SuggestionsInDataOrder(data: seq<Doc>, term: string)
    requires |term| > MinSuggestLength
    ensures var r, idx := Suggestions(data, term), KeptIndices(data, TitleTest(term));
      |r| == (if |idx| < MaxSuggestions then |idx| else MaxSuggestions) &&
      (forall k :: 0 <= k < |r| ==> idx[k] < |data| && r[k] == data[idx[k]].title) &&
      (forall k, l :: 0 <= k < l < |idx| ==> idx[k] < idx[l]) &&
      (forall i :: 0 <= i < |data| ==> (TitleMentions(data[i], term) <==> i in idx))
  {
    FilterSelectsExactly(data, TitleTest(term));
  }

  /**
   * Every suggestion is the title of a document that the search itself finds
   * for the same term when no category is selected.
   */
  lemma {:induction false} SuggestionsAreResultTitles(data: seq<Doc>, term: string, filters: Filters)
    requires filters.category == All
    ensures forall s :: s in Suggestions(data, term) ==>
      exists d :: d in FilterResults(data, term, filters) && d.title == s
  {
    forall s | s in Suggestions(data, term)
      ensures exists d :: d in FilterResults(data, term, filters) && d.title == s
    {
      var d :| d in data && d.title == s && ContainsIgnoringCase(s, term);
      assert Matches(d, term, filters);
    }
  }

  /**
   * Clicking a suggestion makes its title the term; the search for that
   * term then finds the document it came from, unless a category excludes it.
   */
  lemma {:induction false} ChosenSuggestionIsFound(data: seq<Doc>, term: string, filters: Filters, s: string)
    requires s in Suggestions(data, term)
    ensures exists d ::
              d in data && d.title == s &&
              (filters.category == All || d.category == filters.category ==> d in FilterResults(data, s, filters))
  {
    var d :| d in data && d.title == s && ContainsIgnoringCase(s, term);
    ContainsIgnoringCaseSelf(s);
    assert filters.category == All || d.category == filters.category ==> Matches(d, s, filters);
  }
}
