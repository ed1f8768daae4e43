/**
 * Sample searches over the sample data set, worked out against the
 * model. The lemmas hold for any data set whose three documents carry the
 * sample texts, `SampleData` among them; stating them over a parameter keeps
 * the prover from unfolding the long string literals eagerly.
 */
module SampleSearches {
  import opened Text
  import opened Sequences
  import opened Search

  /** `data` holds the three sample documents' titles, categories and contents, in order. */
  predicate HasSampleTexts(data: seq<Doc>) {
    |data| == 3 &&
    data[0].title == "JavaScript Basics" && data[0].category == "programming" &&
    data[0].content == "Learn the basics of JavaScript programming" &&
    data[1].title == "React Fundamentals" && data[1].category == "programming" &&
    data[1].content == "Understanding React core concepts" &&
    data[2].title == "Database Design" && data[2].category == "database" &&
    data[2].content == "Introduction to database design principles"
  }

  lemma SampleDataHasSampleTexts()
    ensures HasSampleTexts(SampleData)
  {
  }

  /** Filtering a three-element sequence, given which elements pass. */
  lemma {:induction false} FilterOfThree<T>(s: seq<T>, p: T -> bool)
    requires |s| == 3
    ensures Filter(s, p) ==
      (if p(s[0]) then [s[0]] else []) + (if p(s[1]) then [s[1]] else []) + (if p(s[2]) then [s[2]] else [])
  {
    assert s == [] + [s[0]] + [s[1]] + [s[2]];
    FilterAppend([], s[0], p);
    FilterAppend([s[0]], s[1], p);
    FilterAppend([s[0], s[1]], s[2], p);
  }

  // Letter-absence facts about the sample texts, one string at a time.

  lemma JavaScriptTitleLacksX(s: string)
    requires s == "JavaScript Basics"
    ensures 'x' !in s && 'X' !in s
  {
  }

  lemma JavaScriptContentLacksX(s: string)
    requires s == "Learn the basics of JavaScript programming"
    ensures 'x' !in s && 'X' !in s
  {
  }

  lemma ReactTitleLacksJ(s: string)
    requires s == "React Fundamentals"
    ensures 'j' !in s && 'J' !in s
  {
  }

  lemma ReactTitleLacksX(s: string)
    requires s == "React Fundamentals"
    ensures 'x' !in s && 'X' !in s
  {
  }

  lemma ReactContentLacksJ(s: string)
    requires s == "Understanding React core concepts"
    ensures 'j' !in s && 'J' !in s
  {
  }

  lemma ReactContentLacksX(s: string)
    requires s == "Understanding React core concepts"
    ensures 'x' !in s && 'X' !in s
  {
  }

  lemma DatabaseTitleLacksJ(s: string)
    requires s == "Database Design"
    ensures 'j' !in s && 'J' !in s
  {
  }

  lemma DatabaseTitleLacksX(s: string)
    requires s == "Database Design"
    ensures 'x' !in s && 'X' !in s
  {
  }

  lemma DatabaseContentLacksJ(s: string)
    requires s == "Introduction to database design principles"
    ensures 'j' !in s && 'J' !in s
  {
  }

  lemma DatabaseContentLacksX(s: string)
    requires s == "Introduction to database design principles"
    ensures 'x' !in s && 'X' !in s
  {
  }

  /** "java" occurs, ignoring case, at the start of "JavaScript Basics". */
  lemma {:induction false} JavaInTitle(title: string)
    requires title == "JavaScript Basics"
    ensures ContainsIgnoringCase(title, "java")
  {
    assert title == [] + title[..4] + title[4..];
    ContainsIgnoringCasePart([], title[..4], title[4..]);
    assert Lower(title[..4]) == Lower("java");
  }

  /** "design" occurs, ignoring case, at the end of "Database Design". */
  lemma {:induction false} DesignInTitle(title: string)
    requires title == "Database Design"
    ensures ContainsIgnoringCase(title, "design")
  {
    assert title == title[..9] + title[9..] + [];
    ContainsIgnoringCasePart(title[..9], title[9..], []);
    assert Lower(title[9..]) == Lower("design");
  }

  /** A text without the letter j, in either case, does not contain "java". */
  lemma {:induction false} NoJNoJava(s: string)
    requires 'j' !in s && 'J' !in s
    ensures !ContainsIgnoringCase(s, "java")
  {
    assert Lower("java")[0] == 'j';
    LetterNotInLower(s, 'j');
    if Contains(Lower(s), Lower("java")) {
      ContainsHasChars(Lower(s), Lower("java"));
    }
  }

  /** Searching "java" with no category selected finds only "JavaScript Basics". */
  lemma {:induction false} JavaFindsFirst(data: seq<Doc>)
    requires HasSampleTexts(data)
    ensures FilterResults(data, "java", InitialFilters) == [data[0]]
  {
    JavaInTitle(data[0].title);
    ReactTitleLacksJ(data[1].title);
    ReactContentLacksJ(data[1].content);
    DatabaseTitleLacksJ(data[2].title);
    DatabaseContentLacksJ(data[2].content);
    NoJNoJava(data[1].title);
    NoJNoJava(data[1].content);
    NoJNoJava(data[2].title);
    NoJNoJava(data[2].content);
    FilterOfThree(data, MatchTest("java", InitialFilters));
  }

  /** Typing "java" suggests exactly "JavaScript Basics". */
  lemma {:induction false} JavaSuggestsFirst(data: seq<Doc>)
    requires HasSampleTexts(data)
    ensures Suggestions(data, "java") == [data[0].title]
  {
    JavaInTitle(data[0].title);
    ReactTitleLacksJ(data[1].title);
    DatabaseTitleLacksJ(data[2].title);
    NoJNoJava(data[1].title);
    NoJNoJava(data[2].title);
    FilterOfThree(data, TitleTest("java"));
  }

  /** Searching "design" in category "database" finds only "Database Design". */
  lemma {:induction false} DesignInDatabaseFindsThird(data: seq<Doc>)
    requires HasSampleTexts(data)
    ensures FilterResults(data, "design", Filters("database", "relevance", 10)) == [data[2]]
  {
    DesignInTitle(data[2].title);
    FilterOfThree(data, MatchTest("design", Filters("database", "relevance", 10)));
  }

  /** Searching "xyz" finds nothing: no sample text has the letter x in either case. */
  lemma {:induction false} XyzFindsNothing(data: seq<Doc>)
    requires HasSampleTexts(data)
    ensures FilterResults(data, "xyz", InitialFilters) == []
  {
    var term := "xyz";
    assert Lower(term)[0] == 'x';
    JavaScriptTitleLacksX(data[0].title);
    JavaScriptContentLacksX(data[0].content);
    ReactTitleLacksX(data[1].title);
    ReactContentLacksX(data[1].content);
    DatabaseTitleLacksX(data[2].title);
    DatabaseContentLacksX(data[2].content);
    MissingLetterExcludes(data[0], term, InitialFilters, 'x');
    MissingLetterExcludes(data[1], term, InitialFilters, 'x');
    MissingLetterExcludes(data[2], term, InitialFilters, 'x');
    FilterOfThree(data, MatchTest(term, InitialFilters));
  }
}

