/**
 * Sequences of user actions and timer events run against the widget model,
 * showing what its specification lets a caller conclude.
 */
module Scenarios {
  import opened Search
  import opened SampleSearches
  import opened SearchComponent

  /**
   * Typing "java" one letter at a time arms four queries, one per
   * keystroke, since no armed timer is ever cancelled. After all four fetch
   * cycles the results are those for "java".
   */
  method TypeJavaLetterByLetter(data: seq<Doc>) returns (fetches: nat, shown: seq<Doc>)
    requires HasSampleTexts(data)
    ensures fetches == 4
    ensures shown == [data[0]]
  {
    var w := new SearchInterface(data);
    w.SetTerm("j");
    w.SetTerm("ja");
    w.SetTerm("jav");
    w.SetTerm("java");
    fetches := |w.armed|;
    w.FetchStart();
    w.FetchStart();
    w.FetchStart();
    w.FetchStart();
    w.FetchComplete();
    w.FetchComplete();
    w.FetchComplete();
    w.FetchComplete();
    JavaFindsFirst(data);
    shown := w.results;
  }

  /**
   * Clearing the field clears the results at once without a loading state,
   * but a fetch armed before the clear still completes afterwards and puts
   * its results back under an empty field.
   */
  method ClearThenLateFetch(data: seq<Doc>) returns (loadingAfterClear: bool, term: string, shown: seq<Doc>)
    requires HasSampleTexts(data)
    ensures !loadingAfterClear
    ensures term == "" && shown == [data[0]]
  {
    var w := new SearchInterface(data);
    w.SetTerm("java");
    w.SetTerm("");
    assert w.results == [];
    loadingAfterClear := w.loading;
    w.FetchStart();
    w.FetchComplete();
    JavaFindsFirst(data);
    term, shown := w.term, w.results;
  }

  /** Choosing the only suggestion for "java" searches for that title. */
  method ChooseJavaSuggestion(data: seq<Doc>) returns (term: string, armed: seq<Query>)
    requires HasSampleTexts(data)
    ensures term == data[0].title
    ensures |armed| == 2 && armed[1] == Query(term, InitialFilters)
  {
    var w := new SearchInterface(data);
    w.SetTerm("java");
    JavaSuggestsFirst(data);
    assert w.suggestions == [data[0].title];
    w.ChooseSuggestion(0);
    term, armed := w.term, w.armed;
  }
}
