/**
 * The widget's state and the way its effects update it.
 *
 * Every change of the term or of the filters re-runs the search effect: an
 * empty term clears the results at once; any other term arms a debounce
 * timer carrying the query. The debounced function is rebuilt on every
 * render, so each run arms a timer of its own and none cancels another.
 * Timers are not modelled: `armed` holds the armed queries, oldest first,
 * and `FetchStart` fires the oldest. A started fetch waits out its simulated
 * latency in `inFlight` until `FetchComplete` writes its results. All
 * timers share one delay and all fetches one latency, so both queues are
 * served in order.
 */
module SearchComponent {
  import opened Search

  /** The arguments a debounced search was called with. */
  datatype Query = Query(term: string, filters: Filters)

  class SearchInterface {
    const data: seq<Doc>
    var term: string
    var filters: Filters
    var results: seq<Doc>
    var suggestions: seq<string>
    var loading: bool
    /** Queries whose debounce timer has not fired yet, oldest first. */
    var armed: seq<Query>
    /** Fetches started but not finished, oldest first. */
    var inFlight: seq<Query>

    /** Every query not yet written to `results`, oldest first. */
    ghost function Pending(): seq<Query>
      reads this
    {
      inFlight + armed
    }

    /** Results come from the data set, loading implies a fetch in flight, and no query has an empty term. */
    ghost predicate DispatchValid()
      reads this
    {
      (forall d :: d in results ==> d in data) &&
      (loading ==> inFlight != []) &&
      (forall q :: q in Pending() ==> q.term != "")
    }

    /**
     * For a non-empty term, either the newest pending query is the current
     * term and filters, or nothing is pending and the results are those of
     * the current term and filters.
     */
    ghost predicate TracksInput()
      reads this
    {
      term != "" ==>
        (Pending() != [] && Pending()[|Pending()| - 1] == Query(term, filters)) ||
        (Pending() == [] && results == FilterResults(data, term, filters))
    }

    ghost predicate Valid()
      reads this
    {
      DispatchValid() && TracksInput() && suggestions == Suggestions(data, term)
    }

    /** The component as first rendered, after its effects have run on the empty term. */
    constructor (data: seq<Doc>)
      ensures Valid()
      ensures this.data == data && term == "" && filters == InitialFilters
      ensures results == [] && suggestions == [] && !loading
      ensures armed == [] && inFlight == []
    {
      this.data := data;
      term := "";
      filters := InitialFilters;
      results := [];
      suggestions := [];
      loading := false;
      armed := [];
      inFlight := [];
    }

    /**
     * The search effect: an empty term clears the results and arms nothing;
     * any other term arms a query for the current term and filters.
     */
    method SearchEffect()
      requires DispatchValid()
      modifies this
      ensures DispatchValid() && TracksInput()
      ensures term == old(term) && filters == old(filters) && suggestions == old(suggestions)
      ensures loading == old(loading) && inFlight == old(inFlight)
      ensures term == "" ==> results == [] && armed == old(armed)
      ensures term != "" ==> results == old(results) && armed == old(armed) + [Query(term, filters)]
    {
      if term != "" {
        armed := armed + [Query(term, filters)];
        assert Pending() == old(Pending()) + [Query(term, filters)];
      } else {
        results := [];
      }
    }

    /** The suggestion effect: recompute the autocomplete list for the current term. */
    method SuggestionEffect()
      modifies this
      ensures suggestions == Suggestions(data, term)
      ensures term == old(term) && filters == old(filters) && results == old(results)
      ensures loading == old(loading) && armed == old(armed) && inFlight == old(inFlight)
    {
      suggestions := Suggestions(data, term);
    }

    /**
     * Typing into the search field. Setting the term it already has
     * re-renders nothing and runs no effect; a new term runs both effects.
     */
    method SetTerm(t: string)
      requires Valid()
      modifies this
      ensures Valid()
      ensures term == t && filters == old(filters) && suggestions == Suggestions(data, t)
      ensures loading == old(loading) && inFlight == old(inFlight)
      ensures t == old(term) ==> results == old(results) && armed == old(armed)
      ensures t != old(term) && t == "" ==> results == [] && armed == old(armed)
      ensures t != old(term) && t != "" ==> results == old(results) && armed == old(armed) + [Query(t, filters)]
    {
      if t != term {
        term := t;
        SearchEffect();
        SuggestionEffect();
      }
    }

    /** Clicking suggestion `i`: its title becomes the term, exactly as if it had been typed. */
    method ChooseSuggestion(i: nat)
      requires Valid() && i < |suggestions|
      modifies this
      ensures Valid()
      ensures term == old(suggestions[i])
      ensures exists d :: d in data && d.title == term
      ensures filters == old(filters) && loading == old(loading) && inFlight == old(inFlight)
      ensures term == old(term) ==> results == old(results) && armed == old(armed)
      ensures term != old(term) ==> results == old(results) && armed == old(armed) + [Query(term, filters)]
    {
      var title := suggestions[i];
      assert title in Suggestions(data, term);
      SetTerm(title);
    }

    /** Choosing a category. A new filter object is built every time, so the search effect always runs. */
    method SetCategory(c: string)
      requires Valid()
      modifies this
      ensures Valid()
      ensures filters == old(filters).(category := c)
      ensures term == old(term) && suggestions == old(suggestions)
      ensures loading == old(loading) && inFlight == old(inFlight)
      ensures term == "" ==> results == [] && armed == old(armed)
      ensures term != "" ==> results == old(results) && armed == old(armed) + [Query(term, filters)]
    {
      filters := filters.(category := c);
      SearchEffect();
    }

    /**
     * Choosing a sort key. The search effect runs again, but the query it
     * arms finds the same results as before.
     */
    method SetSortBy(s: string)
      requires Valid()
      modifies this
      ensures Valid()
      ensures filters == old(filters).(sortBy := s)
      ensures term == old(term) && suggestions == old(suggestions)
      ensures loading == old(loading) && inFlight == old(inFlight)
      ensures term == "" ==> results == [] && armed == old(armed)
      ensures term != "" ==> results == old(results) && armed == old(armed) + [Query(term, filters)]
      ensures FilterResults(data, term, filters) == FilterResults(data, term, old(filters))
    {
      filters := filters.(sortBy := s);
      SearchEffect();
      SortByIgnored(data, term, old(filters), s);
    }

    /** The oldest debounce timer fires and its fetch begins: `loading` is set. */
    method FetchStart()
      requires Valid() && armed != []
      modifies this
      ensures Valid()
      ensures loading
      ensures inFlight == old(inFlight) + [old(armed[0])] && armed == old(armed[1..])
      ensures inFlight[|inFlight| - 1].term != ""
      ensures term == old(term) && filters == old(filters)
      ensures results == old(results) && suggestions == old(suggestions)
    {
      var q := armed[0];
      assert q in Pending();
      armed := armed[1..];
      inFlight := inFlight + [q];
      loading := true;
      assert Pending() == old(Pending());
    }

    /**
     * The oldest fetch finishes its simulated latency: its results are
     * written and `loading` is cleared. Once nothing is pending, the results
     * are those of the current term and filters.
     */
    method FetchComplete()
      requires Valid() && inFlight != []
      modifies this
      ensures Valid()
      ensures !loading
      ensures results == FilterResults(data, old(inFlight[0]).term, old(inFlight[0]).filters)
      ensures inFlight == old(inFlight[1..]) && armed == old(armed)
      ensures term == old(term) && filters == old(filters) && suggestions == old(suggestions)
      ensures Pending() == [] && term != "" ==> results == FilterResults(data, term, filters)
    {
      var q := inFlight[0];
      assert Pending() == [q] + inFlight[1..] + armed;
      results := FilterResults(data, q.term, q.filters);
      loading := false;
      inFlight := inFlight[1..];
    }
  }
}
