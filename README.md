# Search widget: a verified model of its filter, suggestions and effects

The repository holds two near-identical React versions of one client-side
search widget, `serach.js` and `SearchInterface.jsx`. The widget keeps a
search term, a filter object (`category`, `sortBy`, `itemsPerPage`), a
result list, a suggestion list and a `loading` flag. It works over a
hard-coded set of three documents. This project models the logic the two
files share, once:

- `Text` (text.dfy): `toLowerCase` for ASCII letters and `includes` as a
  substring test, with `ContainsIff` tying the recursive test to "occurs at
  some position".
- `Sequences` (sequences.dfy): `Array.prototype.filter` and `slice(0, n)`.
  `FilterSelectsExactly` proves that a filter keeps exactly the passing
  elements, in their original order.
- `Search` (search.dfy): the `Doc` record, the `Filters` record, the sample
  data, the result filter `FilterResults` run by `fetchSearchResults`, and
  the autocomplete list `Suggestions`.
- `SampleSearches` (samples.dfy): sample searches over the sample texts,
  worked out.
- `SearchComponent` (component.dfy): the class `SearchInterface`. Its fields
  are the component's state. Its methods are the input handlers, the two
  effects and the two halves of a fetch.
- `Scenarios` (scenarios.dfy): short runs of user actions and timer events
  against the class.

Timers are not modelled. Each run of the search effect with a non-empty term
"arms" a query (`armed`). `FetchStart` stands for the oldest debounce timer
firing: it sets `loading` and moves that query to `inFlight`.
`FetchComplete` stands for the oldest simulated latency ending: it writes
that query's results and clears `loading`. Every timer has the same 300 ms
delay and every fetch the same 500 ms latency, so both queues are served
oldest first. User actions and the two timer events may interleave in any
order.

lodash's `debounce` is trailing-edge: calling the same debounced function
again restarts its timer and drops the pending call. In both files, though,
`debouncedSearch` is a `const` created in the component body. It is
therefore rebuilt on every render, and each effect run calls a fresh
debounced function with its own timer. Nothing is ever cancelled, so
`armed` grows by one query per effect run (see
`Scenarios.TypeJavaLetterByLetter`).

Two React details are modelled explicitly:
- Setting the term to the value it already has does not re-render, so no
  effect runs (`SetTerm`).
- Every filter change builds a new object with `{...filters, …}`, so the
  search effect runs even when the value is unchanged (`SetCategory`,
  `SetSortBy`).

## Source correspondence

The two files hold the same logic at these lines; the `## Model` table cites
one of them per member.

| concern | serach.js | SearchInterface.jsx |
|---|---|---|
| state | 13-21 | 6-14 |
| sample data | 24-28 | 16-20 |
| `fetchSearchResults` | 31-45 | 22-31 |
| debounced search | 48-50 | 33-35 |
| search effect | 53-59 | 37-43 |
| suggestion effect | 62-72 | 45-55 |
| term input | 87 | 65 |
| suggestion click | 101 | 76 |
| category select | 114 | 87 |
| sort select | 124 | 96 |

## Model

| member | source | states |
|---|---|---|
| Text.LowerChar | serach.js:39-40 | the result is never an upper-case ASCII letter; an upper-case letter maps to its lower-case form, anything else is unchanged |
| Text.Lower | serach.js:39-40 | `toLowerCase` keeps the length and lower-cases each character in place |
| Text.LowerIdempotent | serach.js:39-40 | lower-casing a lower-cased string changes nothing |
| Text.LowerAppend | serach.js:39-40 | lower-casing distributes over concatenation |
| Text.LetterNotInLower | serach.js:39-40 | a letter missing in both cases from a string is missing from its lower-cased form |
| Text.Contains | serach.js:39-40 | `includes`: the empty string is contained in every text, and a contained string is never longer than the text |
| Text.ContainsIgnoringCase | serach.js:39-40 | `a.toLowerCase().includes(b.toLowerCase())` holds exactly when the lower-cased needle occurs at some position of the lower-cased text; the empty needle is always contained; a contained needle is never longer than the text |
| Text.ContainsIff | serach.js:39-40 | the `includes` test holds exactly when the needle occurs at some position of the text |
| Text.ContainsPiece | serach.js:39-40 | a text that contains a string contains every piece of it |
| Text.ContainsHasChars | serach.js:39-40 | every character of a contained string occurs in the text |
| Text.ContainsIgnoringCaseSelf | serach.js:101 | a title contains itself, ignoring case |
| Text.ContainsIgnoringCasePart | serach.js:65 | a string contains each of its own parts, ignoring case |
| Sequences.Filter | serach.js:37-41 | the filter keeps only elements of the input that pass, keeps every element that passes, and is never longer than the input |
| Sequences.FilterSelectsExactly | SearchInterface.jsx:25-28 | the filter result is the input at the strictly increasing positions that pass, and those positions are exactly the passing ones |
| Sequences.FilterAppend | serach.js:37-41 | an element added at the end is kept exactly when it passes, after the earlier results |
| Sequences.FilterCongruent | serach.js:37-41 | two tests that agree on every element give the same result |
| Sequences.FilterIdempotent | serach.js:37-41 | filtering a filtered list again with the same test changes nothing |
| Sequences.Take | serach.js:67 | `slice(0, n)` is a prefix of the input of length `min(n, length)` |
| Search.Matches | serach.js:38-40 | the empty term matches exactly the documents of the selected category (every document under `all`); a matching document has a title or a content at least as long as the term |
| Search.FilterResults | serach.js:37-41 | every result comes from the data, has the selected category unless it is `all`, and contains the term in its title or content, ignoring case; every matching document is a result |
| Search.FilterResultsInDataOrder | SearchInterface.jsx:25-28 | the results are the data at increasing positions, and those are exactly the positions of matching documents: data order is kept and nothing matching is left out |
| Search.ResultsDependOnlyOnTermAndCategory | SearchInterface.jsx:26 | two filter settings with the same category give the same results for the same term |
| Search.SortByIgnored | serach.js:124 | changing `sortBy` leaves the results and their order unchanged |
| Search.FilterResultsIdempotent | serach.js:37-41 | filtering the results again with the same term and filters changes nothing |
| Search.FilterResultsAppend | SearchInterface.jsx:25-28 | a document added at the end of the data is a result exactly when it matches |
| Search.MissingLetterExcludes | serach.js:38-40 | a document lacking, in both cases, a letter of the term in its title and content is no result |
| Search.LongerTermNarrowsResults | serach.js:39-40 | every result for a term extended by more characters is a result for the shorter term |
| Search.Titles | serach.js:66 | `map(item => item.title)` keeps the length and takes each document's title in place |
| Search.MatchingTitles | serach.js:64-66 | no more titles than documents; each is the title of a document of the data that contains the term, ignoring case; the title of every such document is among them |
| Search.Suggestions | serach.js:62-72 | at most five suggestions; none for a term of two characters or fewer; otherwise a prefix of the matching titles of length `min(5, matches)`; each suggestion is a title from the data that contains the term, ignoring case |
| Search.SuggestionsInDataOrder | SearchInterface.jsx:47-50 | there are `min(5, n)` suggestions for `n` documents whose title contains the term, ignoring case, and suggestion `k` is the title of the `k`-th of them in data order |
| Search.SuggestionsAreResultTitles | serach.js:64-67 | with category `all`, every suggestion is the title of a search result for the same term |
| Search.ChosenSuggestionIsFound | serach.js:101 | a chosen suggestion comes from a document that a search for that title finds, unless the category excludes it |
| SampleSearches.SampleDataHasSampleTexts | serach.js:24-28 | the sample data holds the three sample titles, categories and contents in order |
| SampleSearches.FilterOfThree | serach.js:37-41 | filtering three documents keeps those that pass, in order |
| SampleSearches.JavaInTitle | serach.js:25 | "JavaScript Basics" contains "java", ignoring case |
| SampleSearches.DesignInTitle | serach.js:27 | "Database Design" contains "design", ignoring case |
| SampleSearches.NoJNoJava | serach.js:39-40 | a text without `j` or `J` does not contain "java", ignoring case |
| SampleSearches.JavaFindsFirst | serach.js:24-41 | searching "java" over the sample texts finds only "JavaScript Basics" |
| SampleSearches.JavaSuggestsFirst | serach.js:62-72 | typing "java" over the sample texts suggests only "JavaScript Basics" |
| SampleSearches.XyzFindsNothing | serach.js:24-41 | searching "xyz" over the sample texts finds nothing |
| SampleSearches.DesignInDatabaseFindsThird | serach.js:24-41 | searching "design" in category `database` finds only "Database Design" |
| SearchComponent.SearchInterface.constructor | serach.js:13-21 | the widget starts with an empty term, filters `all`/`relevance`/10, no results, no suggestions, not loading, nothing armed or in flight |
| SearchComponent.SearchInterface.SearchEffect | serach.js:53-59 | an empty term clears the results and arms nothing; any other term arms a query for the current term and filters and leaves the results; `loading` and the fetches in flight are untouched |
| SearchComponent.SearchInterface.SuggestionEffect | SearchInterface.jsx:45-55 | the suggestions become those of the current term; nothing else changes |
| SearchComponent.SearchInterface.SetTerm | serach.js:87 | the term is set and the suggestions follow it; the same term changes nothing else; an empty term clears the results without arming a fetch or touching `loading`; a new non-empty term arms one query |
| SearchComponent.SearchInterface.ChooseSuggestion | serach.js:101 | the term becomes exactly the chosen title, which is the title of a document in the data, and the same effects follow as for typing it |
| SearchComponent.SearchInterface.SetCategory | serach.js:114 | only the category changes in the filters, and the search effect runs again |
| SearchComponent.SearchInterface.SetSortBy | SearchInterface.jsx:96 | only `sortBy` changes in the filters; the search effect runs again, and the results for the current term are the same as before |
| SearchComponent.SearchInterface.FetchStart | SearchInterface.jsx:22-24 | the oldest armed query starts: `loading` is set and the query, whose term is never empty, moves to the fetches in flight |
| SearchComponent.SearchInterface.FetchComplete | SearchInterface.jsx:25-30 | the oldest fetch writes the filtered results for its own term and filters and clears `loading`; once nothing is pending, the results are those of the current term and filters |
| Scenarios.TypeJavaLetterByLetter | serach.js:47-59 | typing "java" one letter at a time arms four fetches, and after they all finish the results are those for "java" |
| Scenarios.ClearThenLateFetch | serach.js:53-59 | clearing the term shows no loading state, yet a fetch armed before the clear later shows "java"'s results under an empty term |
| Scenarios.ChooseJavaSuggestion | SearchInterface.jsx:76 | choosing the one suggestion for "java" sets the term to that title and arms a second query for it |

The class invariant `SearchInterface.Valid` holds after the constructor and
after every handler and timer method (`SetTerm`, `ChooseSuggestion`,
`SetCategory`, `SetSortBy`, `FetchStart`, `FetchComplete`). The two effect
methods are steps inside the handlers and keep only parts of it. It says:
- the suggestions are always those of the current term;
- every result is a document of the data;
- `loading` implies a fetch in flight;
- no armed or in-flight query has an empty term;
- for a non-empty term, either the newest pending query is the current term
  and filters, or nothing is pending and the results are those of the
  current term and filters.

## Left out

- Rendering is not modelled: the JSX, the CSS classes, the `lucide-react`
  icon and the card components. That covers the loading indicator, the
  result cards, the "No results found" message and the suggestion
  drop-down; they show the state and never change it.
- The 300 ms debounce delay and the 500 ms simulated latency are not
  modelled. The two timer events are the methods `FetchStart` and
  `FetchComplete`, and the model allows any interleaving of them with user
  actions. Real timing allows fewer orders; every property proved here
  holds for all of them.
- Only ASCII letters are lower-cased. Unicode case mapping in
  `toLowerCase` (for example of accented letters) is not modelled.
- Search.Suggestions: the length threshold counts characters, while
  JavaScript's `length` counts UTF-16 code units. A term with a character
  outside the Basic Multilingual Plane (an emoji, say) is one unit longer
  in the source, so a two-character term such as an emoji followed by a
  letter gets suggestions in the source and none in the model.
- React's hook machinery (`useState`, `useEffect` dependency tracking,
  batching of state updates) is not modelled. Each effect is a method that
  the handlers call directly.
- Timers that fire after the component unmounts are not modelled.
- `itemsPerPage` is stored in `Filters`, but no control changes it and no
  code reads it. No method sets it.
- SampleSearches: two sample searches are not worked out: "design" in
  category `programming`, and the suggestions for "data". Each needs a
  proof that a long literal text lacks a given substring although it holds
  every letter of it, which is too costly for the prover in this form. The
  searches for "java", for "xyz" and for "design" in `database` are proved.
- Scenarios.ChooseJavaSuggestion: states only the number of armed queries
  and the newest one, not the whole queue, to keep the proof cheap.
