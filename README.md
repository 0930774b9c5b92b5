# Short-flix gallery screen, modelled in Dafny

This project models the client-side state of the Short-flix gallery screen
(`Home` in `page/index.tsx`): a catalog of short videos loaded once from
`/api/shorts`, a free-text search box, a row of tag buttons, a like button per
card, a player panel, and a main area that shows a loading message,
"No videos found." or the grid of visible cards.

- `Text` (text.dfy): `trim` (ECMAScript white-space and line terminators),
  `toLowerCase` (ASCII letters) and `includes` (a left-to-right search, proved
  equal to "occurs at some index").
- `Seqs` (seqs.dfy): `Array.prototype.filter` and the de-duplication performed
  by `Array.from(new Set(xs))`, with their order, multiplicity, fusion,
  commutation and idempotence lemmas.
- `Catalog` (catalog.dfy): the `Short` entry, the filter engine (`Visible`,
  the rule "query branch AND tag branch") and the tag list `AllTags`.
- `Likes` (likes.dfy): the like record and `toggleLike`.
- `Screen` (screen.dfy): the `Home` class with the seven state fields and one
  method per transition (fetch outcome, typing, like, tag button, "All",
  play, close), the `applyFilters` effect as a method, the invariant `Valid`
  the transitions keep, the main-area view and the tag-button state machine.
- `Scenarios` (scenarios.dfy): a two-entry catalog ("Cat Fun", "Dog Run")
  searched and filtered, a failed fetch, a like clicked twice, and two entries
  played in turn.

The network fetch is an input: `Home.Resolve` receives its outcome
(`Fetched(data)` or `FetchFailed`) and requires that the screen is still
loading: the fetch runs once, on mount, and settles once, and no other
transition touches `loading`, so it becomes false exactly once. React effects are modelled as run right
after the state change that triggers them: every transition that changes `q`,
`shorts` or `selectedTag` ends by calling `ApplyFilters`, so `Valid` includes
`filtered == Visible(shorts, q, selectedTag)`. On a successful fetch the code
first sets `filtered` to the data and the filter effect then recomputes it; the
model keeps both steps, so when a query was typed while loading, the visible
list ends filtered by that query rather than equal to the data.

`selectedTag` is `Option<string>`; it counts as set only when it is neither
null nor the empty string (`if (selectedTag)` tests JavaScript truthiness),
so a tag button for an empty tag filters nothing (`Catalog.EmptyTagIsNoTag`).

## Model

| member | source | states |
|---|---|---|
| `Text.TrimStartIsSuffix` | page/index.tsx:49 | leading trim keeps the suffix after the longest blank prefix; what remains does not start with white space |
| `Text.TrimEndIsPrefix` | page/index.tsx:49 | trailing trim keeps the prefix before the longest blank suffix; what remains does not end with white space |
| `Text.TrimEmptyIffBlank` | page/index.tsx:49 | `q.trim()` is empty exactly when `q` is all white space |
| `Text.TrimIdempotent` | page/index.tsx:49 | trimming twice equals trimming once |
| `Text.ToLowerIdempotent` | page/index.tsx:49 | lower-casing twice equals lower-casing once and leaves no upper-case ASCII letter |
| `Text.ContainsIffOccurs` | page/index.tsx:55-56 | the `includes` search succeeds exactly when the term occurs at some index of the string |
| `Seqs.Filter` | page/index.tsx:53-61 | `filter` keeps exactly the elements satisfying the predicate: every kept element is from the input and passes, every passing input element is kept |
| `Seqs.FilterIsSubsequence` | page/index.tsx:50-62 | filtering yields a subsequence of the input: nothing is reordered |
| `Seqs.FilterCounts` | page/index.tsx:53-61 | each passing value is kept as many times as it occurs in the input, each failing value not at all |
| `Seqs.FilterFuse` | page/index.tsx:52-62 | two filters in a row equal one filter by the conjunction |
| `Seqs.FilterCommute` | page/index.tsx:52-62 | two filters may be applied in either order |
| `Seqs.FilterIdempotent` | page/index.tsx:52-62 | filtering a filter's output again by the same predicate changes nothing |
| `Seqs.Dedup` | page/index.tsx:71 | `Array.from(new Set(xs))` has no duplicates and holds exactly the values of `xs` |
| `Seqs.DedupFirstOccurrenceOrder` | page/index.tsx:71 | the de-duplicated values are listed in the order of their first occurrence |
| `Catalog.SomeTagContainsIff` | page/index.tsx:56 | `tags.some(...)` holds exactly when some lower-cased tag includes the term |
| `Catalog.QueryTermOfPlainQuery` | page/index.tsx:49 | a query with no surrounding white space and no upper-case letter is its own search term |
| `Catalog.VisibleSound` | page/index.tsx:52-62 | every visible entry is a catalog entry whose title or some tag includes the term (or the term is empty) and that carries the selected tag (or no tag is set) |
| `Catalog.VisibleComplete` | page/index.tsx:52-62 | every catalog entry meeting both branches is visible |
| `Catalog.VisibleKeepsOrder` | page/index.tsx:50-62 | the visible list is a subsequence of the catalog in catalog order |
| `Catalog.VisibleCounts` | page/index.tsx:52-62 | an admitted entry is visible as often as the catalog holds it; the others not at all |
| `Catalog.BlankQueryShowsAll` | page/index.tsx:49-52 | an empty or all-white-space query with no tag set shows the whole catalog, unchanged |
| `Catalog.EmptyTagIsNoTag` | page/index.tsx:60 | a selected empty tag filters exactly like no selected tag |
| `Catalog.VisibleIdempotent` | page/index.tsx:52-62 | applying the filter engine to its own output changes nothing |
| `Catalog.QueryAndTagCommute` | page/index.tsx:52-62 | the query filter and the tag filter commute |
| `Catalog.StagedFilteringIsVisible` | page/index.tsx:48-64 | the staged reassignment of `out` (query filter only for a non-empty term, tag filter only for a truthy tag) yields the visible list |
| `Catalog.TagsOfMembers` | page/index.tsx:71 | `flatMap` over the entries' tags holds exactly the tags of the entries |
| `Catalog.AllTagsCharacterization` | page/index.tsx:71 | `allTags` has no duplicates, contains every tag of every entry and nothing else, in first-appearance order |
| `Likes.Toggle` | page/index.tsx:67-69 | toggling flips the flag of `id` (absent reads as false and becomes true), adds `id` as a key, and leaves every other key unchanged |
| `Likes.ToggleTwice` | page/index.tsx:67-69 | toggling twice restores the flag's truthiness, leaving `id` present |
| `Likes.TogglesCommute` | page/index.tsx:67-69 | toggles of two items commute |
| `Screen.ViewOf` | page/index.tsx:142-147 | the main area shows the loading message exactly while loading, "No videos found." exactly when loaded with nothing visible, and otherwise the grid of the visible list |
| `Screen.NextTag` | page/index.tsx:104 | clicking tag `t` clears the selection exactly when `t` was selected; otherwise `t` becomes selected |
| `Screen.NextTagTwice` | page/index.tsx:104 | on the two states "none" and "`t`", clicking `t` twice returns to the start |
| `Screen.Home.constructor` | page/index.tsx:12-18 | initial state: empty catalog and visible list, loading, empty query, nothing playing, no likes, no tag |
| `Screen.Home.ApplyFilters` | page/index.tsx:43-65 | the effect sets `filtered` to the visible list of the current catalog, query and tag, and changes nothing else |
| `Screen.Home.Resolve` | page/index.tsx:20-30 | the fetch outcome sets the catalog to the data (empty on failure), ends loading, recomputes the visible list (the whole data for a blank query), shows "No videos found." on failure, keeps the invariant |
| `Screen.Home.SetQuery` | page/index.tsx:83-86 | typing sets `q` and recomputes the visible list; nothing else changes |
| `Screen.Home.ToggleLike` | page/index.tsx:164 | a like button replaces `likes` by its toggle and changes nothing else |
| `Screen.Home.ClickTag` | page/index.tsx:101-104 | a tag button moves `selectedTag` by `NextTag`, recomputes the visible list, keeps the other fields and the invariant |
| `Screen.Home.ClickAll` | page/index.tsx:94-95 | "All" clears the tag selection and recomputes the visible list |
| `Screen.Home.Select` | page/index.tsx:148-153 | clicking a visible card plays it, replacing any earlier selection; the player holds a catalog entry |
| `Screen.Home.Close` | page/index.tsx:125 | Close empties the player |
| `Scenarios.SearchDog` | page/index.tsx:49-57 | on the catalog "Cat Fun" (cats, funny) and "Dog Run" (dogs), the query "dog" shows only "Dog Run" |
| `Scenarios.SelectCats` | page/index.tsx:60-62 | the tag "cats" with an empty query shows only "Cat Fun" |
| `Scenarios.SearchUn` | page/index.tsx:52-57 | the query "un" matches inside "fun" and "run" and shows both, in catalog order |
| `Scenarios.FailedFetch` | page/index.tsx:28-29 | a failed fetch leaves an empty catalog, loading over, and "No videos found." |
| `Scenarios.LikeTwice` | page/index.tsx:67-69 | one item is liked after the first click and not after the second |
| `Scenarios.PlayTwoThenClose` | page/index.tsx:125 | playing "Cat Fun" then "Dog Run" leaves only "Dog Run" playing; Close empties the player |
| `Scenarios.SearchOnScreen` | page/index.tsx:142-148 | typing "dog" on the loaded screen shows a grid of "Dog Run" alone |

## Left out

- The network request, `r.json()` and the promise chain (page/index.tsx:22-29): only their outcome enters, as the argument of `Home.Resolve`. A response that parses to something other than an array of entries is not modelled; the catalog is a sequence of well-formed entries.
- Reading and writing `localStorage` and the JSON encoding of `likes` (page/index.tsx:32-41): browser storage and library serialisation. Like keys are integers; JSON object keys are strings, and stored values other than booleans are not modelled.
- React scheduling: effects run right after the state change that triggers them, one at a time; batching, re-render timing and the dependency arrays themselves are not modelled.
- `Text.ToLower`: only ASCII letters are folded; JavaScript's `toLowerCase` folds all of Unicode, so non-ASCII titles and tags may match differently.
- `trim` is modelled exactly on code points; JavaScript strings are UTF-16, so the model does not see surrogate pairs.
- The markup, styles, the `<video>` elements, the like-button text ("★ Liked" / "☆ Like") and event propagation (page/index.tsx:73-194).
- app/page.tsx: a second screen holding a catalog list (app/page.tsx:13) and a select/close player (app/page.tsx:39, 59), the same machine as `Home.Select` and `Home.Close`; its fetch logs a failure and leaves the list as it was (app/page.tsx:22-24) rather than emptying it.
