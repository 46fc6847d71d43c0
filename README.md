# MovieExplorer core, modelled in Dafny

MovieExplorer is an iOS app for browsing and searching a movie catalog and keeping a list of
favorites. Three parts of it hold logic that does not depend on the screen. This project models
those three parts and proves properties about them:

- **Movies.dfy** (`Models/Movie.swift`). The immutable `Movie` record and its derived fields:
  `releaseYear` (the first four characters of the release date), and `fullPosterPath` and
  `fullBackdropPath` (an optional path fragment placed after a fixed image base URL).
- **Favorites.dfy** (`Extensions/UserDefaultsFavorites.swift`). The favorites store. It keeps one
  persisted list of movies in one storage slot. Every mutation reads the whole list, changes it,
  and writes the whole list back. Identity is by movie id only. The slot is a datatype
  (`Absent | Undecodable | Stored(list)`). `FavoritesStore` is a class whose methods update that
  slot. The list operations are specified by pure functions (`WithFavorite`, `WithoutId`,
  `Toggled`), and the lemmas about those functions cover idempotence, order, membership and
  unique ids.
- **Search.dfy** (`Controllers/SearchViewController.swift`). The browse/search screen's
  pagination state machine. `SearchController` is a class with the screen's fields (`movies`,
  `currentPage`, `isLoadingMore`, `canLoadMore`, `searchMode`, `currentSearchQuery`,
  `currentYear`). Each of its methods is proved equal to a transition function over a
  `PagerState` value. The network is abstract: starting a load returns the `Request` it would
  issue (mode, query, page). A completion is a separate call of `HandleMoviesResult` with a
  `Result` of a `MovieResponse` or a `NetworkError`.
- **Wrappers.dfy**. Swift's `Optional` and `Result` as datatypes.

Points of the source that the model keeps on purpose:

- `handleMoviesResult`'s parameter `isLoadingMore` shadows the field of the same name. Its
  branches test the parameter, which says which kind of request the completion answers. The
  Dafny method keeps the parameter name and writes the field as `this.isLoadingMore`.
- `resetPagination` does not clear `movies`. After a failed fresh load, the previous list stays
  (`FreshFailureKeepsOldList`).
- `loadCurrentYearMovies` does not clear `currentSearchQuery`.
- Completions are independent events, and nothing checks that a completion belongs to the
  current session. A fresh load resets `isLoadingMore` while a load-more may still be in flight.
  When that late load-more fails, the new session's page drops to 0
  (`StaleFailureRewindsNewSession`). When it succeeds, its page is appended to the new session's
  list (`StaleSuccessAppendsToNewSession`). Page numbers stay consistent only when every
  load-more completion arrives while the flag is still set (`StepsKeepConsistent`).
- `removeFromFavorites` always writes the list back, even when nothing was removed. If the slot
  was absent or held undecodable data, it ends up holding the empty list.
  `addToFavorites` likewise overwrites undecodable data with the new one-movie list.

Three behaviours a reader might not expect, each kept as the code has it:

- A fresh search or browse does not empty the accumulated list before its request. The list is
  replaced only when the response succeeds.
- "Remove an absent id is a no-op" holds for the decoded list, not for the stored slot.
- No stale completion is discarded.

## Model

| member | source | states |
|---|---|---|
| `Movies.ReleaseYear` | MovieExplorer/Models/Movie.swift:26-28 | the year is a prefix of the release date of length min(4, its length); empty when the date is empty |
| `Movies.ReleaseYearSplitsDate` | MovieExplorer/Models/Movie.swift:26-28 | a date of four or more characters gives a four-character year that, followed by the rest of the date, is the date |
| `Movies.Prefixed` | MovieExplorer/Models/Movie.swift:30-38 | no fragment gives no URL; otherwise the URL starts with the base and the rest after the base is the fragment |
| `Movies.FullPosterPath` | MovieExplorer/Models/Movie.swift:30-33 | nil exactly when `posterPath` is nil; otherwise starts with the w500 base URL |
| `Movies.FullBackdropPath` | MovieExplorer/Models/Movie.swift:35-38 | nil exactly when `backdropPath` is nil; otherwise starts with the w1280 base URL |
| `Movies.StripBase` | MovieExplorer/Models/Movie.swift:32 | removing a base URL succeeds exactly when the URL starts with it, and base plus remainder is the URL |
| `Movies.PosterPathRoundTrip` | MovieExplorer/Models/Movie.swift:30-33 | stripping the w500 base from the full poster URL recovers `posterPath` |
| `Movies.BackdropPathRoundTrip` | MovieExplorer/Models/Movie.swift:35-38 | stripping the w1280 base from the full backdrop URL recovers `backdropPath` |
| `Movies.FullPosterPathInjective` | MovieExplorer/Models/Movie.swift:30-33 | two movies have equal full poster paths exactly when their poster fragments are equal |
| `Movies.PosterNeverBackdrop` | MovieExplorer/Models/Movie.swift:30-38 | a full poster URL never equals a full backdrop URL, whatever the fragments |
| `Favorites.WithoutId` | MovieExplorer/Extensions/UserDefaultsFavorites.swift:51 | `removeAll` by id: the id is absent afterwards, a movie is kept exactly when it was present with another id, and the list does not grow |
| `Favorites.WithFavorite` | MovieExplorer/Extensions/UserDefaultsFavorites.swift:39-45 | after an add the id is present, the old list is a prefix of the new one, at most one entry is added, the list is unchanged exactly when the id was present (tested by `HasId`, the `contains { $0.id == movie.id }` of :39), the appended entry is the movie itself, and no other id appears |
| `Favorites.Toggled` | MovieExplorer/Extensions/UserDefaultsFavorites.swift:56-62 | toggling negates membership of the movie's id and leaves every other id's membership alone |
| `Favorites.HasIdIn` | MovieExplorer/Extensions/UserDefaultsFavorites.swift:31-34 | the id test `HasId` matches "some stored movie has this id", no other field compared |
| `Favorites.WithoutAbsentId` | MovieExplorer/Extensions/UserDefaultsFavorites.swift:49-52 | removing an id that is not present leaves the list exactly as it was |
| `Favorites.WithoutIdAppend` | MovieExplorer/Extensions/UserDefaultsFavorites.swift:51 | removal distributes over concatenation, so kept entries stay in their original order |
| `Favorites.WithoutIdKeepsUnique` | MovieExplorer/Extensions/UserDefaultsFavorites.swift:51 | removal preserves "ids are unique" |
| `Favorites.WithFavoriteKeepsUnique` | MovieExplorer/Extensions/UserDefaultsFavorites.swift:39-45 | adding preserves "ids are unique" |
| `Favorites.ToggledKeepsUnique` | MovieExplorer/Extensions/UserDefaultsFavorites.swift:56-62 | toggling preserves "ids are unique" |
| `Favorites.AddIdempotent` | MovieExplorer/Extensions/UserDefaultsFavorites.swift:39-42 | a second add of the same id, with any record, changes nothing |
| `Favorites.ToggleTwiceRestoresMembership` | MovieExplorer/Extensions/UserDefaultsFavorites.swift:56-62 | toggling twice restores whether the id is a favorite |
| `Favorites.ToggleTwiceAbsent` | MovieExplorer/Extensions/UserDefaultsFavorites.swift:56-62 | toggling an absent movie twice restores the list exactly |
| `Favorites.ToggleTwicePresent` | MovieExplorer/Extensions/UserDefaultsFavorites.swift:56-62 | toggling a present movie twice removes its entries and appends the toggled record at the end |
| `Favorites.ToggleTwiceReorders` | MovieExplorer/Extensions/UserDefaultsFavorites.swift:56-62 | toggling the first of two favorites twice turns [a, b] into [b, a]: the list need not be restored |
| `Favorites.FavoritesStore.GetFavoriteMovies` | MovieExplorer/Extensions/UserDefaultsFavorites.swift:16-20 | the stored list; an absent or undecodable slot yields the empty list (the helper `Decoded` is this reading as a function of the slot, :17-19) |
| `Favorites.FavoritesStore.SaveFavoriteMovies` | MovieExplorer/Extensions/UserDefaultsFavorites.swift:22-29 | stores the whole list; when encoding fails the previous slot is untouched |
| `Favorites.FavoritesStore.IsFavorite` | MovieExplorer/Extensions/UserDefaultsFavorites.swift:31-34 | true exactly when some stored movie has the movie's id |
| `Favorites.FavoritesStore.AddToFavorites` | MovieExplorer/Extensions/UserDefaultsFavorites.swift:36-47 | slot unchanged when the id is present (or encoding fails); otherwise stores the old list followed by the movie |
| `Favorites.FavoritesStore.RemoveFromFavorites` | MovieExplorer/Extensions/UserDefaultsFavorites.swift:49-54 | always writes back the list without the id (slot unchanged only when encoding fails); afterwards the movie is not a favorite |
| `Favorites.FavoritesStore.ToggleFavorite` | MovieExplorer/Extensions/UserDefaultsFavorites.swift:56-62 | stores the toggled list, so membership of the movie's id is negated |
| `Search.Reset` | MovieExplorer/Controllers/SearchViewController.swift:181-185 | page 1, more pages assumed, no load-more in flight; movies, mode and query unchanged |
| `Search.BrowseYear` | MovieExplorer/Controllers/SearchViewController.swift:133-144 | leaves search mode, resets pagination, keeps movies and the old query, requests page 1 of the year |
| `Search.StartSearch` | MovieExplorer/Controllers/SearchViewController.swift:146-158 | enters search mode with the query, resets pagination, keeps movies, requests page 1 of the query |
| `Search.LoadMore` | MovieExplorer/Controllers/SearchViewController.swift:160-178 | with a load-more in flight or no pages left: nothing changes and no request; otherwise sets the flag, increments the page by one and requests that page in the current mode (the helper `PageRequest` is the mode choice of :173-177) |
| `Search.Completed` | MovieExplorer/Controllers/SearchViewController.swift:187-216 | mode and query never change; a load-more completion clears the flag, a fresh one leaves flag and page alone; failures keep movies, a load-more failure steps the page back; a fresh success replaces movies with the results and sets canLoadMore to page < totalPages; a load-more success keeps the old list as a prefix, appends unless page >= totalPages, which drops the results and clears canLoadMore |
| `Search.Scrolled` | MovieExplorer/Controllers/SearchViewController.swift:267-275 | a request is issued exactly when near the bottom with more pages and nothing in flight; otherwise nothing changes |
| `Search.TrimStart` | MovieExplorer/Controllers/SearchViewController.swift:282 | the result is a suffix of the text, only whitespace was cut, and it does not start with whitespace |
| `Search.TrimEnd` | MovieExplorer/Controllers/SearchViewController.swift:282 | the result is a prefix of the text, only whitespace was cut, and it does not end with whitespace |
| `Search.Trim` | MovieExplorer/Controllers/SearchViewController.swift:282 | a non-empty trimmed text begins and ends with a non-whitespace character; whitespace is `IsWhitespace`, the character set `.whitespaces` (tab and the Unicode space separators, no line breaks) |
| `Search.TrimEndOfSuffix` | MovieExplorer/Controllers/SearchViewController.swift:282 | trimming the end of a suffix is a slice of the text followed only by whitespace |
| `Search.TrimIsSlice` | MovieExplorer/Controllers/SearchViewController.swift:282 | the trimmed text is a contiguous slice of the text with only whitespace before and after it |
| `Search.TrimEmptyIff` | MovieExplorer/Controllers/SearchViewController.swift:282-284 | the trimmed text is empty exactly when the text is all whitespace |
| `Search.TrimIdempotent` | MovieExplorer/Controllers/SearchViewController.swift:282 | trimming twice equals trimming once |
| `Search.TrimUntrimmed` | MovieExplorer/Controllers/SearchViewController.swift:282 | text without whitespace at its ends is left unchanged |
| `Search.SubmittedQuery` | MovieExplorer/Controllers/SearchViewController.swift:282-284 | a query is submitted exactly when the text exists and its trimmed form is non-empty, and it is that trimmed form |
| `Search.SearchClicked` | MovieExplorer/Controllers/SearchViewController.swift:280-286 | blank or missing text is a no-op; otherwise search mode with the trimmed query at page 1 and a request for page 1 |
| `Search.TextChanged` | MovieExplorer/Controllers/SearchViewController.swift:288-292 | text changing to empty returns to browse mode at page 1 and requests the year's page 1, keeping movies; any other text changes nothing |
| `Search.LoadMoreFailureRestores` | MovieExplorer/Controllers/SearchViewController.swift:160-216 | a load-more request followed by its failure gives back exactly the state before the request |
| `Search.LoadMoreSuccessAppends` | MovieExplorer/Controllers/SearchViewController.swift:160-203 | a load-more followed by a success short of the last page yields old movies followed by the results, one page further, flag cleared |
| `Search.LastPageStopsLoading` | MovieExplorer/Controllers/SearchViewController.swift:161-207 | after any completion reporting page >= totalPages, fresh or load-more and whatever is in flight, scrolling issues no request and changes nothing |
| `Search.FreshFailureKeepsOldList` | MovieExplorer/Controllers/SearchViewController.swift:133-216 | a fresh search or browse that fails leaves the previous session's movies in place |
| `Search.StepsKeepConsistent` | MovieExplorer/Controllers/SearchViewController.swift:133-216 | every step keeps pages >= 1 (and >= 2 while a load-more is in flight), provided load-more completions arrive only while the flag is set |
| `Search.StaleFailureRewindsNewSession` | MovieExplorer/Controllers/SearchViewController.swift:146-213 | a load-more failing after a new search has started leaves the new session at page 0, and the next load-more requests page 1 again |
| `Search.StaleSuccessAppendsToNewSession` | MovieExplorer/Controllers/SearchViewController.swift:146-201 | a load-more succeeding after a new search has loaded appends the old session's page to the new results |
| `Search.SubmitUntrimmed` | MovieExplorer/Controllers/SearchViewController.swift:280-286 | submitting text with no whitespace at its ends searches for exactly that text |
| `Search.SearchScenario` | MovieExplorer/Controllers/SearchViewController.swift:133-292 | submit a query, get page 1 of 3 (20 movies, more pages), scroll to get page 2 (40 movies, in order), clear the text: browse page 1 is requested and the 40 stay until it answers |
| `Search.SearchController.constructor` | MovieExplorer/Controllers/SearchViewController.swift:46-57 | no movies, page 1, nothing in flight, more pages assumed, browse mode, empty query |
| `Search.SearchController.ViewDidLoad` | MovieExplorer/Controllers/SearchViewController.swift:60-66 | the screen starts with a year browse from page 1 |
| `Search.SearchController.ResetPagination` | MovieExplorer/Controllers/SearchViewController.swift:181-185 | the new fields are `Reset` of the old ones; movies unchanged |
| `Search.SearchController.LoadCurrentYearMovies` | MovieExplorer/Controllers/SearchViewController.swift:133-144 | new fields and request are `BrowseYear` of the old fields |
| `Search.SearchController.SearchMovies` | MovieExplorer/Controllers/SearchViewController.swift:146-158 | new fields and request are `StartSearch` of the old fields and the query |
| `Search.SearchController.LoadMoreMovies` | MovieExplorer/Controllers/SearchViewController.swift:160-178 | new fields and request are `LoadMore` of the old fields |
| `Search.SearchController.HandleMoviesResult` | MovieExplorer/Controllers/SearchViewController.swift:187-216 | new fields are `Completed` of the old fields, the result and the completion's own flag |
| `Search.SearchController.ScrollViewDidScroll` | MovieExplorer/Controllers/SearchViewController.swift:267-275 | new fields and request are `Scrolled` of the old fields |
| `Search.SearchController.SearchBarSearchButtonClicked` | MovieExplorer/Controllers/SearchViewController.swift:280-286 | new fields and request are `SearchClicked` of the old fields and the text |
| `Search.SearchController.SearchBarTextDidChange` | MovieExplorer/Controllers/SearchViewController.swift:288-292 | new fields and request are `TextChanged` of the old fields and the text |

## Left out

- Screens and views: layout, table data source and delegate, cells, alerts (`showError`), the
  activity indicators, the bottom loader and `reloadData`. They are presentation only.
- Navigation and the detail, about and favorites screens. The favorites screen shows only a
  placeholder label.
- The network service, image loader and image view extension. These are I/O and a platform
  cache. The controller calls `getMoviesForYear` and a paged `searchMovies(query:page:year:)`,
  which the network service file does not define. So requests and responses are modelled
  abstractly as `Request`, `MovieResponse` and `NetworkError`.
- JSON encoding and decoding. Storage holds decoded values. A blob that fails to decode is the
  slot case `Undecodable`.
- Favorites.FavoritesStore.SaveFavoriteMovies: whether encoding succeeds is the `encoded`
  parameter of each writing call, not a function of the list, because the encoder is library code.
  The same holds for `AddToFavorites`, `RemoveFromFavorites` and `ToggleFavorite`.
- Dispatch to the main queue and the weak capture of the controller. A completion is a plain
  method call. A completion that arrives after the screen is gone is dropped in the source and
  is not modelled.
- The current year comes from the system clock. It is the constructor's `year` parameter.
- Scroll geometry. The floating-point threshold test becomes the boolean `nearBottom`.
- The floating-point movie fields `voteAverage` and `popularity` are not part of `Movie`.
- Movies.ReleaseYear: Swift's `prefix(4)` counts grapheme clusters, while the model counts
  Unicode scalar values (`char`).
- Search.Trim: `CharacterSet.whitespaces` is modelled as tab plus the Unicode space separators
  listed in `IsWhitespace`.
- Search.LoadMore: `currentPage` is an unbounded integer, so Swift's trap on 64-bit overflow of
  `currentPage += 1` is not modelled.
- Logging with `print` is not modelled.
- `totalResults` is carried in `MovieResponse` but, as in the source, never read.
