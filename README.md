# BrowserSearch popup: query and filter

A Dafny model of the search step of the BrowserSearch extension popup
(`BrowserSearch/popup.js`). Typing into the search box lowercases the value,
empties the result list and, when the lowercased value is non-empty, asks the
tab provider and the bookmark provider for candidates. Each provider's
callback walks its array in order and appends one row (title as link text,
URL as link target) for every tab or bookmark whose lowercased title or
lowercased URL contains the query. A bookmark folder has no URL and is
matched on its title alone.

- `text.dfy`, module `Text`: ASCII lowercasing (`Lower`) and substring search
  (`Contains`). Each has an independent reference definition: `CaseVariants`
  for "differs only in letter case" and `Occurs` for "occurs at some
  position". `CaseVariantsIff` connects `Lower` to its reference, and
  `Contains` carries the connection to `Occurs` in its own contract.
- `popup.dfy`, module `Popup`: the provider items (`Tab`, `Bookmark`), the
  rows (`Row`) and the match predicates. The specification functions
  `TabRows` and `BookmarkRows` give the rows one callback appends.
  `AfterInput` gives the list after one input event whose two callbacks both
  complete. The class `Popup` holds the result list as a `seq<Row>`. Its
  methods are the input handler, the two callbacks (loops over the provider's
  array, which is passed in as a parameter) and `AddResult`.

The query is lowercased but not trimmed, so a blank-only query is searched.
Rows are not merged by URL, so a URL found by both providers appears twice.

## Model

| member | source | states |
|---|---|---|
| `Text.LowerChar` | BrowserSearch/popup.js:6 | an ASCII capital becomes the lowercase letter 32 code points higher; every other character is kept; the result is never an ASCII capital |
| `Text.Lower` | BrowserSearch/popup.js:6 | `toLowerCase` keeps the length and lowercases every character in place |
| `Text.LowerIsLowerCase` | BrowserSearch/popup.js:6 | a lowercased string has no ASCII capital left |
| `Text.LowerIdempotent` | BrowserSearch/popup.js:6 | lowercasing an already lowercased query (as both filters receive it) changes nothing |
| `Text.LowerEmptyIff` | BrowserSearch/popup.js:6-9 | the lowercased value is empty exactly when the typed value is empty |
| `Text.LowerFixesNonUpper` | BrowserSearch/popup.js:6 | a string without ASCII capitals (for example blanks only) is its own lowercase form: nothing is trimmed |
| `Text.SameIgnoringCaseIff` | BrowserSearch/popup.js:6 | two characters lowercase alike if and only if they differ at most in ASCII letter case |
| `Text.CaseVariantsIff` | BrowserSearch/popup.js:6 | two strings lowercase alike if and only if they differ at most in ASCII letter case |
| `Text.Contains` | BrowserSearch/popup.js:18 | `includes` holds if and only if the query occurs at some position of the text |
| `Text.ContainsEmpty` | BrowserSearch/popup.js:28 | the empty string occurs everywhere; an empty text contains only the empty string |
| `Popup.TabMatches` | BrowserSearch/popup.js:18 | a tab matches if and only if the query occurs in its lowercased title or in its lowercased URL; the empty query matches every tab |
| `Popup.HasUrl` | BrowserSearch/popup.js:28 | the `bookmark.url &&` guard lets the URL through only when it is present, and rejects a present URL only when it is empty |
| `Popup.BookmarkMatches` | BrowserSearch/popup.js:28 | a bookmark without a URL matches if and only if the query occurs in its lowercased title; for a non-empty query, a bookmark matches if and only if the query occurs in its lowercased title or in its lowercased URL when it has one |
| `Popup.AfterInput` | BrowserSearch/popup.js:5-13 | after an empty input and both callbacks there are no rows; after a non-empty input the rows are exactly the tab rows and the bookmark rows, in either arrival order, up to order |
| `Popup.TabRows` | BrowserSearch/popup.js:17-21 | one tab callback appends at most one row per tab |
| `Popup.BookmarkRows` | BrowserSearch/popup.js:27-31 | one bookmark callback appends at most one row per bookmark |
| `Popup.Popup.constructor` | BrowserSearch/popup.js:3 | the result container starts empty |
| `Popup.Popup.OnInput` | BrowserSearch/popup.js:5-13 | the handler empties the list before any search; a search with the lowercased value (which has no capitals) is started exactly when the typed value is non-empty |
| `Popup.Popup.AddResult` | BrowserSearch/popup.js:35-44 | exactly one row, text `title` and target `url`, is appended at the end; earlier rows are unchanged |
| `Popup.Popup.SearchTabs` | BrowserSearch/popup.js:15-23 | the tab callback leaves the existing rows in place and appends exactly `TabRows` of its array |
| `Popup.Popup.SearchBookmarks` | BrowserSearch/popup.js:25-33 | the bookmark callback leaves the existing rows in place and appends exactly `BookmarkRows` of its array |
| `Popup.Popup.InputThenCallbacks` | BrowserSearch/popup.js:5-13 | an input event followed by both callbacks, in either order, leaves exactly `AfterInput` in the list |
| `Popup.TabRowsConcat` | BrowserSearch/popup.js:17-19 | filtering tabs keeps the provider's order: the rows for `a + b` are the rows for `a` followed by the rows for `b` |
| `Popup.BookmarkRowsConcat` | BrowserSearch/popup.js:27-29 | filtering bookmarks keeps the provider's order in the same sense |
| `Popup.TabRowsMembership` | BrowserSearch/popup.js:18-19 | a row is produced if and only if some tab matching the query carries it |
| `Popup.BookmarkRowsMembership` | BrowserSearch/popup.js:28-29 | a row is produced if and only if some bookmark matching the query carries it |
| `Popup.TabMatchIgnoresCase` | BrowserSearch/popup.js:6-18 | changing the letter case of the typed query, the tab title or the tab URL does not change whether the tab matches |
| `Popup.BookmarkMatchIgnoresCase` | BrowserSearch/popup.js:6-28 | changing the letter case of the typed query, the bookmark title or its URL does not change whether the bookmark matches |
| `Popup.RowsIgnoreQueryCase` | BrowserSearch/popup.js:6-29 | the letter case of the typed query does not change the rows either callback appends |
| `Popup.UrlLessBookmark` | BrowserSearch/popup.js:28-29 | a bookmark without a URL gives a row with no link target exactly when its title contains the query, and never fails |
| `Popup.BlankInputIsSearched` | BrowserSearch/popup.js:6-11 | a blank-only input is not trimmed; both providers are searched with it unchanged |
| `Popup.NoMergeByUrl` | BrowserSearch/popup.js:19-44 | a URL matched by a tab and by a bookmark gives two rows with the same target; nothing is merged |

## Left out

- DOM construction: the `div` and `a` elements, `className`, `target='_blank'`, `innerHTML` and the `DOMContentLoaded` wiring. Only the abstract sequence of rows is modelled.
- `chrome.tabs.query` and `chrome.bookmarks.search`: foreign asynchronous browser calls. Each callback receives its array as an arbitrary parameter. The bookmark provider's own pre-filtering by the query is not visible here and is not modelled.
- Timing and interleaving of the two callbacks: each callback is one atomic step. Nothing in the model stops a late callback from an earlier query from appending after a newer input has cleared the list, just as nothing in the code does. `InputThenCallbacks` covers only the case where both callbacks of the latest input complete.
- Full Unicode `toLowerCase`, which depends on locale and can change length: `Lower` lowercases ASCII capitals only.
- When a bookmark without a URL is shown, the browser turns the missing `href` into text. The model keeps the target as `None`.
- A tab or bookmark whose `title` is missing, and a tab whose `url` is missing, are not modelled: titles and tab URLs are always strings here. In the code, `toLowerCase` on a missing value throws, which ends that callback's `forEach` early (for a tab without a URL, only when its title does not match); the model has no such early stop.
