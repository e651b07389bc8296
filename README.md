# Blog platform core in Dafny

This project models the core of a small blog platform. It has three parts.

- **The server's in-memory post store** (`server.js`). A module-level `posts` array starts with one sample post. Six REST handlers use it:
  - list, get, create, update and delete;
  - add a comment to a post.

  Get finds a post by id with `posts.find`; update, delete and add-comment use `findIndex`. Both give the first post with the id. Create puts the new post at the front of the array. The read-time text (`"<n> min read"`) is computed from the post's content.
- **The single-file client's view state** (`index.js`). A global `state` record is changed by the navigation and form handlers. The home page filters the loaded posts by search text and category, then splits them into a featured post and the rest. Post content is rendered line by line into headings, paragraphs and breaks.
- **The post page of the component client** (`pages/PostDetail.jsx`). It has its own line classifier, plus local state cells for the loaded post, the comment box and the edit form. Its handlers update those cells.

Files:

- `text.dfy`: the JavaScript string operations the core uses, over `seq<char>`:
  - `startsWith`, `indexOf`/`includes` and a first-occurrence `replace`;
  - `split` and `join` on one character;
  - ASCII `toLowerCase` and `trim`;
  - the decimal text of a number.
- `blog_data.dfy`: the post and comment records, and the outcome of a client's fetch call.
- `post_store.dfy`: module `PostStore`. The class `Store` holds the table; its methods are the in-memory branches of the handlers. Pure functions describe the records the handlers build, and lemmas say what later requests observe.
- `client_state.dfy`: module `ClientState`. The class `AppState` holds the client's `state` record and its handlers. Pure functions model the home page and the content rendering.
- `post_detail.dfy`: module `PostDetail`. The class `DetailPage` holds the post page's state cells and handlers, beside the page's classifier.

Things the environment supplies become parameters:

- the clock, which gives ids and `createdAt` stamps;
- what each fetch call returns (`Fetched<T>`: the decoded body or a failure);
- whether a call the handler makes without a `try` succeeds (`accepted`).

## Model

| member | source | states |
|---|---|---|
| Text.IndexOf | index.js:228 | The result is the first position where the pattern occurs, or -1 exactly when it occurs nowhere. |
| Text.IncludesIff | index.js:228 | `includes` holds exactly when the pattern occurs at some position. |
| Text.ReplaceLeadingPrefix | index.js:298-299 | A first-occurrence `replace` of a prefix the line starts with, by `''`, removes exactly that prefix. |
| Text.Split | server.js:104 | `split` on one character gives one piece more than there are separators, and no piece contains the separator. |
| Text.JoinSplit | index.js:297 | Joining the pieces of a split with the separator gives back the original string, so splitting loses nothing. |
| Text.ToLower | index.js:228 | Lower-casing keeps the length and maps each character by the ASCII rule. |
| Text.ToLowerIdempotent | index.js:228 | Lower-casing twice is the same as lower-casing once. |
| Text.TrimStart | pages/PostDetail.jsx:223 | Removes a blank prefix and nothing more; the result is a suffix of the input and does not start with an ECMAScript white space or line terminator character. |
| Text.TrimEnd | pages/PostDetail.jsx:223 | Removes a blank suffix and nothing more; the result is a prefix of the input and does not end with an ECMAScript white space or line terminator character. |
| Text.TrimEmptyIff | pages/PostDetail.jsx:56 | `s.trim()` is empty exactly when every character of `s` is an ECMAScript white space or line terminator. |
| Text.Decimal | server.js:104 | A template literal renders a natural number as decimal digits with no leading zero. |
| Text.ParseDecimalOfDecimal | server.js:104 | Reading the rendered digits back gives the number (round trip). |
| Text.DecimalInjective | server.js:104 | Different numbers render as different texts. |
| PostStore.WordCount | server.js:104 | The word count is the number of spaces plus one. |
| PostStore.ReadMinutes | server.js:104 | The minutes are the ceiling of words/200, and at least 1 even for empty content. |
| PostStore.ReadTime | server.js:104 | The read-time text is the decimal minutes (no leading zero) followed by ` min read`, and parsing it back gives the computed minutes. |
| PostStore.ReadTimeSameIff | server.js:104 | Two contents get the same read-time text exactly when they need the same number of minutes. |
| PostStore.NewPost | server.js:95-106 | A created post has the given id and timestamp, the six submitted fields, no comments, and a read time that matches its content. |
| PostStore.ApplyPatch | server.js:133-143 | Each writable field takes the supplied value when it is non-empty and otherwise keeps the old one. The read time is recomputed only when non-empty content is supplied. Id, creation time and comments are kept. |
| PostStore.EmptyPatchIsIdentity | server.js:134-143 | An update that supplies no non-empty field leaves the post unchanged. |
| PostStore.PatchKeepsReadTimeConsistent | server.js:142 | An update keeps a post's read time consistent with its content. |
| PostStore.Merge | server.js:134-143 | Defines the combination of two update bodies in which the later non-empty value of each field wins. |
| PostStore.UpdatesCompose | server.js:131-144 | Two successive updates equal one update with the merged body. |
| PostStore.UpdateIdempotent | server.js:131-144 | Repeating an update changes nothing more. |
| PostStore.PatchOfDraft | index.js:403-407 | The submitted form, used as an update body, supplies all six writable fields with the form's values. |
| PostStore.DraftOf | pages/PostDetail.jsx:72-79 | A form pre-filled from a post holds exactly the post's six writable fields. |
| PostStore.SaveUnchangedIsIdentity | server.js:134-143 | If the post's read time matches its content (or the content is empty), saving an untouched pre-filled form leaves the post unchanged. |
| PostStore.WithComment | server.js:178 | Pushing a comment adds exactly that comment at the end, keeps the earlier comments, and changes nothing else in the post. |
| PostStore.FindIndex | server.js:131 | `findIndex` returns the first position with the id, or -1 exactly when no post has the id. |
| PostStore.FirstIsUnique | server.js:88 | The first match is unique, so the lookup is well defined. |
| PostStore.Store.constructor | server.js:38-51 | The table starts as the single sample post with id "1". |
| PostStore.Store.List | server.js:78 | Listing returns the whole table, in order. |
| PostStore.Store.Get | server.js:88-90 | Returns not-found exactly when no post has the id; otherwise returns the first post with the id. |
| PostStore.Store.Create | server.js:95-112 | The built post is returned and put at the front of the table; the rest of the table is kept. |
| PostStore.Store.Update | server.js:131-144 | An unknown id gives not-found and leaves the table unchanged. Otherwise only the first match is replaced by its patched copy, and that copy is returned. |
| PostStore.Store.Delete | server.js:154-157 | An unknown id gives not-found and leaves the table unchanged. Otherwise only the first match is removed and the other posts keep their order. |
| PostStore.Store.AddComment | server.js:163-179 | An unknown id gives not-found and leaves the table unchanged. Otherwise the new comment is appended to the first match only and returned. |
| PostStore.GetAfterCreate | server.js:111 | After a create, the new post is the first match for its id. |
| PostStore.FirstAfterReplace | server.js:134 | Replacing the matched post by one with the same id keeps it the first match, so a get after an update or a comment sees the change. |
| PostStore.DeleteRemoves | server.js:154-156 | If ids are unique, no post has the id after a delete, and the remaining ids are still unique. |
| PostStore.DeleteLeavesDuplicate | server.js:154-156 | If a later post shares the id of the first match, a delete removes only the first match, and the next post with that id is then the first match (one place further forward). |
| PostStore.CreateUniqueIff | server.js:96 | A create keeps ids unique exactly when the new id is not already taken. |
| ClientState.SubsequenceTransitive | index.js:228-229 | The subsequence relation is transitive, so chaining the two filters keeps order. |
| ClientState.Filter | index.js:228-229 | `filter` keeps exactly the posts that pass, each as many times as the input holds it, as a subsequence of its input. |
| ClientState.FilterAgrees | index.js:228-229 | Two tests that agree on every post give the same filtered list. |
| ClientState.VisibleSpec | index.js:228-229 | A post is shown exactly when its lower-cased title, content or excerpt contains the lower-cased query (if one is set) and its category equals the selected one (if one is set). Each shown post appears as many times as in the table, and the shown posts are a subsequence of the table. |
| ClientState.SearchIgnoresCase | index.js:228 | Queries that differ only in letter case show the same posts. |
| ClientState.HomePageSpec | index.js:219-243 | The page shows loading exactly before the list has arrived, and the empty-result view exactly when a filter is set and no post passes. The featured post followed by the others is the filtered list. |
| ClientState.HomePageTitles | index.js:242-243 | A listing's title and subtitle follow the filters. A search shows its query and a count equal to the number of posts listed (the featured one plus the others). Otherwise a selected category is shown in the title, and lower-cased in the subtitle. Otherwise the generic title and subtitle are shown. |
| ClientState.NoPostsOnlyForEmptyTable | index.js:228-230 | With no filter, the page lists nothing only when the table is empty. |
| ClientState.AsWrittenAgreesExceptEmpty | index.js:219-252 | The page as written agrees with the corrected page, except when there is no filter and the table is empty. |
| ClientState.AsWrittenThrowsOnEmptyTable | index.js:240-252 | The page as written throws for an empty table with no filter. |
| ClientState.RenderContent | index.js:297-301 | There is one block per line of the content, and each block is that line's classification. |
| ClientState.ClassifyLineSpec | index.js:298-300 | `## ` and `### ` lines become headings without the prefix. An empty line is a break. Any other line is a paragraph holding the line. |
| ClientState.LineOfClassify | index.js:298-300 | Each block gives back the line it came from. |
| ClientState.RenderContentLossless | index.js:297-301 | The rendered blocks determine the content: joining their lines gives it back. |
| ClientState.ToggleCategory | index.js:444 | Choosing the selected category clears the selection; choosing any other category selects it. |
| ClientState.ToggleTwice | index.js:444 | Two clicks on the same category restore the selection exactly when it was empty or already that category. |
| ClientState.AppState.constructor | index.js:54-63 | The initial state: the home view, no data, an empty query, no category, and the menu closed. |
| ClientState.AppState.NavigateTo | index.js:67-84 | Sets the view and id and closes the menu. The home view loads the list; a detail view with an id loads the post. A failed load keeps the old data. |
| ClientState.AppState.NavigateToEdit | index.js:86-90 | A failed load changes nothing. Otherwise the post becomes the edit buffer and the create view opens. |
| ClientState.AppState.ToggleMobileMenu | index.js:398 | Flips the menu flag and changes nothing else. |
| ClientState.AppState.HandleSearch | index.js:443 | Only the query changes; the home page is then recomputed from the loaded list. |
| ClientState.AppState.SelectCategory | index.js:444 | Toggles the category, then navigates home. |
| ClientState.AppState.HandleCreate | index.js:400-414 | With an edit buffer, the form becomes an update of that post; without one, a create. A refused call changes nothing. Success clears the buffer and reloads home. |
| ClientState.AppState.CancelEdit | index.js:428 | Drops the edit buffer and navigates home. |
| ClientState.SelectSameCategoryTwice | index.js:444 | Starting with no category, selecting the same category twice leaves no category selected and shows home. |
| PostDetail.RenderDetailContent | pages/PostDetail.jsx:220-225 | There is one block per line, each block classified by the page's rule. |
| PostDetail.ClassifyDetailLineSpec | pages/PostDetail.jsx:220-225 | Heading lines lose their prefix. A line is a break exactly when it is blank. Any other line is a paragraph holding the line. |
| PostDetail.ClassifiersDifferIff | pages/PostDetail.jsx:223 | The two clients classify a line differently exactly when it is non-empty and blank. |
| PostDetail.DetailRenderingForgetsSpaces | pages/PostDetail.jsx:223 | On this page a line of spaces and an empty line render alike, so the text cannot be recovered. |
| PostDetail.AppendLocal | pages/PostDetail.jsx:60 | The local copy of the post grows exactly as the server's copy does (`PostStore.WithComment`). |
| PostDetail.EditBuffer | pages/PostDetail.jsx:72-79 | The edit form holds all six writable fields of the post. |
| PostDetail.SaveUntouchedBufferIsIdentity | pages/PostDetail.jsx:82-86 | Saving an untouched edit form asks the server for no change when the read time is consistent. |
| PostDetail.DetailPage.constructor | pages/PostDetail.jsx:7-13 | The initial state cells: no post, an empty box, not editing, an empty form. |
| PostDetail.DetailPage.Load | pages/PostDetail.jsx:16-26 | The fetched post is shown. A failed load is logged and changes nothing. |
| PostDetail.DetailPage.TypeComment | pages/PostDetail.jsx:272 | The comment box holds the typed text. |
| PostDetail.DetailPage.HandleCommentSubmit | pages/PostDetail.jsx:54-68 | A blank comment sends nothing and changes nothing. Otherwise the call uses the post id and "Guest User". On success the comment is appended locally and the box cleared; on failure both are kept. |
| PostDetail.DetailPage.HandleEdit | pages/PostDetail.jsx:70-80 | Turns on editing mode, with the form holding the post's six writable fields. |
| PostDetail.DetailPage.EditField | pages/PostDetail.jsx:159 | A field's change handler overwrites that field of the form only. |
| PostDetail.DetailPage.HandleSaveEdit | pages/PostDetail.jsx:82-94 | Sends the form under the post's id. On success the server's post replaces the local one and editing ends; on failure the post and the mode are kept. |
| PostDetail.DetailPage.HandleCancelEdit | pages/PostDetail.jsx:96-99 | Ends editing and empties the form. |

Two consequences of the code worth knowing:

- `split(' ')` always yields at least one piece, so the read time is never "0 min read" (`PostStore.ReadMinutes`).
- The sample post's stored `"5 min read"` does not match the formula. Its content has fewer than 200 words, so the formula gives 1. The model keeps the literal, which is why `PostStore.SaveUnchangedIsIdentity` assumes a consistent read time.

## Left out

- The MongoDB branches of every handler: the model covers only the in-memory table.
- HTTP transport: status codes, response bodies other than the returned value, and Express routing and middleware.
- The clock (`Date.now()`, `new Date().toISOString()`) is a parameter. So ids from the same millisecond are not forced to collide; `PostStore.CreateUniqueIff` states when uniqueness survives.
- Request bodies whose fields are missing or not strings. The model takes all six create fields as text, so `String(undefined)` is not covered.
- Floating-point division in `Math.ceil(n / 200)`: integer ceiling division is used. It is exact for every word count.
- Text.ToLower: lower-cases only ASCII letters, not the full Unicode case mapping of `toLowerCase`.
- Text.ReplaceFirst: does not interpret `$` patterns in the replacement. The core only replaces with `''`.
- Rendering: HTML/JSX markup, including the inline handler of the "Clear filters" button (index.js:235), which resets the query and the category, `render()`, locale-formatted dates, scrolling, alerts and the clipboard.
- In `index.js`, the comment, delete, share and AI-generation handlers (`handleComment`, `deletePost`, `sharePost`, `generateContent`, the modal).
- In `pages/PostDetail.jsx`, `handleDelete` (delete after a confirmation, then go back), the `handleShare` and `copied` state, and the comment-section scroll.
- The fetch wrappers, and the timing of the `isSubmittingComment` and `isSaving` flags. The model starts from each call's outcome; the flags are shown only as set back to false.
- Object aliasing: a pushed comment is visible through every earlier reference to the same post object. Records are modelled as values.
- Asynchronous interleaving. `navigateTo`, `navigateToEdit` and `handleCreate` (index.js:67-90, 400-414) and `handleCommentSubmit` and `handleSaveEdit` (pages/PostDetail.jsx:54-94) await between their state writes. `cancelEdit` and `selectCategory` (index.js:428, 444) start `navigateTo` without awaiting it. The model runs each handler as one atomic step, so interleaved handlers and a stale response overwriting newer state are not modelled. For example, `navigateTo('DETAIL', '1')` then `navigateTo('DETAIL', '2')`, with the reply for '1' arriving last, leaves post 1 shown under id '2'.
- PostDetail.AppendLocal: does not model the `prev.comments || []` fallback, because every post in the model has a comment list.

## Findings

| source | as written | input that shows it | evidently intended | confidence | as-written member | corrected member |
|---|---|---|---|---|---|---|
| index.js:240-252 | With no search and no category, an empty filtered list falls through to `filteredPosts[0]`. `PostCard(undefined, true)` then reads `post.createdAt` and throws a TypeError. | `state.posts = []` (e.g. after deleting the only post), `searchQuery = ''`, `selectedCategory = null` | An empty-table view instead of a crash | not executed | ClientState.AsWrittenThrowsOnEmptyTable | ClientState.HomePageSpec |
