# Documentation search widget, modelled in Dafny

This project models the search box of the generated API documentation
(`docs/zh-CN/api/assets/js/src/typedoc/components/Search.ts`). The widget
indexes the catalog of documented symbols in batches so the page stays
responsive. It moves through the loading states `Idle`, `Loading`, `Ready`
and `Failure`, and it evaluates the query typed into the field against the
lunr index: a wildcard search first, then a fuzzy search if that found
nothing, and at most ten results. Each result's name and parent are
highlighted, and the keyboard and mouse drive a highlight cursor over the
results.

Layout, one module per part of the widget:

- `strings.dfy` (`Strings`): jQuery's `$.trim` and ASCII case folding.
- `highlight.dfy` (`Highlight`): the first case-insensitive occurrence of the query, the emphasised spans, and the `parent.` label.
- `catalog.dfy` (`Catalog`): catalog rows, the index, the two lunr queries, the result entries, and the rendering loop.
- `builder.dfy` (`IndexBuilder`): `createIndex`'s `batch` closure, as a class with the `pos` cursor and the rows given to the lunr builder.
- `cursor.dfy` (`Cursor`): `setCurrentResult` and `gotoCurrentResult` on positions, and the four intercepted keys.
- `session.dfy` (`Search`): the module-level state as a `SearchSession` class, with one method per function and event handler.
- `scenarios.dfy` (`Scenarios`): event sequences, proved from the session's contracts alone.

How the outside world appears in the model:

- **Timers.** Each `setTimeout` callback is a `Fire…` method (`FireBatch`, `FireLoadingMarker`, `FireDeferredBlur`). The session counts the markers, blurs and fetches it has scheduled, and keeps the set of builders whose next `batch()` is scheduled (`pendingBuilds`). A callback can fire only when one is pending. The host may call these methods in any order, between any other events.
- **Fetching the index script.** `$.get` is a pending fetch. It ends in `FetchDone` (the `.done` callback, whose `eval` defines the catalog or throws) or `FetchFailed` (the `.fail` callback).
- **The lunr engine.** `index.search` is a function value (`Catalog.Engine`) given to the constructor. It takes the query string and returns the refs it found, or `None` where lunr's query parser throws `QueryParseError` (for instance on a `:` or on a `~` not followed by digits).
- **The DOM.** The result list is a sequence of `Item`s plus the position marked `current`. The field's value is `fieldText`; the widget's classes are `focusClass` and `stateClasses`. `$field.blur()`, `$field.focus()` and `window.location.href = …` are recorded as requests (`blurRequests`, `focusRequests`, `navigation`). The host answers those requests with the matching events.

Behaviours of `Search.ts` that the model keeps as written:

- **`Loading` is set only by the 500 ms timer, not by `loadIndex`.** So the state stays `Idle` during a build, and every focus while `Idle` starts another fetch or build (`Scenarios.FocusWhileIdle`).
- **`Ready` and `Failure` are not final states.** When two loads overlap, one of them can move a ready index to `Failure` (`Scenarios.RefocusFetchesAgain`, `Scenarios.ReadyThenFailure`). The model proves only `Search.Step`: `Idle` is never re-entered, and `Loading` is entered only from `Idle`.
- **A ref that names no row stops the rendering.** Refs are read as positions (`data.rows[Number(ref)]`) and the result is not checked. A ref past the end makes reading its name throw, so the rendering ends at that ref and the rows already appended stay. This is `Catalog.Render`. If ids are positions, lookup by position is lookup by id (`Catalog.PositionIsId`); otherwise it is not (`Catalog.PositionIsNotId`).
- **An empty catalog is never indexed.** The first `batch()` calls `builder.add(rows[0])` on an undefined row, which throws. The state never becomes `Ready`, and nothing is rescheduled (`BatchOutcome.Aborted`).
- **A fetched script that fails to evaluate does not set `Failure`.** The `.done` callback throws before `createIndex`, and nothing else happens (`FetchDone` with `parsed` false).

## Model

| member | source | states |
|---|---|---|
| `Strings.Trim` | docs/zh-CN/api/assets/js/src/typedoc/components/Search.ts:208-211 | the result neither starts nor ends with white space |
| `Strings.TrimPads` | docs/zh-CN/api/assets/js/src/typedoc/components/Search.ts:208-211 | trimming removes nothing but white space: the input is the result with only white space added in front and behind |
| `Strings.TrimIdempotent` | docs/zh-CN/api/assets/js/src/typedoc/components/Search.ts:277-278 | trimming twice, as the `input` handler does before `setQuery` trims again, equals trimming once |
| `Highlight.FirstMatch` | docs/zh-CN/api/assets/js/src/typedoc/components/Search.ts:162 | the returned offset is the leftmost case-insensitive occurrence of the query; when there is none, no offset matches |
| `Highlight.EmphasizeSpec` | docs/zh-CN/api/assets/js/src/typedoc/components/Search.ts:162-164 | erasing the emphasis gives back the text; there is at most one emphasis; there is none exactly when the query does not occur; otherwise the emphasis sits at the first occurrence, matches the query up to case, and keeps the text's own case |
| `Highlight.EmphasizeIgnoresCase` | docs/zh-CN/api/assets/js/src/typedoc/components/Search.ts:162-164 | queries that differ only in letter case highlight identically |
| `Highlight.LabelOfSpec` | docs/zh-CN/api/assets/js/src/typedoc/components/Search.ts:162-166 | the name and the parent are highlighted independently; the parent segment is present exactly when the parent is non-empty; the visible text is `parent.` followed by the name |
| `Highlight.WidgetLabels` | docs/zh-CN/api/assets/js/src/typedoc/components/Search.ts:159-166 | for the query "wid", class `Widget` shows "Wid" emphasised, and its method `render` shows as `Widget.render` with the emphasis only in the parent |
| `Catalog.Found` | docs/zh-CN/api/assets/js/src/typedoc/components/Search.ts:158-159 | the rows the loop reaches: at most `min(limit, |refs|)` of them |
| `Catalog.FoundAt` | docs/zh-CN/api/assets/js/src/typedoc/components/Search.ts:158-159 | row i of those reached is the row at position `refs[i]`, and that ref resolves |
| `Catalog.FoundStopsAtGap` | docs/zh-CN/api/assets/js/src/typedoc/components/Search.ts:158-160 | when fewer than `min(limit, |refs|)` rows are reached, the ref after the last one reached does not resolve (reading its name throws) |
| `Catalog.Render` | docs/zh-CN/api/assets/js/src/typedoc/components/Search.ts:158-168 | the loop appends, in ranked order, one entry per row reached: the row's classes verbatim, a link to `base + url`, and the row's highlighted label |
| `Catalog.PositionIsId` | docs/zh-CN/api/assets/js/src/typedoc/components/Search.ts:97-159 | when every row's id is its position, a ref naming some row's id resolves to that row |
| `Catalog.PositionIsNotId` | docs/zh-CN/api/assets/js/src/typedoc/components/Search.ts:159 | with rows carrying ids 1 and 2, ref 1 reads the row with id 2 and ref 2 reads past the end |
| `IndexBuilder.BatchBuilder.constructor` | docs/zh-CN/api/assets/js/src/typedoc/components/Search.ts:90-101 | a builder starts at position 0 with nothing added |
| `IndexBuilder.BatchBuilder.Batch` | docs/zh-CN/api/assets/js/src/typedoc/components/Search.ts:102-112 | one call adds the next `min(100, remaining)` rows in catalog order. Every row before `pos` has been added exactly once, in chunks of at most 100. The index is built from the whole catalog exactly when `pos` reaches the length, after `ceil(N/100)` calls; otherwise the call reschedules. An empty catalog aborts. |
| `Cursor.Moved` | docs/zh-CN/api/assets/js/src/typedoc/components/Search.ts:217-228 | with no selection, `dir == 1` selects the first row and any other `dir` the last; a selection moves one step in its direction, or stays at that end (no wrap-around); an empty list keeps no selection; the result is always a valid position |
| `Cursor.ForwardThenBack` | docs/zh-CN/api/assets/js/src/typedoc/components/Search.ts:222-226 | away from the last row, a step forward is undone by a step back |
| `Cursor.BackThenForward` | docs/zh-CN/api/assets/js/src/typedoc/components/Search.ts:222-226 | away from the first row, a step back is undone by a step forward |
| `Cursor.ForwardPressesFrom` | docs/zh-CN/api/assets/js/src/typedoc/components/Search.ts:222-226 | k steps forward from row i reach row `min(i + k, n - 1)` |
| `Cursor.BackPressesFrom` | docs/zh-CN/api/assets/js/src/typedoc/components/Search.ts:222-226 | k steps back from row i reach row `max(i - k, 0)` |
| `Cursor.PressesFromNothing` | docs/zh-CN/api/assets/js/src/typedoc/components/Search.ts:217-228 | from no selection, k > 0 Down presses on a non-empty list select row `min(k, n) - 1` and k Up presses row `n - min(k, n)`; with no presses or an empty list nothing is selected |
| `Cursor.NothingStaysNothing` | docs/zh-CN/api/assets/js/src/typedoc/components/Search.ts:219-220 | on an empty list any number of arrow presses leaves no selection |
| `Cursor.Target` | docs/zh-CN/api/assets/js/src/typedoc/components/Search.ts:234-241 | the target is the selected row, or the first row when nothing is selected, and nothing exactly when the list is empty |
| `Cursor.IntentOf` | docs/zh-CN/api/assets/js/src/typedoc/components/Search.ts:280-292 | a key has an intent exactly when its code is 13, 27, 38 or 40, and the intent's key code is that code |
| `Cursor.IntentRoundTrip` | docs/zh-CN/api/assets/js/src/typedoc/components/Search.ts:280-292 | every intent is recognised from its own key code |
| `Search.SearchSession.constructor` | docs/zh-CN/api/assets/js/src/typedoc/components/Search.ts:52-83 | the initial state: empty query, `Idle`, unfocused, both guards off, no index and no results; `base` is `data-base` plus `/` |
| `Search.Evaluate` | docs/zh-CN/api/assets/js/src/typedoc/components/Search.ts:146-169 | at most ten entries are shown |
| `Search.ClassNamesDistinct` | docs/zh-CN/api/assets/js/src/typedoc/components/Search.ts:178-180 | distinct loading states have distinct widget classes, so the classes `$el` carries are given by the set of states recorded in `stateClasses` |
| `Search.EvaluateSpec` | docs/zh-CN/api/assets/js/src/typedoc/components/Search.ts:146-169 | nothing is searched or shown unless the state is `Ready` and the query non-empty. Then `*q*` is searched, and `*q~1*` exactly when that returned an empty list. A search that throws leaves the emptied list empty. Otherwise the entries are those of the rows reached through the last search's refs, at most ten and no more than it returned. |
| `Search.SearchSession.UpdateResults` | docs/zh-CN/api/assets/js/src/typedoc/components/Search.ts:146-169 | the selection is cleared, the list becomes the entries `Evaluate` gives for the current state, query and index, and the searches it issues are logged in order |
| `Search.SearchSession.SetLoadingState` | docs/zh-CN/api/assets/js/src/typedoc/components/Search.ts:175-185 | setting the current state changes nothing; a change swaps the widget's state class; a change to `Ready` re-evaluates the query, any other change leaves the results alone |
| `Search.SearchSession.Complete` | docs/zh-CN/api/assets/js/src/typedoc/components/Search.ts:107-108 | the index built from the whole catalog is stored and the state is `Ready`, re-evaluating the query if it was not `Ready` before |
| `Search.SearchSession.CreateIndex` | docs/zh-CN/api/assets/js/src/typedoc/components/Search.ts:89-115 | the first batch of a fresh builder runs at once: an empty catalog changes nothing; up to 100 rows are indexed and `Ready` is set; a larger catalog leaves exactly one new builder scheduled, at position 100 with one batch of the first 100 rows |
| `Search.SearchSession.FirstBatchDone` | docs/zh-CN/api/assets/js/src/typedoc/components/Search.ts:105-111 | the end of a first `batch()`: a completed build stores the index and sets `Ready`; a builder with rows left is scheduled; an aborted one changes nothing |
| `Search.SearchSession.FireBatch` | docs/zh-CN/api/assets/js/src/typedoc/components/Search.ts:102-112 | the builder advances by `min(100, remaining)` rows. At the end it leaves the schedule, the index is stored and the state is `Ready`; before the end nothing else changes. |
| `Search.SearchSession.LoadIndex` | docs/zh-CN/api/assets/js/src/typedoc/components/Search.ts:121-140 | nothing happens unless the state is `Idle`. Then a loading marker is scheduled, the state is not changed yet, and either a fetch is started or, with the catalog resident, the build is. |
| `Search.SearchSession.FireLoadingMarker` | docs/zh-CN/api/assets/js/src/typedoc/components/Search.ts:123-127 | `Idle` becomes `Loading`; `Loading`, `Ready` and `Failure` are left alone; the results are untouched |
| `Search.SearchSession.FetchDone` | docs/zh-CN/api/assets/js/src/typedoc/components/Search.ts:133-135 | a script that defines the catalog makes it resident and starts the build; one whose `eval` throws changes nothing |
| `Search.SearchSession.FetchFailed` | docs/zh-CN/api/assets/js/src/typedoc/components/Search.ts:136-138 | the state becomes `Failure`, and the results and searches are untouched |
| `Search.SearchSession.SetQuery` | docs/zh-CN/api/assets/js/src/typedoc/components/Search.ts:208-211 | the query becomes the trimmed value and is always re-evaluated, unchanged or not |
| `Search.SearchSession.SetHasFocus` | docs/zh-CN/api/assets/js/src/typedoc/components/Search.ts:191-202 | an unchanged value is a no-op; gaining focus clears the query, the results and the field; losing focus writes the query back into the field and keeps the results |
| `Search.SearchSession.SetCurrentResult` | docs/zh-CN/api/assets/js/src/typedoc/components/Search.ts:217-228 | the selection moves as `Cursor.Moved` says on the current list |
| `Search.SearchSession.GotoCurrentResult` | docs/zh-CN/api/assets/js/src/typedoc/components/Search.ts:234-245 | with a target row, navigation to its link and a blur are requested; on an empty list nothing is |
| `Search.SearchSession.OnMouseDown` | docs/zh-CN/api/assets/js/src/typedoc/components/Search.ts:252-254 | the result-clicked guard is set |
| `Search.SearchSession.OnMouseUp` | docs/zh-CN/api/assets/js/src/typedoc/components/Search.ts:255-258 | the guard is cleared and the widget defocused; the query is written back into the field when the widget had focus, and the field is left alone when it had not |
| `Search.SearchSession.OnFocusIn` | docs/zh-CN/api/assets/js/src/typedoc/components/Search.ts:264-266 | the widget is focused (a newly focused one with empty query, field and results) and `loadIndex` runs |
| `Search.SearchSession.OnFocusOut` | docs/zh-CN/api/assets/js/src/typedoc/components/Search.ts:267-276 | with the guard set, the guard is cleared and no blur is scheduled; otherwise one deferred blur is scheduled |
| `Search.SearchSession.FireDeferredBlur` | docs/zh-CN/api/assets/js/src/typedoc/components/Search.ts:276 | the widget is defocused without looking at the guard again |
| `Search.SearchSession.OnInput` | docs/zh-CN/api/assets/js/src/typedoc/components/Search.ts:277-278 | the query becomes the trimmed field text and is re-evaluated |
| `Search.SearchSession.OnKeyDown` | docs/zh-CN/api/assets/js/src/typedoc/components/Search.ts:279-295 | keys 13, 27, 38 and 40 have their default prevented and set `preventPress`; they activate, blur, or move the selection up or down. Any other key clears `preventPress` and does nothing else. |
| `Search.SearchSession.OnKeyPress` | docs/zh-CN/api/assets/js/src/typedoc/components/Search.ts:296-298 | a key press is suppressed exactly when `preventPress` is set |
| `Search.SearchSession.OnBodyKeyDown` | docs/zh-CN/api/assets/js/src/typedoc/components/Search.ts:304-309 | focus is requested exactly when no alt, ctrl or meta is held, the field is unfocused and `47 < keyCode < 112` |
| `Scenarios.PressOnResult` | docs/zh-CN/api/assets/js/src/typedoc/components/Search.ts:251-276 | press, the resulting focus loss, then release: no blur is scheduled, and the release defocuses |
| `Scenarios.FailedFetch` | docs/zh-CN/api/assets/js/src/typedoc/components/Search.ts:136-148 | after a failed fetch the state is `Failure`, and a typed query renders nothing and issues no search |
| `Scenarios.FocusWhileIdle` | docs/zh-CN/api/assets/js/src/typedoc/components/Search.ts:121-130 | a focus while `Idle` with a large resident catalog leaves the state `Idle` and schedules one more build, however many are pending |
| `Scenarios.RefocusFetchesAgain` | docs/zh-CN/api/assets/js/src/typedoc/components/Search.ts:264-276 | a focused field blurred and focused again while `Idle` and not resident starts a second fetch |
| `Scenarios.KeyThenPress` | docs/zh-CN/api/assets/js/src/typedoc/components/Search.ts:279-298 | after a `keydown`, the following `keypress` is suppressed exactly when the key was Enter, Escape, ArrowUp or ArrowDown |
| `Scenarios.UnparsableQuery` | docs/zh-CN/api/assets/js/src/typedoc/components/Search.ts:146-151 | once the index is ready, typing a query whose `*q*` search throws leaves the list empty, selects nothing and issues no fuzzy search |
| `Scenarios.BuildInThreeBatches` | docs/zh-CN/api/assets/js/src/typedoc/components/Search.ts:98-114 | a catalog of 201 to 300 rows is indexed by `createIndex()` and two firings of the builder it schedules, ending with the full index and the state `Ready` |
| `Scenarios.FinishBuild` | docs/zh-CN/api/assets/js/src/typedoc/components/Search.ts:102-112 | a scheduled builder of 201 to 300 rows at position 100 completes after two firings, sets `Ready` and leaves the schedule |
| `Scenarios.ReadyThenFailure` | docs/zh-CN/api/assets/js/src/typedoc/components/Search.ts:121-140 | of two pending fetches of a small catalog, the first delivered and the second failing, the ready index ends in `Failure` |

## Left out

- `miniapp.d.ts` and `index.d.ts`: type declarations of the RTC client SDK and its logger, with no behaviour.
- The lunr library: the trimmer pipeline, the `name` boost, `builder.build()` internals, and the ranking and fuzzy semantics of `index.search`. The index is the sequence of rows it was given, and searching is an arbitrary function of index and query string, which either returns refs or throws. Which query strings lunr's parser rejects is not modelled. So "every row can be found by its name" is not provable here.
- `data.kinds` is not modelled, because the widget never reads it.
- HTML markup: the label is structured spans, not `<b>` and `<span class="parent">` strings. So a name containing markup characters is not modelled as injected HTML.
- `href` is `base + url` as written. The browser's resolution of it to an absolute URL by `prop('href')` is not modelled.
- Timer durations (10 ms, 100 ms, 500 ms) are left out; only the order of firings matters.
- `$.get` and `eval(source)` are modelled by their outcomes: delivered and evaluated, delivered and throwing, or failed.
- `Highlight.Emphasize`: folds case for ASCII letters only, not full Unicode case canonicalisation.
- `Search.SearchSession.SetQuery`: requires the trimmed value to contain no `RegExp` syntax characters (`^ $ \ . * + ? ( ) [ ] { } |`). On such input the source's `new RegExp(query, 'i')` matches differently or throws, and that is not modelled.
- `Search.SearchSession.OnInput`: has the same requirement as `SetQuery`, for the same reason.
- `UpdateResults` builds the list it renders in `Catalog.Render` and then assigns it, rather than appending to the live list one by one. Nothing runs between the appends, so this changes nothing observable except when an exception is thrown, and that case keeps the rows appended so far.
- `Search.SearchSession.OnKeyDown`: Escape and Enter only request the blur. The resulting `focusout` arrives as a separate `OnFocusOut` event, not within the same call.
