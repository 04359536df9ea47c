/**
 * The search widget's module-level state and its handlers: the loading
 * lifecycle, query evaluation, focus, the result cursor and the keyboard and
 * mouse guards. Timers, the index fetch and the DOM are explicit: a timer
 * callback is a `Fire…` method the host calls once per scheduled timer, the
 * fetch ends in `FetchDone` or `FetchFailed`, and `$field.blur()`, `$field.focus()` and
 * `window.location.href = …` are requests the session records.
 */
module Search {
  import opened Wrappers
  import opened Strings
  import opened Highlight
  import opened Catalog
  import opened Cursor
  import opened IndexBuilder

  /** Results rendered per query. */
  const MaxResults: nat := 10

  /** `SearchLoadingState`. */
  datatype LoadingState = Idle | Loading | Ready | Failure

  /** The widget class for a state: `SearchLoadingState[s].toLowerCase()`. */
  function ClassName(s: LoadingState): string {
    match s
    case Idle => "idle"
    case Loading => "loading"
    case Ready => "ready"
    case Failure => "failure"
  }

  /**
   * Distinct states have distinct classes, so the classes `$el` carries are
   * determined by the set of states whose class it carries (`stateClasses`).
   */
  lemma ClassNamesDistinct(s: LoadingState, t: LoadingState)
    ensures ClassName(s) == ClassName(t) <==> s == t
  {
  }

  /**
   * The changes of `loadingState` the handlers make: `Idle` is never
   * re-entered and `Loading` is entered only from `Idle`. `Ready` and
   * `Failure` are not final: two overlapping loads can each end either way.
   */
  predicate Step(from: LoadingState, to: LoadingState) {
    (to == Idle ==> from == Idle) && (to == Loading ==> from == Idle || from == Loading)
  }

  /** The rendered part of a session: the state, the entries, the cursor and the searches issued. */
  datatype View = View(state: LoadingState, results: seq<Item>, current: Option<nat>, issued: seq<Pattern>)

  /**
   * The loading lifecycle's part of a session: the state and the state
   * classes, the index, and the scheduled markers, fetches and builds.
   */
  datatype Loader = Loader(state: LoadingState, classes: set<LoadingState>, index: Option<Index>,
                           markers: nat, fetches: nat, builds: set<BatchBuilder>)

  /** The parts of a `keydown` event the body handler reads. */
  datatype KeyEvent = KeyEvent(keyCode: int, alt: bool, ctrl: bool, meta: bool)

  /** What one `updateResults()` does: the searches it issues and the entries it renders. */
  datatype Evaluation = Evaluation(searched: seq<Pattern>, shown: seq<Item>)

  /**
   * The entries rendered for what a search returned: none when it threw,
   * otherwise the rows found for its refs.
   */
  function Listed(res: Option<seq<int>>, rows: seq<Row>, base: string, query: string): seq<Item>
    requires IsLiteral(query) && query != ""
  {
    match res
    case None => []
    case Some(refs) => Items(Found(rows, refs, MaxResults), base, query)
  }

  /** `updateResults()` for the state, query and index it finds. */
  function Evaluate(state: LoadingState, query: string, index: Option<Index>, engine: Engine,
                    rows: seq<Row>, base: string): (e: Evaluation)
    requires IsLiteral(query) && (state == Ready ==> index.Some?)
    ensures |e.shown| <= MaxResults
  {
    if state != Ready || query == "" then Evaluation([], [])
    else
      var wild := engine(index.value, Wildcard(query).Source());
      if wild != Some([]) then Evaluation([Wildcard(query)], Listed(wild, rows, base, query))
      else
        var fuzzy := engine(index.value, Fuzzy(query).Source());
        Evaluation([Wildcard(query), Fuzzy(query)], Listed(fuzzy, rows, base, query))
  }

  /**
   * Nothing is searched or shown unless the state is `Ready` and the query
   * non-empty. Then `*q*` is searched, and `*q~1*` exactly when that
   * returned an empty list. A search that throws ends the evaluation with
   * the list empty; otherwise the entries shown are the rows found for the
   * last search's refs, at most `MaxResults` of them and no more than it
   * returned.
   */
  lemma EvaluateSpec(state: LoadingState, query: string, index: Option<Index>, engine: Engine,
                     rows: seq<Row>, base: string)
    requires IsLiteral(query) && (state == Ready ==> index.Some?)
    ensures var e := Evaluate(state, query, index, engine, rows, base);
      && (state != Ready || query == "" ==> e.searched == [] && e.shown == [])
      && (state == Ready && query != "" ==>
            && 1 <= |e.searched| <= 2 && e.searched[0] == Wildcard(query)
            && (|e.searched| == 2 <==> engine(index.value, "*" + query + "*") == Some([]))
            && (|e.searched| == 2 ==> e.searched[1] == Fuzzy(query))
            && var res := engine(index.value, e.searched[|e.searched| - 1].Source());
               && (|e.searched| == 2 ==> res == engine(index.value, "*" + query + "~1*"))
               && (res.None? ==> e.shown == [])
               && (res.Some? ==>
                     |e.shown| <= Min(MaxResults, |res.value|)
                     && e.shown == Items(Found(rows, res.value, MaxResults), base, query)))
  {
  }

  /** Scheduled builders over `rows`: each consistent, and each with rows still to add. */
  ghost predicate BuildersOn(builders: set<BatchBuilder>, rows: seq<Row>)
    reads builders
  {
    forall b :: b in builders ==> b.Valid() && b.rows == rows && b.pos < |rows|
  }

  class SearchSession {
    /** `data.rows`: inline in the page, or defined by the fetched index script. */
    const catalog: seq<Row>
    /** `$el.attr('data-base') + '/'`. */
    const base: string
    /** `index.search`, abstracted. */
    const engine: Engine

    /** Is `data` defined (`typeof data != 'undefined'`)? */
    var resident: bool
    var query: string
    var loadingState: LoadingState
    var hasFocus: bool
    var preventPress: bool
    var resultClicked: bool
    var index: Option<Index>

    /** The `<li>` entries of `$results`, and the one marked `current`. */
    var results: seq<Item>
    var current: Option<nat>
    /** `$field.val()`. */
    var fieldText: string
    /** Does `$el` carry `has-focus`? */
    var focusClass: bool
    /** The states whose class (`ClassName`) `$el` carries. */
    var stateClasses: set<LoadingState>

    /** The last navigation requested, the `$field.blur()` and `$field.focus()` calls made. */
    var navigation: Option<string>
    var blurRequests: nat
    var focusRequests: nat

    /** Scheduled and not yet fired: 500 ms loading markers, 100 ms deferred blurs, fetches. */
    var pendingMarkers: nat
    var pendingBlurs: nat
    var pendingFetches: nat
    /** Builders whose next `batch()` is scheduled. */
    var pendingBuilds: set<BatchBuilder>
    /** Every `index.search` issued, in order. */
    ghost var issued: seq<Pattern>

    ghost predicate Valid()
      reads this, pendingBuilds
    {
      && Trimmed(query) && IsLiteral(query)
      && focusClass == hasFocus
      && (stateClasses == {loadingState} || (loadingState == Idle && stateClasses == {}))
      && (loadingState == Ready ==> index.Some?)
      && (index.Some? ==> index.value == Index(catalog))
      && (index.None? ==> results == [])
      && |results| <= MaxResults
      && (current.Some? ==> current.value < |results|)
      && BuildersOn(pendingBuilds, catalog)
    }

    /**
     * The results shown are those `Evaluate` gives for the current state,
     * query and index, with nothing selected, and the searches it issues
     * have been logged after `before`.
     */
    ghost predicate ShowsEvaluation(before: seq<Pattern>)
      reads this
    {
      && current == None
      && IsLiteral(query) && (loadingState == Ready ==> index.Some?)
      && var e := Evaluate(loadingState, query, index, engine, catalog, base);
         results == e.shown && issued == before + e.searched
    }

    /** What the handlers render and search. */
    ghost function Shown(): View
      reads this
    {
      View(loadingState, results, current, issued)
    }

    /**
     * A change of state to `Ready` since `before` re-evaluated the query;
     * otherwise the results and the searches are as they were.
     */
    ghost predicate RefreshedIfReadied(before: View)
      reads this
    {
      && (before.state != Ready && loadingState == Ready ==> ShowsEvaluation(before.issued))
      && (!(before.state != Ready && loadingState == Ready) ==>
            results == before.results && current == before.current && issued == before.issued)
    }

    /** The loading lifecycle's part of the state. */
    ghost function Lifecycle(): Loader
      reads this
    {
      Loader(loadingState, stateClasses, index, pendingMarkers, pendingFetches, pendingBuilds)
    }

    /** One new builder is scheduled besides `before`, having added the first `BatchSize` rows. */
    ghost predicate NewBuild(before: set<BatchBuilder>)
      reads this, pendingBuilds
    {
      && BatchSize <= |catalog|
      && before <= pendingBuilds
      && |pendingBuilds - before| == 1
      && forall b :: b in pendingBuilds - before ==> b.pos == BatchSize && b.batches == [catalog[..BatchSize]]
    }

    /**
     * `createIndex()` ran its first batch synchronously, starting from
     * `before`: an empty catalog aborts it, a catalog of at most `BatchSize`
     * rows is indexed at once and `Ready` set, a larger one leaves a builder
     * scheduled.
     */
    ghost predicate BuildKicked(before: Loader)
      reads this, pendingBuilds
    {
      && (catalog == [] ==>
            index == before.index && loadingState == before.state && stateClasses == before.classes
            && pendingBuilds == before.builds)
      && (0 < |catalog| <= BatchSize ==>
            && index == Some(Index(catalog)) && loadingState == Ready
            && stateClasses == {Ready} && pendingBuilds == before.builds)
      && (BatchSize < |catalog| ==>
            index == before.index && loadingState == before.state && stateClasses == before.classes
            && NewBuild(before.builds))
    }

    /**
     * `loadIndex()` from `before`: nothing unless the state was `Idle`; then
     * a loading marker is scheduled and the state is left as it is, and
     * either a fetch is started or, with the catalog resident, the build.
     */
    ghost predicate LoadRequested(before: Loader)
      reads this, pendingBuilds
    {
      if before.state != Idle then Lifecycle() == before
      else
        && pendingMarkers == before.markers + 1
        && (!resident ==>
              && pendingFetches == before.fetches + 1
              && index == before.index && loadingState == before.state && stateClasses == before.classes
              && pendingBuilds == before.builds)
        && (resident ==> pendingFetches == before.fetches && BuildKicked(before))
    }

    /** The widget as the page sets it up. */
    constructor (catalog: seq<Row>, resident: bool, dataBase: string, engine: Engine)
      ensures Valid()
      ensures this.catalog == catalog && this.resident == resident && this.engine == engine
      ensures base == dataBase + "/"
      ensures query == "" && loadingState == Idle && !hasFocus && !preventPress && !resultClicked
      ensures index == None && results == [] && current == None && fieldText == ""
      ensures !focusClass && stateClasses == {} && navigation == None
      ensures blurRequests == 0 && focusRequests == 0
      ensures pendingMarkers == 0 && pendingBlurs == 0 && pendingFetches == 0
      ensures pendingBuilds == {} && issued == []
    {
      this.catalog := catalog;
      this.resident := resident;
      this.engine := engine;
      base := dataBase + "/";
      query := "";
      loadingState := Idle;
      hasFocus := false;
      preventPress := false;
      resultClicked := false;
      index := None;
      results := [];
      current := None;
      fieldText := "";
      focusClass := false;
      stateClasses := {};
      navigation := None;
      blurRequests := 0;
      focusRequests := 0;
      pendingMarkers := 0;
      pendingBlurs := 0;
      pendingFetches := 0;
      pendingBuilds := {};
      issued := [];
    }

    /** `updateResults()`: clears the list, then renders the current query's results. */
    method UpdateResults()
      requires Valid()
      modifies this`results, this`current, this`issued
      ensures Valid()
      ensures ShowsEvaluation(old(issued))
    {
      current := None;
      if loadingState != Ready || query == "" {
        results := [];
        return;
      }
      var idx := index.value;
      var res := engine(idx, Wildcard(query).Source());
      ghost var searched := [Wildcard(query)];
      if res == Some([]) {
        res := engine(idx, Fuzzy(query).Source());
        searched := searched + [Fuzzy(query)];
      }
      if res.None? {
        // `QueryParseError` ends `updateResults` with the emptied list
        results, issued := [], issued + searched;
        return;
      }
      var shown := Render(catalog, base, query, res.value, MaxResults);
      results, issued := shown, issued + searched;
    }

    /** `setLoadingState(value)`: a no-op for the current state; entering `Ready` re-evaluates. */
    method SetLoadingState(value: LoadingState)
      requires Valid()
      requires value == Ready ==> index.Some?
      modifies this`loadingState, this`stateClasses, this`results, this`current, this`issued
      ensures Valid()
      ensures loadingState == value
      ensures old(loadingState) == value ==>
        && stateClasses == old(stateClasses)
        && results == old(results) && current == old(current) && issued == old(issued)
      ensures old(loadingState) != value ==> stateClasses == {value}
      ensures RefreshedIfReadied(old(Shown()))
    {
      if loadingState == value {
        return;
      }
      stateClasses := stateClasses - {loadingState};
      loadingState := value;
      stateClasses := stateClasses + {loadingState};
      if value == Ready {
        UpdateResults();
      }
    }

    /** `index = builder.build(); setLoadingState(Ready)`. */
    method Complete(idx: Index)
      requires Valid() && idx == Index(catalog)
      modifies this`index, this`loadingState, this`stateClasses, this`results, this`current, this`issued
      ensures Valid()
      ensures index == Some(idx) && loadingState == Ready && stateClasses == {Ready}
      ensures RefreshedIfReadied(old(Shown()))
    {
      index := Some(idx);
      SetLoadingState(Ready);
    }

    /** `createIndex()`: a fresh builder whose first batch runs at once. */
    method CreateIndex()
      requires Valid()
      modifies this`index, this`loadingState, this`stateClasses, this`results, this`current,
               this`issued, this`pendingBuilds
      ensures Valid()
      ensures BuildKicked(old(Lifecycle()))
      ensures forall b :: b in pendingBuilds - old(pendingBuilds) ==> fresh(b)
      ensures RefreshedIfReadied(old(Shown()))
    {
      var b := new BatchBuilder(catalog);
      var outcome := b.Batch();
      FirstBatchDone(b, outcome);
    }

    /**
     * The end of the first `batch()` of a builder that is not yet pending:
     * the index is built, or the next batch scheduled, or, for an empty
     * catalog, nothing happens.
     */
    method FirstBatchDone(b: BatchBuilder, outcome: BatchOutcome)
      requires Valid() && b.Valid() && b.rows == catalog && b !in pendingBuilds
      requires catalog == [] ==> outcome == Aborted
      requires catalog != [] ==> b.pos == Min(BatchSize, |catalog|) && b.batches == [catalog[..b.pos]]
      requires catalog != [] ==> (outcome == Rescheduled <==> b.pos < |catalog|)
      requires catalog != [] ==> (outcome == Completed(Index(catalog)) <==> b.pos == |catalog|)
      modifies this`index, this`loadingState, this`stateClasses, this`results, this`current,
               this`issued, this`pendingBuilds
      ensures Valid()
      ensures BuildKicked(old(Lifecycle()))
      ensures pendingBuilds - old(pendingBuilds) <= {b}
      ensures RefreshedIfReadied(old(Shown()))
    {
      if outcome.Completed? {
        Complete(outcome.index);
      } else if outcome.Rescheduled? {
        pendingBuilds := pendingBuilds + {b};
        assert pendingBuilds - old(pendingBuilds) == {b};
      }
    }

    /** A scheduled `batch()` fires: the next rows go in, and the last one builds the index. */
    method FireBatch(b: BatchBuilder)
      requires Valid() && b in pendingBuilds
      modifies b, this`index, this`loadingState, this`stateClasses, this`results, this`current,
               this`issued, this`pendingBuilds
      ensures Valid()
      ensures b.pos == Min(old(b.pos) + BatchSize, |catalog|) && b.added == catalog[..b.pos]
      ensures b.batches == old(b.batches) + [catalog[old(b.pos)..b.pos]]
      ensures b.pos == |catalog| ==>
        && pendingBuilds == old(pendingBuilds) - {b}
        && index == Some(Index(catalog)) && loadingState == Ready && stateClasses == {Ready}
      ensures b.pos < |catalog| ==>
        && pendingBuilds == old(pendingBuilds)
        && index == old(index) && loadingState == old(loadingState) && stateClasses == old(stateClasses)
      ensures RefreshedIfReadied(old(Shown()))
      ensures Step(old(loadingState), loadingState)
    {
      var outcome := b.Batch();
      if outcome.Completed? {
        pendingBuilds := pendingBuilds - {b};
        Complete(outcome.index);
      }
    }

    /** `loadIndex()`. */
    method LoadIndex()
      requires Valid()
      modifies this`pendingMarkers, this`pendingFetches, this`index, this`loadingState,
               this`stateClasses, this`results, this`current, this`issued, this`pendingBuilds
      ensures Valid()
      ensures LoadRequested(old(Lifecycle()))
      ensures RefreshedIfReadied(old(Shown()))
      ensures Step(old(loadingState), loadingState)
    {
      if loadingState != Idle {
        return;
      }
      pendingMarkers := pendingMarkers + 1;
      assert Lifecycle() == old(Lifecycle()).(markers := pendingMarkers);
      if resident {
        CreateIndex();
      } else {
        pendingFetches := pendingFetches + 1;
      }
    }

    /** The 500 ms timer of `loadIndex` fires: `Idle` becomes `Loading`, any other state stays. */
    method FireLoadingMarker()
      requires Valid() && pendingMarkers > 0
      modifies this`pendingMarkers, this`loadingState, this`stateClasses, this`results, this`current, this`issued
      ensures Valid()
      ensures pendingMarkers == old(pendingMarkers) - 1
      ensures old(loadingState) == Idle ==> loadingState == Loading && stateClasses == {Loading}
      ensures old(loadingState) != Idle ==>
        loadingState == old(loadingState) && stateClasses == old(stateClasses)
      ensures results == old(results) && current == old(current) && issued == old(issued)
      ensures Step(old(loadingState), loadingState)
    {
      pendingMarkers := pendingMarkers - 1;
      if loadingState == Idle {
        SetLoadingState(Loading);
      }
    }

    /**
     * The `.done` callback of the index fetch. When `eval(source)` defines
     * the catalog (`parsed`), the index build starts; when it throws, the
     * callback ends there and nothing else changes.
     */
    method FetchDone(parsed: bool)
      requires Valid() && pendingFetches > 0
      modifies this`pendingFetches, this`resident, this`index, this`loadingState,
               this`stateClasses, this`results, this`current, this`issued, this`pendingBuilds
      ensures Valid()
      ensures pendingFetches == old(pendingFetches) - 1
      ensures parsed ==> resident && BuildKicked(old(Lifecycle()))
      ensures !parsed ==>
        && resident == old(resident) && index == old(index) && loadingState == old(loadingState)
        && stateClasses == old(stateClasses) && pendingBuilds == old(pendingBuilds)
      ensures RefreshedIfReadied(old(Shown()))
      ensures Step(old(loadingState), loadingState)
    {
      pendingFetches := pendingFetches - 1;
      if parsed {
        resident := true;
        CreateIndex();
      }
    }

    /** The `.fail` callback of the index fetch: the state becomes `Failure` and nothing else changes. */
    method FetchFailed()
      requires Valid() && pendingFetches > 0
      modifies this`pendingFetches, this`loadingState, this`stateClasses, this`results, this`current, this`issued
      ensures Valid()
      ensures pendingFetches == old(pendingFetches) - 1
      ensures loadingState == Failure && stateClasses == {Failure}
      ensures results == old(results) && current == old(current) && issued == old(issued)
      ensures Step(old(loadingState), loadingState)
    {
      pendingFetches := pendingFetches - 1;
      SetLoadingState(Failure);
    }

    /** `setQuery(value)`: stores the trimmed value and always re-evaluates. */
    method SetQuery(value: string)
      requires Valid() && IsLiteral(Trim(value))
      modifies this`query, this`results, this`current, this`issued
      ensures Valid()
      ensures query == Trim(value)
      ensures ShowsEvaluation(old(issued))
    {
      query := Trim(value);
      TrimIdempotent(value);
      UpdateResults();
    }

    /**
     * `setHasFocus(value)`: a no-op for an unchanged value; gaining focus
     * clears the query, the results and the field, losing it writes the query
     * back into the field.
     */
    method SetHasFocus(value: bool)
      requires Valid()
      modifies this`hasFocus, this`focusClass, this`fieldText, this`query, this`results, this`current, this`issued
      ensures Valid()
      ensures hasFocus == value
      ensures old(hasFocus) == value ==>
        && focusClass == old(focusClass) && fieldText == old(fieldText) && query == old(query)
        && results == old(results) && current == old(current) && issued == old(issued)
      ensures old(hasFocus) != value && value ==>
        query == "" && fieldText == "" && results == [] && current == None && issued == old(issued)
      ensures old(hasFocus) != value && !value ==>
        && fieldText == old(query)
        && query == old(query) && results == old(results) && current == old(current) && issued == old(issued)
    {
      if hasFocus == value {
        return;
      }
      hasFocus := value;
      focusClass := !focusClass;
      if !value {
        fieldText := query;
      } else {
        SetQuery("");
        fieldText := "";
      }
    }

    /** `setCurrentResult(dir)`. */
    method SetCurrentResult(dir: int)
      requires Valid()
      modifies this`current
      ensures Valid()
      ensures current == Moved(old(current), |results|, dir)
    {
      current := Moved(current, |results|, dir);
    }

    /** `gotoCurrentResult()`: follows the selected row, or the first, and releases the field. */
    method GotoCurrentResult()
      requires Valid()
      modifies this`navigation, this`blurRequests
      ensures Valid()
      ensures Target(current, |results|).None? ==>
        navigation == old(navigation) && blurRequests == old(blurRequests)
      ensures Target(current, |results|).Some? ==>
        && navigation == Some(results[Target(current, |results|).value].href)
        && blurRequests == old(blurRequests) + 1
    {
      var target := Target(current, |results|);
      if target.Some? {
        navigation := Some(results[target.value].href);
        blurRequests := blurRequests + 1;
      }
    }

    /** `mousedown` on the result list. */
    method OnMouseDown()
      requires Valid()
      modifies this`resultClicked
      ensures Valid()
      ensures resultClicked
    {
      resultClicked := true;
    }

    /** `mouseup` on the result list: the guard is cleared and the widget defocused. */
    method OnMouseUp()
      requires Valid()
      modifies this`resultClicked, this`hasFocus, this`focusClass, this`fieldText, this`query,
               this`results, this`current, this`issued
      ensures Valid()
      ensures !resultClicked && !hasFocus
      ensures old(hasFocus) ==> fieldText == old(query)
      ensures !old(hasFocus) ==> fieldText == old(fieldText)
      ensures query == old(query) && results == old(results) && current == old(current) && issued == old(issued)
    {
      resultClicked := false;
      SetHasFocus(false);
    }

    /** `focusin` on the field. */
    method OnFocusIn()
      requires Valid()
      modifies this`hasFocus, this`focusClass, this`fieldText, this`query, this`results, this`current,
               this`issued, this`pendingMarkers, this`pendingFetches, this`index, this`loadingState,
               this`stateClasses, this`pendingBuilds
      ensures Valid()
      ensures hasFocus
      ensures !old(hasFocus) ==> query == "" && fieldText == "" && results == [] && current == None
      ensures !old(hasFocus) ==> issued == old(issued)
      ensures old(hasFocus) ==>
        query == old(query) && fieldText == old(fieldText) && RefreshedIfReadied(old(Shown()))
      ensures LoadRequested(old(Lifecycle()))
      ensures Step(old(loadingState), loadingState)
    {
      SetHasFocus(true);
      LoadIndex();
    }

    /**
     * `focusout` on the field: after a press on a result it only clears the
     * guard; otherwise it schedules the deferred blur.
     */
    method OnFocusOut()
      requires Valid()
      modifies this`resultClicked, this`pendingBlurs
      ensures Valid()
      ensures !resultClicked
      ensures old(resultClicked) ==> pendingBlurs == old(pendingBlurs)
      ensures !old(resultClicked) ==> pendingBlurs == old(pendingBlurs) + 1
    {
      if resultClicked {
        resultClicked := false;
        return;
      }
      pendingBlurs := pendingBlurs + 1;
    }

    /** The 100 ms timer of `focusout` fires; it does not look at `resultClicked` again. */
    method FireDeferredBlur()
      requires Valid() && pendingBlurs > 0
      modifies this`pendingBlurs, this`hasFocus, this`focusClass, this`fieldText, this`query,
               this`results, this`current, this`issued
      ensures Valid()
      ensures pendingBlurs == old(pendingBlurs) - 1
      ensures !hasFocus
      ensures old(hasFocus) ==> fieldText == old(query)
      ensures !old(hasFocus) ==> fieldText == old(fieldText)
      ensures query == old(query) && results == old(results) && current == old(current) && issued == old(issued)
    {
      pendingBlurs := pendingBlurs - 1;
      SetHasFocus(false);
    }

    /** `input` on the field, whose text is now `value`. */
    method OnInput(value: string)
      requires Valid() && IsLiteral(Trim(value))
      modifies this`fieldText, this`query, this`results, this`current, this`issued
      ensures Valid()
      ensures fieldText == value && query == Trim(value)
      ensures ShowsEvaluation(old(issued))
    {
      fieldText := value;
      TrimIdempotent(value);
      SetQuery(Trim(value));
    }

    /**
     * `keydown` on the field: Enter, Escape, ArrowUp and ArrowDown are
     * handled here, have their default action prevented, and make the next
     * `keypress` be suppressed; any other key clears that flag.
     */
    method OnKeyDown(keyCode: int) returns (prevented: bool)
      requires Valid()
      modifies this`preventPress, this`current, this`navigation, this`blurRequests
      ensures Valid()
      ensures prevented <==> keyCode in {13, 27, 38, 40}
      ensures preventPress == prevented
      ensures keyCode == 13 ==> current == old(current)
      ensures keyCode == 13 && Target(current, |results|).Some? ==>
        navigation == Some(results[Target(current, |results|).value].href) && blurRequests == old(blurRequests) + 1
      ensures keyCode == 13 && Target(current, |results|).None? ==>
        navigation == old(navigation) && blurRequests == old(blurRequests)
      ensures keyCode == 27 ==>
        current == old(current) && navigation == old(navigation) && blurRequests == old(blurRequests) + 1
      ensures keyCode == 38 ==> current == Moved(old(current), |results|, -1)
      ensures keyCode == 40 ==> current == Moved(old(current), |results|, 1)
      ensures keyCode != 13 && keyCode != 27 ==>
        navigation == old(navigation) && blurRequests == old(blurRequests)
      ensures keyCode != 38 && keyCode != 40 && keyCode != 13 ==> current == old(current)
    {
      match IntentOf(keyCode)
      case Some(intent) =>
        preventPress := true;
        prevented := true;
        match intent {
          case Activate => GotoCurrentResult();
          case Dismiss => blurRequests := blurRequests + 1;
          case Previous => SetCurrentResult(-1);
          case Next => SetCurrentResult(1);
        }
      case None =>
        preventPress := false;
        prevented := false;
    }

    /** `keypress` on the field: suppressed exactly when the last `keydown` was handled. */
    method OnKeyPress() returns (prevented: bool)
      ensures prevented == preventPress
    {
      prevented := preventPress;
    }

    /**
     * `keydown` on the page body: asks for the field to be focused when no
     * modifier is held, the field is unfocused and the key code lies strictly
     * between 47 and 112.
     */
    method OnBodyKeyDown(e: KeyEvent)
      requires Valid()
      modifies this`focusRequests
      ensures Valid()
      ensures focusRequests == old(focusRequests) + 1 <==>
        !e.alt && !e.ctrl && !e.meta && !hasFocus && 47 < e.keyCode < 112
      ensures old(focusRequests) <= focusRequests <= old(focusRequests) + 1
    {
      if e.alt || e.ctrl || e.meta {
        return;
      }
      if !hasFocus && e.keyCode > 47 && e.keyCode < 112 {
        focusRequests := focusRequests + 1;
      }
    }
  }
}
