/**
 * Sequences of events a page can deliver, with what the session's contracts
 * alone let a caller conclude about them.
 */
module Scenarios {
  import opened Wrappers
  import opened Strings
  import opened Highlight
  import opened Catalog
  import opened IndexBuilder
  import opened Search

  /**
   * Pressing on a result makes the field lose focus; that `focusout` only
   * clears the guard and schedules no blur, and the release defocuses.
   */
  method PressOnResult(s: SearchSession)
    requires s.Valid() && s.hasFocus
    modifies s
    ensures s.Valid()
    ensures !s.hasFocus && !s.resultClicked && s.fieldText == old(s.query)
    ensures s.pendingBlurs == old(s.pendingBlurs)
  {
    s.OnMouseDown();
    s.OnFocusOut();
    assert s.hasFocus && s.pendingBlurs == old(s.pendingBlurs);
    s.OnMouseUp();
  }

  /** Once a fetch of the index has failed, a query renders nothing and searches nothing. */
  method FailedFetch(s: SearchSession, text: string)
    requires s.Valid() && s.pendingFetches > 0 && IsLiteral(Trim(text))
    modifies s
    ensures s.loadingState == Failure && s.results == [] && s.issued == old(s.issued)
  {
    s.FetchFailed();
    assert s.loadingState == Failure;
    ghost var before := s.issued;
    s.OnInput(text);
    assert s.issued == before;
  }

  /**
   * `Loading` is set only by the timer, so after a focus that starts the
   * indexing of a large resident catalog the state is still `Idle`, and the
   * next focus, even while that build is pending, starts another one.
   */
  method FocusWhileIdle(s: SearchSession)
    requires s.Valid() && s.resident && s.loadingState == Idle && |s.catalog| > BatchSize
    modifies s
    ensures s.Valid() && s.loadingState == Idle && s.hasFocus
    ensures s.pendingMarkers == old(s.pendingMarkers) + 1
    ensures old(s.pendingBuilds) <= s.pendingBuilds && |s.pendingBuilds - old(s.pendingBuilds)| == 1
  {
    s.OnFocusIn();
  }

  /**
   * While the state is `Idle`, every focus calls `loadIndex()` again: a
   * focused field that is blurred and focused again, before the first fetch
   * of an index that is not resident has ended, starts a second one.
   */
  method RefocusFetchesAgain(s: SearchSession)
    requires s.Valid() && !s.resident && s.loadingState == Idle && s.hasFocus && !s.resultClicked
    modifies s
    ensures s.Valid() && s.loadingState == Idle && s.hasFocus
    ensures s.pendingFetches == old(s.pendingFetches) + 1
  {
    s.OnFocusOut();
    s.FireDeferredBlur();
    s.OnFocusIn();
  }

  /**
   * A catalog of 201 to 300 rows is indexed in three batches: the first
   * runs within `createIndex()`, the builder it schedules is fired twice,
   * and the second firing builds the index and makes the state `Ready`.
   */
  method BuildInThreeBatches(s: SearchSession)
    requires s.Valid() && 2 * BatchSize < |s.catalog| <= 3 * BatchSize
    modifies s
    ensures s.index == Some(Index(s.catalog)) && s.loadingState == Ready
  {
    var before := s.pendingBuilds;
    s.CreateIndex();
    assert s.NewBuild(before);
    SingleMember(s.pendingBuilds - before);
    var b :| b in s.pendingBuilds - before;
    FinishBuild(s, b);
  }

  /**
   * A builder of 201 to 300 rows that has taken its first batch completes
   * after two more firings, leaving the state `Ready` and the builder no
   * longer scheduled.
   */
  method FinishBuild(s: SearchSession, b: BatchBuilder)
    requires s.Valid() && b in s.pendingBuilds && b.pos == BatchSize
    requires 2 * BatchSize < |s.catalog| <= 3 * BatchSize
    modifies s, b
    ensures s.index == Some(Index(s.catalog)) && s.loadingState == Ready
    ensures s.pendingBuilds == old(s.pendingBuilds) - {b}
  {
    s.FireBatch(b);
    assert b.pos == 2 * BatchSize;
    s.FireBatch(b);
  }

  /** A set of one element has a member. */
  lemma SingleMember<T>(xs: set<T>)
    requires |xs| == 1
    ensures exists x :: x in xs
  {
  }

  /**
   * Two overlapping fetches of a small catalog, the first delivered and the
   * second failing, leave a ready index in the `Failure` state.
   */
  method ReadyThenFailure(s: SearchSession)
    requires s.Valid() && s.pendingFetches >= 2 && 0 < |s.catalog| <= BatchSize
    modifies s
    ensures s.index == Some(Index(s.catalog)) && s.loadingState == Failure
  {
    s.FetchDone(true);
    assert s.loadingState == Ready;
    s.FetchFailed();
  }

  /**
   * A handled key (Enter, Escape, ArrowUp, ArrowDown) suppresses the
   * `keypress` that follows it, and any other key lets it through.
   */
  method KeyThenPress(s: SearchSession, keyCode: int) returns (suppressed: bool)
    requires s.Valid()
    modifies s
    ensures suppressed <==> keyCode in {13, 27, 38, 40}
  {
    var prevented := s.OnKeyDown(keyCode);
    suppressed := s.OnKeyPress();
  }

  /**
   * Typing a query whose `*q*` search lunr cannot parse, once the index is
   * ready, leaves the list empty and issues no fuzzy search.
   */
  method UnparsableQuery(s: SearchSession, text: string)
    requires s.Valid() && s.loadingState == Ready
    requires text != "" && Trimmed(text) && IsLiteral(text)
    requires s.engine(Index(s.catalog), "*" + text + "*") == None
    modifies s
    ensures s.query == text && s.results == [] && s.current == None
    ensures s.issued == old(s.issued) + [Wildcard(text)]
  {
    TrimKeepsTrimmed(text);
    s.OnInput(text);
  }
}
