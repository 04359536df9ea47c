/**
 * The keyboard highlight in the result list (`setCurrentResult`,
 * `gotoCurrentResult`) and the four keys the search field intercepts.
 * A selection is the position of the row marked `current`, or nothing.
 */
module Cursor {
  import opened Wrappers

  /**
   * `setCurrentResult(dir)` on a list of `n` rows: with nothing selected,
   * `dir == 1` selects the first row and any other `dir` the last; otherwise
   * the selection takes one step (forward for `dir == 1`, back otherwise)
   * unless it is already at that end, where it stays: no wrap-around.
   */
  function Moved(current: Option<nat>, n: nat, dir: int): (r: Option<nat>)
    requires current.Some? ==> current.value < n
    ensures r.Some? ==> r.value < n
    ensures current.None? ==> (r.Some? <==> n > 0)
    ensures current.None? && n > 0 ==> r.value == (if dir == 1 then 0 else n - 1)
    ensures current.Some? && dir == 1 ==>
      r.Some? && current.value <= r.value <= current.value + 1 && (r == current <==> current.value == n - 1)
    ensures current.Some? && dir != 1 ==>
      r.Some? && current.value - 1 <= r.value <= current.value && (r == current <==> current.value == 0)
  {
    match current
    case None => if n == 0 then None else if dir == 1 then Some(0) else Some(n - 1)
    case Some(c) =>
      if dir == 1 then (if c + 1 < n then Some(c + 1) else current)
      else (if c > 0 then Some(c - 1) else current)
  }

  /** A step forward is undone by a step back, away from the ends. */
  lemma ForwardThenBack(i: nat, n: nat)
    requires i + 1 < n
    ensures Moved(Moved(Some(i), n, 1), n, -1) == Some(i)
  {
  }

  /** A step back is undone by a step forward, away from the ends. */
  lemma BackThenForward(i: nat, n: nat)
    requires 0 < i < n
    ensures Moved(Moved(Some(i), n, -1), n, 1) == Some(i)
  {
  }

  /** The selection after `k` presses of the same arrow key. */
  function Presses(current: Option<nat>, n: nat, dir: int, k: nat): (r: Option<nat>)
    requires current.Some? ==> current.value < n
    ensures r.Some? ==> r.value < n
    decreases k
  {
    if k == 0 then current else Presses(Moved(current, n, dir), n, dir, k - 1)
  }

  /** From a selection, `k` steps forward reach row `i + k`, stopping at the last row. */
  lemma {:induction false} ForwardPressesFrom(i: nat, n: nat, k: nat)
    requires i < n
    ensures Presses(Some(i), n, 1, k) == Some(Min(i + k, n - 1))
    decreases k
  {
    if k > 0 {
      ForwardPressesFrom(Moved(Some(i), n, 1).value, n, k - 1);
    }
  }

  /** From a selection, `k` steps back reach row `i - k`, stopping at the first row. */
  lemma {:induction false} BackPressesFrom(i: nat, n: nat, k: nat)
    requires i < n
    ensures Presses(Some(i), n, -1, k) == Some(if k <= i then i - k else 0)
    decreases k
  {
    if k > 0 {
      BackPressesFrom(Moved(Some(i), n, -1).value, n, k - 1);
    }
  }

  /**
   * Pressing Down `k` times on a fresh list selects row `min(k, n) - 1`,
   * pressing Up `k` times selects row `n - min(k, n)`; an empty list never
   * gets a selection.
   */
  lemma PressesFromNothing(n: nat, k: nat)
    ensures n == 0 || k == 0 ==> Presses(None, n, 1, k) == None && Presses(None, n, -1, k) == None
    ensures n > 0 && k > 0 ==> Presses(None, n, 1, k) == Some(Min(k, n) - 1)
    ensures n > 0 && k > 0 ==> Presses(None, n, -1, k) == Some(n - Min(k, n))
  {
    if k > 0 && n > 0 {
      ForwardPressesFrom(0, n, k - 1);
      BackPressesFrom(n - 1, n, k - 1);
    } else if k > 0 {
      NothingStaysNothing(n, 1, k);
      NothingStaysNothing(n, -1, k);
    }
  }

  lemma {:induction false} NothingStaysNothing(n: nat, dir: int, k: nat)
    requires n == 0
    ensures Presses(None, n, dir, k) == None
    decreases k
  {
    if k > 0 {
      NothingStaysNothing(n, dir, k - 1);
    }
  }

  /**
   * The row `gotoCurrentResult` follows: the selected row, or the first row
   * when nothing is selected; nothing on an empty list.
   */
  function Target(current: Option<nat>, n: nat): (r: Option<nat>)
    requires current.Some? ==> current.value < n
    ensures r.Some? <==> n > 0
    ensures r.Some? ==> r.value < n
    ensures current.Some? ==> r == current
    ensures current.None? && n > 0 ==> r == Some(0)
  {
    if n == 0 then None else Some(current.GetOr(0))
  }

  /** The four keys the search field handles itself. */
  datatype KeyIntent = Activate | Dismiss | Previous | Next

  /** Enter, Escape, ArrowUp and ArrowDown. */
  function KeyCodeOf(intent: KeyIntent): int {
    match intent
    case Activate => 13
    case Dismiss => 27
    case Previous => 38
    case Next => 40
  }

  /** The intent of a `keydown` key code, if it is one of the four. */
  function IntentOf(keyCode: int): (r: Option<KeyIntent>)
    ensures r.Some? <==> keyCode in {13, 27, 38, 40}
    ensures r.Some? ==> KeyCodeOf(r.value) == keyCode
  {
    if keyCode == 13 then Some(Activate)
    else if keyCode == 27 then Some(Dismiss)
    else if keyCode == 38 then Some(Previous)
    else if keyCode == 40 then Some(Next)
    else None
  }

  /** Every intent is recognised from its own key code. */
  lemma IntentRoundTrip(intent: KeyIntent)
    ensures IntentOf(KeyCodeOf(intent)) == Some(intent)
  {
  }
}
