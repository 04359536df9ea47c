/**
 * The emphasis a result label gets: the first case-insensitive occurrence of
 * the query inside a name is wrapped in `<b>…</b>`, as
 * `s.replace(new RegExp(query, 'i'), m => '<b>' + m + '</b>')` does for a
 * query that holds no regular-expression syntax.
 */
module Highlight {
  import opened Wrappers
  import opened Strings

  /** A run of label text, emphasised or not. */
  datatype Span = Plain(text: string) | Em(text: string)

  /** A rendered label: the parent segment (shown as `parent.`) and the name. */
  datatype Label = Label(parent: Option<seq<Span>>, name: seq<Span>)

  /** The characters a `RegExp` source reads as syntax rather than as themselves. */
  predicate IsRegExpSyntax(c: char) {
    c == '^' || c == '$' || c == '\\' || c == '.' || c == '*' || c == '+' || c == '?'
    || c == '(' || c == ')' || c == '[' || c == ']' || c == '{' || c == '}' || c == '|'
  }

  /** A query a `RegExp` reads literally: it holds no syntax characters. */
  predicate IsLiteral(q: string) {
    forall k :: 0 <= k < |q| ==> !IsRegExpSyntax(q[k])
  }

  /** The text of the spans with the emphasis markup erased. */
  function Text(spans: seq<Span>): string {
    if spans == [] then [] else spans[0].text + Text(spans[1..])
  }

  /** Number of emphasised spans. */
  function Emphases(spans: seq<Span>): nat {
    if spans == [] then 0 else (if spans[0].Em? then 1 else 0) + Emphases(spans[1..])
  }

  lemma ThreeSpans(r: seq<Span>)
    requires |r| == 3
    ensures Text(r) == r[0].text + r[1].text + r[2].text
    ensures Emphases(r) == (if r[0].Em? then 1 else 0) + (if r[1].Em? then 1 else 0) + (if r[2].Em? then 1 else 0)
  {
    assert Text(r[2..]) == r[2].text by {
      assert r[2..][1..] == [];
    }
    assert Emphases(r[2..]) == (if r[2].Em? then 1 else 0) by {
      assert r[2..][1..] == [];
    }
    assert r[1..][1..] == r[2..];
  }

  /** `q` occurs in `s` at offset `k`, ignoring letter case. */
  predicate MatchesAt(s: string, q: string, k: nat) {
    k + |q| <= |s| && SameIgnoringCase(s[k..k + |q|], q)
  }

  /** The leftmost offset, at or after `from`, where `q` occurs in `s` ignoring case. */
  function FirstMatch(s: string, q: string, from: nat): (r: Option<nat>)
    requires from <= |s|
    ensures r.Some? ==> from <= r.value && MatchesAt(s, q, r.value)
    ensures r.Some? ==> forall k :: from <= k < r.value ==> !MatchesAt(s, q, k)
    ensures r.None? ==> forall k :: from <= k ==> !MatchesAt(s, q, k)
    decreases |s| - from
  {
    if MatchesAt(s, q, from) then Some(from)
    else if from == |s| then None
    else FirstMatch(s, q, from + 1)
  }

  /**
   * `s` with its first case-insensitive occurrence of `q` emphasised. The
   * emphasised text is taken from `s`, so it keeps the case of `s`.
   */
  function Emphasize(s: string, q: string): (r: seq<Span>)
    requires IsLiteral(q)
  {
    match FirstMatch(s, q, 0)
    case None => [Plain(s)]
    case Some(k) => SplitAt(s, q, k)
  }

  /**
   * Erasing the emphasis gives the text back; there is at most one emphasis,
   * and none exactly when the query does not occur; otherwise it sits at the
   * first occurrence and matches the query up to letter case.
   */
  lemma EmphasizeSpec(s: string, q: string)
    requires IsLiteral(q)
    ensures var r := Emphasize(s, q);
      && Text(r) == s
      && (Emphases(r) == 0 <==> forall k: nat :: !MatchesAt(s, q, k))
      && (Emphases(r) != 0 ==>
            && |r| == 3 && r[1].Em? && Emphases(r) == 1 && SameIgnoringCase(r[1].text, q)
            && MatchesAt(s, q, |r[0].text|)
            && forall k: nat :: k < |r[0].text| ==> !MatchesAt(s, q, k))
  {
    match FirstMatch(s, q, 0)
    case None =>
      assert [Plain(s)][1..] == [];
    case Some(k) =>
  }

  /** The three spans around an occurrence of `q` at offset `k`. */
  function SplitAt(s: string, q: string, k: nat): (r: seq<Span>)
    requires MatchesAt(s, q, k)
    ensures Text(r) == s && |r| == 3 && r[1].Em? && Emphases(r) == 1
    ensures |r[0].text| == k && r[1].text == s[k..k + |q|]
  {
    var r := [Plain(s[..k]), Em(s[k..k + |q|]), Plain(s[k + |q|..])];
    ThreeSpans(r);
    assert s == s[..k] + s[k..k + |q|] + s[k + |q|..];
    r
  }

  /** Two queries that differ only in letter case occur at the same offsets. */
  lemma MatchesIgnoreCase(s: string, q1: string, q2: string, k: nat)
    requires SameIgnoringCase(q1, q2)
    ensures MatchesAt(s, q1, k) <==> MatchesAt(s, q2, k)
  {
  }

  lemma {:induction false} FirstMatchIgnoresCase(s: string, q1: string, q2: string, from: nat)
    requires SameIgnoringCase(q1, q2) && from <= |s|
    ensures FirstMatch(s, q1, from) == FirstMatch(s, q2, from)
    decreases |s| - from
  {
    MatchesIgnoreCase(s, q1, q2, from);
    if !MatchesAt(s, q1, from) && from < |s| {
      FirstMatchIgnoresCase(s, q1, q2, from + 1);
    }
  }

  /** Highlighting does not depend on the letter case of the query. */
  lemma EmphasizeIgnoresCase(s: string, q1: string, q2: string)
    requires IsLiteral(q1) && IsLiteral(q2) && SameIgnoringCase(q1, q2)
    ensures Emphasize(s, q1) == Emphasize(s, q2)
  {
    FirstMatchIgnoresCase(s, q1, q2, 0);
    match FirstMatch(s, q1, 0)
    case None =>
    case Some(k) =>
      SplitAtIgnoresCase(s, q1, q2, k);
  }

  lemma SplitAtIgnoresCase(s: string, q1: string, q2: string, k: nat)
    requires |q1| == |q2| && MatchesAt(s, q1, k) && MatchesAt(s, q2, k)
    ensures SplitAt(s, q1, k) == SplitAt(s, q2, k)
  {
  }

  /**
   * The label of a result row: the name highlighted, and, when the row has a
   * non-empty parent, the parent highlighted on its own in front of it. The
   * source tests the highlighted parent string, which for the non-empty
   * queries it is called with is empty exactly when the parent is.
   */
  function LabelOf(name: string, parent: Option<string>, q: string): (l: Label)
    requires IsLiteral(q) && q != ""
  {
    var p := parent.GetOr("");
    if p != "" then Label(Some(Emphasize(p, q)), Emphasize(name, q))
    else Label(None, Emphasize(name, q))
  }

  /**
   * The name and the parent are highlighted independently, the parent
   * segment is there exactly when the parent is non-empty, and the visible
   * text is `parent.` followed by the name.
   */
  lemma LabelOfSpec(name: string, parent: Option<string>, q: string)
    requires IsLiteral(q) && q != ""
    ensures var l := LabelOf(name, parent, q);
      && l.name == Emphasize(name, q)
      && (l.parent.Some? <==> parent.GetOr("") != "")
      && (l.parent.Some? ==> l.parent.value == Emphasize(parent.value, q))
      && LabelText(l) == (if parent.GetOr("") != "" then parent.value + "." else "") + name
  {
    EmphasizeSpec(name, q);
    if parent.GetOr("") != "" {
      EmphasizeSpec(parent.value, q);
    }
  }

  /** The visible text of a label: `parent.` (when present) followed by the name. */
  function LabelText(l: Label): string {
    (if l.parent.Some? then Text(l.parent.value) + "." else "") + Text(l.name)
  }

  /**
   * The query "wid" against a class `Widget` and its method `render`: the
   * class is shown with "Wid" emphasised, the method as `Widget.render` with
   * "Wid" emphasised in the parent segment only.
   */
  lemma WidgetLabels()
    ensures LabelOf("Widget", None, "wid") == Label(None, [Plain(""), Em("Wid"), Plain("get")])
    ensures LabelOf("render", Some("Widget"), "wid") ==
      Label(Some([Plain(""), Em("Wid"), Plain("get")]), [Plain("render")])
  {
    assert MatchesAt("Widget", "wid", 0) by {
      assert "Widget"[0..3] == "Wid";
      assert Lower('W') == 'w';
    }
    assert FirstMatch("Widget", "wid", 0) == Some(0);
    assert "Widget"[..0] == "" && "Widget"[0..3] == "Wid" && "Widget"[3..] == "get";
    assert Emphasize("Widget", "wid") == [Plain(""), Em("Wid"), Plain("get")];
    forall k: nat | k <= 6
      ensures !MatchesAt("render", "wid", k)
    {
      if k + 3 <= 6 {
        assert Lower("render"[k]) != Lower("wid"[0]);
      }
    }
    assert FirstMatch("render", "wid", 0) == None;
  }
}
