/**
 * The search catalog (`typedoc.search.data.rows`), the full-text index built
 * from it, the two queries the widget issues, and the result rows it renders.
 */
module Catalog {
  import opened Wrappers
  import opened Highlight

  /** One documentable symbol, as the generated catalog lists it. */
  datatype Row = Row(id: int, kind: int, name: string, url: string, classes: string, parent: Option<string>)

  /**
   * The lunr index: the documents handed to the builder, in order. Ranking,
   * the `name` boost and the trimmer pipeline belong to lunr and are not part
   * of this model.
   */
  datatype Index = Index(docs: seq<Row>)

  /** The two searches `updateResults` issues: `*q*`, and the fuzzy `*q~1*`. */
  datatype Pattern = Wildcard(q: string) | Fuzzy(q: string) {
    /** The lunr query string. */
    function Source(): string {
      match this
      case Wildcard(q) => "*" + q + "*"
      case Fuzzy(q) => "*" + q + "~1*"
    }
  }

  /**
   * `index.search` on a query string: the refs of the matching documents,
   * best first, or `None` where lunr's query parser throws `QueryParseError`
   * (a `:` naming an unknown field, a `~` not followed by digits). The
   * library is outside this model, so the session is given one.
   */
  type Engine = (Index, string) -> Option<seq<int>>

  /** A rendered result: the `<li>` class, the link and the caption (the label). */
  datatype Item = Item(classes: string, href: string, caption: Label)

  /** Catalog rows whose id is their position: what lets a ref be used as a position. */
  predicate IdsArePositions(rows: seq<Row>) {
    forall i :: 0 <= i < |rows| ==> rows[i].id == i
  }

  /** `rows[ref]` exists (the code reads `data.rows[Number(ref)]` without a check). */
  predicate Resolves(rows: seq<Row>, ref: int) {
    0 <= ref < |rows|
  }

  /** The result entry for one row, with `base` the widget's `data-base` plus `/`. */
  function ItemOf(row: Row, base: string, q: string): (it: Item)
    requires IsLiteral(q) && q != ""
  {
    Item(row.classes, base + row.url, LabelOf(row.name, row.parent, q))
  }

  /**
   * The rows the loop of `updateResults` reaches: the row at position
   * `refs[i]` for each ref, best first, at most `limit` of them. A ref that
   * does not resolve ends the list there, since reading the missing row's
   * name throws.
   */
  function Found(rows: seq<Row>, refs: seq<int>, limit: nat): (found: seq<Row>)
    ensures |found| <= Min(limit, |refs|)
    decreases limit
  {
    if limit == 0 || refs == [] || !Resolves(rows, refs[0]) then []
    else [rows[refs[0]]] + Found(rows, refs[1..], limit - 1)
  }

  /** Entry `i` of the found rows is the row at position `refs[i]`. */
  lemma {:induction false} FoundAt(rows: seq<Row>, refs: seq<int>, limit: nat, i: nat)
    requires i < |Found(rows, refs, limit)|
    ensures i < |refs| && Resolves(rows, refs[i]) && Found(rows, refs, limit)[i] == rows[refs[i]]
    decreases limit
  {
    if i > 0 {
      FoundAt(rows, refs[1..], limit - 1, i - 1);
      assert refs[1..][i - 1] == refs[i];
    }
  }

  /** Fewer than `min(limit, |refs|)` rows are found only when the next ref does not resolve. */
  lemma {:induction false} FoundStopsAtGap(rows: seq<Row>, refs: seq<int>, limit: nat)
    requires |Found(rows, refs, limit)| < Min(limit, |refs|)
    ensures !Resolves(rows, refs[|Found(rows, refs, limit)|])
    decreases limit
  {
    if Resolves(rows, refs[0]) {
      FoundStopsAtGap(rows, refs[1..], limit - 1);
      assert refs[1..][|Found(rows, refs[1..], limit - 1)|] == refs[|Found(rows, refs, limit)|];
    }
  }

  /** The result entries of the found rows, in the same order. */
  function Items(found: seq<Row>, base: string, q: string): (items: seq<Item>)
    requires IsLiteral(q) && q != ""
  {
    seq(|found|, i requires 0 <= i < |found| => ItemOf(found[i], base, q))
  }

  /** One more ref resolves: the rows found so far grow by its row. */
  lemma FoundStep(rows: seq<Row>, refs: seq<int>, limit: nat, i: nat, found: seq<Row>)
    requires i < Min(limit, |refs|) && Resolves(rows, refs[i])
    requires Found(rows, refs, limit) == found + Found(rows, refs[i..], limit - i)
    ensures Found(rows, refs, limit) == (found + [rows[refs[i]]]) + Found(rows, refs[i + 1..], limit - i - 1)
  {
    assert refs[i..][1..] == refs[i + 1..];
  }

  /** The rows found so far are all the rows found once a ref does not resolve or the refs run out. */
  lemma FoundEnd(rows: seq<Row>, refs: seq<int>, limit: nat, i: nat, found: seq<Row>)
    requires i <= |refs| && i <= limit
    requires i == Min(limit, |refs|) || !Resolves(rows, refs[i])
    requires Found(rows, refs, limit) == found + Found(rows, refs[i..], limit - i)
    ensures Found(rows, refs, limit) == found
  {
    assert found + [] == found;
  }

  /** The loop of `updateResults`, `i` running up to `min(limit, refs.length)`. */
  method Render(rows: seq<Row>, base: string, q: string, refs: seq<int>, limit: nat) returns (shown: seq<Item>)
    requires IsLiteral(q) && q != ""
    ensures shown == Items(Found(rows, refs, limit), base, q)
  {
    shown := [];
    ghost var found: seq<Row> := [];
    var c := Min(limit, |refs|);
    var i := 0;
    while i < c
      invariant 0 <= i <= c
      invariant Found(rows, refs, limit) == found + Found(rows, refs[i..], limit - i)
      invariant |shown| == |found|
      invariant forall j :: 0 <= j < |shown| ==> shown[j] == ItemOf(found[j], base, q)
    {
      var ref := refs[i];
      if !Resolves(rows, ref) {
        // `data.rows[ref]` is undefined: reading its name throws and ends the rendering
        FoundEnd(rows, refs, limit, i, found);
        return;
      }
      FoundStep(rows, refs, limit, i, found);
      shown := shown + [ItemOf(rows[ref], base, q)];
      found := found + [rows[ref]];
      i := i + 1;
    }
    FoundEnd(rows, refs, limit, i, found);
  }

  /**
   * When ids are positions, every ref that is the id of some row resolves,
   * and it resolves to the row carrying that id: lookup by position is lookup by id.
   */
  lemma PositionIsId(rows: seq<Row>, ref: int)
    requires IdsArePositions(rows)
    requires exists j :: 0 <= j < |rows| && rows[j].id == ref
    ensures Resolves(rows, ref) && rows[ref].id == ref
  {
  }

  /**
   * When ids are not positions, a ref can resolve to another row: in the
   * catalog whose rows carry ids 1 and 2, ref 1 reads the row with id 2 and
   * ref 2 reads past the end.
   */
  lemma PositionIsNotId(a: Row, b: Row)
    requires a.id == 1 && b.id == 2
    ensures Resolves([a, b], 1) && [a, b][1].id == 2
    ensures !Resolves([a, b], 2)
  {
  }
}
