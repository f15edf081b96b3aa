/**
 * Resolution of the list of ticker symbols the program works on (run.py:92-104).
 * With at least one command-line argument after the program name, the arguments
 * are the symbols, taken literally. Otherwise the `Symbol` column of the exchange
 * listing is read row by row, keeping a value when it holds no space and has not
 * been kept already. The listing arrives as the rows `csv.DictReader` produces,
 * each a map from column name to cell text; a row without a `Symbol` entry makes
 * `row['Symbol']` raise, which ends the program before any worker starts.
 */
module Symbols {
  import opened Wrappers

  const SymbolKey: string := "Symbol"

  /** `row['Symbol']` failed on the row with this index. */
  datatype ListingError = MissingSymbol(row: nat)

  type Row = map<string, string>

  predicate HasSymbolColumn(rows: seq<Row>)
  {
    forall i :: 0 <= i < |rows| ==> SymbolKey in rows[i]
  }

  /** The `Symbol` cell of every row, in row order. */
  function SymbolColumn(rows: seq<Row>): (col: seq<string>)
    requires HasSymbolColumn(rows)
    ensures |col| == |rows|
    ensures forall i :: 0 <= i < |rows| ==> col[i] == rows[i][SymbolKey]
  {
    seq(|rows|, i requires 0 <= i < |rows| => rows[i][SymbolKey])
  }

  /**
   * Reference definition of the listing-derived list: scanning the values in
   * order, a value is listed when it holds no space and did not occur earlier.
   */
  function FirstAppearances(xs: seq<string>): seq<string>
  {
    if |xs| == 0 then []
    else
      var p := xs[..|xs| - 1];
      var x := xs[|xs| - 1];
      FirstAppearances(p) + (if ' ' !in x && x !in p then [x] else [])
  }

  ghost predicate NoDuplicates(s: seq<string>)
  {
    forall i, j :: 0 <= i < j < |s| ==> s[i] != s[j]
  }

  /** The index where `x` first occurs in `xs`. */
  function FirstIndex(xs: seq<string>, x: string): (k: nat)
    requires x in xs
    ensures k < |xs| && xs[k] == x && x !in xs[..k]
  {
    if xs[0] == x then 0
    else
      assert x in xs[1..];
      var k := 1 + FirstIndex(xs[1..], x);
      assert xs[..k] == [xs[0]] + xs[1..][..k - 1];
      k
  }

  lemma FirstIndexUnique(xs: seq<string>, x: string, k: nat)
    requires k < |xs| && xs[k] == x && x !in xs[..k]
    ensures FirstIndex(xs, x) == k
  {
  }

  /** The listed values are exactly the space-free values of the column. */
  lemma {:induction false} FirstAppearancesMembers(xs: seq<string>)
    ensures forall y :: y in FirstAppearances(xs) <==> y in xs && ' ' !in y
  {
    if |xs| > 0 {
      var p := xs[..|xs| - 1];
      FirstAppearancesMembers(p);
      assert xs == p + [xs[|xs| - 1]];
    }
  }

  /** No value is listed twice. */
  lemma {:induction false} FirstAppearancesDistinct(xs: seq<string>)
    ensures NoDuplicates(FirstAppearances(xs))
  {
    if |xs| > 0 {
      var p := xs[..|xs| - 1];
      FirstAppearancesDistinct(p);
      FirstAppearancesMembers(p);
    }
  }

  /**
   * Listed values keep the order of their first appearance in the column, so the
   * list is a subsequence of the column taken at strictly increasing indices.
   */
  lemma {:induction false} FirstAppearancesOrder(xs: seq<string>)
    ensures forall y :: y in FirstAppearances(xs) ==> y in xs
    ensures forall i, j :: 0 <= i < j < |FirstAppearances(xs)| ==>
      FirstIndex(xs, FirstAppearances(xs)[i]) < FirstIndex(xs, FirstAppearances(xs)[j])
  {
    FirstAppearancesMembers(xs);
    if |xs| > 0 {
      var p := xs[..|xs| - 1];
      var x := xs[|xs| - 1];
      assert xs == p + [x];
      FirstAppearancesOrder(p);
      FirstAppearancesMembers(p);
      var fp := FirstAppearances(p);
      var r := FirstAppearances(xs);
      forall y | y in p
        ensures FirstIndex(xs, y) == FirstIndex(p, y)
      {
        var k := FirstIndex(p, y);
        assert xs[..k] == p[..k];
        FirstIndexUnique(xs, y, k);
      }
      forall i, j | 0 <= i < j < |r|
        ensures FirstIndex(xs, r[i]) < FirstIndex(xs, r[j])
      {
        assert r[i] == fp[i] && r[i] in p;
        if j < |fp| {
          assert r[j] == fp[j] && r[j] in p;
        } else {
          assert r[j] == x && x !in p;
          assert xs[..|p|] == p;
          FirstIndexUnique(xs, x, |p|);
        }
      }
    }
  }

  /** Extending the scan by one row adds that row's value exactly when it is space-free and not yet listed. */
  lemma ListingStep(rows: seq<Row>, i: nat)
    requires i < |rows| && HasSymbolColumn(rows[..i]) && SymbolKey in rows[i]
    ensures HasSymbolColumn(rows[..i + 1])
    ensures var s := rows[i][SymbolKey]; var before := FirstAppearances(SymbolColumn(rows[..i]));
      FirstAppearances(SymbolColumn(rows[..i + 1]))
        == before + (if ' ' !in s && s !in before then [s] else [])
  {
    assert HasSymbolColumn(rows[..i + 1]);
    var col := SymbolColumn(rows[..i + 1]);
    assert col[..i] == SymbolColumn(rows[..i]);
    FirstAppearancesMembers(col[..i]);
  }

  /**
   * The loop of run.py:96-98 over the listing rows. It fails on the first row
   * without a `Symbol` entry; otherwise it yields the reference list.
   */
  method ListingSymbols(rows: seq<Row>) returns (r: Result<seq<string>, ListingError>)
    ensures r.Failure? <==> !HasSymbolColumn(rows)
    ensures r.Failure? ==>
      r.error.row < |rows| && SymbolKey !in rows[r.error.row] && HasSymbolColumn(rows[..r.error.row])
    ensures r.Success? ==> r.value == FirstAppearances(SymbolColumn(rows))
  {
    var symbols: seq<string> := [];
    var i := 0;
    while i < |rows|
      invariant 0 <= i <= |rows|
      invariant HasSymbolColumn(rows[..i])
      invariant symbols == FirstAppearances(SymbolColumn(rows[..i]))
    {
      if SymbolKey !in rows[i] {
        return Failure(MissingSymbol(i));
      }
      var s := rows[i][SymbolKey];
      ListingStep(rows, i);
      if s !in symbols && ' ' !in s {
        symbols := symbols + [s];
      }
      i := i + 1;
    }
    assert rows[..i] == rows;
    return Success(symbols);
  }

  /** The loop of run.py:100-104: every argument after the program name, in order. */
  method ArgumentSymbols(argv: seq<string>) returns (symbols: seq<string>)
    ensures |argv| >= 1 ==> symbols == argv[1..]
    ensures |argv| == 0 ==> symbols == []
  {
    symbols := [];
    var count := 0;
    while count < |argv|
      invariant 0 <= count <= |argv|
      invariant symbols == if count == 0 then [] else argv[1..count]
    {
      if count > 0 {
        symbols := symbols + [argv[count]];
      }
      count := count + 1;
    }
  }

  /**
   * `main`'s choice at run.py:92: fewer than two entries in `argv` (program name
   * included) selects the listing, otherwise the arguments are used as given.
   */
  method ResolveSymbols(argv: seq<string>, rows: seq<Row>) returns (r: Result<seq<string>, ListingError>)
    ensures 2 <= |argv| ==> r == Success(argv[1..])
    ensures |argv| < 2 ==> (r.Failure? <==> !HasSymbolColumn(rows))
    ensures |argv| < 2 && r.Success? ==> r.value == FirstAppearances(SymbolColumn(rows))
  {
    if |argv| < 2 {
      r := ListingSymbols(rows);
    } else {
      var symbols := ArgumentSymbols(argv);
      r := Success(symbols);
    }
  }
}
