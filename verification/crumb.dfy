/**
 * Extraction of the crumb JSON fragment from the quote page (run.py:37-39).
 * The page must contain `CrumbStore`; the fragment runs from the first
 * `"CrumbStore` (quote included) up to, not including, the first comma at or
 * after the first `CrumbStore`, and is wrapped in braces before being parsed.
 * All index arithmetic follows Python: `find` answers -1 when it finds nothing
 * and slice bounds are normalised, which decides what the edge cases produce.
 */
module Crumb {
  import opened Wrappers
  import opened PyStr

  const Marker: string := "CrumbStore"
  const QuotedMarker: string := "\"CrumbStore"

  /** The slice `text[start:end]` of run.py:38, or None when the guard of run.py:37 fails. */
  function CrumbSpan(page: string): (r: Option<string>)
    ensures r.None? <==> !Contains(page, Marker)
  {
    if !Contains(page, Marker) then None
    else
      var c := Find(page, Marker);
      var k := Find(SliceFrom(page, c), ",");
      Some(Slice(page, Find(page, QuotedMarker), k + c))
  }

  /** The text handed to `json.loads` at run.py:40: the span wrapped in braces. */
  function CrumbJson(page: string): (r: Option<string>)
    ensures r.None? <==> !Contains(page, Marker)
    ensures r.Some? ==> r.value == "{" + CrumbSpan(page).value + "}"
  {
    match CrumbSpan(page)
    case None => None
    case Some(span) => Some("{" + span + "}")
  }

  /** Every `"CrumbStore` has a `CrumbStore` one position later. */
  lemma QuotedHasMarker(page: string, i: int)
    requires OccursAt(page, QuotedMarker, i)
    ensures OccursAt(page, Marker, i + 1)
  {
    assert page[i + 1..i + 11] == page[i..i + 11][1..];
  }

  /** The first `"CrumbStore` starts no earlier than one before the first `CrumbStore`. */
  lemma QuotedNotBeforeMarker(page: string)
    requires Contains(page, QuotedMarker)
    ensures Find(page, Marker) - 1 <= Find(page, QuotedMarker)
  {
    var q := Find(page, QuotedMarker);
    QuotedHasMarker(page, q);
  }

  /** A quote just before the first `CrumbStore` makes that quote the first `"CrumbStore`. */
  lemma QuotedAtMarker(page: string, c: int)
    requires c == Find(page, Marker) && 1 <= c && page[c - 1] == '"'
    ensures Find(page, QuotedMarker) == c - 1
  {
    assert page[c - 1..c + 10] == ['"'] + page[c..c + 10];
    assert OccursAt(page, QuotedMarker, c - 1);
    QuotedNotBeforeMarker(page);
  }

  /**
   * The regular case: with a quote just before the first `CrumbStore` and a comma
   * after it, the span runs from that quote up to the first comma, and the JSON
   * text is the span in braces.
   */
  lemma SpanOfQuotedMarker(page: string, c: int, k: int)
    requires c == Find(page, Marker) && 1 <= c && page[c - 1] == '"'
    requires k == Find(page[c..], ",") && 0 <= k
    ensures 10 <= k && c + k < |page| && page[c + k] == ','
    ensures CrumbSpan(page) == Some(page[c - 1..c + k])
    ensures CrumbJson(page) == Some("{" + page[c - 1..c + k] + "}")
  {
    FirstCommaAfterMarker(page, c, k);
    SpanBounds(page, c, k);
  }

  /**
   * The slice rule for any page with a `"CrumbStore` at q and a comma after the
   * first `CrumbStore` at c, whether or not the quote sits at c - 1: the span
   * runs from q up to that comma, and it is empty, with JSON text `{}`, when q
   * lies at or after the comma.
   */
  lemma SpanFromQuotedMarker(page: string, q: int, c: int, k: int)
    requires c == Find(page, Marker) && 0 <= c
    requires q == Find(page, QuotedMarker) && 0 <= q
    requires k == Find(page[c..], ",") && 0 <= k
    ensures q < c + k ==> CrumbSpan(page) == Some(page[q..c + k])
    ensures c + k <= q ==> CrumbSpan(page) == Some("") && CrumbJson(page) == Some("{}")
  {
    SpanEnd(page, c, k);
    if c + k <= q {
      assert "{" + "" + "}" == "{}";
    }
  }

  /** With a comma after the first `CrumbStore`, the end bound of the slice is that comma's index. */
  lemma SpanEnd(page: string, c: int, k: int)
    requires c == Find(page, Marker) && 0 <= c
    requires k == Find(page[c..], ",") && 0 <= k
    ensures c + k < |page|
    ensures CrumbSpan(page) == Some(Slice(page, Find(page, QuotedMarker), c + k))
  {
    FirstCommaAfterMarker(page, c, k);
    assert SliceFrom(page, c) == page[c..];
  }

  /** In the regular case the span starts with `"CrumbStore` and holds no comma. */
  lemma SpanOfQuotedMarkerShape(page: string, c: int, k: int)
    requires c == Find(page, Marker) && 1 <= c && page[c - 1] == '"'
    requires k == Find(page[c..], ",") && 0 <= k
    ensures 10 <= k && c + k < |page|
    ensures page[c - 1..c + k][..11] == QuotedMarker
    ensures ',' !in page[c - 1..c + k]
  {
    FirstCommaAfterMarker(page, c, k);
    SpanBounds(page, c, k);
    NoCommaBefore(page, c, k);
    assert page[c - 1..c + k][..11] == page[c - 1..c + 10];
  }

  /** The first comma after `CrumbStore` lies beyond the marker's ten letters. */
  lemma FirstCommaAfterMarker(page: string, c: int, k: int)
    requires c == Find(page, Marker) && 0 <= c
    requires k == Find(page[c..], ",") && 0 <= k
    ensures 10 <= k && c + k < |page| && page[c + k] == ','
    ensures forall j :: c <= j < c + k ==> page[j] != ','
  {
    var tail := page[c..];
    FindChar(tail, ',');
    MarkerHasNoComma(tail);
    forall j | c <= j < c + k
      ensures page[j] != ','
    {
      assert page[j] == tail[j - c];
    }
  }

  lemma NoCommaBefore(page: string, c: int, k: int)
    requires 1 <= c && 0 <= k && c + k <= |page| && page[c - 1] == '"'
    requires forall j :: c <= j < c + k ==> page[j] != ','
    ensures ',' !in page[c - 1..c + k]
  {
    var span := page[c - 1..c + k];
    forall m | 0 <= m < |span|
      ensures span[m] != ','
    {
      if m > 0 {
        assert span[m] == page[c - 1 + m];
      }
    }
  }

  /** The slice bounds of run.py:38 in the regular case: from the quote to the first comma. */
  lemma SpanBounds(page: string, c: int, k: int)
    requires c == Find(page, Marker) && 1 <= c && page[c - 1] == '"'
    requires k == Find(page[c..], ",") && 10 <= k
    ensures CrumbSpan(page) == Some(page[c - 1..c + k])
    ensures page[c - 1..c + 10] == QuotedMarker
  {
    QuotedAtMarker(page, c);
    assert OccursAt(page[c..], ",", k);
    assert SliceFrom(page, c) == page[c..];
  }

  /** The marker itself holds no comma, so the first comma after it comes at offset 10 or later. */
  lemma MarkerHasNoComma(tail: string)
    requires OccursAt(tail, Marker, 0)
    ensures forall m :: 0 <= m < 10 ==> tail[m] != ','
  {
    assert tail[..10] == Marker;
    assert ',' !in tail[..10];
    forall m | 0 <= m < 10
      ensures tail[m] != ','
    {
      assert tail[m] == tail[..10][m];
    }
  }

  /**
   * When the first `CrumbStore` is not at the start of the page and no comma
   * follows it, the end bound `c - 1` lies at or before the start bound and
   * the span is empty.
   */
  lemma SpanWithoutComma(page: string)
    requires Contains(page, Marker) && 1 <= Find(page, Marker)
    requires !Contains(page[Find(page, Marker)..], ",")
    ensures CrumbSpan(page) == Some("")
    ensures CrumbJson(page) == Some("{}")
  {
    if Contains(page, QuotedMarker) {
      QuotedNotBeforeMarker(page);
    }
    assert "{" + "" + "}" == "{}";
  }

  /**
   * When `CrumbStore` starts the page and no comma follows, the end bound is
   * `-1 + 0 = -1`, which Python reads as "one before the end": the span runs
   * from a later `"CrumbStore` to the page's last character but one.
   */
  lemma SpanWithoutCommaAtStart(page: string)
    requires Find(page, Marker) == 0
    requires !Contains(page, ",")
    requires Contains(page, QuotedMarker)
    ensures Find(page, QuotedMarker) < |page| - 1
    ensures CrumbSpan(page) == Some(page[Find(page, QuotedMarker)..|page| - 1])
  {
  }

  /** Without any `"CrumbStore` the start bound -1 means the last character, and the span is empty. */
  lemma SpanWithoutQuotedMarker(page: string)
    requires Contains(page, Marker)
    requires !Contains(page, QuotedMarker)
    ensures CrumbSpan(page) == Some("")
    ensures CrumbJson(page) == Some("{}")
  {
    assert "{" + "" + "}" == "{}";
  }
}
