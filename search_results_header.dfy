/**
 * The `<search-results-header>` element: the 1-based window of results shown
 * ("Showing 21 - 23 of 23 Results"), the warning shown instead when the requested
 * start lies past the results, and the page number handed to the paginator.
 *
 * `numHits`, `start` and `size` are the non-negative integers the search produced.
 */
module SearchResultsHeader {

  function Min(a: int, b: int): int {
    if a <= b then a else b
  }

  /** `start + 1`: the 1-based number of the first result shown. */
  function StartIdx(start: nat): int {
    start + 1
  }

  /** `startIdx + min(numHits - startIdx, size - 1)`: the number of the last result shown. */
  function EndIdx(numHits: nat, start: nat, size: nat): int {
    StartIdx(start) + Min(numHits - StartIdx(start), size - 1)
  }

  /** The warning is shown instead of the window when `endIdx < startIdx`. */
  predicate IsOutOfRange(numHits: nat, start: nat, size: nat) {
    EndIdx(numHits, start, size) < StartIdx(start)
  }

  /** The test fails exactly when the start lies at or past the last hit, or the page size is 0. */
  lemma OutOfRangeIff(numHits: nat, start: nat, size: nat)
    ensures IsOutOfRange(numHits, start, size) <==> start >= numHits || size == 0
  {
  }

  /**
   * A window that is shown lies within the hits and holds `min(numHits - start, size)`
   * results: a full page, or the rest of the hits on the last page.
   */
  lemma WindowWithinHits(numHits: nat, start: nat, size: nat)
    requires !IsOutOfRange(numHits, start, size)
    ensures 1 <= size && 1 <= StartIdx(start) <= EndIdx(numHits, start, size) <= numHits
    ensures EndIdx(numHits, start, size) - StartIdx(start) + 1 == Min(numHits - start, size)
  {
  }

  /** 23 hits from start 20 in pages of 10 show results 21 to 23. */
  lemma WindowExample()
    ensures StartIdx(20) == 21 && EndIdx(23, 20, 10) == 23
    ensures !IsOutOfRange(23, 20, 10) && IsOutOfRange(0, 0, 10)
  {
  }

  // ---------------------------------------------------------------------------
  // The current page

  /** `Math.floor(startIdx / size) + 1`, as the header computes it. */
  function CurrentPageAsWritten(start: nat, size: nat): nat
    requires size > 0
  {
    StartIdx(start) / size + 1
  }

  /** The 1-based page that holds the result at offset `start`. */
  function CurrentPage(start: nat, size: nat): (page: nat)
    requires size > 0
    ensures page >= 1 && (page - 1) * size <= start < page * size
  {
    start / size + 1
  }

  /** For a start on a page boundary and pages of two or more, both formulas agree. */
  lemma CurrentPageAgreesWhenAligned(start: nat, size: nat)
    requires size >= 2 && start % size == 0
    ensures CurrentPageAsWritten(start, size) == CurrentPage(start, size)
  {
    var k := start / size;
    assert start == k * size;
    assert start + 1 == k * size + 1;
    DivPlusRemainder(k, 1, size);
  }

  /**
   * The header's formula is one page ahead exactly when the result after `start`
   * begins a page, and right otherwise.
   */
  lemma CurrentPageAsWrittenOffByOne(start: nat, size: nat)
    requires size > 0
    ensures (start + 1) % size == 0 ==> CurrentPageAsWritten(start, size) == CurrentPage(start, size) + 1
    ensures (start + 1) % size != 0 ==> CurrentPageAsWritten(start, size) == CurrentPage(start, size)
  {
    NextOffset(start, size);
  }

  /** The offset after `start` opens the next page when `start` ends its page, and stays on it otherwise. */
  lemma NextOffset(start: nat, size: nat)
    requires size > 0
    ensures start % size + 1 == size ==> (start + 1) / size == start / size + 1 && (start + 1) % size == 0
    ensures start % size + 1 < size ==> (start + 1) / size == start / size && (start + 1) % size == start % size + 1
  {
    var k, r := start / size, start % size;
    assert start + 1 == k * size + (r + 1);
    if r + 1 == size {
      assert (start + 1) / size == k + 1 && (start + 1) % size == 0 by {
        MulSucc(k, size);
        DivPlusRemainder(k + 1, 0, size);
      }
    } else {
      assert (start + 1) / size == k && (start + 1) % size == r + 1 by {
        DivPlusRemainder(k, r + 1, size);
      }
    }
  }

  lemma MulSucc(k: nat, size: nat)
    ensures (k + 1) * size == k * size + size
  {
  }

  /** `(k * size + r) / size == k` and `(k * size + r) % size == r` for `r` below `size`. */
  lemma DivPlusRemainder(k: nat, r: nat, size: nat)
    requires 0 <= r < size
    ensures (k * size + r) / size == k && (k * size + r) % size == r
  {
    var n := k * size + r;
    var q, m := n / size, n % size;
    assert n == q * size + m && 0 <= m < size;
    MulSign(q - k, size);
    assert (q - k) * size == q * size - k * size == r - m;
  }

  /** A multiple of `c` by a non-zero integer is at least `c` away from zero. */
  lemma MulSign(d: int, c: nat)
    ensures d >= 1 ==> d * c >= c
    ensures d <= -1 ==> d * c + c <= 0
  {
    if d >= 1 {
      MulMonotone(1, d, c);
    }
    if d <= -1 {
      var e: nat := -d;
      MulMonotone(1, e, c);
      MulNegate(d, c);
    }
  }

  lemma MulNegate(d: int, c: int)
    ensures (-d) * c == -(d * c)
  {
  }

  lemma {:induction false} MulMonotone(a: nat, b: nat, c: nat)
    requires a <= b
    ensures a * c <= b * c
    decreases b - a
  {
    if a < b {
      MulMonotone(a + 1, b, c);
      assert (a + 1) * c == a * c + c;
    }
  }

  /** With one result per page, the first result is reported on page 2. */
  lemma CurrentPageCounterexample()
    ensures CurrentPageAsWritten(0, 1) == 2 && CurrentPage(0, 1) == 1
    ensures CurrentPageAsWritten(9, 10) == 2 && CurrentPage(9, 10) == 1
  {
  }

  // ---------------------------------------------------------------------------
  // What the header shows

  /** The page-size choices the header offers. */
  const PageSizeOptions := "10,25,50,100"

  datatype HeaderView =
    | OutOfRangeWarning(start: nat, numHits: nat)
    | Showing(startIdx: int, endIdx: int, numHits: nat, pageSize: nat, options: string, currentPage: nat)

  /**
   * `connectedCallback`: the warning, or the window, the page-size selector and the
   * paginator. The page handed to the paginator is the one the header computes, which
   * holds the result after `start` rather than `start` itself.
   */
  function Render(numHits: nat, start: nat, size: nat): (v: HeaderView)
    ensures v.OutOfRangeWarning? <==> start >= numHits || size == 0
    ensures v.Showing? ==> 1 <= v.startIdx <= v.endIdx <= numHits && v.endIdx - v.startIdx + 1 <= size
    ensures v.Showing? ==> (v.currentPage - 1) * size <= start + 1 < v.currentPage * size
    ensures v.Showing? ==> v.currentPage == CurrentPage(start, size) + (if (start + 1) % size == 0 then 1 else 0)
  {
    OutOfRangeIff(numHits, start, size);
    if IsOutOfRange(numHits, start, size) then OutOfRangeWarning(start, numHits)
    else
      WindowWithinHits(numHits, start, size);
      CurrentPageAsWrittenOffByOne(start, size);
      assert CurrentPageAsWritten(start, size) == CurrentPage(start + 1, size);
      Showing(StartIdx(start), EndIdx(numHits, start, size), numHits, size, PageSizeOptions, CurrentPageAsWritten(start, size))
  }

  /** The header as intended: the same view, with the page that holds `start`. */
  function RenderCorrected(numHits: nat, start: nat, size: nat): (v: HeaderView)
    ensures v.OutOfRangeWarning? <==> start >= numHits || size == 0
    ensures v.Showing? ==> Render(numHits, start, size).Showing? && v == Render(numHits, start, size).(currentPage := v.currentPage)
    ensures v.Showing? ==> (v.currentPage - 1) * size <= start < v.currentPage * size
    ensures v.OutOfRangeWarning? ==> v == Render(numHits, start, size)
  {
    var w := Render(numHits, start, size);
    if w.Showing? then w.(currentPage := CurrentPage(start, size)) else w
  }
}
