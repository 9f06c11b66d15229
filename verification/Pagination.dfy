/** Page parameters and the slice of a list they select. */
module Pagination {
  import opened Machine
  import opened Outcomes

  const DEFAULT_PAGE := 1
  const DEFAULT_PER_PAGE := 50
  const MAX_PER_PAGE := 200

  datatype Page = Page(number: Int64, size: Int64)

  /** A query parameter after trimming: empty, not an integer, or an integer. */
  datatype Parameter = Absent | Garbage | Number(value: Int64)

  datatype Error = BadPage | BadPerPage

  predicate Unusable(p: Parameter) {
    p.Garbage? || (p.Number? && p.value <= 0)
  }

  /** Parses the two parameters: every page that is let through has a positive number and a size of 1..200. */
  method ParsePagination(rawPage: Parameter, rawPerPage: Parameter) returns (r: Result<Page, Error>)
    ensures Unusable(rawPage) <==> r == Failure(BadPage)
    ensures !Unusable(rawPage) && Unusable(rawPerPage) <==> r == Failure(BadPerPage)
    ensures r.Success? ==>
      && r.value.number >= 1 && 1 <= r.value.size <= MAX_PER_PAGE
      && (rawPage.Number? ==> r.value.number == rawPage.value)
      && (rawPage.Absent? ==> r.value.number == DEFAULT_PAGE)
      && (rawPerPage.Number? && rawPerPage.value <= MAX_PER_PAGE ==> r.value.size == rawPerPage.value)
      && (rawPerPage.Number? && rawPerPage.value > MAX_PER_PAGE ==> r.value.size == MAX_PER_PAGE)
      && (rawPerPage.Absent? ==> r.value.size == DEFAULT_PER_PAGE)
  {
    var page, perPage: Int64 := DEFAULT_PAGE, DEFAULT_PER_PAGE;
    if !rawPage.Absent? {
      if rawPage.Garbage? || rawPage.value <= 0 {
        return Failure(BadPage);
      }
      page := rawPage.value;
    }
    if !rawPerPage.Absent? {
      if rawPerPage.Garbage? || rawPerPage.value <= 0 {
        return Failure(BadPerPage);
      }
      perPage := rawPerPage.value;
    }
    if perPage > MAX_PER_PAGE {
      perPage := MAX_PER_PAGE;
    }
    return Success(Page(page, perPage));
  }

  /** The slice expression of the program, from a computed start offset; None is Go's out-of-range panic. */
  function SliceFrom<T>(items: seq<T>, start: Int64, size: Int64): Option<seq<T>> {
    if items == [] || start >= |items| then Some([])
    else
      var end := Wrap64(start + size);
      var stop := if end > |items| then |items| else end;
      if 0 <= start <= stop then Some(items[start..stop]) else None
  }

  function Paginate<T>(items: seq<T>, p: Page): Option<seq<T>> {
    SliceFrom(items, Wrap64((p.number - 1) * p.size), p.size)
  }

  /** The elements at offsets start to start + size, as many of them as there are. */
  function Window<T>(items: seq<T>, start: nat, size: nat): seq<T> {
    if start >= |items| then []
    else if start + size > |items| then items[start..]
    else items[start..start + size]
  }

  /** The page the caller asked for, in exact arithmetic. */
  function PageOf<T>(items: seq<T>, number: nat, size: nat): seq<T>
    requires number > 0 && size > 0
  {
    MulMonotone(number - 1, 0, size);
    Window(items, (number - 1) * size, size)
  }

  /** From a start offset that did not wrap the slice is the window; from one below zero it panics. */
  lemma SliceIsWindow<T>(items: seq<T>, start: Int64, size: Int64)
    requires 1 <= size <= MAX_PER_PAGE && |items| + MAX_PER_PAGE < TWO_63
    ensures start >= 0 ==> SliceFrom(items, start, size) == Some(Window(items, start, size))
    ensures start < 0 && items != [] ==> SliceFrom(items, start, size) == None
  {
    if 0 <= start < |items| {
      assert items[start..|items|] == items[start..];
    }
  }

  /**
    The requested page comes back if and only if its start offset does not wrap into the list or below zero; a
    caller can rule that out by keeping (number - 1) * size below 2^63. Lists are short enough for the end offset,
    a start inside the list plus a page size, not to wrap.
   */
  lemma PaginateCorrectIff<T>(items: seq<T>, p: Page)
    requires p.number >= 1 && 1 <= p.size <= MAX_PER_PAGE && |items| + MAX_PER_PAGE < TWO_63
    ensures Paginate(items, p) == Some(PageOf(items, p.number, p.size))
       <==> items == [] || (p.number - 1) * p.size < TWO_63 || Wrap64((p.number - 1) * p.size) >= |items|
  {
    MulMonotone(p.number - 1, 0, p.size);
    SliceIsWindow(items, Wrap64((p.number - 1) * p.size), p.size);
  }

  /** Page 2^62 + 1 of size 4 starts at offset 0 again. */
  lemma WrappedPageRepeatsTheFirst<T>(items: seq<T>)
    requires 0 < |items| < 1000
    ensures var p := Page(0x4000_0000_0000_0001, 4);
      Paginate(items, p) == Paginate(items, Page(1, 4)) != Some(PageOf(items, p.number, p.size))
  {
    assert Wrap64(0x4000_0000_0000_0000 * 4) == 0;
    assert Wrap64(0) == 0 && Wrap64(4) == 4;
  }

  /** Page 2^61 + 1 of size 4 starts below zero, and the slice panics. */
  lemma WrappedPagePanics<T>(items: seq<T>)
    requires 0 < |items|
    ensures Paginate(items, Page(0x2000_0000_0000_0001, 4)) == None
  {
    assert Wrap64(0x2000_0000_0000_0000 * 4) == -TWO_63;
  }

  /** What the program returns for pages 1..count, concatenated; nothing when one of them panics. */
  function Pages<T>(items: seq<T>, size: Int64, count: nat): Option<seq<T>>
    requires count < TWO_63
  {
    if count == 0 then Some([])
    else
      match (Pages(items, size, count - 1), Paginate(items, Page(count, size)))
      case (Some(before), Some(page)) => Some(before + page)
      case _ => None
  }

  /** A page that starts in the list is the elements from there, up to a page of them. */
  lemma PageInList<T>(items: seq<T>, number: nat, size: Int64, start: nat)
    requires 1 <= size <= MAX_PER_PAGE && |items| + MAX_PER_PAGE < TWO_63
    requires 1 <= number < TWO_63 && start == (number - 1) * size < |items|
    ensures Paginate(items, Page(number, size))
         == Some(if start + size <= |items| then items[start..start + size] else items[start..])
  {
    SliceIsWindow(items, start, size);
  }

  lemma OneMorePage(size: int, count: int)
    requires 0 <= size && 1 <= count
    ensures count * size == (count - 1) * size + size && 0 <= (count - 1) * size
  {
  }

  /** One more page is appended to the prefix that the pages before it make up. */
  lemma PageAppended<T>(items: seq<T>, size: Int64, count: nat, start: nat)
    requires 1 <= size <= MAX_PER_PAGE && |items| + MAX_PER_PAGE < TWO_63
    requires 1 <= count < TWO_63 && start == (count - 1) * size < |items|
    requires Pages(items, size, count - 1) == Some(items[..start])
    ensures Pages(items, size, count) == Some(if start + size <= |items| then items[..start + size] else items)
  {
    PageInList(items, count, size, start);
    PrefixAndPage(items, start, size);
  }

  /** As long as start offsets lie in the list, the first pages concatenate to the matching prefix of it. */
  lemma {:induction false} PagesTile<T>(items: seq<T>, size: Int64, count: nat)
    requires 1 <= size <= MAX_PER_PAGE && |items| + MAX_PER_PAGE < TWO_63
    requires count == 0 || (count < TWO_63 && (count - 1) * size < |items|)
    ensures Pages(items, size, count) == Some(if count * size <= |items| then items[..count * size] else items)
  {
    if count > 0 {
      OneMorePage(size, count);
      if count > 1 {
        OneMorePage(size, count - 1);
      }
      PagesTile(items, size, count - 1);
      PageAppended(items, size, count, (count - 1) * size);
    }
  }

  lemma PrefixAndPage<T>(items: seq<T>, start: nat, size: nat)
    requires start <= |items|
    ensures start + size <= |items| ==> items[..start] + items[start..start + size] == items[..start + size]
    ensures items[..start] + items[start..] == items
  {
  }

  function PageCount(n: nat, size: nat): nat
    requires size > 0
  {
    (n + size - 1) / size
  }

  lemma RoundedUp(n: nat, size: nat)
    requires size > 0
    ensures n <= PageCount(n, size) * size < n + size
    ensures PageCount(n, size) <= n
  {
    var m := n + size - 1;
    assert m == size * (m / size) + m % size;
    if m / size > n {
      MulMonotone(size, n + 1, m / size);
      MulMonotone(n, 1, size);
    }
  }

  /** The pages the program returns for 1..ceil(n / size) are the whole list, none missing and none repeated. */
  lemma AllPages<T>(items: seq<T>, size: Int64)
    requires 1 <= size <= MAX_PER_PAGE && |items| + MAX_PER_PAGE < TWO_63
    ensures PageCount(|items|, size) < TWO_63
    ensures Pages(items, size, PageCount(|items|, size)) == Some(items)
  {
    var c := PageCount(|items|, size);
    RoundedUp(|items|, size);
    assert c > 0 ==> (c - 1) * size == c * size - size;
    PagesTile(items, size, c);
    if c * size == |items| {
      assert items[..|items|] == items;
    }
  }

  /** A later page starts at or beyond the end of the list, in exact arithmetic. */
  lemma LaterStart(n: nat, number: nat, size: nat)
    requires size > 0 && number > PageCount(n, size)
    ensures (number - 1) * size >= n
  {
    RoundedUp(n, size);
    MulMonotone(size, PageCount(n, size), number - 1);
  }

  lemma SliceEmptyIff<T>(items: seq<T>, start: nat, size: Int64)
    requires 1 <= size <= MAX_PER_PAGE && |items| + MAX_PER_PAGE < TWO_63 && start >= |items|
    ensures SliceFrom(items, Wrap64(start), size) == Some([])
       <==> items == [] || start < TWO_63 || Wrap64(start) >= |items|
  {
    SliceIsWindow(items, Wrap64(start), size);
  }

  /** A later page is empty if and only if its start offset does not wrap into the list or below zero. */
  lemma LaterPageEmptyIff<T>(items: seq<T>, p: Page)
    requires 1 <= p.size <= MAX_PER_PAGE && |items| + MAX_PER_PAGE < TWO_63
    requires p.number > PageCount(|items|, p.size)
    ensures Paginate(items, p) == Some([])
       <==> items == [] || (p.number - 1) * p.size < TWO_63 || Wrap64((p.number - 1) * p.size) >= |items|
  {
    LaterStart(|items|, p.number, p.size);
    SliceEmptyIff(items, (p.number - 1) * p.size, p.size);
  }
}
