/**
 * pkg/app/pagination.go: page number, page size and row offset. The gin
 * context is replaced by the raw query string it yields (`c.Query` returns ""
 * for a missing parameter) and the global application settings by a
 * `PageSettings` value.
 */
module Pagination {
  import opened GoInts
  import opened Convert

  /** The `DefaultPageSize` and `MaxPageSize` application settings. */
  datatype PageSettings = PageSettings(defaultPageSize: int64, maxPageSize: int64)

  /** `GetPage`: the `page` query as a positive page number, 1 when absent or not positive. */
  function GetPage(pageQuery: string): (r: int64)
    ensures r >= 1
    ensures IsDecimal(pageQuery) && 0 < DecimalValue(pageQuery) <= MaxInt64 ==> r == DecimalValue(pageQuery)
    ensures IsDecimal(pageQuery) && DecimalValue(pageQuery) > MaxInt64 ==> r == MaxInt64
    ensures IsDecimal(pageQuery) && DecimalValue(pageQuery) <= 0 ==> r == 1
    ensures !IsDecimal(pageQuery) && |pageQuery| <= 20 ==> r == 1
  {
    var page := StrTo(pageQuery).MustInt();
    if page <= 0 then 1 else page
  }

  /** `GetPageSize`: the `page_size` query, defaulted when not positive and capped at the maximum. */
  function GetPageSize(sizeQuery: string, settings: PageSettings): (r: int64)
    ensures 1 <= settings.defaultPageSize <= settings.maxPageSize ==> 1 <= r <= settings.maxPageSize
    ensures IsDecimal(sizeQuery) && 0 < DecimalValue(sizeQuery) <= settings.maxPageSize ==>
      r == DecimalValue(sizeQuery)
    ensures IsDecimal(sizeQuery) && DecimalValue(sizeQuery) > 0 && DecimalValue(sizeQuery) > settings.maxPageSize ==>
      r == settings.maxPageSize
    ensures IsDecimal(sizeQuery) && DecimalValue(sizeQuery) <= 0 ==> r == settings.defaultPageSize
    ensures !IsDecimal(sizeQuery) && |sizeQuery| <= 20 ==> r == settings.defaultPageSize
  {
    var pageSize := StrTo(sizeQuery).MustInt();
    if pageSize <= 0 then settings.defaultPageSize
    else if pageSize > settings.maxPageSize then settings.maxPageSize
    else pageSize
  }

  /**
   * `GetPageOffset`: rows skipped before `page`. The product is Go `int`
   * arithmetic, so it wraps around when it exceeds 64 bits.
   */
  function GetPageOffset(page: int64, pageSize: int64): (r: int64)
    ensures page <= 0 ==> r == 0
    ensures page > 0 && InInt64((page - 1) * pageSize) ==> r == (page - 1) * pageSize
    ensures page > 0 ==> (r - (page - 1) * pageSize) % TwoTo64 == 0
  {
    if page > 0 then WrapInt64((page - 1) * pageSize) else 0
  }

  /** A missing `page` query reads as 0 and therefore selects the first page. */
  lemma MissingPageIsFirst()
    ensures StrTo("").MustInt() == 0
    ensures GetPage("") == 1
  {
  }

  /** The first page starts at row 0; each further page starts one page size later. */
  lemma OffsetsAdvanceByPageSize(page: int64, pageSize: int64)
    requires page >= 1 && page + 1 <= MaxInt64
    requires InInt64(page * pageSize)
    ensures GetPageOffset(1, pageSize) == 0
    ensures GetPageOffset(page + 1, pageSize) == GetPageOffset(page, pageSize) + pageSize
  {
    ProductBetween(page, pageSize);
  }

  /** `(p - 1) * s` lies between 0 and `p * s`, so it fits wherever `p * s` does. */
  lemma ProductBetween(p: int, s: int)
    requires p >= 1
    ensures s >= 0 ==> 0 <= (p - 1) * s <= p * s
    ensures s < 0 ==> p * s <= (p - 1) * s <= 0
  {
    assert p * s == (p - 1) * s + s;
  }

  /**
   * A page number large enough for the product to pass 2^63 gives a negative
   * offset: page 2^62 + 1 with page size 2 starts at MinInt64.
   */
  lemma OffsetWrapsForHugePage()
    ensures GetPageOffset(0x4000_0000_0000_0001, 2) == MinInt64
  {
  }
}
