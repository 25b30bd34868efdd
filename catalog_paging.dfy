/** The page and size clamping of the product listing endpoint. */
module CatalogPaging {
  const MaxPageSize: int := 100

  /** The page number asked for, never below zero. */
  function ClampPage(page: int): (r: int)
    ensures r >= 0
    ensures page >= 0 ==> r == page
    ensures page < 0 ==> r == 0
  {
    if page > 0 then page else 0
  }

  /** The page size asked for, held within 1 to 100. */
  function ClampSize(size: int): (r: int)
    ensures 1 <= r <= MaxPageSize
    ensures 1 <= size <= MaxPageSize ==> r == size
    ensures size < 1 ==> r == 1
    ensures size > MaxPageSize ==> r == MaxPageSize
  {
    var atLeastOne := if size > 1 then size else 1;
    if atLeastOne < MaxPageSize then atLeastOne else MaxPageSize
  }

  /** Clamping a clamped pair changes nothing. */
  lemma ClampIdempotent(page: int, size: int)
    ensures ClampPage(ClampPage(page)) == ClampPage(page)
    ensures ClampSize(ClampSize(size)) == ClampSize(size)
  {
  }
}
