/**
 * What a viewer reads from its mount point (src/view.js:19-29) and the
 * sort parameters it sends (src/view.js:94-108).  The mount point's
 * `data-*` attributes arrive as `container.dataset`: a map from the
 * camel-cased attribute name to its string value, a missing attribute
 * being a missing key.
 */
module ViewConfig {
  import opened Opt
  import opened JsText

  type Dataset = map<string, string>

  datatype Config = Config(
    username: string,      // "" when missing: both are falsy
    apiKey: string,        // "" when missing
    displayMode: string,
    itemsPerPage: int,
    showArtist: bool,
    showTitle: bool,
    showYear: bool,
    showLabel: bool,
    sortBy: string,
    sortOrder: string,
    gridColumns: int)

  function Get(d: Dataset, key: string): Option<string> {
    if key in d then Some(d[key]) else None
  }

  /** `value || fallback` on a string that may be undefined: the empty string is falsy too. */
  function StringOr(value: Option<string>, fallback: string): (r: string)
    ensures fallback != "" ==> r != ""
    ensures value.Some? && value.value != "" ==> r == value.value
    ensures !(value.Some? && value.value != "") ==> r == fallback
  {
    if value.Some? && value.value != "" then value.value else fallback
  }

  /** `parseInt(value) || fallback`: `NaN` (also from `undefined`) and 0 are falsy. */
  function IntOr(value: Option<string>, fallback: int): (r: int)
    ensures fallback != 0 ==> r != 0
    ensures value.Some? && ParseInt(value.value).Some? && ParseInt(value.value).value != 0 ==>
      r == ParseInt(value.value).value
    ensures !(value.Some? && ParseInt(value.value).Some? && ParseInt(value.value).value != 0) ==>
      r == fallback
  {
    var parsed := if value.Some? then ParseInt(value.value) else None;
    if parsed.Some? && parsed.value != 0 then parsed.value else fallback
  }

  /** `value === 'true'`. */
  predicate IsTrue(value: Option<string>) {
    value == Some("true")
  }

  /** The attribute `key` is present and not the empty string. */
  predicate Truthy(d: Dataset, key: string) {
    key in d && d[key] != ""
  }

  /** The attribute `key` is present and `parseInt` reads a non-zero number from it. */
  predicate ParsesNonZero(d: Dataset, key: string) {
    key in d && ParseInt(d[key]).Some? && ParseInt(d[key]).value != 0
  }

  /** The viewer's settings from the mount point's `dataset`. With no attribute at all they are
      12 items, 4 columns, the grid, newest additions first, every field hidden and no username. */
  function ReadConfig(d: Dataset): (c: Config)
    ensures c.itemsPerPage != 0 && c.gridColumns != 0
    ensures c.displayMode != "" && c.sortBy != "" && c.sortOrder != ""
    ensures c.showArtist <==> Get(d, "showArtist") == Some("true")
    ensures c.showTitle <==> Get(d, "showTitle") == Some("true")
    ensures c.showYear <==> Get(d, "showYear") == Some("true")
    ensures c.showLabel <==> Get(d, "showLabel") == Some("true")
    ensures Truthy(d, "username") ==> c.username == d["username"]
    ensures !Truthy(d, "username") ==> c.username == ""
    ensures Truthy(d, "apiKey") ==> c.apiKey == d["apiKey"]
    ensures !Truthy(d, "apiKey") ==> c.apiKey == ""
    ensures Truthy(d, "displayMode") ==> c.displayMode == d["displayMode"]
    ensures !Truthy(d, "displayMode") ==> c.displayMode == "grid"
    ensures Truthy(d, "sortBy") ==> c.sortBy == d["sortBy"]
    ensures !Truthy(d, "sortBy") ==> c.sortBy == "added"
    ensures Truthy(d, "sortOrder") ==> c.sortOrder == d["sortOrder"]
    ensures !Truthy(d, "sortOrder") ==> c.sortOrder == "desc"
    ensures ParsesNonZero(d, "itemsPerPage") ==> c.itemsPerPage == ParseInt(d["itemsPerPage"]).value
    ensures !ParsesNonZero(d, "itemsPerPage") ==> c.itemsPerPage == 12
    ensures ParsesNonZero(d, "gridColumns") ==> c.gridColumns == ParseInt(d["gridColumns"]).value
    ensures !ParsesNonZero(d, "gridColumns") ==> c.gridColumns == 4
  {
    Config(
      username := StringOr(Get(d, "username"), ""),
      apiKey := StringOr(Get(d, "apiKey"), ""),
      displayMode := StringOr(Get(d, "displayMode"), "grid"),
      itemsPerPage := IntOr(Get(d, "itemsPerPage"), 12),
      showArtist := IsTrue(Get(d, "showArtist")),
      showTitle := IsTrue(Get(d, "showTitle")),
      showYear := IsTrue(Get(d, "showYear")),
      showLabel := IsTrue(Get(d, "showLabel")),
      sortBy := StringOr(Get(d, "sortBy"), "added"),
      sortOrder := StringOr(Get(d, "sortOrder"), "desc"),
      gridColumns := IntOr(Get(d, "gridColumns"), 4))
  }

  /** An integer attribute printed from a non-zero number is read back as that number;
      one that is missing, zero or has no leading digits gives the default. */
  lemma IntOrDecimal(n: int, fallback: int)
    ensures IntOr(Some(IntToDecimal(n)), fallback) == if n != 0 then n else fallback
    ensures IntOr(None, fallback) == fallback
  {
    ParseIntRoundTrip(n);
  }

  // ---------------------------------------------------------------------
  // Sort parameters

  /** The keys of the source's `sortMap`, each mapped to itself. */
  const SortMap: map<string, string> :=
    map["added" := "added", "artist" := "artist", "title" := "title",
        "year" := "year", "label" := "label", "catno" := "catno"]

  datatype SortParams = SortParams(sort: string, order: string)

  function GetSortParams(sortBy: string, sortOrder: string): (r: SortParams)
    ensures r.sort in SortMap.Keys
    ensures sortBy in SortMap.Keys ==> r.sort == sortBy
    ensures sortBy !in SortMap.Keys ==> r.sort == "added"
    ensures r.order != "" && (sortOrder != "" ==> r.order == sortOrder)
    ensures sortOrder == "" ==> r.order == "desc"
  {
    SortParams(
      sort := if sortBy in SortMap && SortMap[sortBy] != "" then SortMap[sortBy] else "added",
      order := if sortOrder != "" then sortOrder else "desc")
  }

  /** Mapping the mapped parameters again changes nothing. */
  lemma GetSortParamsIdempotent(sortBy: string, sortOrder: string)
    ensures var r := GetSortParams(sortBy, sortOrder);
      GetSortParams(r.sort, r.order) == r
  {
  }
}
