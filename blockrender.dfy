/**
 * The server-side render callbacks of the two plugin entry points
 * (vinyl-vault.php:78-137, discogs-blocks.php:51-110).  Both normalise the
 * block attributes the same way and differ only in the block's class
 * name, so they share one model with a `Brand` for that constant.  The
 * result is the wrapper's class and the mount point's `data-*`
 * attributes, keyed by the names the viewer's `dataset` uses.
 */
module BlockRender {
  import opened Opt
  import opened JsText
  import opened Html
  import opened Markup
  import opened ViewConfig
  import opened Render

  /** The PHP values a block attribute can hold; a missing attribute reads as `null`. */
  datatype PhpValue = PNull | PBool(b: bool) | PInt(i: int) | PString(s: string)

  type Attributes = map<string, PhpValue>

  function Lookup(attributes: Attributes, key: string): PhpValue {
    if key in attributes then attributes[key] else PNull
  }

  /** PHP's `empty()`: `null`, `false`, `0`, `""` and `"0"`; a value is truthy exactly when it is not empty. */
  predicate IsEmpty(v: PhpValue) {
    match v
    case PNull => true
    case PBool(b) => !b
    case PInt(i) => i == 0
    case PString(s) => s == "" || s == "0"
  }

  /** `intval()`. */
  function IntVal(v: PhpValue): int {
    match v
    case PNull => 0
    case PBool(b) => if b then 1 else 0
    case PInt(i) => i
    case PString(s) => PhpIntVal(s)
  }

  /** WordPress's `absint()`: the absolute value of `intval()`. */
  function AbsInt(v: PhpValue): (n: nat)
    ensures v.PInt? ==> n == if v.i < 0 then -v.i else v.i
  {
    var i := IntVal(v);
    if i < 0 then -i else i
  }

  /** The string PHP makes of a value (string conversion, as `.` and `esc_attr` do). */
  function ToPhpString(v: PhpValue): (s: string)
    ensures !IsEmpty(v) ==> s != ""
  {
    match v
    case PNull => ""
    case PBool(b) => if b then "1" else ""
    case PInt(i) => IntToDecimal(i)
    case PString(s) => s
  }

  /** `max(lo, min(hi, n))`. */
  function Clamp(lo: int, hi: int, n: int): (r: int)
    requires lo <= hi
    ensures lo <= r <= hi
    ensures lo <= n <= hi ==> r == n
  {
    if n > hi then hi else if n < lo then lo else n
  }

  // ---------------------------------------------------------------------
  // Normalisation

  datatype Brand = VinylVault | DiscogsBlocks

  /** The block's own class, the only constant in which the two entry points differ. */
  function BaseClass(brand: Brand): string {
    match brand
    case VinylVault => "wp-block-vinyl-vault-collection"
    case DiscogsBlocks => "wp-block-discogs-blocks-collection"
  }

  const ValidModes: seq<string> := ["grid", "list", "compact"]

  /** `! empty($v) ? <string of $v> : $fallback`. */
  function TextOr(v: PhpValue, fallback: string): (r: string)
    ensures fallback != "" ==> r != ""
    ensures IsEmpty(v) ==> r == fallback
    ensures v.PString? && !IsEmpty(v) ==> r == v.s
  {
    if !IsEmpty(v) then ToPhpString(v) else fallback
  }

  function DisplayMode(attributes: Attributes): (mode: string)
    ensures mode in ValidModes
    ensures mode != "grid" ==> Lookup(attributes, "displayMode") == PString(mode)
  {
    var mode := TextOr(Lookup(attributes, "displayMode"), "grid");
    if mode in ValidModes then mode else "grid"
  }

  /** `! empty($v) ? absint($v) : $fallback`, then clamped. */
  function BoundedCount(v: PhpValue, fallback: int, hi: int): (n: int)
    requires 1 <= fallback <= hi
    ensures 1 <= n <= hi
    ensures IsEmpty(v) ==> n == fallback
    ensures !IsEmpty(v) && 1 <= AbsInt(v) <= hi ==> n == AbsInt(v)
  {
    Clamp(1, hi, if !IsEmpty(v) then AbsInt(v) else fallback)
  }

  function ClassName(brand: Brand, attributes: Attributes): (c: string)
    ensures |BaseClass(brand)| <= |c| && c[..|BaseClass(brand)|] == BaseClass(brand)
  {
    var align := Lookup(attributes, "align");
    BaseClass(brand) + (if !IsEmpty(align) then " align" + ToPhpString(align) else "")
  }

  /** The attribute values after normalisation, before they are printed. */
  datatype Normalized = Normalized(
    username: string,
    apiKey: string,
    displayMode: string,
    itemsPerPage: int,
    showArtist: bool,
    showTitle: bool,
    showYear: bool,
    showLabel: bool,
    sortBy: string,
    sortOrder: string,
    gridColumns: int)

  /** The defaulting, clamping and enum check of both render callbacks. */
  function Normalize(attributes: Attributes): (n: Normalized)
    ensures 1 <= n.itemsPerPage <= 50 && 1 <= n.gridColumns <= 8
    ensures n.displayMode in ValidModes
    ensures n.sortBy != "" && n.sortOrder != ""
  {
    var attr := k => Lookup(attributes, k);
    Normalized(
      username := TextOr(attr("username"), ""),
      apiKey := TextOr(attr("apiKey"), ""),
      displayMode := DisplayMode(attributes),
      itemsPerPage := BoundedCount(attr("itemsPerPage"), 12, 50),
      showArtist := !IsEmpty(attr("showArtist")),
      showTitle := !IsEmpty(attr("showTitle")),
      showYear := !IsEmpty(attr("showYear")),
      showLabel := !IsEmpty(attr("showLabel")),
      sortBy := TextOr(attr("sortBy"), "added"),
      sortOrder := TextOr(attr("sortOrder"), "desc"),
      gridColumns := BoundedCount(attr("gridColumns"), 4, 8))
  }

  function BoolText(b: bool): string {
    if b then "true" else "false"
  }

  /** The mount point's `data-*` attributes, keyed by their `dataset` names: the counts with `%d`,
      the flags as `"true"` / `"false"`, everything else as is. */
  function DataAttributes(n: Normalized): map<string, string> {
    map[
      "username" := n.username,
      "apiKey" := n.apiKey,
      "displayMode" := n.displayMode,
      "itemsPerPage" := IntToDecimal(n.itemsPerPage),
      "showArtist" := BoolText(n.showArtist),
      "showTitle" := BoolText(n.showTitle),
      "showYear" := BoolText(n.showYear),
      "showLabel" := BoolText(n.showLabel),
      "sortBy" := n.sortBy,
      "sortOrder" := n.sortOrder,
      "gridColumns" := IntToDecimal(n.gridColumns)]
  }

  /** What a render callback produces: the wrapper's class and the mount point's data attributes. */
  datatype Block = Block(className: string, dataset: map<string, string>, loading: string)

  /** The shared body of both render callbacks. */
  function RenderCallback(brand: Brand, attributes: Attributes): (block: Block)
    ensures |BaseClass(brand)| <= |block.className|
    ensures block.className[..|BaseClass(brand)|] == BaseClass(brand)
  {
    Block(ClassName(brand, attributes), DataAttributes(Normalize(attributes)), "Loading collection...")
  }

  /** `vinyl_vault_render_callback`. */
  function VinylVaultRenderCallback(attributes: Attributes): (block: Block)
    ensures |block.className| >= 31 && block.className[..31] == "wp-block-vinyl-vault-collection"
  {
    RenderCallback(VinylVault, attributes)
  }

  /** `discogs_blocks_render_callback`. */
  function DiscogsBlocksRenderCallback(attributes: Attributes): (block: Block)
    ensures |block.className| >= 34 && block.className[..34] == "wp-block-discogs-blocks-collection"
  {
    RenderCallback(DiscogsBlocks, attributes)
  }

  // ---------------------------------------------------------------------
  // Properties

  /** The two entry points produce the same mount point; only the block class differs. */
  lemma BrandsAgree(attributes: Attributes)
    ensures VinylVaultRenderCallback(attributes).dataset == DiscogsBlocksRenderCallback(attributes).dataset
    ensures VinylVaultRenderCallback(attributes).loading == DiscogsBlocksRenderCallback(attributes).loading
    ensures VinylVaultRenderCallback(attributes).className[|BaseClass(VinylVault)|..]
         == DiscogsBlocksRenderCallback(attributes).className[|BaseClass(DiscogsBlocks)|..]
  {
    var suffix := ClassName(VinylVault, attributes)[|BaseClass(VinylVault)|..];
    assert ClassName(VinylVault, attributes) == BaseClass(VinylVault) + suffix;
    assert ClassName(DiscogsBlocks, attributes) == BaseClass(DiscogsBlocks) + suffix;
  }

  /** The class is the block's own class, followed by ` align<align>` exactly when `align` is set. */
  lemma ClassNameAlign(brand: Brand, attributes: Attributes)
    ensures var c := RenderCallback(brand, attributes).className;
      && c[..|BaseClass(brand)|] == BaseClass(brand)
      && (IsEmpty(Lookup(attributes, "align")) <==> c == BaseClass(brand))
      && (!IsEmpty(Lookup(attributes, "align")) ==>
            c == BaseClass(brand) + " align" + ToPhpString(Lookup(attributes, "align")))
  {
  }

  /** Items per page and columns: the default when the attribute is empty, an in-range value
      kept, anything else clamped (a value `absint` reads as 0, such as `"abc"`, becomes 1). */
  lemma CountsNormalized(attributes: Attributes)
    ensures var n, items, columns := Normalize(attributes), Lookup(attributes, "itemsPerPage"), Lookup(attributes, "gridColumns");
      && (IsEmpty(items) ==> n.itemsPerPage == 12)
      && (!IsEmpty(items) ==> n.itemsPerPage == if AbsInt(items) == 0 then 1 else if AbsInt(items) > 50 then 50 else AbsInt(items))
      && (IsEmpty(columns) ==> n.gridColumns == 4)
      && (!IsEmpty(columns) ==> n.gridColumns == if AbsInt(columns) == 0 then 1 else if AbsInt(columns) > 8 then 8 else AbsInt(columns))
  {
  }

  /** The display mode is always one of the three known modes; a known mode is kept, and
      anything else becomes `grid`. */
  lemma DisplayModeNormalized(attributes: Attributes)
    ensures var mode, v := Normalize(attributes).displayMode, Lookup(attributes, "displayMode");
      && mode in ValidModes
      && (v.PString? && v.s in ValidModes ==> mode == v.s)
      && (!(v.PString? && v.s in ValidModes) ==> mode == "grid")
  {
    var v := Lookup(attributes, "displayMode");
    if v.PInt? {
      assert IntToDecimal(v.i) !in ValidModes by {
        var d := IntToDecimal(v.i);
        assert IsDigit(d[0]) || d[0] == '-';
      }
    }
  }

  /** Sort field and order default to `added` and `desc` when empty and pass through otherwise. */
  lemma SortNormalized(attributes: Attributes)
    ensures var n, sortBy, sortOrder := Normalize(attributes), Lookup(attributes, "sortBy"), Lookup(attributes, "sortOrder");
      && (IsEmpty(sortBy) ==> n.sortBy == "added")
      && (IsEmpty(sortOrder) ==> n.sortOrder == "desc")
      && (sortBy.PString? && !IsEmpty(sortBy) ==> n.sortBy == sortBy.s)
      && (sortOrder.PString? && !IsEmpty(sortOrder) ==> n.sortOrder == sortOrder.s)
  {
  }

  /** The flag `k` is printed as `"true"` or `"false"`, and reading it back with `=== 'true'`
      gives the attribute's PHP truthiness. */
  predicate FlagPrinted(d: map<string, string>, attributes: Attributes, k: string) {
    && k in d && (d[k] == "true" || d[k] == "false")
    && (IsTrue(Some(d[k])) <==> !IsEmpty(Lookup(attributes, k)))
  }

  lemma FlagsRoundTrip(attributes: Attributes)
    ensures var d := DataAttributes(Normalize(attributes));
      && FlagPrinted(d, attributes, "showArtist") && FlagPrinted(d, attributes, "showTitle")
      && FlagPrinted(d, attributes, "showYear") && FlagPrinted(d, attributes, "showLabel")
  {
    var n := Normalize(attributes);
    var d := DataAttributes(n);
    assert d["showArtist"] == BoolText(n.showArtist);
    assert d["showTitle"] == BoolText(n.showTitle);
    assert d["showYear"] == BoolText(n.showYear);
    assert d["showLabel"] == BoolText(n.showLabel);
  }

  lemma ReadsText(n: Normalized)
    requires n.displayMode != "" && n.sortBy != "" && n.sortOrder != ""
    ensures var cfg := ReadConfig(DataAttributes(n));
      && cfg.username == n.username && cfg.apiKey == n.apiKey && cfg.displayMode == n.displayMode
      && cfg.sortBy == n.sortBy && cfg.sortOrder == n.sortOrder
  {
    var d := DataAttributes(n);
    assert Get(d, "username") == Some(n.username);
    assert Get(d, "apiKey") == Some(n.apiKey);
    assert Get(d, "displayMode") == Some(n.displayMode);
    assert Get(d, "sortBy") == Some(n.sortBy);
    assert Get(d, "sortOrder") == Some(n.sortOrder);
  }

  lemma ReadsCounts(n: Normalized)
    requires n.itemsPerPage != 0 && n.gridColumns != 0
    ensures var cfg := ReadConfig(DataAttributes(n));
      cfg.itemsPerPage == n.itemsPerPage && cfg.gridColumns == n.gridColumns
  {
    var d := DataAttributes(n);
    assert Get(d, "itemsPerPage") == Some(IntToDecimal(n.itemsPerPage));
    assert Get(d, "gridColumns") == Some(IntToDecimal(n.gridColumns));
    IntOrDecimal(n.itemsPerPage, 12);
    IntOrDecimal(n.gridColumns, 4);
  }

  lemma ReadsFlags(n: Normalized)
    ensures var cfg := ReadConfig(DataAttributes(n));
      && cfg.showArtist == n.showArtist && cfg.showTitle == n.showTitle
      && cfg.showYear == n.showYear && cfg.showLabel == n.showLabel
  {
    var d := DataAttributes(n);
    assert Get(d, "showArtist") == Some(BoolText(n.showArtist));
    assert Get(d, "showTitle") == Some(BoolText(n.showTitle));
    assert Get(d, "showYear") == Some(BoolText(n.showYear));
    assert Get(d, "showLabel") == Some(BoolText(n.showLabel));
  }

  /** Printing the normalised values and reading them back as the viewer does is the identity. */
  lemma ReadDataAttributes(n: Normalized)
    requires n.itemsPerPage != 0 && n.gridColumns != 0
    requires n.displayMode != "" && n.sortBy != "" && n.sortOrder != ""
    ensures ReadConfig(DataAttributes(n))
      == Config(n.username, n.apiKey, n.displayMode, n.itemsPerPage, n.showArtist, n.showTitle,
                n.showYear, n.showLabel, n.sortBy, n.sortOrder, n.gridColumns)
  {
    ReadsText(n);
    ReadsCounts(n);
    ReadsFlags(n);
  }

  lemma ValidModeSafe(mode: string)
    requires mode in ValidModes
    ensures Safe(mode)
  {
    assert Plain("grid") && Plain("list") && Plain("compact");
    PlainSafe(mode);
  }

  /** What the viewer reads from a mount point rendered on the server is exactly the normalised
      configuration, field by field; in particular its display mode is safe to splice into markup. */
  lemma ViewerReadsBlock(brand: Brand, attributes: Attributes)
    ensures var n, cfg := Normalize(attributes), ReadConfig(RenderCallback(brand, attributes).dataset);
      && cfg == Config(n.username, n.apiKey, n.displayMode, n.itemsPerPage, n.showArtist, n.showTitle,
                       n.showYear, n.showLabel, n.sortBy, n.sortOrder, n.gridColumns)
      && Safe(cfg.displayMode)
  {
    var n := Normalize(attributes);
    assert RenderCallback(brand, attributes).dataset == DataAttributes(n);
    ReadDataAttributes(n);
    ValidModeSafe(n.displayMode);
  }

  /** Every page the viewer renders for a server-rendered mount point is safe markup. */
  lemma ServerPagesSafe(brand: Brand, attributes: Attributes, releases: seq<Release>)
    ensures SafeNode(CollectionView(ReadConfig(RenderCallback(brand, attributes).dataset), releases))
  {
    ViewerReadsBlock(brand, attributes);
    CollectionSafe(ReadConfig(RenderCallback(brand, attributes).dataset), releases);
  }
}
