/**
 * `renderCollection` (src/view.js:111-189): the markup for one page of
 * releases, in the order the catalog delivered them.
 */
module Render {
  import opened JsText
  import opened Html
  import opened Credits
  import opened Markup
  import opened ViewConfig

  /** `basic_information` of a release; "" stands for a missing image, 0 for a missing year. A title
      is always present: without one `escapeHtml(info.title)` throws, which is outside the model. */
  datatype Info = Info(
    title: string,
    coverImage: string,
    thumb: string,
    year: int,
    artists: seq<Credit>,
    labels: seq<Credit>)

  datatype Release = Release(id: int, info: Info)

  datatype CreditKind = ArtistCredit | LabelCredit

  function ReleaseUrl(id: int): string {
    "https://www.discogs.com/release/" + IntToDecimal(id)
  }

  function CreditUrl(kind: CreditKind, id: int): string {
    match kind
    case ArtistCredit => "https://www.discogs.com/artist/" + IntToDecimal(id)
    case LabelCredit => "https://www.discogs.com/label/" + IntToDecimal(id)
  }

  function Div(cls: string, children: seq<Node>): Node {
    Element("div", [Attribute("class", cls)], children)
  }

  /** `<a href="…" target="_blank" rel="noopener noreferrer">`, the address escaped. */
  function Link(href: string, children: seq<Node>): Node {
    Element("a", [Attribute("href", EscapeHtml(href)), Attribute("target", "_blank"),
                  Attribute("rel", "noopener noreferrer")], children)
  }

  /** One artist or label: the cleaned name, linked to its page when it has an id. */
  function CreditView(c: Credit, kind: CreditKind): Node {
    var text := Text(EscapeHtml(CleanName(c.name)));
    if c.id != 0 then Link(CreditUrl(kind, c.id), [text]) else text
  }

  /** `credits.map(view).join(', ')`. */
  function JoinCredits(cs: seq<Credit>, kind: CreditKind): seq<Node>
  {
    if cs == [] then []
    else if |cs| == 1 then [CreditView(cs[0], kind)]
    else [CreditView(cs[0], kind), Text(", ")] + JoinCredits(cs[1..], kind)
  }

  /** `info.cover_image || info.thumb`. */
  function ImageUrl(info: Info): string {
    if info.coverImage != "" then info.coverImage else info.thumb
  }

  function ImageLink(release: Release): seq<Node> {
    var image := ImageUrl(release.info);
    if image == "" then []
    else [Link(ReleaseUrl(release.id),
            [Element("img", [Attribute("src", EscapeHtml(image)), Attribute("alt", EscapeHtml(release.info.title)),
                             Attribute("class", "discogs-item-image"), Attribute("loading", "lazy")], [])])]
  }

  function TitleField(cfg: Config, release: Release): seq<Node> {
    if cfg.showTitle
    then [Div("discogs-item-title", [Link(ReleaseUrl(release.id), [Text(EscapeHtml(release.info.title))])])]
    else []
  }

  function ArtistField(cfg: Config, info: Info): seq<Node> {
    if cfg.showArtist && |info.artists| > 0
    then [Div("discogs-item-artist", JoinCredits(info.artists, ArtistCredit))]
    else []
  }

  function YearField(cfg: Config, info: Info): seq<Node> {
    if cfg.showYear && info.year != 0
    then [Div("discogs-item-year", [Text(EscapeHtml(IntToDecimal(info.year)))])]
    else []
  }

  /** The label field shows the labels in `labels`, which the source computes by de-duplication. */
  function LabelField(cfg: Config, info: Info, labels: seq<Credit>): seq<Node> {
    if cfg.showLabel && |info.labels| > 0
    then [Div("discogs-item-label", JoinCredits(labels, LabelCredit))]
    else []
  }

  function Details(cfg: Config, release: Release): Node {
    Div("discogs-item-details",
        TitleField(cfg, release) + ArtistField(cfg, release.info) + YearField(cfg, release.info)
        + LabelField(cfg, release.info, FirstOccurrences(release.info.labels)))
  }

  /** The markup of one release. */
  function ItemView(cfg: Config, release: Release): Node {
    Div("discogs-item", ImageLink(release) + [Details(cfg, release)])
  }

  function WrapperAttributes(cfg: Config): seq<Attribute> {
    [Attribute("class", "discogs-collection-" + cfg.displayMode)]
    + (if cfg.displayMode == "grid" then [Attribute("data-columns", IntToDecimal(cfg.gridColumns))] else [])
  }

  /** One item per release, in the order of the releases. */
  function Items(cfg: Config, releases: seq<Release>): (items: seq<Node>)
    ensures |items| == |releases|
    ensures forall k | 0 <= k < |releases| :: items[k] == ItemView(cfg, releases[k])
  {
    if releases == [] then []
    else Items(cfg, releases[..|releases| - 1]) + [ItemView(cfg, releases[|releases| - 1])]
  }

  /** The markup of a page: the wrapper, then the items. */
  function CollectionView(cfg: Config, releases: seq<Release>): Node {
    Element("div", WrapperAttributes(cfg), Items(cfg, releases))
  }

  /** The body of the source's `forEach`, with the labels de-duplicated by the source's loop. */
  method RenderItem(cfg: Config, release: Release) returns (item: Node)
    ensures item == ItemView(cfg, release)
  {
    var info := release.info;
    var labelField: seq<Node> := [];
    if cfg.showLabel && |info.labels| > 0 {
      var unique := DedupLabels(info.labels);
      labelField := [Div("discogs-item-label", JoinCredits(unique, LabelCredit))];
    }
    var details := Div("discogs-item-details",
      TitleField(cfg, release) + ArtistField(cfg, info) + YearField(cfg, info) + labelField);
    item := Div("discogs-item", ImageLink(release) + [details]);
  }

  /** The source's loop appending one item per release to the page markup. */
  method RenderCollection(cfg: Config, releases: seq<Release>) returns (view: Node)
    ensures view == CollectionView(cfg, releases)
  {
    var items: seq<Node> := [];
    var i := 0;
    while i < |releases|
      invariant 0 <= i <= |releases|
      invariant items == Items(cfg, releases[..i])
    {
      var item := RenderItem(cfg, releases[i]);
      ItemsStep(cfg, releases, i);
      items := items + [item];
      i := i + 1;
    }
    assert releases[..|releases|] == releases;
    view := Element("div", WrapperAttributes(cfg), items);
  }

  /** One more release appends its item. */
  lemma ItemsStep(cfg: Config, releases: seq<Release>, i: nat)
    requires i < |releases|
    ensures Items(cfg, releases[..i + 1]) == Items(cfg, releases[..i]) + [ItemView(cfg, releases[i])]
  {
    assert releases[..i + 1][..i] == releases[..i];
  }

  // ---------------------------------------------------------------------
  // Properties of the page markup

  /** Number of occurrences of `x` in `s`. */
  function Count(s: seq<string>, x: string): nat {
    if s == [] then 0 else (if s[0] == x then 1 else 0) + Count(s[1..], x)
  }

  lemma {:induction false} CountConcat(a: seq<string>, b: seq<string>, x: string)
    ensures Count(a + b, x) == Count(a, x) + Count(b, x)
  {
    if a == [] {
      assert a + b == b;
    } else {
      assert (a + b)[1..] == a[1..] + b;
      CountConcat(a[1..], b, x);
    }
  }

  lemma TextFind(t: string, tag: string, name: string)
    ensures FindAll([Text(t)], tag, name) == []
  {
    FindAllOne(Text(t), tag, name);
  }

  lemma DivFind(cls: string, children: seq<Node>, tag: string, name: string)
    ensures Find(Div(cls, children), tag, name)
      == (if tag == "div" && name == "class" then [cls] else []) + FindAll(children, tag, name)
  {
    var attributes := [Attribute("class", cls)];
    assert attributes[1..] == [];
    assert AttributeValue(attributes, name) == if name == "class" then [cls] else [];
  }

  lemma LinkFind(href: string, children: seq<Node>, tag: string, name: string)
    requires tag != "a"
    ensures Find(Link(href, children), tag, name) == FindAll(children, tag, name)
  {
  }

  lemma CreditViewFind(c: Credit, kind: CreditKind, tag: string, name: string)
    requires tag != "a"
    ensures Find(CreditView(c, kind), tag, name) == []
  {
    var text := Text(EscapeHtml(CleanName(c.name)));
    if c.id != 0 {
      LinkFind(CreditUrl(kind, c.id), [text], tag, name);
      TextFind(text.markup, tag, name);
    }
  }

  /** Credits contain no element other than links. */
  lemma {:induction false} JoinCreditsFind(cs: seq<Credit>, kind: CreditKind, tag: string, name: string)
    requires tag != "a"
    ensures FindAll(JoinCredits(cs, kind), tag, name) == []
  {
    if |cs| == 1 {
      FindAllOne(CreditView(cs[0], kind), tag, name);
      CreditViewFind(cs[0], kind, tag, name);
    } else if |cs| > 1 {
      var head := [CreditView(cs[0], kind), Text(", ")];
      FindAllConcat(head, JoinCredits(cs[1..], kind), tag, name);
      JoinCreditsFind(cs[1..], kind, tag, name);
      CreditViewFind(cs[0], kind, tag, name);
      assert head[1..] == [Text(", ")];
      TextFind(", ", tag, name);
    }
  }

  /** Classes of the optional fields of an item, in document order. */
  function FieldClasses(cfg: Config, info: Info): seq<string> {
    (if cfg.showTitle then ["discogs-item-title"] else [])
    + (if cfg.showArtist && |info.artists| > 0 then ["discogs-item-artist"] else [])
    + (if cfg.showYear && info.year != 0 then ["discogs-item-year"] else [])
    + (if cfg.showLabel && |info.labels| > 0 then ["discogs-item-label"] else [])
  }

  lemma FieldFind(fields: seq<Node>, present: bool, cls: string, children: seq<Node>, tag: string, name: string)
    requires fields == if present then [Div(cls, children)] else []
    requires FindAll(children, tag, name) == []
    ensures FindAll(fields, tag, name) == (if present && tag == "div" && name == "class" then [cls] else [])
  {
    if present {
      FindAllOne(Div(cls, children), tag, name);
      DivFind(cls, children, tag, name);
    }
  }

  lemma TitleFind(cfg: Config, release: Release, tag: string, name: string)
    requires tag != "a"
    ensures FindAll(TitleField(cfg, release), tag, name)
      == if cfg.showTitle && tag == "div" && name == "class" then ["discogs-item-title"] else []
  {
    var titleText := Text(EscapeHtml(release.info.title));
    var link := Link(ReleaseUrl(release.id), [titleText]);
    TextFind(titleText.markup, tag, name);
    LinkFind(ReleaseUrl(release.id), [titleText], tag, name);
    FindAllOne(link, tag, name);
    FieldFind(TitleField(cfg, release), cfg.showTitle, "discogs-item-title", [link], tag, name);
  }

  lemma ArtistFind(cfg: Config, info: Info, tag: string, name: string)
    requires tag != "a"
    ensures FindAll(ArtistField(cfg, info), tag, name)
      == if cfg.showArtist && |info.artists| > 0 && tag == "div" && name == "class" then ["discogs-item-artist"] else []
  {
    JoinCreditsFind(info.artists, ArtistCredit, tag, name);
    FieldFind(ArtistField(cfg, info), cfg.showArtist && |info.artists| > 0, "discogs-item-artist",
              JoinCredits(info.artists, ArtistCredit), tag, name);
  }

  lemma YearFind(cfg: Config, info: Info, tag: string, name: string)
    ensures FindAll(YearField(cfg, info), tag, name)
      == if cfg.showYear && info.year != 0 && tag == "div" && name == "class" then ["discogs-item-year"] else []
  {
    var yearText := Text(EscapeHtml(IntToDecimal(info.year)));
    TextFind(yearText.markup, tag, name);
    FieldFind(YearField(cfg, info), cfg.showYear && info.year != 0, "discogs-item-year", [yearText], tag, name);
  }

  lemma LabelFind(cfg: Config, info: Info, tag: string, name: string)
    requires tag != "a"
    ensures FindAll(LabelField(cfg, info, FirstOccurrences(info.labels)), tag, name)
      == if cfg.showLabel && |info.labels| > 0 && tag == "div" && name == "class" then ["discogs-item-label"] else []
  {
    var unique := FirstOccurrences(info.labels);
    JoinCreditsFind(unique, LabelCredit, tag, name);
    FieldFind(LabelField(cfg, info, unique), cfg.showLabel && |info.labels| > 0, "discogs-item-label",
              JoinCredits(unique, LabelCredit), tag, name);
  }

  lemma FindAll4(a: seq<Node>, b: seq<Node>, c: seq<Node>, d: seq<Node>, tag: string, name: string)
    ensures FindAll(a + b + c + d, tag, name)
      == FindAll(a, tag, name) + FindAll(b, tag, name) + FindAll(c, tag, name) + FindAll(d, tag, name)
  {
    FindAllConcat(a, b, tag, name);
    FindAllConcat(a + b, c, tag, name);
    FindAllConcat(a + b + c, d, tag, name);
  }

  /** The fields of an item hold `div`s and links only. */
  lemma DetailsFind(cfg: Config, release: Release, tag: string, name: string)
    requires tag != "a"
    ensures Find(Details(cfg, release), tag, name)
      == if tag == "div" && name == "class" then ["discogs-item-details"] + FieldClasses(cfg, release.info) else []
  {
    var info := release.info;
    var title, artist, year := TitleField(cfg, release), ArtistField(cfg, info), YearField(cfg, info);
    var labelField := LabelField(cfg, info, FirstOccurrences(info.labels));
    TitleFind(cfg, release, tag, name);
    ArtistFind(cfg, info, tag, name);
    YearFind(cfg, info, tag, name);
    LabelFind(cfg, info, tag, name);
    FindAll4(title, artist, year, labelField, tag, name);
    DivFind("discogs-item-details", title + artist + year + labelField, tag, name);
  }

  /** The image link holds one `img`, whose `src` is the escaped image address. */
  lemma ImageLinkFind(release: Release, tag: string, name: string)
    requires tag != "a" && (tag == "img" ==> name == "src")
    ensures FindAll(ImageLink(release), tag, name)
      == if ImageUrl(release.info) != "" && tag == "img" && name == "src"
         then [EscapeHtml(ImageUrl(release.info))] else []
  {
    var image := ImageLink(release);
    if image != [] {
      var img := image[0].children[0];
      FindAllOne(img, tag, name);
      FindAllOne(image[0], tag, name);
      LinkFind(ReleaseUrl(release.id), [img], tag, name);
      if tag == "img" {
        assert AttributeValue(img.attributes, name) == [EscapeHtml(ImageUrl(release.info))];
      }
    }
  }

  lemma ItemFind(image: seq<Node>, details: Node, tag: string, name: string)
    ensures Find(Div("discogs-item", image + [details]), tag, name)
      == (if tag == "div" && name == "class" then ["discogs-item"] else [])
         + FindAll(image, tag, name) + Find(details, tag, name)
  {
    FindAllOne(details, tag, name);
    FindAllConcat(image, [details], tag, name);
    DivFind("discogs-item", image + [details], tag, name);
  }

  /** The `class` of every `div` of an item, in document order; only the first is `discogs-item`. */
  lemma ItemClasses(cfg: Config, release: Release)
    ensures Find(ItemView(cfg, release), "div", "class")
      == ["discogs-item", "discogs-item-details"] + FieldClasses(cfg, release.info)
    ensures Count(Find(ItemView(cfg, release), "div", "class"), "discogs-item") == 1
  {
    var fields := FieldClasses(cfg, release.info);
    ImageLinkFind(release, "div", "class");
    DetailsFind(cfg, release, "div", "class");
    FieldClassesCount(cfg, release.info);
    ItemClassesOf(ImageLink(release), Details(cfg, release), fields);
  }

  /** The classes of an item `div` from those of its image link and its details. */
  lemma ItemClassesOf(image: seq<Node>, details: Node, fields: seq<string>)
    requires FindAll(image, "div", "class") == []
    requires Find(details, "div", "class") == ["discogs-item-details"] + fields
    requires Count(fields, "discogs-item") == 0
    ensures Find(Div("discogs-item", image + [details]), "div", "class")
      == ["discogs-item", "discogs-item-details"] + fields
    ensures Count(Find(Div("discogs-item", image + [details]), "div", "class"), "discogs-item") == 1
  {
    ItemFind(image, details, "div", "class");
    CountConcat(["discogs-item", "discogs-item-details"], fields, "discogs-item");
  }

  lemma FieldClassesCount(cfg: Config, info: Info)
    ensures Count(FieldClasses(cfg, info), "discogs-item") == 0
  {
    var title := if cfg.showTitle then ["discogs-item-title"] else [];
    var artist := if cfg.showArtist && |info.artists| > 0 then ["discogs-item-artist"] else [];
    var year := if cfg.showYear && info.year != 0 then ["discogs-item-year"] else [];
    var labelClass := if cfg.showLabel && |info.labels| > 0 then ["discogs-item-label"] else [];
    CountOther(title, "discogs-item");
    CountOther(artist, "discogs-item");
    CountOther(year, "discogs-item");
    CountOther(labelClass, "discogs-item");
    CountConcat(title, artist, "discogs-item");
    CountConcat(title + artist, year, "discogs-item");
    CountConcat(title + artist + year, labelClass, "discogs-item");
  }

  /** A list of at most one class of another length holds no occurrence of `x`. */
  lemma CountOther(s: seq<string>, x: string)
    requires |s| <= 1 && (|s| == 1 ==> |s[0]| != |x|)
    ensures Count(s, x) == 0
  {
  }

  lemma {:induction false} ItemsCount(cfg: Config, releases: seq<Release>, items: seq<Node>)
    requires |items| == |releases|
    requires forall k | 0 <= k < |items| :: items[k] == ItemView(cfg, releases[k])
    ensures Count(FindAll(items, "div", "class"), "discogs-item") == |releases|
  {
    if items != [] {
      ItemsCount(cfg, releases[1..], items[1..]);
      ItemClasses(cfg, releases[0]);
      CountConcat(Find(items[0], "div", "class"), FindAll(items[1..], "div", "class"), "discogs-item");
    }
  }

  /** Exactly one `discogs-item` per release, and the items follow the releases' order. */
  lemma CollectionOnePerRelease(cfg: Config, releases: seq<Release>)
    ensures var view := CollectionView(cfg, releases);
      && |view.children| == |releases|
      && (forall k | 0 <= k < |releases| :: view.children[k] == ItemView(cfg, releases[k]))
      && Count(Find(view, "div", "class"), "discogs-item") == |releases|
  {
    var view := CollectionView(cfg, releases);
    ItemsCount(cfg, releases, view.children);
    WrapperClass(cfg);
    CountConcat(AttributeValue(view.attributes, "class"), FindAll(view.children, "div", "class"), "discogs-item");
  }

  /** The wrapper's class names the display mode and is not an item's class. */
  lemma WrapperClass(cfg: Config)
    ensures AttributeValue(WrapperAttributes(cfg), "class") == ["discogs-collection-" + cfg.displayMode]
    ensures Count(AttributeValue(WrapperAttributes(cfg), "class"), "discogs-item") == 0
  {
    var wrapperClass := "discogs-collection-" + cfg.displayMode;
    assert wrapperClass[8] == 'c';
    assert wrapperClass != "discogs-item";
    var classes: seq<string> := [wrapperClass];
    assert classes[1..] == [];
  }

  /** `data-columns` is on the wrapper exactly in grid mode, and carries the column count. */
  lemma CollectionColumns(cfg: Config, releases: seq<Release>)
    ensures AttributeValue(CollectionView(cfg, releases).attributes, "data-columns")
      == if cfg.displayMode == "grid" then [IntToDecimal(cfg.gridColumns)] else []
  {
  }

  /** An item has an image exactly when the release has a cover image or a thumbnail, and the
      image shows the cover image in preference to the thumbnail. */
  lemma ItemImage(cfg: Config, release: Release)
    ensures Find(ItemView(cfg, release), "img", "src")
      == if release.info.coverImage != "" then [EscapeHtml(release.info.coverImage)]
         else if release.info.thumb != "" then [EscapeHtml(release.info.thumb)]
         else []
  {
    ItemFind(ImageLink(release), Details(cfg, release), "img", "src");
    ImageLinkFind(release, "img", "src");
    DetailsFind(cfg, release, "img", "src");
  }

  /** A credit with an id is a link whose target depends on the id alone; its text, and the whole
      of a credit without an id, is the escaped cleaned name. */
  lemma CreditViewLink(c: Credit, kind: CreditKind)
    ensures Find(CreditView(c, kind), "a", "href")
      == if c.id != 0 then [EscapeHtml(CreditUrl(kind, c.id))] else []
    ensures c.id == 0 ==> CreditView(c, kind) == Text(EscapeHtml(CleanName(c.name)))
    ensures c.id != 0 ==> CreditView(c, kind).children == [Text(EscapeHtml(CleanName(c.name)))]
  {
    FindAllOne(Text(EscapeHtml(CleanName(c.name))), "a", "href");
  }

  // ---------------------------------------------------------------------
  // Everything spliced into the page is safe markup text

  lemma ConstantsPlain()
    ensures Plain("_blank") && Plain("noopener noreferrer") && Plain("lazy") && Plain(", ")
    ensures Plain("discogs-item") && Plain("discogs-item-details") && Plain("discogs-item-image")
    ensures Plain("discogs-item-title") && Plain("discogs-item-artist") && Plain("discogs-item-year")
    ensures Plain("discogs-item-label") && Plain("discogs-collection-")
  {
  }

  lemma SafeText(t: string)
    ensures SafeNode(Text(EscapeHtml(t)))
  {
    EscapeHtmlSafe(t);
  }

  lemma SafeDiv(cls: string, children: seq<Node>)
    requires Safe(cls) && SafeNodes(children)
    ensures SafeNode(Div(cls, children))
  {
  }

  lemma SafeLink(href: string, children: seq<Node>)
    requires SafeNodes(children)
    ensures SafeNode(Link(href, children))
  {
    EscapeHtmlSafe(href);
    ConstantsPlain();
    PlainSafe("_blank");
    PlainSafe("noopener noreferrer");
  }

  lemma SafeCredit(c: Credit, kind: CreditKind)
    ensures SafeNode(CreditView(c, kind))
  {
    var text := Text(EscapeHtml(CleanName(c.name)));
    SafeText(CleanName(c.name));
    SafeNodesOne(text);
    if c.id != 0 {
      SafeLink(CreditUrl(kind, c.id), [text]);
    }
  }

  lemma {:induction false} SafeJoinCredits(cs: seq<Credit>, kind: CreditKind)
    ensures SafeNodes(JoinCredits(cs, kind))
  {
    if |cs| == 1 {
      SafeCredit(cs[0], kind);
      SafeNodesOne(CreditView(cs[0], kind));
    } else if |cs| > 1 {
      SafeCredit(cs[0], kind);
      ConstantsPlain();
      PlainSafe(", ");
      SafeNodesEach([CreditView(cs[0], kind), Text(", ")]);
      SafeJoinCredits(cs[1..], kind);
      SafeNodesConcat([CreditView(cs[0], kind), Text(", ")], JoinCredits(cs[1..], kind));
    }
  }

  lemma SafeField(fields: seq<Node>, present: bool, cls: string, children: seq<Node>)
    requires fields == if present then [Div(cls, children)] else []
    requires Plain(cls) && SafeNodes(children)
    ensures SafeNodes(fields)
  {
    if present {
      PlainSafe(cls);
      SafeDiv(cls, children);
      SafeNodesOne(Div(cls, children));
    }
  }

  lemma SafeDetails(cfg: Config, release: Release)
    ensures SafeNode(Details(cfg, release))
  {
    var info := release.info;
    var title, artist, year := TitleField(cfg, release), ArtistField(cfg, info), YearField(cfg, info);
    var labelField := LabelField(cfg, info, FirstOccurrences(info.labels));
    var titleText := Text(EscapeHtml(info.title));
    var link := Link(ReleaseUrl(release.id), [titleText]);
    var yearText := Text(EscapeHtml(IntToDecimal(info.year)));
    ConstantsPlain();
    SafeText(info.title);
    SafeNodesOne(titleText);
    SafeLink(ReleaseUrl(release.id), [titleText]);
    SafeNodesOne(link);
    SafeField(title, cfg.showTitle, "discogs-item-title", [link]);
    SafeJoinCredits(info.artists, ArtistCredit);
    SafeField(artist, cfg.showArtist && |info.artists| > 0, "discogs-item-artist", JoinCredits(info.artists, ArtistCredit));
    SafeText(IntToDecimal(info.year));
    SafeNodesOne(yearText);
    SafeField(year, cfg.showYear && info.year != 0, "discogs-item-year", [yearText]);
    SafeJoinCredits(FirstOccurrences(info.labels), LabelCredit);
    SafeField(labelField, cfg.showLabel && |info.labels| > 0, "discogs-item-label",
              JoinCredits(FirstOccurrences(info.labels), LabelCredit));
    SafeNodesConcat(title, artist);
    SafeNodesConcat(title + artist, year);
    SafeNodesConcat(title + artist + year, labelField);
    PlainSafe("discogs-item-details");
  }

  lemma SafeImageLink(release: Release)
    ensures SafeNodes(ImageLink(release))
  {
    var image := ImageLink(release);
    if image != [] {
      var img := image[0].children[0];
      ConstantsPlain();
      PlainSafe("discogs-item-image");
      PlainSafe("lazy");
      EscapeHtmlSafe(ImageUrl(release.info));
      EscapeHtmlSafe(release.info.title);
      assert SafeNodes(img.children);
      assert SafeNode(img);
      SafeNodesOne(img);
      SafeLink(ReleaseUrl(release.id), [img]);
      SafeNodesOne(image[0]);
    }
  }

  lemma SafeItem(cfg: Config, release: Release)
    ensures SafeNode(ItemView(cfg, release))
  {
    SafeImageLink(release);
    SafeDetails(cfg, release);
    SafeNodesOne(Details(cfg, release));
    SafeNodesConcat(ImageLink(release), [Details(cfg, release)]);
    ConstantsPlain();
    PlainSafe("discogs-item");
  }

  /** Every text and attribute value of a page is safe markup text, provided the display mode is:
      it is the one string the source splices into the markup without escaping it. */
  lemma CollectionSafe(cfg: Config, releases: seq<Release>)
    requires Safe(cfg.displayMode)
    ensures SafeNode(CollectionView(cfg, releases))
  {
    var view := CollectionView(cfg, releases);
    forall k | 0 <= k < |releases|
      ensures SafeNode(view.children[k])
    {
      SafeItem(cfg, releases[k]);
    }
    SafeNodesEach(view.children);
    ConstantsPlain();
    PlainSafe("discogs-collection-");
    SafeConcat("discogs-collection-", cfg.displayMode);
    DecimalSafe(cfg.gridColumns);
  }
}
