/**
 * `renderPagination` and its click handler (src/view.js:191-221): the
 * Previous / page info / Next controls appended after a page of releases,
 * and the guard that decides whether a click on them loads another page.
 */
module Pagination {
  import opened Opt
  import opened JsText
  import opened Html
  import opened Markup
  import opened Messages

  // ---------------------------------------------------------------------
  // The page information text

  /** `pattern` occurs in `s` starting at position `i`. */
  predicate OccursAt(s: string, pattern: string, i: nat) {
    i + |pattern| <= |s| && s[i..i + |pattern|] == pattern
  }

  /** `s.replace(pattern, rep)` with a string pattern: only the leftmost occurrence is replaced. */
  function ReplaceFirst(s: string, pattern: string, rep: string): string
    requires pattern != []
  {
    if |s| < |pattern| then s
    else if OccursAt(s, pattern, 0) then rep + s[|pattern|..]
    else [s[0]] + ReplaceFirst(s[1..], pattern, rep)
  }

  lemma OccursShift(s: string, pattern: string, i: nat)
    requires 0 < |s|
    ensures OccursAt(s[1..], pattern, i) <==> OccursAt(s, pattern, i + 1)
  {
    if i + 1 + |pattern| <= |s| {
      assert s[1..][i..i + |pattern|] == s[i + 1..i + 1 + |pattern|];
    }
  }

  lemma OccursFirst(s: string, pattern: string, i: nat)
    requires pattern != [] && OccursAt(s, pattern, i)
    ensures s[i] == pattern[0]
  {
    assert s[i..i + |pattern|][0] == s[i];
  }

  /** Where the pattern occurs nowhere, the text is unchanged. */
  lemma {:induction false} ReplaceFirstAbsent(s: string, pattern: string, rep: string)
    requires pattern != []
    requires forall i: nat :: !OccursAt(s, pattern, i)
    ensures ReplaceFirst(s, pattern, rep) == s
  {
    if |s| >= |pattern| {
      forall i: nat
        ensures !OccursAt(s[1..], pattern, i)
      {
        OccursShift(s, pattern, i);
      }
      ReplaceFirstAbsent(s[1..], pattern, rep);
    }
  }

  /** Where the leftmost occurrence of the pattern starts at `i`, exactly that one is replaced. */
  lemma {:induction false} ReplaceFirstAt(s: string, pattern: string, rep: string, i: nat)
    requires pattern != []
    requires OccursAt(s, pattern, i)
    requires forall j: nat | j < i :: !OccursAt(s, pattern, j)
    ensures ReplaceFirst(s, pattern, rep) == s[..i] + rep + s[i + |pattern|..]
  {
    if i > 0 {
      var t := s[1..];
      assert !OccursAt(s, pattern, 0);
      assert ReplaceFirst(s, pattern, rep) == [s[0]] + ReplaceFirst(t, pattern, rep);
      OccursShift(s, pattern, i - 1);
      forall j: nat | j < i - 1
        ensures !OccursAt(t, pattern, j)
      {
        OccursShift(s, pattern, j);
      }
      ReplaceFirstAt(t, pattern, rep, i - 1);
      assert t[..i - 1] == s[1..i] && t[i - 1 + |pattern|..] == s[i + |pattern|..];
      assert s[..i] == [s[0]] + s[1..i];
    }
  }

  /** `pageInfoText.replace('%1$s', currentPage).replace('%2$s', totalPages)`. */
  function PageInfoText(template: string, current: int, total: int): string {
    ReplaceFirst(ReplaceFirst(template, "%1$s", IntToDecimal(current)), "%2$s", IntToDecimal(total))
  }

  lemma FirstPlaceholder(c: string)
    ensures ReplaceFirst("Page %1$s of %2$s", "%1$s", c) == "Page " + c + " of %2$s"
  {
    var template := "Page %1$s of %2$s";
    forall j: nat | j < 5
      ensures !OccursAt(template, "%1$s", j)
    {
      if OccursAt(template, "%1$s", j) {
        OccursFirst(template, "%1$s", j);
      }
    }
    assert template[5..9] == "%1$s";
    ReplaceFirstAt(template, "%1$s", c, 5);
    assert template[..5] == "Page " && template[9..] == " of %2$s";
  }

  lemma SecondPlaceholder(c: string, t: string)
    requires forall j | 0 <= j < |c| :: c[j] != '%'
    ensures ReplaceFirst("Page " + c + " of %2$s", "%2$s", t) == "Page " + c + " of " + t
  {
    var s := "Page " + c + " of %2$s";
    var i := 5 + |c| + 4;
    forall j: nat | j < i
      ensures !OccursAt(s, "%2$s", j)
    {
      if j < 5 {
        assert s[j] == "Page "[j];
      } else if j < 5 + |c| {
        assert s[j] == c[j - 5];
      } else {
        assert s[j] == " of "[j - 5 - |c|];
      }
      if OccursAt(s, "%2$s", j) {
        OccursFirst(s, "%2$s", j);
      }
    }
    assert s[i..i + 4] == "%2$s";
    ReplaceFirstAt(s, "%2$s", t, i);
    assert s[..i] == "Page " + c + " of ";
    assert s[i + 4..] == [];
  }

  /** With the built-in template the text reads "Page <current> of <total>". */
  lemma DefaultPageInfo(current: int, total: int)
    ensures PageInfoText(DefaultText(PageInfo), current, total)
      == "Page " + IntToDecimal(current) + " of " + IntToDecimal(total)
  {
    var c := IntToDecimal(current);
    FirstPlaceholder(c);
    SecondPlaceholder(c, IntToDecimal(total));
  }

  // ---------------------------------------------------------------------
  // The controls

  /** A `button` with its page number, marked `disabled` when it leads nowhere. */
  function Button(cls: string, page: int, disabled: bool, caption: string): Node {
    Element("button",
      [Attribute("class", cls), Attribute("data-page", IntToDecimal(page))]
      + (if disabled then [Attribute("disabled", "")] else []),
      [Text(EscapeHtml(caption))])
  }

  /** The pagination appended after the page: nothing for a single page. */
  function PaginationView(current: int, total: int, l10n: map<string, string>): seq<Node> {
    if total <= 1 then []
    else
      [Element("div", [Attribute("class", "discogs-pagination")], [
        Button("discogs-prev-page", current - 1, current == 1, Message(l10n, Previous)),
        Element("span", [Attribute("class", "discogs-page-info")],
          [Text(EscapeHtml(PageInfoText(Message(l10n, PageInfo), current, total)))]),
        Button("discogs-next-page", current + 1, current == total, Message(l10n, Next))])]
  }

  /** The page a click on `target` asks for: an enabled button whose `data-page` reads as a
      non-zero number between 1 and the number of pages; `None` when the click is ignored. */
  function ClickedPage(target: Node, total: int): (r: Option<int>)
    ensures r.Some? ==> 1 <= r.value <= total
    ensures r.Some? ==>
      target.Element? && target.tag == "button" && AttributeValue(target.attributes, "disabled") == []
  {
    if target.Element? && target.tag == "button" && AttributeValue(target.attributes, "disabled") == [] then
      var dataPage := AttributeValue(target.attributes, "data-page");
      var page := if dataPage == [] then None else ParseInt(dataPage[0]);
      if page.Some? && page.value != 0 && 1 <= page.value <= total then page else None
    else None
  }

  // ---------------------------------------------------------------------
  // Properties

  /** The controls are shown exactly when there is more than one page. */
  lemma PaginationShown(current: int, total: int, l10n: map<string, string>)
    ensures PaginationView(current, total, l10n) == [] <==> total <= 1
    ensures total > 1 ==> |PaginationView(current, total, l10n)| == 1
  {
  }

  lemma ButtonAttributes(cls: string, page: int, disabled: bool, caption: string)
    ensures AttributeValue(Button(cls, page, disabled, caption).attributes, "data-page") == [IntToDecimal(page)]
    ensures AttributeValue(Button(cls, page, disabled, caption).attributes, "disabled") != [] <==> disabled
  {
    var attributes := Button(cls, page, disabled, caption).attributes;
    var rest := attributes[1..][1..];
    assert rest == if disabled then [Attribute("disabled", "")] else [];
    assert AttributeValue(attributes, "disabled") == AttributeValue(rest, "disabled");
    if disabled {
      assert AttributeValue(rest, "disabled") == [""];
    }
  }

  /** A click on a button goes to its page exactly when the button is enabled and the page exists. */
  lemma ClickButton(cls: string, page: int, disabled: bool, caption: string, total: int)
    ensures ClickedPage(Button(cls, page, disabled, caption), total)
      == if !disabled && 1 <= page <= total then Some(page) else None
  {
    ButtonAttributes(cls, page, disabled, caption);
    ParseIntRoundTrip(page);
  }

  /** Previous carries `current - 1` and is disabled on the first page; clicking it loads the
      previous page whenever that page exists. */
  lemma PreviousButton(current: int, total: int, l10n: map<string, string>)
    requires total > 1
    ensures var prev := PaginationView(current, total, l10n)[0].children[0];
      && AttributeValue(prev.attributes, "data-page") == [IntToDecimal(current - 1)]
      && (AttributeValue(prev.attributes, "disabled") != [] <==> current == 1)
      && ClickedPage(prev, total) == if current != 1 && 2 <= current <= total + 1 then Some(current - 1) else None
  {
    ButtonAttributes("discogs-prev-page", current - 1, current == 1, Message(l10n, Previous));
    ClickButton("discogs-prev-page", current - 1, current == 1, Message(l10n, Previous), total);
  }

  /** Next carries `current + 1` and is disabled on the last page; clicking it loads the next
      page whenever that page exists. */
  lemma NextButton(current: int, total: int, l10n: map<string, string>)
    requires total > 1
    ensures var next := PaginationView(current, total, l10n)[0].children[2];
      && AttributeValue(next.attributes, "data-page") == [IntToDecimal(current + 1)]
      && (AttributeValue(next.attributes, "disabled") != [] <==> current == total)
      && ClickedPage(next, total) == if current != total && 0 <= current < total then Some(current + 1) else None
  {
    ButtonAttributes("discogs-next-page", current + 1, current == total, Message(l10n, Next));
    ClickButton("discogs-next-page", current + 1, current == total, Message(l10n, Next), total);
  }

  /** Clicks anywhere else in the controls (the wrapper, the page information) are ignored. */
  lemma OtherTargetsIgnored(current: int, total: int, l10n: map<string, string>)
    requires total > 1
    ensures var view := PaginationView(current, total, l10n)[0];
      ClickedPage(view, total) == None && ClickedPage(view.children[1], total) == None
  {
  }

  lemma ButtonSafe(cls: string, page: int, disabled: bool, caption: string)
    requires Plain(cls)
    ensures SafeNode(Button(cls, page, disabled, caption))
  {
    var b := Button(cls, page, disabled, caption);
    PlainSafe(cls);
    assert Plain("");
    PlainSafe("");
    DecimalSafe(page);
    EscapeHtmlSafe(caption);
    SafeNodesEach(b.children);
  }

  lemma PageInfoSafe(text: string)
    ensures SafeNode(Element("span", [Attribute("class", "discogs-page-info")], [Text(EscapeHtml(text))]))
  {
    assert Plain("discogs-page-info");
    PlainSafe("discogs-page-info");
    EscapeHtmlSafe(text);
    SafeNodesOne(Text(EscapeHtml(text)));
  }

  lemma ControlsSafe(prev: Node, info: Node, next: Node)
    requires SafeNode(prev) && SafeNode(info) && SafeNode(next)
    ensures SafeNodes([Element("div", [Attribute("class", "discogs-pagination")], [prev, info, next])])
  {
    var controls := [prev, info, next];
    SafeNodesEach(controls);
    assert Plain("discogs-pagination");
    PlainSafe("discogs-pagination");
    SafeNodesOne(Element("div", [Attribute("class", "discogs-pagination")], controls));
  }

  /** The controls are safe markup. */
  lemma PaginationSafe(current: int, total: int, l10n: map<string, string>)
    ensures SafeNodes(PaginationView(current, total, l10n))
  {
    if total > 1 {
      assert Plain("discogs-prev-page") && Plain("discogs-next-page");
      ButtonSafe("discogs-prev-page", current - 1, current == 1, Message(l10n, Previous));
      ButtonSafe("discogs-next-page", current + 1, current == total, Message(l10n, Next));
      PageInfoSafe(PageInfoText(Message(l10n, PageInfo), current, total));
      ControlsSafe(Button("discogs-prev-page", current - 1, current == 1, Message(l10n, Previous)),
        Element("span", [Attribute("class", "discogs-page-info")],
          [Text(EscapeHtml(PageInfoText(Message(l10n, PageInfo), current, total)))]),
        Button("discogs-next-page", current + 1, current == total, Message(l10n, Next)));
    }
  }
}
