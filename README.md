# vinyl-vault collection viewer, modelled in Dafny

vinyl-vault is a WordPress block that shows a Discogs user's record collection. Its server side has two
near-identical render callbacks (`vinyl_vault_render_callback`, `discogs_blocks_render_callback`). Each
normalises the block attributes and prints them as `data-*` attributes on a mount point. Its browser side
(`src/view.js`) reads those attributes and fetches one page of the collection from the Discogs API. It then
renders the releases as HTML built from escaped strings, adds Previous/Next controls and re-fetches when a
control is clicked.

The model has one module per concern:

| module | file | what it holds |
|---|---|---|
| `Opt` | option.dfy | `Option` |
| `JsText` | text.dfy | printing integers; `parseInt` and PHP `intval` on decimal text |
| `Html` | html.dfy | `escapeHtml` as the source's chain of global replacements; a per-character reference definition, its inverse and the `Safe` predicate |
| `Credits` | credits.dfy | cleaning of artist and label names (`/\s*\(\d+\)\s*$/`); de-duplication of labels by `id \|\| name` |
| `Markup` | markup.dfy | the produced HTML as a tree of elements and already-escaped text, with attribute queries |
| `Messages` | messages.dfy | the localized texts with their English defaults |
| `ViewConfig` | config.dfy | reading the mount point's `dataset`; `getSortParams` |
| `Render` | render.dfy | `renderCollection`, with its loop and the label loop as methods proved against functions |
| `Pagination` | pagination.dfy | `renderPagination` and the click guard |
| `Viewer` | viewer.dfy | one mount point as a class whose fields are `currentPage`, `totalPages`, the container and the requests sent |
| `BlockRender` | blockrender.dfy | both PHP render callbacks: one model with the block class as a branding constant |

The HTML the viewer builds by concatenation is modelled as a tree (`Markup.Node`). Every string in the tree is
the exact text the source splices into its markup. Safety is stated on these strings (`Html.Safe`):
- no raw `<`, `>`, `"` or `'`;
- every `&` opens one of the five entities `escapeHtml` produces.

The source splices four values into the markup without escaping them: the display mode and the column count
of the wrapper (src/view.js:112), and the page numbers of the two buttons (src/view.js:201, 203). Three of
them are printed integers, which are always safe (`Markup.DecimalSafe`). So the page is proved safe whenever
the display mode is safe (`Render.CollectionSafe`). The server-side normalisation guarantees that it is
(`BlockRender.ServerPagesSafe`).

Network and DOM are inputs. Each fetch is handed the `Viewer.Response` it receives. The container is a
field holding the nodes it shows. A click is a call with the node that was clicked.

## Model

| member | source | states |
|---|---|---|
| JsText.IntToDecimal | src/view.js:152 | `String(n)`: at least one character; every character is a digit except a leading `-`, present exactly for negatives |
| JsText.ParseInt | src/view.js:22 | text with no digit at all reads as `NaN` (`None`) |
| JsText.ParseDigits | src/view.js:22-29 | a plain run of digits reads as its decimal value |
| JsText.DigitsValueOfDecimal | src/view.js:22-29 | the value of the printed digits of `n` is `n` |
| JsText.ParseIntRoundTrip | src/view.js:214 | `parseInt(String(n)) === n` for every integer, which makes the `data-page` round trip exact |
| JsText.PhpIntVal | vinyl-vault.php:83 | `intval` of text with no digit is 0 |
| Html.ReplaceAllConcat | src/view.js:11-15 | a global one-character replacement distributes over concatenation |
| Html.ReplaceAllAbsent | src/view.js:11-15 | a global replacement of a character that does not occur changes nothing |
| Html.ReplaceAllOne | src/view.js:11-15 | on one character, a global replacement substitutes exactly when the character matches |
| Html.ReplaceAll | src/view.js:11-15 | the definition of `replace(/c/g, rep)` for one character; its properties are `ReplaceAllConcat`, `ReplaceAllAbsent` and `ReplaceAllOne` |
| Html.EscapeHtml | src/view.js:9-16 | the definition: the source's five global replacements in the source's order; what it means is stated by `EscapeHtmlPerChar`, `EscapeHtmlSafe` and `EscapeHtmlRoundTrip` |
| Html.EscapeHtmlChar | src/view.js:9-16 | on one character the chain equals replacing that character by its entity: no later step rewrites an entity an earlier step produced, because `&` goes first |
| Html.EscapeHtmlConcat | src/view.js:9-16 | `escapeHtml(a + b) == escapeHtml(a) + escapeHtml(b)` |
| Html.EscapeHtmlPerChar | src/view.js:9-16 | `escapeHtml` equals the per-character reference definition: each of `& < > " '` becomes its entity, every other character is kept |
| Html.EscapeHtmlPlain | src/view.js:9-16 | text without any of the five characters is returned unchanged |
| Html.EscapeHtmlSafe | src/view.js:9-16 | the output has no raw `<`, `>`, `"`, `'` and every `&` in it begins `&amp;`, `&lt;`, `&gt;`, `&quot;` or `&#039;` |
| Html.UnescapeEscapeEach | src/view.js:9-16 | decoding the five entities inverts the per-character escape |
| Html.EscapeHtmlRoundTrip | src/view.js:9-16 | unescaping the output of `escapeHtml` gives back its input exactly |
| Credits.Ident | src/view.js:161 | the definition of `label.id \|\| label.name`: the id when it is truthy, else the name; used by `DedupLabels` and the de-duplication lemmas |
| Credits.CleanName | src/view.js:139 | the definition of the name cleaning, searching the suffix from the right; its meaning against the pattern is stated by `CleanNameCutsAtFirstMatch` and `CleanNameKeepsUnmatched` |
| Credits.RunStart | src/view.js:139 | the start of the longest run of one character class ending at a position: the run is all of that class and the character before it is not |
| Credits.MatchIsFound | src/view.js:139 | any match of `\s*\(\d+\)\s*$` has its `)` and `(` where the name cleaning looks for them |
| Credits.CleanNameCutsAtFirstMatch | src/view.js:139 | when the suffix pattern matches, the cleaned name is the prefix before the leftmost position from which it matches to the end |
| Credits.CleanNameKeepsUnmatched | src/view.js:139 | a name the pattern does not match is kept unchanged |
| Credits.CleanNameExample | src/view.js:138-139 | `"Artist (2)"` becomes `"Artist"` |
| Credits.FirstOccurrences | src/view.js:157-166 | the reference definition of the kept labels; `DedupLabels` computes it, `FirstOccurrencesDistinct` and `FirstOccurrencesOrder` state what it keeps |
| Credits.DedupLabels | src/view.js:157-166 | the source's loop with a `seenLabels` set returns the reference `FirstOccurrences` of the labels |
| Credits.IdentSetMembers | src/view.js:158-163 | the seen set holds exactly the identifiers of the labels visited |
| Credits.IsFirstLast | src/view.js:161-165 | a label is pushed exactly when no earlier label has its identifier |
| Credits.FirstOccurrencesDistinct | src/view.js:157-166 | de-duplication keeps every identifier and no identifier twice |
| Credits.FirstOccurrencesOrder | src/view.js:157-166 | the kept labels are the input at strictly increasing positions; each is a first occurrence and every first occurrence is kept |
| Messages.Message | src/view.js:194-196 | `l10n?.key \|\| default`: never empty; a present non-empty localized text is used, and a missing or empty one gives the English default |
| ViewConfig.StringOr | src/view.js:21 | `value \|\| fallback` on text: a present non-empty value is kept, otherwise the fallback |
| ViewConfig.IntOr | src/view.js:22 | `parseInt(value) \|\| fallback`: the parsed number when it is present and non-zero, otherwise the fallback; never 0 when the fallback is not |
| ViewConfig.ReadConfig | src/view.js:19-29 | each text attribute is kept when present and non-empty, otherwise it is `""` (username, API key), `grid`, `added` or `desc`; each count is the parsed number when it is non-zero, otherwise 12 or 4; each flag is on exactly when its attribute is the string `"true"` |
| ViewConfig.IntOrDecimal | src/view.js:22-29 | a printed non-zero integer reads back as itself; zero or a missing attribute gives the default |
| ViewConfig.GetSortParams | src/view.js:94-108 | the identity on the six known sort keys, `added` for any other; the order is kept when non-empty, else `desc` |
| ViewConfig.GetSortParamsIdempotent | src/view.js:94-108 | mapping the mapped parameters again changes nothing |
| Render.ImageUrl | src/view.js:116 | the definition of `cover_image \|\| thumb`; `ItemImage` states its effect on the item |
| Render.CreditView | src/view.js:137-147 | the definition of one artist or label; `CreditViewLink` and `SafeCredit` state its link, its text and its safety |
| Render.JoinCredits | src/view.js:137-147 | the definition of `map(...).join(', ')`; `JoinCreditsFind` and `SafeJoinCredits` state that it adds no `div` and is safe |
| Render.ItemView | src/view.js:114-183 | the definition of one item; `RenderItem` computes it, `ItemClasses`, `ItemImage` and `SafeItem` state its structure and safety |
| Render.CollectionView | src/view.js:111-189 | the definition of a page; `RenderCollection` computes it, `CollectionOnePerRelease`, `CollectionColumns` and `CollectionSafe` state its properties |
| Render.Items | src/view.js:114-184 | one item per release, the `k`-th item showing the `k`-th release |
| Render.RenderItem | src/view.js:115-183 | the body of the `forEach`, with the label loop, builds exactly the item of the release |
| Render.RenderCollection | src/view.js:111-189 | the accumulation loop builds exactly the wrapper with the items in release order |
| Render.ItemsStep | src/view.js:114-184 | one more release appends exactly its item |
| Render.TitleFind | src/view.js:131-133 | the title field is there exactly when titles are shown |
| Render.ArtistFind | src/view.js:135-149 | the artist field is there exactly when artists are shown and there is at least one |
| Render.YearFind | src/view.js:151-153 | the year field is there exactly when years are shown and the year is truthy |
| Render.LabelFind | src/view.js:155-181 | the label field is there exactly when labels are shown and there is at least one |
| Render.DetailsFind | src/view.js:129-181 | the details hold the shown fields' classes in document order and no image |
| Render.ImageLinkFind | src/view.js:123-127 | the image link holds no `div`, and one image exactly when the release has an image address |
| Render.ItemClasses | src/view.js:121-183 | an item's classes are `discogs-item`, `discogs-item-details`, then the shown fields; `discogs-item` occurs once |
| Render.CollectionOnePerRelease | src/view.js:111-189 | the page has exactly one `discogs-item` per release, and the items follow the releases' order |
| Render.WrapperClass | src/view.js:112 | the wrapper's class is `discogs-collection-<mode>` and is not an item's class |
| Render.CollectionColumns | src/view.js:112 | `data-columns` is present exactly in grid mode, carrying the column count |
| Render.ItemImage | src/view.js:116-127 | an item has an image exactly when the release has a cover image or a thumbnail; the cover image wins |
| Render.CreditViewLink | src/view.js:142-146 | a credit with an id links to an address built from the id alone; its text, and the whole of a credit without an id, is the escaped cleaned name |
| Render.SafeCredit | src/view.js:142-146 | a credit's markup is safe |
| Render.SafeItem | src/view.js:121-183 | an item's markup is safe |
| Render.CollectionSafe | src/view.js:111-189 | the whole page is safe markup whenever the display mode is safe |
| Pagination.ReplaceFirst | src/view.js:197 | the definition of `replace` with a string pattern; `ReplaceFirstAbsent` and `ReplaceFirstAt` state what it replaces |
| Pagination.PageInfoText | src/view.js:196-197 | the definition of the two placeholder replacements; `DefaultPageInfo` states the text with the built-in template |
| Pagination.Button | src/view.js:201-203 | the definition of one button; `ButtonAttributes`, `ClickButton` and `ButtonSafe` state its page, its `disabled` mark, its click and its safety |
| Pagination.PaginationView | src/view.js:191-205 | the definition of the controls; `PaginationShown`, `PreviousButton`, `NextButton`, `OtherTargetsIgnored` and `PaginationSafe` state their properties |
| Pagination.ReplaceFirstAbsent | src/view.js:197 | `replace` with a pattern that does not occur changes nothing |
| Pagination.ReplaceFirstAt | src/view.js:197 | `replace` with a string pattern substitutes exactly the leftmost occurrence |
| Pagination.DefaultPageInfo | src/view.js:196-197 | with the built-in template the text is `Page <current> of <total>` |
| Pagination.PaginationShown | src/view.js:192 | the controls are shown exactly when there is more than one page |
| Pagination.ButtonAttributes | src/view.js:201-203 | a button carries its page in `data-page` and is disabled exactly when asked to be |
| Pagination.ClickedPage | src/view.js:213-215 | a click yields a page only on an enabled button, and only a page between 1 and the page count |
| Pagination.ClickButton | src/view.js:213-215 | a click on a button loads its page exactly when the button is enabled and the page exists |
| Pagination.PreviousButton | src/view.js:201 | Previous carries `current - 1`, is disabled exactly on page 1, and a click loads the previous page exactly when it exists |
| Pagination.NextButton | src/view.js:203 | Next carries `current + 1`, is disabled exactly on the last page, and a click loads the next page exactly when it exists |
| Pagination.OtherTargetsIgnored | src/view.js:212-213 | clicks on the wrapper or the page information are ignored |
| Pagination.PaginationSafe | src/view.js:199-205 | the controls are safe markup |
| Viewer.Classify | src/view.js:63-79 | a 2xx answer with a `releases` array loads it, with the page count or 1; 404, 401 and 429 give their own messages; any other failure status gives the fetch-failed text, a space and the status text; a missing array gives the invalid-response text; a rejected fetch or a body that is not JSON gives its own message |
| Viewer.FailuresDistinguished | src/view.js:64-71 | with the built-in texts, the four refused-answer messages are pairwise different |
| Viewer.RequestFor | src/view.js:43-61 | the request asks for the page, the page size and the mapped sort; it always sends the User-Agent, and sends the Authorization header exactly when an API key is set |
| Viewer.RequestUrl | src/view.js:55-56 | the definition of the request address from the encoded username and the request's page, page size and sort; its meaning is stated by `RequestUrlCarries` |
| Viewer.NumberBetween | src/view.js:56 | a printed integer spliced between a prefix and text starting with `&` reads back as itself and ends at that `&` |
| Viewer.RequestUrlCarries | src/view.js:55-56 | the address starts with the user's collection endpoint; the value after `?page=` reads back as the request's page and the value after `&per_page=` as its page size, each ending at the next `&` |
| Viewer.NoUsernameView | src/view.js:32 | the definition of the container without a username; `Mount` states when it is shown |
| Viewer.LoadingView | src/view.js:40 | the definition of the loading container; `StartFetch` shows it and `LoadingViewSafe` states its safety |
| Viewer.ErrorView | src/view.js:89-90 | the definition of the error container (prefix, a space, the message, each escaped); `FinishFetch` shows it and `ErrorViewSafe` states its safety |
| Viewer.ErrorViewSafe | src/view.js:89-90 | the error container is safe markup |
| Viewer.LoadingViewSafe | src/view.js:40 | the loading container is safe markup |
| Viewer.CollectionViewer.constructor | src/view.js:36-37 | the page state starts at page 1 of 1 and nothing is sent; the model's container starts empty, where the page still holds the server's loading div |
| Viewer.CollectionViewer.StartFetch | src/view.js:40-61 | shows the loading text and sends one request; the page state is unchanged |
| Viewer.CollectionViewer.FinishFetch | src/view.js:63-91 | on failure, a single error container and an unchanged page state; on success, both page variables set and then the page and its controls shown |
| Viewer.CollectionViewer.RenderPagination | src/view.js:191-207 | appends the controls for the current state and changes nothing else |
| Viewer.CollectionViewer.FetchCollection | src/view.js:39-92 | one request sent, then the outcome of `FinishFetch`; the container is always safe when the display mode is |
| Viewer.CollectionViewer.ShowCollection | src/view.js:81-85 | sets `totalPages` and `currentPage`, then shows the page followed by its controls; the controls are shown exactly when there is more than one page |
| Viewer.CollectionViewer.ShowsControls | src/view.js:207-212 | the handler exists only while the last node of the container is the pagination element rendered for the current state |
| Viewer.CollectionViewer.Click | src/view.js:212-220 | for a click on the pagination element shown or one of its children: an ignored click changes nothing and sends nothing; an accepted one sets `currentPage` to the page asked for and fetches it, so a failed fetch leaves `currentPage` at that page and `totalPages` unchanged |
| Viewer.Mount | src/view.js:18-36 | without a username: one error container, no page state, no request; otherwise a fresh page state that has fetched page 1 |
| BlockRender.IsEmpty | vinyl-vault.php:80-84 | the definition of PHP's `empty()` on null, booleans, integers and strings (and so of truthiness); used by every normalisation lemma |
| BlockRender.IntVal | vinyl-vault.php:83-84 | the definition of `intval()`; `AbsInt` and `CountsNormalized` state its use |
| BlockRender.TextOr | vinyl-vault.php:80-82 | `! empty($v) ? $v : $fallback`: the fallback when empty, the text itself when it is a non-empty string, never empty with a non-empty fallback |
| BlockRender.AbsInt | vinyl-vault.php:83 | `absint` of an integer is its absolute value |
| BlockRender.ToPhpString | vinyl-vault.php:101 | a non-empty value prints as non-empty text |
| BlockRender.Clamp | vinyl-vault.php:93-96 | `max(lo, min(hi, n))` lies in `[lo, hi]` and keeps an in-range `n` |
| BlockRender.DisplayMode | vinyl-vault.php:82-90 | the mode is always one of `grid`, `list`, `compact`; any mode but `grid` is the attribute's own text |
| BlockRender.BoundedCount | vinyl-vault.php:83-96 | always in `[1, hi]`; the default when the attribute is empty; an in-range `absint` is kept |
| BlockRender.ClassName | vinyl-vault.php:99-102 | starts with the block's own class |
| BlockRender.Normalize | vinyl-vault.php:80-96 | items per page in `[1, 50]`, columns in `[1, 8]`, a valid mode, non-empty sort values |
| BlockRender.DataAttributes | vinyl-vault.php:104-132 | the definition of the printed `data-*` attributes; `FlagsRoundTrip` and `ReadDataAttributes` state what the viewer reads back from them |
| BlockRender.RenderCallback | vinyl-vault.php:78-137 | the class starts with the block's own class |
| BlockRender.VinylVaultRenderCallback | vinyl-vault.php:78-137 | the class starts with `wp-block-vinyl-vault-collection` |
| BlockRender.DiscogsBlocksRenderCallback | discogs-blocks.php:51-110 | the class starts with `wp-block-discogs-blocks-collection` |
| BlockRender.BrandsAgree | discogs-blocks.php:51-110 | both callbacks print the same mount point and the same class suffix; only the block class differs |
| BlockRender.ClassNameAlign | vinyl-vault.php:99-102 | the class is the block class, followed by ` align<align>` exactly when `align` is non-empty |
| BlockRender.CountsNormalized | vinyl-vault.php:83-96 | items per page is 12 and columns 4 when empty; otherwise each is `absint` clamped to `[1, 50]` and `[1, 8]` |
| BlockRender.DisplayModeNormalized | vinyl-vault.php:82-90 | a known mode is kept, anything else becomes `grid` |
| BlockRender.SortNormalized | vinyl-vault.php:130-131 | sort field and order default to `added` and `desc` when empty and pass through otherwise |
| BlockRender.FlagsRoundTrip | vinyl-vault.php:126-129 | each `show*` flag is printed as exactly `"true"` or `"false"`, and `=== 'true'` reads back the attribute's truthiness |
| BlockRender.ReadDataAttributes | vinyl-vault.php:104-132 | reading the printed attributes as the viewer does gives back every normalised value |
| BlockRender.ViewerReadsBlock | src/view.js:19-29 | what the viewer reads from a server-rendered mount point is exactly the normalised configuration, and its display mode is safe |
| BlockRender.ServerPagesSafe | src/view.js:112 | every page the viewer renders for a server-rendered mount point is safe markup |

## Left out

- `fetch`, `response.json()`, `async`/`await` and `mode: 'cors'` are network I/O. Each fetch is given the `Response` it gets.
- The DOM is not modelled: `innerHTML`, `insertAdjacentHTML`, `querySelector`, `addEventListener`, `matches('button:not(:disabled)')` and `DOMContentLoaded`. The container is a sequence of nodes; a click is a call with the clicked node.
- `console.error` is diagnostic only.
- Two fetches in flight at once (rapid clicks) are not modelled: each fetch completes before the next call.
- The markup is a tree of elements and text. The model does not capture byte-exact HTML: whitespace of the template literals, the attribute quoting, and the bare `disabled` attribute.
- `Viewer.RequestUrl`: `encodeURIComponent` is foreign library code. The URL takes the username already encoded.
- `JsText.ParseInt`: only decimal text is read. A `0x` prefix and values beyond 2^53 are not modelled.
- `JsText.PhpIntVal`: reads the leading decimal integer only. PHP 7.1 and later convert a leading float form such as `"1e3"` or `".5e1"` through a double (1000, 5), which this model reads as 1 and 0; the double rounding and the 64-bit range are not modelled either. PHP's leading-whitespace set is taken to be the JavaScript one.
- `ViewConfig.GetSortParams`: keys inherited from `Object.prototype` (such as `constructor`) are not modelled; only the six own keys of the map are.
- `BlockRender.Normalize`: `sanitize_text_field` is taken as the identity.
- `esc_attr` and the browser's decoding of attribute values are taken to cancel out, so `dataset` sees the printed values as they are.
- `BlockRender.ToPhpString`: `PhpValue` has only null, booleans, integers and strings. Floats and arrays are not modelled.
- `Viewer.Classify`: a `pagination` object without a `pages` field is not modelled; a present `pagination` carries its page count.
- A release entry without `basic_information` makes the source throw inside `renderCollection`. So does a missing value where it is used: the title when an image or the titles are shown, a credit's name when its field is shown. The error container then replaces the page while `currentPage` and `totalPages` keep their new values. The model has no such entries: a title is always present.
- The server's `sprintf` template and its `esc_html__` loading text are fixed templating; only the normalised values and the class are modelled.
- vinyl-vault.php publishes its texts as `vinylVaultL10n`, while src/view.js reads `discogsBlocksL10n`. The texts are therefore an input map, and the English defaults apply when it lacks a key. `wp_localize_script` is not part of this model.
- src/edit.js and src/save.js are editor UI and static markup, and are not part of this model.
