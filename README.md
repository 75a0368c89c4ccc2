# YoutubeMultiStream: the stream grid, in Dafny

YoutubeMultiStream shows a grid of embedded YouTube players. The list of streams
comes from a JSON file of `{ title, url? }` records. All of the logic runs in the
browser, in `app.js`. `loadStreams` fetches the list. `renderStreams` clears the
grid and appends one box per record. An empty or missing list gives a single
"No streams configured" message instead. `createStreamBox` builds each box. The
box title is HTML-escaped by `escapeHtml`. The player is embedded only when
`extractYouTubeVideoId` finds an id in the record's url. Otherwise the box shows
one of two placeholders: "invalid url" or "url not configured". When a load
fails, `displayError` puts an error banner in front of whatever the grid
already holds.

The model has four modules:

- `Wrappers` (`wrappers.dfy`): the `Option` type, which stands for JavaScript's
  `null`.
- `HtmlEscape` (`escape.dfy`): `escapeHtml` as a per-character map. `Unescape`,
  which decodes the five entities, is its partner. Lemmas prove that no raw
  markup character survives, that every `&` starts an entity, that the function
  is the identity exactly on strings with nothing to escape, that it
  distributes over concatenation, and that unescaping gives back the original
  string.
- `YouTube` (`youtube.dfy`): the one regular expression of `extractYouTubeVideoId`,
  matched by hand under JavaScript's semantics. The search is leftmost. The
  alternatives are tried in order. The group is greedy and needs at least one
  character. Matching is case-sensitive. `ExtractYouTubeVideoId` has a
  declarative contract: the leftmost position where a marker is followed by an
  id character, and the maximal run of id characters after it.
  `ExtractYouTubeVideoIdAt` proves the converse, so the contract fixes the
  result completely. Five sample urls are proved as examples: two that give
  an id and three that give `None`. Three of them are written as the
  concatenation of a marker constant and literal pieces
  (`"https://www." + WatchMarker + "ABC123" + "&t=5"` is
  `https://www.youtube.com/watch?v=ABC123&t=5`).
- `StreamGrid` (`grid.dfy`): the records, box contents and grid children as
  datatypes, and `CreateStreamBox` as a function. `Rendered` and `AfterLoad` are
  pure functions that give the grid a render or a load leaves behind. The
  `Grid` class holds `children: seq<Node>`. Its methods `RenderStreams`,
  `DisplayError` and `LoadStreams` change that sequence the way the DOM calls
  do. `RenderStreams` is proved against `Rendered`, and `LoadStreams` against
  `AfterLoad`. `DisplayError`'s contract states the new sequence directly:
  the banner, then the old children.
  The video id goes into the iframe `src` without escaping, as app.js:40
  does. `EmbedSrcMarkup` and `UnescapedIdReachesEmbed` state what that lets
  through.

`loadStreams` decides between two outcomes. After a successful fetch it
renders. After a response that is not ok, or after any thrown error, it shows
the banner `"Failed to load streams: " + message`. The message of the error
thrown for a response that is not ok is `"Failed to load streams"`. The fetch
itself is not modelled: the outcome is a parameter of `Grid.LoadStreams`.
`app.js` fetches `data/streams.json` as a static file, not the `/api/streams`
route that server.js also offers. The request path plays no part in the model.

## Model

| member | source | states |
|---|---|---|
| HtmlEscape.EscapeHtml | app.js:84-93 | the escaped title is never shorter than the title, and has the same length exactly when the title holds none of `& < > " '` |
| HtmlEscape.EscapeHtmlAppend | app.js:92 | escaping is the concatenation of the per-character replacement: escaping `a + b` is escaping `a` followed by escaping `b` |
| HtmlEscape.EscapeHtmlNoMarkup | app.js:85-92 | no raw `<`, `>`, `"` or `'` occurs in the escaped title |
| HtmlEscape.EscapeHtmlAmpersands | app.js:85-92 | every `&` in the escaped title begins one of `&amp;`, `&lt;`, `&gt;`, `&quot;`, `&#039;` |
| HtmlEscape.EscapeHtmlIdentity | app.js:92 | escaping leaves a string unchanged if and only if it holds none of `& < > " '` |
| HtmlEscape.UnescapeStep | app.js:85-91 | decoding the entities undoes the replacement of any single character, whatever text follows it |
| HtmlEscape.UnescapeEscape | app.js:85-92 | decoding the five entities of an escaped title gives the title back |
| HtmlEscape.EscapeHtmlInjective | app.js:84-93 | two different titles never escape to the same markup |
| YouTube.MarkersExclusive | app.js:68 | `youtube.com/watch?v=` and `youtu.be/` never both occur at the same position, so trying the alternatives in order cannot pick the wrong one |
| YouTube.IdRun | app.js:68 | the greedy group `[^&?/]` is the longest prefix made only of characters other than `&`, `?`, `/` |
| YouTube.IdRunOf | app.js:68 | the greedy group over an id followed by `&`, `?`, `/` or the end is exactly that id |
| YouTube.MatchAt | app.js:68 | the pattern matches at a position if and only if a marker is there followed by an id character, and then the capture is the maximal run after the marker |
| YouTube.SearchFrom | app.js:68 | scanning from a position returns nothing if and only if no match starts at or after it, and otherwise the capture of the first match |
| YouTube.ExtractYouTubeVideoId | app.js:64-74 | the result is `None` if and only if the pattern matches nowhere; otherwise it is a non-empty id without `&`, `?`, `/` that follows the marker of the leftmost match and runs to the next `&`, `?`, `/` or the end of the url |
| YouTube.IdFollowsIsRun | app.js:68 | a run as the contract describes it is unique: it is the greedy run |
| YouTube.ExtractYouTubeVideoIdAt | app.js:64-74 | conversely, a leftmost match followed by the run `id` makes the function return `Some(id)`, so its contract determines its result |
| YouTube.NoMatchWithoutY | app.js:68 | both markers start with a lower-case `y`, so no match starts at any other character |
| YouTube.NoMatchBefore | app.js:68 | no match starts inside a prefix without `y` |
| YouTube.NoMatchInString | app.js:68-73 | a url without `y` gives `None` |
| YouTube.ExtractAfterMarker | app.js:68-71 | a prefix without `y`, a marker, an id and anything that does not continue the id give exactly that id |
| YouTube.NoIdAfterMarker | app.js:68-73 | in a url whose only `y` is the first character of a single marker, that marker followed by `&`, `?`, `/` or the end of the url gives `None`, because the group needs at least one character |
| YouTube.ExtractWatchExample | app.js:64-74 | `https://www.youtube.com/watch?v=ABC123&t=5` gives `ABC123` |
| YouTube.ExtractShortExample | app.js:64-74 | `https://youtu.be/XYZ789` gives `XYZ789` |
| YouTube.ExtractOtherHostExample | app.js:64-74 | `https://vimeo.com/12345` gives `None` |
| YouTube.CaseSensitiveExample | app.js:68 | `https://YOUTU.BE/XYZ789` gives `None`: matching is case-sensitive |
| YouTube.EmptyIdExample | app.js:68-73 | `https://www.youtube.com/watch?v=&t=5` gives `None` |
| StreamGrid.EmbedSrc | app.js:40 | the text of the template's `src` attribute starts with `https://www.youtube.com/embed/` and ends with the player parameters; in that text the run of characters other than `&`, `?`, `/` after the prefix is exactly the id (a statement about the string, not about the URL a browser parses) |
| StreamGrid.EmbedSrcMarkup | app.js:40 | the `src` text holds a raw `<`, `>`, `"` or `'` if and only if the id does, because the id is inserted without escaping |
| StreamGrid.UnescapedIdReachesEmbed | app.js:37-40 | a url made of a prefix without `y`, `youtu.be/` and an id holding a markup character passes extraction, and the box embeds a player whose `src` text holds that character |
| StreamGrid.UnescapedIdExample | app.js:40 | `https://youtu.be/x"onload="alert(1)` gives the id `x"onload="alert(1)`, and its `src` text holds a raw `"` |
| StreamGrid.FragmentIdExample | app.js:40 | `https://youtu.be/abc#t=1` gives the id `abc#t=1`, because `[^&?/]` does not exclude `#`; in the `src` text that `#` stands before the player parameters |
| StreamGrid.CreateStreamBox | app.js:31-62 | every record gives a box whose title is the escaped title, holds no raw markup and decodes back to the title; the content is not-configured if and only if the url is absent or empty, invalid-url if and only if a url is present and no id is extracted, and otherwise the player for the extracted id |
| StreamGrid.MissingUrlExample | app.js:37-46 | an absent url and an empty url both give the not-configured placeholder |
| StreamGrid.OtherHostExample | app.js:37-43 | a `vimeo.com` url gives the invalid-url placeholder, not a player |
| StreamGrid.ShortLinkExample | app.js:37-40 | a `youtu.be` url embeds the player for its id |
| StreamGrid.Rendered | app.js:18-28 | the children a render leaves: one for a missing or empty list, otherwise one per record; none is an error banner; every one is a box exactly when the list is non-empty |
| StreamGrid.RenderedEmpty | app.js:18-23 | a missing or empty list leaves exactly one child, the message: no boxes, no banners |
| StreamGrid.RenderedBoxes | app.js:18-28 | a non-empty list leaves exactly one box per record, child `i` built from record `i` alone, and no message or banner |
| StreamGrid.AfterLoad | app.js:5-12 | the children after a load: the result holds no error banner if and only if the fetch succeeded, and after a failure the prior children follow the new first child unchanged |
| StreamGrid.FailedLoadKeepsGrid | app.js:2-14 | a response that is not ok, or a failure, adds exactly one banner in front, with text starting `Failed to load streams: `, and leaves the previous children unchanged and in order |
| StreamGrid.SuccessfulLoadReplaces | app.js:8-9 | a successful load leaves the rendering of the list whatever the grid held before, so repeating it changes nothing |
| StreamGrid.Grid.RenderStreams | app.js:16-29 | after the call the children are exactly the rendering of the list; nothing from before, old banners included, survives |
| StreamGrid.Grid.DisplayError | app.js:76-82 | the banner, holding the message as text, is inserted before the old children, which follow unchanged and in order |
| StreamGrid.Grid.LoadStreams | app.js:2-14 | a successful fetch renders the list; a response that is not ok shows `Failed to load streams: Failed to load streams`; any other failure shows `Failed to load streams: ` followed by its message |

## Left out

- server.js: Express routing, static file serving, reading the JSON file and `listen` are I/O and framework calls with no logic of their own.
- `fetch`, `response.json()`, `async`/`await` and `console.error`: the network and the log. Their result enters the model as the `FetchOutcome` given to `Grid.LoadStreams`.
- The `DOMContentLoaded` listener and the five-minute `setInterval`: these are event-loop and timer behaviour. Overlapping load cycles are a concurrency matter. One cycle is a single call of `Grid.LoadStreams`.
- HTML text and the DOM: boxes, messages and banners are datatypes, not markup. The fixed wording of the message and of the two placeholders, the class names, the "YouTube Stream" status line and the iframe's `width`, `height`, `allow` and `allowfullscreen` attributes are not modelled. The iframe source is modelled only as the text of the template, `Embed(src)`.
- The video id is not escaped or validated beyond `[^&?/]+`, as in app.js:38-40. `Embed(src)` is the template text, not the `src` a browser parses. An id holding `"` can close the attribute and inject markup, and an id holding `#` turns the player parameters into a URL fragment. The model proves that such ids get through (`UnescapedIdReachesEmbed`, `FragmentIdExample`); it does not model how a browser parses the markup.
- JavaScript strings are sequences of UTF-16 code units, while a Dafny `char` is a Unicode scalar value, so a lone surrogate cannot be represented. No modelled behaviour depends on this: every escaped or marker character is ASCII, and `[^&?/]` takes both halves of a surrogate pair.
- A general regular-expression engine: only the one pattern of `extractYouTubeVideoId` is matched.
- Records of the wrong shape: `escapeHtml` throws on a missing or non-string title, `url.match` throws on a truthy url that is not a string, and `forEach` throws on a list that is not an array. In each case the `catch` at app.js:10-13 then shows a banner after a partial render. The model requires titles and urls to be strings and the list to be absent or a sequence.
