/**
 * The stream grid of app.js: `createStreamBox`, `renderStreams`,
 * `displayError` and the decision taken by `loadStreams` once its fetch has
 * an outcome. The DOM element `#streams-grid` is a `Grid` object whose
 * children are abstract nodes rather than HTML text.
 */
module StreamGrid {
  import opened Wrappers
  import opened HtmlEscape
  import opened YouTube

  /** One entry of the streams file, `{ title, url? }`. A missing or `null`
      url is `None`. */
  datatype StreamRecord = StreamRecord(title: string, url: Option<string>)

  /** What the `.stream-video` part of a box shows. */
  datatype Content =
    | Embed(src: string)  // the player iframe and its `src`
    | InvalidUrl          // "Invalid YouTube URL" placeholder
    | NotConfigured       // "YouTube URL not configured" placeholder

  /** A child of the grid. */
  datatype Node =
    | Message                                // the "No streams configured" paragraph
    | Box(titleHtml: string, content: Content)  // a `.stream-box`
    | ErrorBanner(text: string)              // an `.error-message` div, text content

  const EmbedPrefix: string := "https://www.youtube.com/embed/"
  const EmbedQuery: string := "?autoplay=1&mute=1&controls=1&fs=1&rel=0"

  /** JavaScript truthiness of `stream.url`: absent, `null` and `""` are all
      false. */
  predicate IsConfigured(url: Option<string>) {
    url.Some? && url.value != ""
  }

  /** The text of the iframe `src` attribute that the template of app.js:40
      builds for a video id. In that text the id stands right after `/embed/`,
      and the run of characters other than `&`, `?` and `/` there is exactly
      the id, up to the `?` that opens the player parameters. This is a fact
      about the template string: the id is inserted without escaping, so a `"`
      or `#` in it changes what a browser parses (see `EmbedSrcMarkup`). */
  function EmbedSrc(id: string): (src: string)
    requires IsId(id)
    ensures EmbedPrefix <= src && IdRun(src[|EmbedPrefix|..]) == id
    ensures |src| == |EmbedPrefix| + |id| + |EmbedQuery|
    ensures src[|src| - |EmbedQuery|..] == EmbedQuery
  {
    var src := EmbedPrefix + id + EmbedQuery;
    assert src[|EmbedPrefix|..] == id + EmbedQuery;
    IdRunOf(id, EmbedQuery);
    src
  }

  /** The fixed parts of the `src` text hold no markup character. */
  lemma EmbedPartsNoMarkup()
    ensures NoMarkup(EmbedPrefix) && NoMarkup(EmbedQuery)
  {
    assert forall i | 0 <= i < |EmbedPrefix| ::
      EmbedPrefix[i] != '<' && EmbedPrefix[i] != '>' && EmbedPrefix[i] != '"' && EmbedPrefix[i] != '\'';
    assert forall i | 0 <= i < |EmbedQuery| ::
      EmbedQuery[i] != '<' && EmbedQuery[i] != '>' && EmbedQuery[i] != '"' && EmbedQuery[i] != '\'';
  }

  /** The id is not escaped: the `src` text holds a raw `<`, `>`, `"` or `'`
      exactly when the id does, since the fixed prefix and player parameters
      hold none. */
  lemma EmbedSrcMarkup(id: string)
    requires IsId(id)
    ensures NoMarkup(EmbedSrc(id)) <==> NoMarkup(id)
  {
    EmbedPartsNoMarkup();
    NoMarkupConcat(EmbedPrefix, id, EmbedQuery);
  }

  /** Three strings joined hold a markup character exactly when one of them
      does. */
  lemma NoMarkupConcat(a: string, b: string, c: string)
    ensures NoMarkup(a + b + c) <==> NoMarkup(a) && NoMarkup(b) && NoMarkup(c)
  {
    var s := a + b + c;
    if NoMarkup(a) && NoMarkup(b) && NoMarkup(c) {
      forall i | 0 <= i < |s| ensures !IsMarkup(s[i]) {
        if i < |a| {
          assert s[i] == a[i];
        } else if i < |a| + |b| {
          assert s[i] == b[i - |a|];
        } else {
          assert s[i] == c[i - |a| - |b|];
        }
      }
    }
    if NoMarkup(s) {
      assert forall j :: 0 <= j < |a| ==> a[j] == s[j];
      assert forall j :: 0 <= j < |b| ==> b[j] == s[|a| + j];
      assert forall j :: 0 <= j < |c| ==> c[j] == s[|a| + |b| + j];
    }
  }

  /** `createStreamBox(stream)`: the title is always escaped, so it carries no
      markup and decodes back to the original; the content is the player, the
      invalid-url placeholder or the not-configured placeholder, in the order
      app.js:37-46 tests them. */
  function CreateStreamBox(stream: StreamRecord): (n: Node)
    ensures n.Box?
    ensures n.titleHtml == EscapeHtml(stream.title)
    ensures NoMarkup(n.titleHtml) && Unescape(n.titleHtml) == stream.title
    ensures n.content.NotConfigured? <==> !IsConfigured(stream.url)
    ensures n.content.InvalidUrl? <==>
      IsConfigured(stream.url) && ExtractYouTubeVideoId(stream.url.value).None?
    ensures n.content.Embed? <==>
      IsConfigured(stream.url) && ExtractYouTubeVideoId(stream.url.value).Some?
    ensures n.content.Embed? ==>
      n.content.src == EmbedSrc(ExtractYouTubeVideoId(stream.url.value).value)
  {
    EscapeHtmlNoMarkup(stream.title);
    UnescapeEscape(stream.title);
    var content :=
      if IsConfigured(stream.url) then
        match ExtractYouTubeVideoId(stream.url.value)
        case Some(id) => Embed(EmbedSrc(id))
        case None => InvalidUrl
      else
        NotConfigured;
    Box(EscapeHtml(stream.title), content)
  }

  /** The children `renderStreams(streams)` leaves: the message alone for a
      missing or empty list, otherwise one box per record. No error banner is
      ever among them. */
  function Rendered(streams: Option<seq<StreamRecord>>): (r: seq<Node>)
    ensures |r| == if streams.None? then 1 else if streams.value == [] then 1 else |streams.value|
    ensures forall i :: 0 <= i < |r| ==> !r[i].ErrorBanner?
    ensures forall i :: 0 <= i < |r| ==> (r[i].Box? <==> streams.Some? && streams.value != [])
  {
    if streams.None? || |streams.value| == 0 then
      [Message]
    else
      seq(|streams.value|, i requires 0 <= i < |streams.value| => CreateStreamBox(streams.value[i]))
  }

  datatype Kind = MessageKind | BoxKind | BannerKind

  function KindOf(n: Node): Kind {
    match n
    case Message => MessageKind
    case Box(_, _) => BoxKind
    case ErrorBanner(_) => BannerKind
  }

  /** The number of children of one kind. */
  function Count(ns: seq<Node>, k: Kind): (c: nat)
    ensures c <= |ns|
    ensures c == |ns| <==> forall i :: 0 <= i < |ns| ==> KindOf(ns[i]) == k
    ensures c == 0 <==> forall i :: 0 <= i < |ns| ==> KindOf(ns[i]) != k
  {
    if ns == [] then 0
    else
      var rest := Count(ns[1..], k);
      assert forall i :: 1 <= i < |ns| ==> ns[i] == ns[1..][i - 1];
      (if KindOf(ns[0]) == k then 1 else 0) + rest
  }

  /** A missing or empty list renders one message and nothing else. */
  lemma RenderedEmpty(streams: Option<seq<StreamRecord>>)
    requires streams.None? || streams.value == []
    ensures |Rendered(streams)| == 1
    ensures Count(Rendered(streams), MessageKind) == 1
    ensures Count(Rendered(streams), BoxKind) == 0
    ensures Count(Rendered(streams), BannerKind) == 0
  {
  }

  /** A non-empty list renders exactly one box per record, in input order,
      each built from its own record only; no message and no error banner. */
  lemma RenderedBoxes(streams: seq<StreamRecord>)
    requires streams != []
    ensures |Rendered(Some(streams))| == |streams|
    ensures forall i :: 0 <= i < |streams| ==> Rendered(Some(streams))[i] == CreateStreamBox(streams[i])
    ensures Count(Rendered(Some(streams)), BoxKind) == |streams|
    ensures Count(Rendered(Some(streams)), MessageKind) == 0
    ensures Count(Rendered(Some(streams)), BannerKind) == 0
  {
  }

  /** A record without a url, or with an empty one, shows the
      not-configured placeholder and not the invalid-url one. */
  lemma MissingUrlExample(title: string)
    ensures CreateStreamBox(StreamRecord(title, None)).content == NotConfigured
    ensures CreateStreamBox(StreamRecord(title, Some(""))).content == NotConfigured
  {
  }

  /** A url of another host shows the invalid-url placeholder, not a player. */
  lemma OtherHostExample(title: string)
    ensures CreateStreamBox(StreamRecord(title, Some("https://vimeo.com/12345"))).content == InvalidUrl
  {
    ExtractOtherHostExample();
  }

  /** A short link embeds the player for its id. */
  lemma ShortLinkExample(title: string)
    ensures CreateStreamBox(StreamRecord(title, Some("https://" + ShortMarker + "XYZ789"))).content ==
      Embed(EmbedPrefix + "XYZ789" + EmbedQuery)
  {
    ExtractShortExample();
  }

  /** The id reaches the iframe `src` text unescaped: a short link whose id
      holds a markup character passes extraction and yields a player whose
      `src` text holds that character. */
  lemma UnescapedIdReachesEmbed(title: string, pre: string, id: string)
    requires forall i :: 0 <= i < |pre| ==> pre[i] != 'y'
    requires IsId(id) && !NoMarkup(id)
    ensures ExtractYouTubeVideoId(pre + ShortMarker + id) == Some(id)
    ensures CreateStreamBox(StreamRecord(title, Some(pre + ShortMarker + id))).content == Embed(EmbedSrc(id))
    ensures !NoMarkup(EmbedSrc(id))
  {
    ExtractAfterMarker(pre, ShortMarker, id, "");
    assert pre + ShortMarker + id + "" == pre + ShortMarker + id;
    assert |pre + ShortMarker + id| > 0;
    EmbedSrcMarkup(id);
  }

  /** With the id `x"onload="alert(1)` the `"` would close the `src`
      attribute in the markup. */
  lemma UnescapedIdExample()
    ensures ExtractYouTubeVideoId("https://" + ShortMarker + "x\"onload=\"alert(1)") == Some("x\"onload=\"alert(1)")
    ensures !NoMarkup(EmbedSrc("x\"onload=\"alert(1)"))
  {
    InjectedIdIsId();
    UnescapedIdReachesEmbed("", "https://", "x\"onload=\"alert(1)");
  }

  lemma InjectedIdIsId()
    ensures IsId("x\"onload=\"alert(1)") && !NoMarkup("x\"onload=\"alert(1)")
  {
    var id := "x\"onload=\"alert(1)";
    assert forall i | 0 <= i < |id| :: id[i] != '&' && id[i] != '?' && id[i] != '/';
    assert IsMarkup(id[1]);
  }

  /** An id may hold `#`, which the browser reads as the start of a fragment,
      so the player parameters after it are lost. */
  lemma FragmentIdExample()
    ensures ExtractYouTubeVideoId("https://" + ShortMarker + "abc#t=1") == Some("abc#t=1")
    ensures EmbedSrc("abc#t=1")[|EmbedPrefix| + 3] == '#'
  {
    ExtractAfterMarker("https://", ShortMarker, "abc#t=1", "");
    assert "https://" + ShortMarker + "abc#t=1" + "" == "https://" + ShortMarker + "abc#t=1";
    assert IsId("abc#t=1");
    assert EmbedSrc("abc#t=1")[|EmbedPrefix|..][3] == '#';
  }

  /** What the page asked for came back: as `response.ok` with the parsed
      list, as a response that is not ok, or as a failure with its message
      (network error, unparsable body). */
  datatype FetchOutcome =
    | Fetched(streams: Option<seq<StreamRecord>>)
    | NotOk
    | Failed(message: string)

  const LoadErrorPrefix: string := "Failed to load streams: "
  /** The message of the error thrown for a response that is not ok. */
  const NotOkMessage: string := "Failed to load streams"

  /** The children after `loadStreams` has seen `outcome`, starting from
      `prior`. Only a successful fetch re-renders; the result holds no error
      banner exactly when the fetch succeeded, and after a failure the prior
      children follow the new banner. */
  function AfterLoad(outcome: FetchOutcome, prior: seq<Node>): (r: seq<Node>)
    ensures outcome.Fetched? <==> forall i :: 0 <= i < |r| ==> !r[i].ErrorBanner?
    ensures !outcome.Fetched? ==> |r| > 0 && r[1..] == prior
  {
    match outcome
    case Fetched(streams) => Rendered(streams)
    case NotOk =>
      var r := [ErrorBanner(LoadErrorPrefix + NotOkMessage)] + prior;
      assert r[0].ErrorBanner?;
      r
    case Failed(message) =>
      var r := [ErrorBanner(LoadErrorPrefix + message)] + prior;
      assert r[0].ErrorBanner?;
      r
  }

  /** A failed load adds one banner in front and leaves the grid's previous
      children as they were, in order. */
  lemma FailedLoadKeepsGrid(outcome: FetchOutcome, prior: seq<Node>)
    requires !outcome.Fetched?
    ensures |AfterLoad(outcome, prior)| == |prior| + 1
    ensures AfterLoad(outcome, prior)[0].ErrorBanner?
    ensures LoadErrorPrefix <= AfterLoad(outcome, prior)[0].text
    ensures AfterLoad(outcome, prior)[1..] == prior
    ensures Count(AfterLoad(outcome, prior), BannerKind) == Count(prior, BannerKind) + 1
  {
  }

  /** A successful load does not depend on what the grid held, so loading the
      same list again changes nothing. */
  lemma SuccessfulLoadReplaces(streams: Option<seq<StreamRecord>>, prior: seq<Node>)
    ensures AfterLoad(Fetched(streams), prior) == Rendered(streams)
    ensures AfterLoad(Fetched(streams), AfterLoad(Fetched(streams), prior)) == AfterLoad(Fetched(streams), prior)
  {
  }

  /** The DOM element `#streams-grid`. */
  class Grid {
    var children: seq<Node>

    constructor ()
      ensures children == []
    {
      children := [];
    }

    /** `renderStreams(streams)`: clear the grid, then either show the message
        or append one box per record. */
    method RenderStreams(streams: Option<seq<StreamRecord>>)
      modifies this
      ensures children == Rendered(streams)
    {
      children := [];
      if streams.None? || |streams.value| == 0 {
        children := [Message];
        return;
      }
      var records := streams.value;
      var i := 0;
      while i < |records|
        invariant 0 <= i <= |records|
        invariant |children| == i
        invariant forall j :: 0 <= j < i ==> children[j] == CreateStreamBox(records[j])
      {
        children := children + [CreateStreamBox(records[i])];
        i := i + 1;
      }
      assert forall j :: 0 <= j < |records| ==> children[j] == Rendered(streams)[j];
    }

    /** `displayError(message)`: insert a banner before the first child. */
    method DisplayError(message: string)
      modifies this
      ensures children == [ErrorBanner(message)] + old(children)
    {
      children := [ErrorBanner(message)] + children;
    }

    /** `loadStreams()` once the fetch has produced `outcome`. */
    method LoadStreams(outcome: FetchOutcome)
      modifies this
      ensures children == AfterLoad(outcome, old(children))
    {
      match outcome
      case Fetched(streams) =>
        RenderStreams(streams);
      case NotOk =>
        DisplayError(LoadErrorPrefix + NotOkMessage);
      case Failed(message) =>
        DisplayError(LoadErrorPrefix + message);
    }
  }
}
