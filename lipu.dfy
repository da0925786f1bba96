/** The feed-entry classifier of lipu: turning one parsed syndication entry
    into a normalised article record, or into the reason it cannot be one. */
module Lipu {
  import opened Wrappers
  import opened Strings

  /** One content item of a media group: where to download it and its mime type. */
  datatype MediaContent = MediaContent(url: Option<string>, contentType: Option<string>)

  /** A media group attached to an entry. */
  datatype MediaObject = MediaObject(content: seq<MediaContent>)

  /** The fields of a parsed feed entry that the classifier reads. Text
      fields are reduced to their text, people to their names; `content` is
      the entry's content element, whose body is itself optional. */
  datatype Entry = Entry(
    id: string,
    title: Option<string>,
    content: Option<Option<string>>,
    summary: Option<string>,
    media: seq<MediaObject>,
    authors: seq<string>,
    published: Option<int>,
    updated: Option<int>,
    source: Option<string>)

  /** How far a reader got through an article. */
  datatype ViewingProgress = Zero | UntilParagraph(nat) | UntilSecond(nat) | Fully

  /** Why an entry could not become an article. */
  datatype ArticleCreationError = UnknownMimeType | EmptyBody | EmptyContent | MissingDownloadUrl

  /** A downloadable media attachment. */
  datatype MediaLink = MediaLink(url: string, mimeType: string, downloaded: bool)

  /** The body of an article: exactly one of text, a hosted video link,
      a video or an audio attachment. */
  datatype Body = Html(text: string) | YouTubeLink(link: string) | Video(video: MediaLink) | Audio(audio: MediaLink)

  /** A normalised article. */
  datatype Item = Item(
    id: string,
    name: string,
    source: Option<string>,
    author: Option<string>,
    description: Option<string>,
    created: Option<int>,
    updated: Option<int>,
    viewed: ViewingProgress,
    body: Body)

  /** The mime type of Flash video, which the classifier reads as a YouTube link. */
  const FlashKind: string := "application"
  const FlashSubtype: string := "x-shockwave-flash"
  const FlashMimeType: string := FlashKind + ['/'] + FlashSubtype
  const TitlePlaceholder: string := "??"
  const AuthorSeparator: string := ", "

  /** The body of an entry without media. The summary is turned into a
      `Result` before the content text is looked at, so a missing summary
      is an `EmptyBody` error even when the content has text. */
  function HtmlBody(text: Option<string>, summary: Option<string>): (r: Result<Body, ArticleCreationError>)
    ensures r.Err? <==> summary.None?
    ensures r.Err? ==> r.error == EmptyBody
    ensures text.Some? && summary.Some? ==> r == Ok(Html(text.value))
    ensures text.None? && summary.Some? ==> r == Ok(Html(summary.value))
  {
    var fallback :- summary.OkOr(EmptyBody);
    Ok(Html(text.UnwrapOr(fallback)))
  }

  /** Classifies a media link by the part of its mime type before the first
      `/`: the Flash mime type is a YouTube link, `video/...` a video,
      `audio/...` an audio attachment, and anything else is refused. */
  function ClassifyMime(payload: MediaLink): (r: Result<Body, ArticleCreationError>)
    ensures '/' !in payload.mimeType ==> r == Err(UnknownMimeType)
    ensures r.Err? ==> r.error == UnknownMimeType
    ensures r.Ok? ==> r.value in {YouTubeLink(payload.url), Video(payload), Audio(payload)}
  {
    var parts :- SplitOnce(payload.mimeType, '/').OkOr(UnknownMimeType);
    var (kind, subtype) := parts;
    if kind == FlashKind && subtype == FlashSubtype then Ok(YouTubeLink(payload.url))
    else if kind == "video" then Ok(Video(payload))
    else if kind == "audio" then Ok(Audio(payload))
    else Err(UnknownMimeType)
  }

  /** Mime types the classifier accepts. */
  predicate RecognisedMime(m: string) {
    m == FlashMimeType || HasPrefix(m, "video/") || HasPrefix(m, "audio/")
  }

  /** The Flash mime type splits into `application` and `x-shockwave-flash`. */
  lemma FlashSplit()
    ensures SplitOnce(FlashMimeType, '/') == Some((FlashKind, FlashSubtype))
  {
    SplitOnceUnique(FlashMimeType, '/', FlashKind, FlashSubtype);
  }

  /** Exactly the Flash mime type gives a YouTube link to the media URL. */
  lemma ClassifyMimeFlash(payload: MediaLink)
    ensures ClassifyMime(payload) == Ok(YouTubeLink(payload.url)) <==> payload.mimeType == FlashMimeType
  {
    if payload.mimeType == FlashMimeType {
      FlashSplit();
    }
  }

  /** Exactly the `video/...` mime types give a video carrying the link unchanged. */
  lemma ClassifyMimeVideo(payload: MediaLink)
    ensures ClassifyMime(payload) == Ok(Video(payload)) <==> HasPrefix(payload.mimeType, "video/")
  {
    SplitOnceKind(payload.mimeType, '/', "video");
  }

  /** Exactly the `audio/...` mime types give an audio attachment carrying the link unchanged. */
  lemma ClassifyMimeAudio(payload: MediaLink)
    ensures ClassifyMime(payload) == Ok(Audio(payload)) <==> HasPrefix(payload.mimeType, "audio/")
  {
    SplitOnceKind(payload.mimeType, '/', "audio");
  }

  /** Classification succeeds exactly on the recognised mime types; every
      other type, including one without a `/`, is an `UnknownMimeType` error. */
  lemma ClassifyMimeRecognised(payload: MediaLink)
    ensures ClassifyMime(payload).Ok? <==> RecognisedMime(payload.mimeType)
    ensures ClassifyMime(payload).Err? ==> ClassifyMime(payload).error == UnknownMimeType
  {
    ClassifyMimeFlash(payload);
    ClassifyMimeVideo(payload);
    ClassifyMimeAudio(payload);
  }

  /** The body of an entry with media: only the first content item of the
      first media group is looked at; its URL is checked before its mime type. */
  function MediaBody(media: MediaObject): (r: Result<Body, ArticleCreationError>)
    ensures r == Err(EmptyContent) <==> media.content == []
    ensures r == Err(MissingDownloadUrl) <==> media.content != [] && media.content[0].url.None?
    ensures media.content != [] && media.content[0].url.Some? && media.content[0].contentType.None? ==>
      r == Err(UnknownMimeType)
    ensures media.content != [] && media.content[0].url.Some? && media.content[0].contentType.Some? ==>
      r == ClassifyMime(MediaLink(media.content[0].url.value, media.content[0].contentType.value, false))
  {
    var content :- if media.content == [] then Err(EmptyContent) else Ok(media.content[0]);
    var url :- content.url.OkOr(MissingDownloadUrl);
    var mimeType :- content.contentType.OkOr(UnknownMimeType);
    ClassifyMime(MediaLink(url, mimeType, false))
  }

  /** The author line: `None` without authors, else their names joined. */
  function AuthorLine(authors: seq<string>): (r: Option<string>)
    ensures r.None? <==> authors == []
    ensures r.Some? ==> |r.value| == TotalLength(authors) + (|authors| - 1) * |AuthorSeparator|
    ensures r.Some? ==> HasPrefix(r.value, authors[0])
  {
    if authors == [] then None
    else
      JoinAt(authors, AuthorSeparator, 0);
      Some(Join(authors, AuthorSeparator))
  }

  /** Converts a feed entry into an article. */
  function TryFrom(entry: Entry): (r: Result<Item, ArticleCreationError>)
    ensures r.Err? && entry.media == [] ==> r.error == EmptyBody
    ensures r.Err? && entry.media != [] ==> r.error in {EmptyContent, MissingDownloadUrl, UnknownMimeType}
    ensures r.Ok? ==> r.value.viewed == Zero && r.value.id == entry.id && r.value.description == entry.summary
    ensures r.Ok? ==> (r.value.body.Html? <==> entry.media == [])
  {
    var summary := entry.summary;
    var body :-
      if entry.media == [] then
        var text := match entry.content case Some(content) => content case None => None;
        HtmlBody(text, summary)
      else
        MediaBody(entry.media[0]);
    Ok(Item(
      id := entry.id,
      name := entry.title.UnwrapOr(TitlePlaceholder),
      source := entry.source,
      author := AuthorLine(entry.authors),
      description := summary,
      created := entry.published,
      updated := entry.updated,
      viewed := Zero,
      body := body))
  }

  /** The first content item of the first media group, if any. */
  function FirstContent(entry: Entry): Option<MediaContent> {
    if entry.media == [] || entry.media[0].content == [] then None else Some(entry.media[0].content[0])
  }

  /** Without media and without a summary the entry is refused as
      `EmptyBody`, whatever its content holds. */
  lemma TryFromEmptyBody(entry: Entry)
    requires entry.media == [] && entry.summary.None?
    ensures TryFrom(entry) == Err(EmptyBody)
  {
  }

  /** Without media but with a summary the body is text: the content body
      when there is one, the summary otherwise. */
  lemma TryFromHtmlBody(entry: Entry)
    requires entry.media == [] && entry.summary.Some?
    ensures TryFrom(entry).Ok?
    ensures entry.content.Some? && entry.content.value.Some? ==>
      TryFrom(entry).value.body == Html(entry.content.value.value)
    ensures !(entry.content.Some? && entry.content.value.Some?) ==>
      TryFrom(entry).value.body == Html(entry.summary.value)
  {
  }

  /** An empty first media group is refused as `EmptyContent`, even when
      later groups have content. */
  lemma TryFromEmptyContent(entry: Entry)
    requires entry.media != [] && entry.media[0].content == []
    ensures TryFrom(entry) == Err(EmptyContent)
  {
  }

  /** Only the first content item of the first media group matters: two
      entries that differ only in their media and agree on that item are
      classified the same. */
  lemma TryFromFirstMediaOnly(entry: Entry, media: seq<MediaObject>)
    requires entry.media != [] && media != []
    requires FirstContent(entry) == FirstContent(entry.(media := media))
    ensures TryFrom(entry) == TryFrom(entry.(media := media))
  {
  }

  /** The URL is checked before the mime type. */
  lemma TryFromUrlBeforeMime(entry: Entry)
    requires FirstContent(entry).Some?
    ensures FirstContent(entry).value.url.None? ==> TryFrom(entry) == Err(MissingDownloadUrl)
    ensures FirstContent(entry).value.url.Some? && FirstContent(entry).value.contentType.None? ==>
      TryFrom(entry) == Err(UnknownMimeType)
  {
  }

  /** With a URL `u` and mime type `m` the body is decided by `m` alone. */
  lemma TryFromMediaBody(entry: Entry, u: string, m: string)
    requires FirstContent(entry) == Some(MediaContent(Some(u), Some(m)))
    ensures '/' !in m ==> TryFrom(entry) == Err(UnknownMimeType)
    ensures m == FlashMimeType ==> TryFrom(entry).Ok? && TryFrom(entry).value.body == YouTubeLink(u)
    ensures HasPrefix(m, "video/") ==>
      TryFrom(entry).Ok? && TryFrom(entry).value.body == Video(MediaLink(u, m, false))
    ensures HasPrefix(m, "audio/") ==>
      TryFrom(entry).Ok? && TryFrom(entry).value.body == Audio(MediaLink(u, m, false))
    ensures !(m == FlashMimeType || HasPrefix(m, "video/") || HasPrefix(m, "audio/")) ==>
      TryFrom(entry) == Err(UnknownMimeType)
  {
    var payload := MediaLink(u, m, false);
    ClassifyMimeFlash(payload);
    ClassifyMimeVideo(payload);
    ClassifyMimeAudio(payload);
    ClassifyMimeRecognised(payload);
  }

  /** A video or audio attachment carries the first content item's URL and
      mime type verbatim and is not yet downloaded; a text body only comes
      from an entry without media, a YouTube link only from one with media. */
  lemma TryFromPayload(entry: Entry)
    requires TryFrom(entry).Ok?
    ensures TryFrom(entry).value.body.Html? <==> entry.media == []
    ensures TryFrom(entry).value.body.YouTubeLink? ==>
      TryFrom(entry).value.body.link == FirstContent(entry).value.url.value
    ensures TryFrom(entry).value.body.Video? ==>
      TryFrom(entry).value.body.video == MediaLink(FirstContent(entry).value.url.value, FirstContent(entry).value.contentType.value, false)
    ensures TryFrom(entry).value.body.Audio? ==>
      TryFrom(entry).value.body.audio == MediaLink(FirstContent(entry).value.url.value, FirstContent(entry).value.contentType.value, false)
  {
  }

  /** The metadata of a fresh article is copied from the entry, and the
      article starts unviewed. */
  lemma TryFromMetadata(entry: Entry)
    requires TryFrom(entry).Ok?
    ensures TryFrom(entry).value.viewed == Zero
    ensures TryFrom(entry).value.id == entry.id
    ensures TryFrom(entry).value.source == entry.source
    ensures TryFrom(entry).value.created == entry.published
    ensures TryFrom(entry).value.updated == entry.updated
    ensures TryFrom(entry).value.description == entry.summary
  {
  }

  /** The article's name is the title or the placeholder; its author line is
      absent exactly when there are no authors, and otherwise is exactly the
      authors' names, in order, with `", "` between neighbours and nothing
      after the last name. */
  lemma TryFromNameAndAuthor(entry: Entry)
    requires TryFrom(entry).Ok?
    ensures TryFrom(entry).value.name == if entry.title.Some? then entry.title.value else TitlePlaceholder
    ensures TryFrom(entry).value.author.None? <==> entry.authors == []
    ensures entry.authors != [] ==>
      TryFrom(entry).value.author == Some(Join(entry.authors, AuthorSeparator)) &&
      |TryFrom(entry).value.author.value| == TotalLength(entry.authors) + (|entry.authors| - 1) * |AuthorSeparator|
    ensures forall i :: 0 <= i < |entry.authors| ==>
      var line := TryFrom(entry).value.author.value;
      var off := JoinOffset(entry.authors, AuthorSeparator, i);
      off + |entry.authors[i]| <= |line| && line[off..off + |entry.authors[i]|] == entry.authors[i] &&
      (i + 1 < |entry.authors| ==>
         off + |entry.authors[i]| + |AuthorSeparator| <= |line| &&
         line[off + |entry.authors[i]|..off + |entry.authors[i]| + |AuthorSeparator|] == AuthorSeparator)
  {
    forall i | 0 <= i < |entry.authors|
      ensures var line := TryFrom(entry).value.author.value;
        var off := JoinOffset(entry.authors, AuthorSeparator, i);
        off + |entry.authors[i]| <= |line| && line[off..off + |entry.authors[i]|] == entry.authors[i] &&
        (i + 1 < |entry.authors| ==>
           off + |entry.authors[i]| + |AuthorSeparator| <= |line| &&
           line[off + |entry.authors[i]|..off + |entry.authors[i]| + |AuthorSeparator|] == AuthorSeparator)
    {
      JoinAt(entry.authors, AuthorSeparator, i);
    }
  }

  /** The full decision table: which entries become articles and, for the
      others, which error each gets. */
  lemma TryFromOutcome(entry: Entry)
    ensures TryFrom(entry) == Err(EmptyBody) <==> entry.media == [] && entry.summary.None?
    ensures TryFrom(entry) == Err(EmptyContent) <==> entry.media != [] && entry.media[0].content == []
    ensures TryFrom(entry) == Err(MissingDownloadUrl) <==>
      FirstContent(entry).Some? && FirstContent(entry).value.url.None?
    ensures TryFrom(entry) == Err(UnknownMimeType) <==>
      FirstContent(entry).Some? && FirstContent(entry).value.url.Some? &&
      (FirstContent(entry).value.contentType.None? ||
       !RecognisedMime(FirstContent(entry).value.contentType.value))
    ensures TryFrom(entry).Ok? <==>
      (entry.media == [] && entry.summary.Some?) ||
      (FirstContent(entry).Some? && FirstContent(entry).value.url.Some? &&
       FirstContent(entry).value.contentType.Some? && RecognisedMime(FirstContent(entry).value.contentType.value))
  {
    var first := FirstContent(entry);
    if first.Some? && first.value.url.Some? && first.value.contentType.Some? {
      ClassifyMimeRecognised(MediaLink(first.value.url.value, first.value.contentType.value, false));
    }
  }
}
