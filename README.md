# lipu entry classifier, in Dafny

lipu is a feed reader. Its one piece of decision logic is the conversion of a
parsed syndication entry into an article (`impl TryFrom<feed_rs::model::Entry>
for Item`, `src/lib.rs`). The conversion picks the article's body and fills
in its metadata, or refuses the entry with one of four `ArticleCreationError`
values.

The body is chosen like this:

- **Entry without media.** The body is HTML text: the entry's content body
  if it has one, else its summary.
- **Entry with media.** Only the first content item of the first media
  group counts. It must have a URL and a mime type. The mime type is split
  at its first `/`. `application/x-shockwave-flash` gives a YouTube link,
  `video/*` a video, `audio/*` an audio attachment. Anything else is
  refused.

The rest of the article is filled in from the entry:

- the title becomes the name, or `"??"` if there is no title;
- the authors' names are joined with `", "`, or left absent if there are none;
- the summary becomes the description;
- the published and updated timestamps are copied;
- viewing progress starts at `Zero`.

The project has three modules:

- `wrappers.dfy`: `Option`/`Result` with Rust's `ok_or` and `unwrap_or`.
  `:-` stands for Rust's `?`.
- `strings.dfy`: `SplitOnce` (Rust's `str::split_once`) and `Join` (Rust's
  `join`), with their uniqueness, layout and ordering lemmas.
- `lipu.dfy`: the entry and article datatypes, the classifier `TryFrom` (with
  its parts `HtmlBody`, `MediaBody`, `ClassifyMime`, `AuthorLine`), and the
  lemmas stating its behaviour.

Everything is pure. The classifier is a function, and its properties are
lemmas about it.

### Shapes and evaluation order

- The declared `Item`, `Metadata` and `Body` types (`src/lib.rs:32-57`) do not
  match what `try_from` builds. `try_from` builds a flat record and the bodies
  `Html`, `YouTubeLink`, `Video` and `Audio`, and it uses a `MediaLink` type
  that is never declared. The model uses the shapes that `try_from` builds.
- In `text.unwrap_or(summary.clone().ok_or(EmptyBody)?)` (`src/lib.rs:88`)
  the argument of `unwrap_or` is evaluated first. So a missing summary gives
  `EmptyBody` even when the content has text. `HtmlBody` looks at the summary
  first for this reason, and `TryFromEmptyBody` states the behaviour.

## Model

| member | source | states |
|---|---|---|
| Lipu.TryFrom | src/lib.rs:76-155 | an error without media is always `EmptyBody`, an error with media is one of the other three; a success starts at `Zero`, copies `id` and the summary, and has an `Html` body exactly when there is no media (full decision table in `TryFromOutcome`) |
| Lipu.HtmlBody | src/lib.rs:82-88 | fails, with `EmptyBody`, exactly when the summary is absent, whatever the text; otherwise the body is the text if present, else the summary |
| Lipu.MediaBody | src/lib.rs:89-113 | `EmptyContent` exactly when the group has no items, `MissingDownloadUrl` exactly when the first item has no URL, `UnknownMimeType` when it has a URL but no mime type, and otherwise the mime classification of that URL and mime type with `downloaded == false` |
| Lipu.ClassifyMime | src/lib.rs:115-124 | a mime type without `/` is `UnknownMimeType`, every error is `UnknownMimeType`, and a success is a YouTube link to the URL or a video or audio carrying the link unchanged (which one, by the `ClassifyMime*` lemmas) |
| Lipu.AuthorLine | src/lib.rs:134-147 | absent exactly when there are no authors; otherwise it starts with the first name and its length is the names' total length plus one `", "` between each pair of neighbours |
| Strings.SplitOnce | src/lib.rs:115-118 | the result is absent exactly when the mime type has no `/`; when present, it is the text before and after the first `/`, and they concatenate back to the whole string |
| Strings.SplitOnceUnique | src/lib.rs:115-118 | any split `before + "/" + after` with no `/` in `before` is the one `split_once` returns (the split is unique) |
| Strings.SplitOnceKind | src/lib.rs:115-122 | the part before the first `/` equals a `/`-free kind exactly when the string starts with that kind followed by `/` |
| Strings.Join | src/lib.rs:138-143 | joining no names gives the empty string; otherwise the length is the total of the names' lengths plus one separator between each pair of neighbours |
| Strings.JoinAppend | src/lib.rs:138-143 | joining one more name appends the separator and that name |
| Strings.JoinAt | src/lib.rs:138-143 | the i-th name appears unchanged at its offset in the joined string and is followed by the separator unless it is last, so the names keep their order |
| Lipu.FlashSplit | src/lib.rs:120 | the Flash mime type splits into `application` and `x-shockwave-flash` |
| Lipu.ClassifyMimeFlash | src/lib.rs:115-120 | the body is a YouTube link to the media URL exactly when the mime type is `application/x-shockwave-flash` |
| Lipu.ClassifyMimeVideo | src/lib.rs:115-121 | the body is a video carrying the media link unchanged exactly when the mime type starts with `video/` |
| Lipu.ClassifyMimeAudio | src/lib.rs:115-122 | the body is audio carrying the media link unchanged exactly when the mime type starts with `audio/` |
| Lipu.ClassifyMimeRecognised | src/lib.rs:115-124 | classification succeeds exactly for the three recognised mime types; any other type, including one without `/`, is `UnknownMimeType` |
| Lipu.TryFromEmptyBody | src/lib.rs:82-88 | an entry with no media and no summary is `Err(EmptyBody)` whatever its content holds |
| Lipu.TryFromHtmlBody | src/lib.rs:77-88 | an entry with no media and a summary succeeds with an `Html` body equal to the content body if present, else to the summary |
| Lipu.TryFromEmptyContent | src/lib.rs:89-101 | an empty first media group is `Err(EmptyContent)` even when later groups have items |
| Lipu.TryFromFirstMediaOnly | src/lib.rs:90-101 | replacing the media groups by others with the same first content item does not change the result |
| Lipu.TryFromUrlBeforeMime | src/lib.rs:103-111 | a missing URL is `Err(MissingDownloadUrl)` even when the mime type is also missing; a URL without a mime type is `Err(UnknownMimeType)` |
| Lipu.TryFromMediaBody | src/lib.rs:103-124 | given a URL and a mime type: no `/` is `UnknownMimeType`, Flash is `YouTubeLink(url)`, `video/` is a `Video` and `audio/` an `Audio` with that URL and mime type and `downloaded == false`, anything else is `UnknownMimeType` |
| Lipu.TryFromPayload | src/lib.rs:82-124 | on success the body is `Html` exactly when the entry has no media; a YouTube link, video or audio carries the first content item's URL (and mime type) verbatim, not downloaded |
| Lipu.TryFromMetadata | src/lib.rs:127-151 | on success the article starts at `Zero`, and `id`, `source`, `created` (published), `updated` and `description` (summary) are copied from the entry |
| Lipu.TryFromNameAndAuthor | src/lib.rs:129-147 | on success the name is the title or `"??"`; the author is absent exactly when there are no authors, and otherwise equals the names joined with `", "`: every name in order at its offset, `", "` after every name but the last, and length equal to the names' total plus the separators, so nothing else is in the line |
| Lipu.TryFromOutcome | src/lib.rs:76-155 | the full decision table: each of the four errors happens exactly under its condition, and the entry becomes an article exactly when it has no media and a summary, or its first media item has a URL and a recognised mime type |

## Left out

- The `LipuInterface` trait and its empty implementation for `Lipu`
  (`src/lib.rs:5-30`) are not modelled. They declare feed management,
  refresh, listing, search, tags, loading, setting progress and downloading,
  but every method is a signature without a body, so there is no behaviour
  to model.
- The declared `Item`/`Metadata` layout and `Body::DownloadLink`/`Body::File`
  (`src/lib.rs:32-57`) are not modelled, because `try_from` never produces
  them.
- Fetching, feed parsing, merging progress across refreshes and sorting by
  recency are not modelled. `src/lib.rs` has no code for any of them.
- The `feed_rs` entry types are reduced to what the classifier reads. Text
  values become their text, people become their names, and a content element
  becomes its optional body.
- URLs and mime types are plain strings, and `to_string()` on them is taken
  to be the identity. The `mime` crate's normalisation of a mime type when it
  is formatted is not modelled.
- Timestamps are opaque optional integers, because they are only copied. The
  `chrono` types are not modelled.
- `ViewingProgress` counters are unbounded naturals rather than `usize`.
  Classification only ever produces `Zero`.
- The `expect` at `src/lib.rs:94` is not modelled. It cannot fire, because
  that branch runs only when the media list is non-empty, so the model takes
  `media[0]` there.
