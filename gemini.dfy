/**
 * The deterministic part of the content-generation service (services/gemini.ts):
 * what each call does with the generator's reply, its fallback records, the
 * video-id extraction, the embed link, the transcript window filter and the
 * overlay-caption chunking. The generator itself and `JSON.parse` are outside
 * the model: each reply arrives already parsed, as a `Reply`.
 */
module Gemini {
  import opened Wrappers
  import opened Types
  import opened Text

  /** A generator reply: its parsed text, no text at all, or a thrown error (request or parse). */
  datatype Reply<T> = Parsed(value: T) | NoText | Failed

  /** The parts of `new URL(url)` that `extractVideoId` reads; `v` is `searchParams.get("v")`. */
  datatype UrlParts = UrlParts(hostname: string, pathname: string, v: Option<string>)

  const DefaultVideoId := "dQw4w9WgXcQ"

  /**
   * `extractVideoId`; `url` is None when `new URL` throws. The id is the `v`
   * parameter, else the path of a youtu.be link without its '/', else the path
   * segment after "/shorts/", and the default id whenever that is empty.
   */
  function ExtractVideoId(url: Option<UrlParts>): (id: string)
    ensures id != ""
    ensures url.None? ==> id == DefaultVideoId
    ensures url.Some? && Truthy(url.value.v) ==> id == url.value.v.value
    ensures url.Some? && !Truthy(url.value.v) && Contains(url.value.hostname, "youtu.be") ==>
      id == if |url.value.pathname| > 1 then url.value.pathname[1..] else DefaultVideoId
    ensures (url.Some? && !Truthy(url.value.v) && !Contains(url.value.hostname, "youtu.be")
             && Contains(url.value.pathname, "/shorts/")) ==>
      var seg := SecondPiece(url.value.pathname, "/shorts/"); id == if seg != "" then seg else DefaultVideoId
    ensures (url.Some? && !Truthy(url.value.v) && !Contains(url.value.hostname, "youtu.be")
             && !Contains(url.value.pathname, "/shorts/")) ==> id == DefaultVideoId
  {
    match url
    case None => DefaultVideoId
    case Some(u) =>
      var candidate :=
        if Truthy(u.v) then u.v.value
        else if Contains(u.hostname, "youtu.be") then (if |u.pathname| > 0 then u.pathname[1..] else "")
        else if Contains(u.pathname, "/shorts/") then SecondPiece(u.pathname, "/shorts/")
        else "";
      if candidate != "" then candidate else DefaultVideoId
  }

  /** A watch link, a youtu.be link and a shorts link built from an id all give that id back. */
  lemma ExtractVideoIdRoundTrip(id: string, host: string)
    requires id != "" && !Contains(id, "/shorts/")
    requires !Contains(host, "youtu.be")
    ensures ExtractVideoId(Some(UrlParts(host, "/watch", Some(id)))) == id
    ensures ExtractVideoId(Some(UrlParts("youtu.be", "/" + id, None))) == id
    ensures ExtractVideoId(Some(UrlParts(host, "/shorts/" + id, None))) == id
  {
    assert OccursAt("youtu.be", "youtu.be", 0);
    var p := "/shorts/" + id;
    assert OccursAt(p, "/shorts/", 0);
    assert p[8..] == id;
  }

  function ThumbnailUrl(videoId: string): string {
    "https://img.youtube.com/vi/" + videoId + "/maxresdefault.jpg"
  }

  /** `fetchMockMetadata`: on every path the id is the extracted one and the thumbnail is derived from it. */
  function FetchMockMetadata(url: Option<UrlParts>, reply: Reply<VideoMetadata>): (md: VideoMetadata)
    ensures md.id == ExtractVideoId(url) && md.thumbnailUrl == ThumbnailUrl(md.id)
    ensures reply.Parsed? ==> md == reply.value.(id := md.id, thumbnailUrl := md.thumbnailUrl)
    ensures !reply.Parsed? ==>
      && md.title == "Video Title Not Found" && md.description == "Description unavailable."
      && md.duration == "10:00" && md.channelTitle == "Unknown Channel" && md.viewCount == "0"
  {
    var videoId := ExtractVideoId(url);
    match reply
    case Parsed(data) => data.(id := videoId, thumbnailUrl := ThumbnailUrl(videoId))
    case _ => VideoMetadata(videoId, "Video Title Not Found", "Description unavailable.", "10:00",
                            ThumbnailUrl(videoId), "Unknown Channel", "0")
  }

  /** `generateThumbnail`: the stored thumbnail, which for fetched metadata is the one of its video id. */
  function GenerateThumbnail(md: VideoMetadata): (r: string)
    ensures r == md.thumbnailUrl
  {
    md.thumbnailUrl
  }

  /** The thumbnail of fetched metadata is the still image of the extracted video id. */
  lemma ThumbnailOfFetched(url: Option<UrlParts>, reply: Reply<VideoMetadata>)
    ensures GenerateThumbnail(FetchMockMetadata(url, reply)) == ThumbnailUrl(ExtractVideoId(url))
  {
  }

  /** The placeholder transcript of a failed request: five lines, line i spanning [5i, 5i+4]. */
  function FallbackTranscript(lang: Language): (r: seq<SubtitleItem>)
    ensures |r| == 5
    ensures forall i :: 0 <= i < 5 ==> r[i].start == 5.0 * i as real && r[i].end == r[i].start + 4.0
  {
    var prefix := if lang == Ko then "자막 테스트 라인 " else "Subtitle test line ";
    seq(5, i requires 0 <= i < 5 => SubtitleItem(5.0 * i as real, 5.0 * i as real + 4.0, prefix + NatToDecimal(i + 1)))
  }

  /** The placeholder lines are in ascending order and do not overlap. */
  lemma FallbackTranscriptOrdered(lang: Language)
    ensures var r := FallbackTranscript(lang);
      forall i, j :: 0 <= i < j < 5 ==> r[i].start < r[i].end < r[j].start
  {
  }

  /** `generateMockTranscript`. */
  function GenerateMockTranscript(lang: Language, reply: Reply<seq<SubtitleItem>>): (r: seq<SubtitleItem>)
    ensures reply.Parsed? ==> r == reply.value
    ensures reply.NoText? ==> r == []
    ensures reply.Failed? ==> r == FallbackTranscript(lang)
  {
    match reply
    case Parsed(items) => items
    case NoText => []
    case Failed => FallbackTranscript(lang)
  }

  /** `generateHighlights`: without a parsed reply, one window [0, 30]. */
  function GenerateHighlights(reply: Reply<seq<HighlightSegment>>): (r: seq<HighlightSegment>)
    ensures reply.Parsed? ==> r == reply.value
    ensures !reply.Parsed? ==> |r| == 1 && r[0].start == 0.0 && r[0].end == 30.0
  {
    match reply
    case Parsed(hs) => hs
    case NoText => [HighlightSegment(0.0, 30.0, "Default start")]
    case Failed => [HighlightSegment(0.0, 30.0, "Fallback")]
  }

  predicate InWindow(h: HighlightSegment, s: SubtitleItem) {
    s.start >= h.start && s.end <= h.end
  }

  /** The transcript lines inside the highlight window, in their original order. */
  function Within(h: HighlightSegment, subs: seq<SubtitleItem>): (r: seq<SubtitleItem>)
    ensures |r| <= |subs|
  {
    if |subs| == 0 then []
    else (if InWindow(h, subs[0]) then [subs[0]] else []) + Within(h, subs[1..])
  }

  /** The filter keeps exactly the transcript lines inside the window. */
  lemma {:induction false} WithinMembers(h: HighlightSegment, subs: seq<SubtitleItem>)
    ensures forall k :: 0 <= k < |Within(h, subs)| ==> Within(h, subs)[k] in subs && InWindow(h, Within(h, subs)[k])
    ensures forall k :: 0 <= k < |subs| && InWindow(h, subs[k]) ==> subs[k] in Within(h, subs)
  {
    if |subs| > 0 {
      var r, rest := Within(h, subs), Within(h, subs[1..]);
      WithinMembers(h, subs[1..]);
      forall k | 0 <= k < |r| ensures r[k] in subs && InWindow(h, r[k]) {
        if InWindow(h, subs[0]) {
          if k > 0 {
            assert r[k] == rest[k - 1];
          }
        } else {
          assert r[k] == rest[k];
        }
      }
      forall k | 0 <= k < |subs| && InWindow(h, subs[k]) ensures subs[k] in r {
        if k > 0 {
          assert subs[k] == subs[1..][k - 1];
        }
      }
    }
  }

  /** Filtering keeps order: the filter of a concatenation is the concatenation of the filters. */
  lemma {:induction false} WithinAppend(h: HighlightSegment, a: seq<SubtitleItem>, b: seq<SubtitleItem>)
    ensures Within(h, a + b) == Within(h, a) + Within(h, b)
  {
    if |a| > 0 {
      assert (a + b)[0] == a[0];
      assert (a + b)[1..] == a[1..] + b;
      WithinAppend(h, a[1..], b);
      var head := if InWindow(h, a[0]) then [a[0]] else [];
      calc {
        Within(h, a + b);
        head + Within(h, a[1..] + b);
        head + (Within(h, a[1..]) + Within(h, b));
        (head + Within(h, a[1..])) + Within(h, b);
      }
    } else {
      assert a + b == b;
    }
  }

  function Texts(subs: seq<SubtitleItem>): (r: seq<string>)
    ensures |r| == |subs| && forall k :: 0 <= k < |subs| ==> r[k] == subs[k].text
  {
    if |subs| == 0 then [] else [subs[0].text] + Texts(subs[1..])
  }

  /** The transcript text `generateVoiceScript` puts in its request: the window's lines joined by spaces. */
  function RelevantText(h: HighlightSegment, subs: seq<SubtitleItem>): (r: string)
    ensures Within(h, subs) == [] ==> r == ""
    ensures |Within(h, subs)| == 1 ==> r == Within(h, subs)[0].text
  {
    Join(Texts(Within(h, subs)), ' ')
  }

  /**
   * The relevant text of two parts of a transcript, each with a line inside
   * the window, is the first part's text, a space, and the second part's.
   */
  lemma RelevantTextAppend(h: HighlightSegment, a: seq<SubtitleItem>, b: seq<SubtitleItem>)
    requires Within(h, a) != [] && Within(h, b) != []
    ensures RelevantText(h, a + b) == RelevantText(h, a) + " " + RelevantText(h, b)
  {
    WithinAppend(h, a, b);
    TextsAppend(Within(h, a), Within(h, b));
    JoinAppend(Texts(Within(h, a)), Texts(Within(h, b)), ' ');
  }

  lemma TextsAppend(a: seq<SubtitleItem>, b: seq<SubtitleItem>)
    ensures Texts(a + b) == Texts(a) + Texts(b)
  {
    var l, r := Texts(a + b), Texts(a) + Texts(b);
    assert |l| == |r|;
    forall k | 0 <= k < |l| ensures l[k] == r[k] {
      if k < |a| {
        assert (a + b)[k] == a[k];
      } else {
        assert (a + b)[k] == b[k - |a|];
      }
    }
  }

  /** `generateVoiceScript`: the reply text, a language-specific line when it is empty, "" when the request fails. */
  function GenerateVoiceScript(lang: Language, reply: Reply<string>): (r: string)
    ensures reply.Parsed? && reply.value != "" ==> r == reply.value
    ensures reply.NoText? || reply == Parsed("") ==> r == VoiceFallback(lang)
    ensures reply.Failed? <==> r == ""
  {
    match reply
    case Parsed(s) => if s != "" then s else VoiceFallback(lang)
    case NoText => VoiceFallback(lang)
    case Failed => ""
  }

  function VoiceFallback(lang: Language): (r: string)
    ensures r != ""
  {
    if lang == Ko then "이 장면은 정말 놀랍습니다. 확인해보세요!" else "This scene is amazing. Check it out!"
  }

  /** `Math.floor(h.start)` and `Math.ceil(h.end)`: the smallest whole-second window around the highlight. */
  function ClipBounds(h: HighlightSegment): (r: (int, int))
    ensures r.0 as real <= h.start < r.0 as real + 1.0
    ensures r.1 as real - 1.0 < h.end <= r.1 as real
    ensures h.start <= h.end ==> r.0 <= r.1
  {
    (h.start.Floor, -((-h.end).Floor))
  }

  const EmbedPrefix := "https://www.youtube.com/embed/"
  const PlaylistKey := "&playlist="
  const ClipFlags := "&autoplay=1&mute=1&rel=0&modestbranding=1&controls=0&loop=1"

  /**
   * `generateEditedClip`: the embed link for the first highlight, None where
   * the source reads `highlights[0]` of an empty list and throws.
   */
  function GenerateEditedClip(videoId: string, highlights: seq<HighlightSegment>): (r: Option<string>)
    ensures r.Some? <==> |highlights| > 0
    ensures r.Some? ==> r.value == EmbedLink(videoId, ClipBounds(highlights[0]).0, ClipBounds(highlights[0]).1)
  {
    if |highlights| == 0 then None
    else Some(EmbedLink(videoId, ClipBounds(highlights[0]).0, ClipBounds(highlights[0]).1))
  }

  /**
   * The embed link of a video playing from `start` to `end` seconds, muted,
   * without controls and looping over itself: it starts with the embed path
   * of the id and ends with `&playlist=<id>`.
   */
  function EmbedLink(videoId: string, start: int, end: int): (url: string)
    ensures EmbedPrefix + videoId <= url
    ensures |PlaylistKey + videoId| <= |url| && url[|url| - |PlaylistKey + videoId|..] == PlaylistKey + videoId
  {
    var query := "?start=" + IntToDecimal(start) + "&end=" + IntToDecimal(end) + ClipFlags;
    Framed(EmbedPrefix + videoId, query, PlaylistKey + videoId);
    (EmbedPrefix + videoId) + query + (PlaylistKey + videoId)
  }

  /** Only the first highlight shapes the link: the rest of the list is ignored. */
  lemma EditedClipFirstOnly(videoId: string, highlights: seq<HighlightSegment>)
    requires |highlights| > 0
    ensures GenerateEditedClip(videoId, highlights) == GenerateEditedClip(videoId, highlights[..1])
  {
  }

  /**
   * For a highlight inside the source video, the link's start and end read
   * back as whole seconds that contain the highlight.
   */
  lemma EditedClipWindow(videoId: string, highlights: seq<HighlightSegment>)
    requires |highlights| > 0 && 0.0 <= highlights[0].start <= highlights[0].end
    ensures var (s, e) := ClipBounds(highlights[0]);
      && 0 <= s <= e
      && GenerateEditedClip(videoId, highlights) == Some(EmbedLink(videoId, s, e))
      && IntToDecimal(s) == NatToDecimal(s) && IntToDecimal(e) == NatToDecimal(e)
      && DecimalValue(NatToDecimal(s)) as real <= highlights[0].start < DecimalValue(NatToDecimal(s)) as real + 1.0
      && DecimalValue(NatToDecimal(e)) as real - 1.0 < highlights[0].end <= DecimalValue(NatToDecimal(e)) as real
  {
    var (s, e) := ClipBounds(highlights[0]);
    DecimalRoundTrip(s);
    DecimalRoundTrip(e);
  }

  /** A string built as head, middle, tail starts with the head and ends with the tail. */
  lemma Framed(head: string, mid: string, tail: string)
    ensures head <= head + mid + tail
    ensures |tail| <= |head + mid + tail| && (head + mid + tail)[|head + mid + tail| - |tail|..] == tail
  {
    var s := head + mid + tail;
    assert s == head + (mid + tail);
    assert s[|s| - |tail|..] == tail;
  }

  const SeoFallback := SeoData("Check this out!", "Amazing clip.", ["shorts"], "Wow!", ["video"], "WOW")

  /** `generateSeoData`: the parsed reply, else the fixed fallback record. */
  function GenerateSeoData(reply: Reply<SeoData>): (r: SeoData)
    ensures reply.Parsed? ==> r == reply.value
    ensures !reply.Parsed? ==> r == SeoFallback
  {
    if reply.Parsed? then reply.value else SeoFallback
  }

  /** A comment as the generator returns it (the fields its response schema requires). */
  datatype RawComment = RawComment(author: string, text: string, likes: int, sentiment: Sentiment)

  function CommentId(i: nat): string {
    "cm_" + NatToDecimal(i)
  }

  /** Positions give distinct comment ids. */
  lemma CommentIdsDistinct(i: nat, j: nat)
    requires i != j
    ensures CommentId(i) != CommentId(j)
  {
    if CommentId(i) == CommentId(j) {
      assert NatToDecimal(i) == CommentId(i)[3..];
      assert NatToDecimal(j) == CommentId(j)[3..];
      DecimalRoundTrip(i);
      DecimalRoundTrip(j);
    }
  }

  function AvatarUrl(author: string): string {
    "https://api.dicebear.com/9.x/avataaars/svg?seed=" + author
  }

  /**
   * `generateMockComments`: comment i gets id `cm_i`, no reply and
   * `isReplied == false`; no comments without a parsed reply. `stamp` stands
   * for the random "<n>h ago" timestamps.
   */
  function GenerateMockComments(reply: Reply<seq<RawComment>>, stamp: nat -> string): (r: seq<Comment>)
    ensures !reply.Parsed? ==> r == []
    ensures reply.Parsed? ==> |r| == |reply.value| && forall i :: 0 <= i < |r| ==>
      && r[i].id == CommentId(i) && r[i].reply.None? && !r[i].isReplied
      && r[i].author == reply.value[i].author && r[i].text == reply.value[i].text
      && r[i].likes == reply.value[i].likes && r[i].sentiment == reply.value[i].sentiment
  {
    match reply
    case Parsed(raw) =>
      seq(|raw|, i requires 0 <= i < |raw| =>
        Comment(CommentId(i), raw[i].author, AvatarUrl(raw[i].author), raw[i].text, stamp(i),
                raw[i].likes, raw[i].sentiment, None, false))
    case _ => []
  }

  /** `generateAICommentReply`: never empty. */
  function GenerateCommentReply(lang: Language, reply: Reply<string>): (r: string)
    ensures r != ""
    ensures reply.Parsed? && reply.value != "" ==> r == reply.value
    ensures reply.NoText? || reply == Parsed("") ==> r == ReplyFallback(lang)
    ensures reply.Failed? ==> r == "Thanks!"
  {
    match reply
    case Parsed(s) => if s != "" then s else ReplyFallback(lang)
    case NoText => ReplyFallback(lang)
    case Failed => "Thanks!"
  }

  function ReplyFallback(lang: Language): (r: string)
    ensures r != ""
  {
    if lang == Ko then "감사합니다! 🔥" else "Thanks for watching! 🔥"
  }

  /** Overlay captions hold up to this many words. */
  const WordsPerCaption := 5

  /** The words in consecutive groups of five, the last group holding the one to five left over. */
  function Groups(words: seq<string>): (r: seq<seq<string>>)
    ensures |words| > 0 ==> |r| >= 1
    ensures forall k :: 0 <= k < |r| ==> 1 <= |r[k]| <= WordsPerCaption
    ensures forall k :: 0 <= k < |r| - 1 ==> |r[k]| == WordsPerCaption
    decreases |words|
  {
    if |words| == 0 then []
    else if |words| <= WordsPerCaption then [words]
    else [words[..WordsPerCaption]] + Groups(words[WordsPerCaption..])
  }

  function Flatten(gs: seq<seq<string>>): seq<string> {
    if |gs| == 0 then [] else gs[0] + Flatten(gs[1..])
  }

  /** Grouping keeps every word, in order. */
  lemma {:induction false} GroupsFlatten(words: seq<string>)
    ensures Flatten(Groups(words)) == words
    decreases |words|
  {
    if |words| > WordsPerCaption {
      GroupsFlatten(words[WordsPerCaption..]);
      assert words == words[..WordsPerCaption] + words[WordsPerCaption..];
    }
  }

  /** Grouping a list whose length is a multiple of five, followed by more words, groups the two parts apart. */
  lemma {:induction false} GroupsAppend(a: seq<string>, b: seq<string>)
    requires |a| % WordsPerCaption == 0
    ensures Groups(a + b) == Groups(a) + Groups(b)
    decreases |a|
  {
    if |a| == 0 {
      assert a + b == b;
    } else if |a + b| <= WordsPerCaption {
      assert a + b == a && b == [];
    } else {
      assert (a + b)[..WordsPerCaption] == a[..WordsPerCaption];
      assert (a + b)[WordsPerCaption..] == a[WordsPerCaption..] + b;
      GroupsAppend(a[WordsPerCaption..], b);
      if |a| == WordsPerCaption {
        assert a[WordsPerCaption..] == [];
      }
    }
  }

  /** Each group joined into one caption text with single spaces. */
  function JoinGroups(gs: seq<seq<string>>): (r: seq<string>)
    ensures |r| == |gs| && forall k :: 0 <= k < |gs| ==> r[k] == Join(gs[k], ' ')
  {
    seq(|gs|, k requires 0 <= k < |gs| => Join(gs[k], ' '))
  }

  /** Joining the caption texts gives the join of all the words. */
  lemma {:induction false} JoinGroupsFlatten(gs: seq<seq<string>>)
    requires |gs| >= 1
    requires forall k :: 0 <= k < |gs| ==> |gs[k]| >= 1
    ensures Join(JoinGroups(gs), ' ') == Join(Flatten(gs), ' ')
  {
    if |gs| == 1 {
      assert Flatten(gs) == gs[0] + [];
      assert gs[0] + [] == gs[0];
    } else {
      JoinGroupsFlatten(gs[1..]);
      FlattenNonEmpty(gs[1..]);
      JoinAppend(gs[0], Flatten(gs[1..]), ' ');
      assert JoinGroups(gs)[1..] == JoinGroups(gs[1..]);
    }
  }

  lemma {:induction false} FlattenNonEmpty(gs: seq<seq<string>>)
    requires |gs| >= 1 && |gs[0]| >= 1
    ensures |Flatten(gs)| >= 1
  {
  }

  /** The caption texts of a script: its space-separated words in groups of five. */
  function ChunkTexts(script: string): (r: seq<string>)
    ensures |r| >= 1
  {
    JoinGroups(Groups(Split(script, ' ')))
  }

  /** The i-th boundary of a division into steps of length `step`. */
  function Mark(i: nat, step: real): real {
    i as real * step
  }

  /** Caption i of n spans [i*d/n, (i+1)*d/n]. */
  function Timed(texts: seq<string>, duration: real): (r: seq<SubtitleItem>)
    requires |texts| >= 1
    ensures |r| == |texts|
    ensures forall i :: 0 <= i < |r| ==>
      && r[i].text == texts[i]
      && r[i].start == Mark(i, duration / |texts| as real)
      && r[i].end == Mark(i + 1, duration / |texts| as real)
  {
    var step := duration / |texts| as real;
    seq(|texts|, i requires 0 <= i < |texts| => SubtitleItem(Mark(i, step), Mark(i + 1, step), texts[i]))
  }

  /** The overlay captions `generateOverlaySubtitles` produces for a script and a duration. */
  function OverlaySubtitles(script: string, duration: real): seq<SubtitleItem> {
    Timed(ChunkTexts(script), duration)
  }

  /**
   * The chunking loop of `generateOverlaySubtitles`: pushes the words one by
   * one into a chunk, flushing it as a caption text at five words and once
   * more at the end.
   */
  method CollectChunks(words: seq<string>) returns (chunks: seq<string>)
    ensures chunks == JoinGroups(Groups(words))
  {
    chunks := [];
    var chunk: seq<string> := [];
    ghost var flushed := 0;
    for i := 0 to |words|
      invariant flushed % WordsPerCaption == 0 && flushed <= i < flushed + WordsPerCaption
      invariant chunk == words[flushed..i]
      invariant chunks == JoinGroups(Groups(words[..flushed]))
    {
      chunk := chunk + [words[i]];
      assert chunk == words[flushed..i + 1];
      if |chunk| >= WordsPerCaption {
        GroupsExtend(words, flushed, i + 1);
        chunks := chunks + [Join(chunk, ' ')];
        chunk := [];
        flushed := i + 1;
      }
    }
    if |chunk| > 0 {
      GroupsExtend(words, flushed, |words|);
      chunks := chunks + [Join(chunk, ' ')];
    }
    assert words[..|words|] == words;
  }

  /**
   * `generateOverlaySubtitles`: the script's words are collected into caption
   * texts, which are then spread evenly over `duration`.
   */
  method GenerateOverlaySubtitles(script: string, duration: real) returns (subs: seq<SubtitleItem>)
    ensures subs == OverlaySubtitles(script, duration)
  {
    var words := Split(script, ' ');
    var chunks := CollectChunks(words);
    assert chunks == ChunkTexts(script);
    var step := duration / |chunks| as real;
    subs := seq(|chunks|, i requires 0 <= i < |chunks| => SubtitleItem(Mark(i, step), Mark(i + 1, step), chunks[i]));
  }

  /** Grouping a prefix that adds up to five words to a whole number of groups adds one caption text. */
  lemma GroupsExtend(words: seq<string>, done: nat, upTo: nat)
    requires done % WordsPerCaption == 0 && done < upTo <= done + WordsPerCaption && upTo <= |words|
    ensures JoinGroups(Groups(words[..upTo])) == JoinGroups(Groups(words[..done])) + [Join(words[done..upTo], ' ')]
  {
    var chunk := words[done..upTo];
    GroupsAppend(words[..done], chunk);
    assert words[..upTo] == words[..done] + chunk;
    JoinGroupsAppend(Groups(words[..done]), Groups(chunk));
  }

  lemma JoinGroupsAppend(a: seq<seq<string>>, b: seq<seq<string>>)
    ensures JoinGroups(a + b) == JoinGroups(a) + JoinGroups(b)
  {
    var l, r := JoinGroups(a + b), JoinGroups(a) + JoinGroups(b);
    forall k | 0 <= k < |l| ensures l[k] == r[k] {
      if k < |a| {
        assert (a + b)[k] == a[k];
      } else {
        assert (a + b)[k] == b[k - |a|];
      }
    }
  }


  /** Joining the overlay caption texts with single spaces gives back the script. */
  lemma OverlayTextRoundTrip(script: string, duration: real)
    ensures Join(Texts(OverlaySubtitles(script, duration)), ' ') == script
  {
    var words := Split(script, ' ');
    var subs := OverlaySubtitles(script, duration);
    assert Texts(subs) == ChunkTexts(script);
    JoinGroupsFlatten(Groups(words));
    GroupsFlatten(words);
    JoinSplit(script, ' ');
  }

  /**
   * Captions that tile [0, duration]: the first starts at 0, the last ends at
   * `duration`, neighbours share their boundary, none runs backwards.
   */
  predicate Tiles(subs: seq<SubtitleItem>, duration: real) {
    && |subs| >= 1
    && subs[0].start == 0.0
    && subs[|subs| - 1].end == duration
    && (forall k :: 0 <= k < |subs| - 1 ==> subs[k].end == subs[k + 1].start)
    && (forall k :: 0 <= k < |subs| ==> subs[k].start <= subs[k].end)
  }

  /** For a non-negative duration the overlay captions tile [0, duration]. */
  lemma OverlayTiles(script: string, duration: real)
    requires duration >= 0.0
    ensures Tiles(OverlaySubtitles(script, duration), duration)
  {
    TimedTiles(ChunkTexts(script), duration);
  }

  /** Captions spread evenly over a non-negative duration tile it. */
  lemma TimedTiles(texts: seq<string>, duration: real)
    requires |texts| >= 1 && duration >= 0.0
    ensures Tiles(Timed(texts, duration), duration)
  {
    var subs := Timed(texts, duration);
    var n := |subs|;
    var step := duration / n as real;
    EvenSplit(n, duration);
    assert subs[0].start == Mark(0, step) == 0.0;
    assert subs[n - 1].end == Mark(n, step) == duration;
    forall k | 0 <= k < n ensures subs[k].start <= subs[k].end {
      StepGrows(k, step);
    }
  }

  /** Dividing `d` into `n` equal steps: the steps are non-negative for non-negative `d` and add up to `d`. */
  lemma EvenSplit(n: nat, d: real)
    requires n >= 1
    ensures d >= 0.0 ==> d / n as real >= 0.0
    ensures n as real * (d / n as real) == d
  {
  }

  lemma StepGrows(k: nat, step: real)
    requires step >= 0.0
    ensures Mark(k, step) <= Mark(k + 1, step)
  {
    assert (k + 1) as real * step == k as real * step + step;
  }
}
