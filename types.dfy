/**
 * The shared records and enumerations of the clip pipeline (types.ts).
 * Numbers that may be fractional (caption and highlight offsets) are `real`;
 * `T | null` and optional fields are `Option<T>`.
 */
module Types {
  import opened Wrappers

  /** The two display languages ('en' | 'ko'). */
  datatype Language = En | Ko

  /** Overall run status of the pipeline. */
  datatype PipelineStatus = Idle | Running | Completed | Error

  /** Lifecycle of one step. `Skipped` is declared by the source but never assigned. */
  datatype StepStatus = Pending | Active | Completed | Error | Skipped

  /** One trackable unit of work: its display strings (`label` is `labelText` here, `label` being a Dafny keyword) and its log lines. */
  datatype Step = Step(id: string, labelText: string, description: string, status: StepStatus, logs: seq<string>)

  /** A timed line of text; nothing forces `start <= end`. */
  datatype SubtitleItem = SubtitleItem(start: real, end: real, text: string)

  /** The chosen window of the source video, in seconds; nothing forces `start <= end`. */
  datatype HighlightSegment = HighlightSegment(start: real, end: real, reason: string)

  datatype VideoMetadata = VideoMetadata(
    id: string, title: string, description: string, duration: string,
    thumbnailUrl: string, channelTitle: string, viewCount: string)

  datatype SeoData = SeoData(
    title: string, description: string, tags: seq<string>, commentText: string,
    metaKeywords: seq<string>, thumbnailText: string)

  datatype StageBResult = StageBResult(
    highlights: seq<HighlightSegment>, thumbnails: seq<string>, productSummaries: seq<string>,
    seo: SeoData, generatedVideoUrl: string, generatedScript: string,
    overlaySubtitles: seq<SubtitleItem>)

  datatype Sentiment = Positive | Neutral | Negative

  datatype Comment = Comment(
    id: string, author: string, avatar: string, text: string, timestamp: string,
    likes: int, sentiment: Sentiment, reply: Option<string>, isReplied: bool)

  datatype ReplyStats = ReplyStats(total: int, replied: int)

  datatype StageCResult = StageCResult(comments: seq<Comment>, autoReplyStats: ReplyStats)

  /** The result accumulated across stages; `metadata` may be null, the last three are optional. */
  datatype PipelineResult = PipelineResult(
    metadata: Option<VideoMetadata>, subtitles: seq<SubtitleItem>, videoPath: string,
    localFileUrl: Option<string>, stageB: Option<StageBResult>, stageC: Option<StageCResult>)

  /** The parts of a browser `File` the pipeline reads. */
  datatype SourceFile = SourceFile(name: string, size: nat)

  datatype UserInput = UserInput(
    youtubeUrl: string, clipLength: string, clipStyle: string, shoppingLinks: string,
    voiceStyle: string, titleStyle: string, sourceFile: Option<SourceFile>)

  /** The parts of the sign-in state the pipeline reads. */
  datatype AuthState = AuthState(isAuthenticated: bool, accessToken: Option<string>)

  /** `DEFAULT_INPUT.youtubeUrl`: "https://www.youtube.com/watch?v=dQw4w9WgXcQ", kept in three pieces so its host name is a piece of its own. */
  const DefaultUrl: string := "https://www." + "youtube" + ".com/watch?v=dQw4w9WgXcQ"

  const DefaultInput := UserInput(DefaultUrl, "60s", "meme", "", "Energetic", "Bold Overlay", None)

  /** JavaScript truthiness of an optional string: present and non-empty. */
  predicate Truthy(s: Option<string>) {
    s.Some? && s.value != ""
  }
}
