/**
 * The translation tables (translations.ts): the per-step display strings in
 * both languages, and the key sets of the two interface-string tables.
 */
module Translations {
  import opened Wrappers
  import opened Types

  /** A step's display strings in one language (`label` is `labelText` here). */
  datatype Entry = Entry(labelText: string, desc: string)

  /** A step's display strings in both languages. */
  datatype StepDefinition = StepDefinition(en: Entry, ko: Entry)

  /** `STEP_DEFINITIONS`: one entry per step id `Step_2` to `Step_14`. */
  const StepDefinitions: map<string, StepDefinition> := map[
    "Step_2" := StepDefinition(
      Entry("Analyzing Source", "Validating video format and access."),
      Entry("소스 분석", "영상 포맷과 접근 권한을 확인합니다.")),
    "Step_3" := StepDefinition(
      Entry("Metadata Scan", "Extracting contextual information."),
      Entry("메타데이터 스캔", "영상의 문맥 정보를 추출합니다.")),
    "Step_4" := StepDefinition(
      Entry("Video Processing", "Preparing video buffer for editing."),
      Entry("비디오 처리", "편집을 위해 비디오 버퍼를 준비합니다.")),
    "Step_5" := StepDefinition(
      Entry("Audio Separation", "Isolating vocal tracks."),
      Entry("오디오 분리", "보컬 트랙을 분리합니다.")),
    "Step_6" := StepDefinition(
      Entry("AI Transcription", "Converting speech to text."),
      Entry("AI 자막 생성", "음성을 텍스트로 변환합니다.")),
    "Step_7" := StepDefinition(
      Entry("Context Analysis", "Understanding video content."),
      Entry("문맥 분석", "영상 내용을 심층 분석합니다.")),
    "Step_8" := StepDefinition(
      Entry("Highlight Detection", "Finding the most viral moment."),
      Entry("하이라이트 감지", "가장 바이럴한 순간을 찾아냅니다.")),
    "Step_9" := StepDefinition(
      Entry("Smart Cut", "Trimming video to vertical format."),
      Entry("스마트 컷", "세로 화면으로 영상을 트리밍합니다.")),
    "Step_10" := StepDefinition(
      Entry("Captioning", "Applying dynamic subtitles."),
      Entry("자막 입히기", "다이내믹 자막 효과를 적용합니다.")),
    "Step_11" := StepDefinition(
      Entry("Sound Engineering", "Mixing voice and background."),
      Entry("사운드 믹싱", "음성과 배경음을 조절합니다.")),
    "Step_12" := StepDefinition(
      Entry("Visual Polish", "Generating thumbnails."),
      Entry("비주얼 작업", "썸네일을 생성합니다.")),
    "Step_13" := StepDefinition(
      Entry("Viral SEO", "Writing optimized titles/tags."),
      Entry("바이럴 SEO", "최적화된 제목과 태그를 작성합니다.")),
    "Step_14" := StepDefinition(
      Entry("Final Rendering", "Packaging final output."),
      Entry("최종 렌더링", "결과물을 패키징합니다."))
  ]

  /** `STEP_DEFINITIONS[id]?.[lang]`. */
  function Definition(id: string, lang: Language): (r: Option<Entry>)
    ensures r.Some? <==> id in StepDefinitions
    ensures r.Some? ==> r.value == (if lang == En then StepDefinitions[id].en else StepDefinitions[id].ko)
  {
    if id !in StepDefinitions then None
    else if lang == En then Some(StepDefinitions[id].en)
    else Some(StepDefinitions[id].ko)
  }

  /** The keys of `TRANSLATIONS.en`, in declaration order. */
  const EnglishKeys: seq<string> := [
    "appTitle", "appSubtitle", "systemOnline", "configTitle", "youtubeUrlLabel", "clipLengthLabel",
    "clipStyleLabel", "voiceStyleLabel", "titleStyleLabel", "shoppingLinksLabel",
    "shoppingPlaceholder", "startBtn", "processingBtn", "tip_url", "tip_length", "tip_style_clip",
    "tip_style_voice", "tip_style_title", "tip_shop", "tip_start_btn", "tip_reset", "tip_run_b",
    "tip_run_c", "tip_dl_raw", "tip_dl_kit", "opt_15s", "opt_30s", "opt_60s", "opt_90s",
    "opt_style_meme", "opt_style_jobs",
    "opt_style_emotional", "opt_style_clean", "opt_voice_original", "opt_voice_male",
    "opt_voice_female", "opt_voice_none", "opt_title_bold", "opt_title_subtle", "opt_title_neon",
    "opt_title_type", "pipelineConfigTitle", "stageA_info", "stageB_info", "stageC_info",
    "pipelineExecTitle", "stageA_complete", "stageB_complete", "stageA_sub", "stageB_sub",
    "newProject", "runStageB", "processingStageB", "generatedAssets", "aiThumbnail",
    "optimizedMetadata", "highlightSegment", "sourceMetadata", "rawSource", "transcriptHead",
    "downloadRaw", "downloadKit", "generatedVideoTitle", "lbl_title", "lbl_hashtags", "lbl_desc",
    "lbl_comment", "lbl_duration", "lbl_views", "action_copy", "action_copied"
  ]

  /** The keys of `TRANSLATIONS.ko`, in declaration order. */
  const KoreanKeys: seq<string> := [
    "appTitle", "appSubtitle", "systemOnline", "configTitle", "youtubeUrlLabel", "clipLengthLabel",
    "clipStyleLabel", "voiceStyleLabel", "titleStyleLabel", "shoppingLinksLabel",
    "shoppingPlaceholder", "startBtn", "processingBtn", "tip_url", "tip_length", "tip_style_clip",
    "tip_style_voice", "tip_style_title", "tip_shop", "tip_start_btn", "tip_reset", "tip_run_b",
    "tip_run_c", "tip_dl_raw", "tip_dl_kit", "opt_15s", "opt_30s", "opt_60s", "opt_90s",
    "opt_style_meme", "opt_style_jobs",
    "opt_style_emotional", "opt_style_clean", "opt_voice_original", "opt_voice_male",
    "opt_voice_female", "opt_voice_none", "opt_title_bold", "opt_title_subtle", "opt_title_neon",
    "opt_title_type", "pipelineConfigTitle", "stageA_info", "stageB_info", "stageC_info",
    "pipelineExecTitle", "stageA_complete", "stageB_complete", "stageA_sub", "stageB_sub",
    "newProject", "runStageB", "processingStageB", "generatedAssets", "aiThumbnail",
    "optimizedMetadata", "highlightSegment", "sourceMetadata", "rawSource", "transcriptHead",
    "downloadRaw", "downloadKit", "generatedVideoTitle", "lbl_title", "lbl_hashtags", "lbl_desc",
    "lbl_comment", "lbl_duration", "lbl_views", "action_copy", "action_copied"
  ]

  /** The keys of the interface-string table of a language. */
  function TranslationKeys(lang: Language): seq<string> {
    if lang == En then EnglishKeys else KoreanKeys
  }

  /** The step ids of the table, in declaration order. */
  const DefinedStepIds: seq<string> := [
    "Step_2", "Step_3", "Step_4", "Step_5", "Step_6", "Step_7", "Step_8",
    "Step_9", "Step_10", "Step_11", "Step_12", "Step_13", "Step_14"
  ]

  /** The table's keys are exactly the thirteen ids `Step_2` to `Step_14`. */
  lemma StepDefinitionKeys()
    ensures StepDefinitions.Keys == set id | id in DefinedStepIds
  {
  }

  /** The thirteen ids `Step_2` to `Step_14` are distinct. */
  lemma DefinedStepIdsDistinct()
    ensures forall i, j :: 0 <= i < j < |DefinedStepIds| ==> DefinedStepIds[i] != DefinedStepIds[j]
  {
  }

  /** Every entry carries a non-empty label and description in both languages. */
  lemma StepDefinitionsFilled(id: string, lang: Language)
    requires id in StepDefinitions
    ensures Definition(id, lang).value.labelText != ""
    ensures Definition(id, lang).value.desc != ""
  {
  }

  /** Both interface-string tables define the same keys, so a lookup by key never misses in either language. */
  lemma TranslationKeysAgree()
    ensures forall k :: k in TranslationKeys(En) <==> k in TranslationKeys(Ko)
    ensures |TranslationKeys(En)| == |TranslationKeys(Ko)| == 71
  {
  }
}
