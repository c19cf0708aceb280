# language-learning: the text-formatting core, in Dafny

The program builds Spanish listening lessons. It takes the learner's vocabulary,
puts it in the prompt of a request to a language model as a vocabulary list
grouped by familiarity level (`wordsByStatus`), and receives a short story that
uses it. It then writes the story out in two forms:

- the plain-text transcript (`Story.ToString`);
- the SSML document sent to the speech service (`storyToSSML`).

It also checks the two API replies it depends on: the completion reply that
carries the story, and the image reply that carries the thumbnail. The image
prompt it sends holds the story cut to 2000 runes (`firstN`).

This project models those parts as Dafny functions and methods and proves what
they produce.

Modules, one per source file:

| module | source | contents |
|---|---|---|
| `Wrappers` | — | `Option`, `Result` |
| `Text` | — | Go's `strings.Split` (one-rune separator) and `strings.Join`; `Concat`, the text a run of builder writes produces; inverse and counting lemmas |
| `Lingq` | lingq/vocabulary.go | `Word` |
| `Gpt` | gpt/gpt.go | `Story`, `Question`, `ToString` and the transcript's specification |
| `GptStory` | gpt/story.go | `wordsByStatus`, the checks on the completion reply, `contentJSONToStory` |
| `GptImage` | gpt/image.go | `firstN`, the image prompt, the check on the image reply |
| `AudioSsml` | audio/gcp.go | `storyToSSML`, its specification, and a reader that parses the document back |

The source builds each output in a `strings.Builder` inside loops, so each of
the three writers is a method with a `while` loop. Each method's `ensures`
equates its result with a specification function: `VocabularyList`,
`Transcript` or `Ssml`. Those functions are defined differently from the loops:
blocks per level, blocks per segment, and rendered elements. The lemmas prove
what the source promises about them.

Strings are sequences of runes. `lingq.MaxWordStatus` and
`lingq.WordStatusMeanings` are parameters (`maxStatus`, `meanings`): their
values are not fixed by the model.

Two results are worth calling out:

- `SsmlSpeaksTranscriptSegments` shows that the SSML document speaks exactly the
  texts that the transcript lays out, in the same order.
- `SsmlRoundTrip` shows that the document parses back to its elements, as long
  as no text contains `<`.

## Model

| member | source | states |
|---|---|---|
| `Text.Split` | gpt/gpt.go:25 | `strings.Split` with a one-rune separator: always at least one piece; the empty string gives `[""]`; a string without the separator gives itself as the only piece |
| `Text.SplitCount` | gpt/gpt.go:25 | splitting on a separator that occurs k times gives k + 1 pieces |
| `Text.SplitPiecesFree` | gpt/gpt.go:25 | no piece of a split contains the separator |
| `Text.JoinSplit` | gpt/gpt.go:25 | joining the pieces of a split with the separator gives back the input |
| `Text.SplitJoin` | audio/gcp.go:35 | splitting a join of separator-free pieces gives back those pieces, so the paragraph list is exactly what the story's line breaks delimit |
| `Gpt.Paragraphs` | gpt/gpt.go:25 | the paragraph list has one more piece than the story has line breaks, holds no line break, and joins back to the story text |
| `Gpt.ToString` | gpt/gpt.go:20-38 | the builder loop over paragraphs and questions produces exactly `Transcript(s)`: every segment (title, paragraphs, header, each question and answer) followed by a blank line; the story is a value and is not changed |
| `Gpt.TranscriptLayout` | gpt/gpt.go:23-35 | transcript = title + "\n\n" + each paragraph + "\n\n" + "Preguntas:\n\n" + for each question, in list order, question + "\n\n" + answer + "\n\n" |
| `Gpt.TranscriptStartsWithTitle` | gpt/gpt.go:23-24 | the transcript begins with the title and a blank line |
| `Gpt.TranscriptWithoutQuestions` | gpt/gpt.go:29-30 | with no questions, the transcript ends with "Preguntas:\n\n" |
| `Gpt.EmptyStoryOneParagraph` | gpt/gpt.go:25-28 | an empty story text still gives one empty paragraph, which writes a lone "\n\n" |
| `Gpt.QuestionTextsBlocks` | gpt/gpt.go:30-35 | the question part of the transcript is each question's block, in list order |
| `Gpt.TranscriptLength` | gpt/gpt.go:23-35 | length = \|title\| + 2 + Σ(\|p\| + 2) + 12 + Σ(\|q\| + \|a\| + 4) |
| `GptStory.WordsByStatus` | gpt/story.go:138-157 | grouping into a map and then writing per level produces exactly `VocabularyList`: the blocks of the levels from threshold to the highest status, in ascending order |
| `GptStory.TermsAtAppend` | gpt/story.go:141-145 | the terms of a level keep input order: the terms from earlier words come first, and duplicates are kept |
| `GptStory.TermsAtOrigin` | gpt/story.go:141-145 | every listed term is the term of some word with exactly that status |
| `GptStory.TermsAtEmpty` | gpt/story.go:141-149 | a level has terms if and only if some word has that status |
| `GptStory.BlockEmpty` | gpt/story.go:149-153 | a level with no word writes nothing, with no header; otherwise its block is meaning + "\n" + the comma-joined terms + "\n\n" |
| `GptStory.ThresholdAboveMaximum` | gpt/story.go:147-156 | a threshold above the highest status gives the empty string |
| `GptStory.NoQualifyingWord` | gpt/story.go:141-156 | when no word reaches the threshold, the result is the empty string |
| `GptStory.OnlyListedWordsMatter` | gpt/story.go:142-149 | the result depends only on the words whose status lies between the threshold and the highest status: words below are filtered out, and words above pass the filter but are never written |
| `GptStory.AscendingLevels` | gpt/story.go:148-154 | for any level in range, the result is the blocks of the lower levels, then that level's block, then the blocks of the higher levels |
| `GptStory.ContentJSONToStory` | gpt/story.go:128-136 | a decoding failure is an error; a decoded story is returned with `originalJSON` set to the exact reply text and every other field as decoded |
| `GptStory.StoryFromResponse` | gpt/story.go:112-125 | zero choices is the "no choices" error; a first finish reason other than "stop" is the finish-reason error and carries that reason; otherwise the result is exactly what `ContentJSONToStory` gives for the first choice's content: its decoding, with `originalJSON` set to that content |
| `GptImage.FirstRunes` | gpt/image.go:58-67 | the result is always a prefix of s; all of s when s has at most n runes or n is negative; exactly n runes when 0 ≤ n < \|s\| |
| `GptImage.FirstN` | gpt/image.go:58-67 | the counting loop returns `FirstRunes(s, n)`: it cuts where the counter meets n, and a negative n is never met |
| `GptImage.FirstRunesZero` | gpt/image.go:59-62 | n = 0 gives the empty string |
| `GptImage.FirstRunesIdempotent` | gpt/image.go:58-67 | truncating twice to the same count is the same as truncating once |
| `GptImage.GenerationPrompt` | gpt/image.go:36 | the prompt is the fixed instruction and "\n", followed by `FirstRunes(story, 2000)`: the whole story when it has at most 2000 runes, otherwise its first exactly 2000 runes |
| `GptImage.ImageFromResponse` | gpt/image.go:51-55 | success exactly when the reply holds one data element, and the value is then that element's base64 image; any other count is an error carrying the count |
| `AudioSsml.StoryToSsml` | audio/gcp.go:26-61 | the builder writes produce exactly `Ssml(s)`: `<speak>`, the rendered elements, `</speak>` |
| `AudioSsml.SsmlFrame` | audio/gcp.go:29-56 | the document starts with `<speak>` and ends with `</speak>` |
| `AudioSsml.SsmlLayout` | audio/gcp.go:29-56 | the document is `<speak>`, then `<p>`title`</p><break time="2s"/>`, then each paragraph as `<p>…</p>` with no break between them, then `<break time="3s"/><p>Preguntas:</p><break time="1s"/>`, then for each question `<p>Q</p><break time="3s"/><p>A</p><break time="1s"/>`, then `</speak>`; texts are inserted verbatim |
| `AudioSsml.SsmlSpeaksTranscriptSegments` | audio/gcp.go:35 | the paragraphs the document speaks are exactly the transcript's segments in the same order, because both split the story the same way |
| `AudioSsml.ParseRenderAll` | audio/gcp.go:29-56 | parsing rendered `p` and `break` elements gives back those elements, provided no text contains `<` and no time contains `"` |
| `AudioSsml.SsmlRoundTrip` | audio/gcp.go:26-61 | for a story whose texts contain no `<`, the document parses back to its elements, and the texts it speaks are the transcript's segments |

## Left out

- HTTP calls (`makeAPICall`) and request construction, including the configuration lookups, the model name, the float temperature and the token budget. These are network and configuration plumbing. Each reply check starts from a reply that has already been decoded.
- The system message that `CreateStory` assembles around the vocabulary list (gpt/story.go:82-105). It is built from configuration values.
- JSON decoding (`json.Unmarshal`). It is the parameter `decode` of `ContentJSONToStory`. Every decoding error becomes one `DecodingFailed` value, and the text of error messages is not modelled.
- `LoadStory`: it reads a file and then calls the modelled `contentJSONToStory`.
- Debug logging (`logrus`): it has no effect on results.
- `TextToSpeech` and `randomVoiceName` in audio/gcp.go: a Google Cloud client call with a float speaking rate, and a random choice.
- main.go, lingq/vocabulary.go, lingq/persistence.go, lingq/import.go, lingq/client.go and gpt/client.go: orchestration, file I/O, wall-clock cache freshness and HTTP clients. Only the `Word` record is taken from lingq/vocabulary.go.
- lingq/vocabulary.go:67 copies the service's `Status` into `Word.Status` unchanged; the model takes it as given.
- GptStory.WordsByStatus: `meanings` is a total function. If `lingq.WordStatusMeanings` is a slice, an index outside it would panic in Go, and the model does not capture that. The loop counter is unbounded, so a `MaxWordStatus` equal to the largest Go `int` would overflow in Go but not in the model.
- GptImage.FirstN: strings are sequences of runes. The byte offsets of Go's `range` over a string, and its handling of invalid UTF-8, are outside the model.
- Go returns a `*Story` (an address of a story). The model returns `Story` values, and no caller in the modelled code mutates a story through that address.
