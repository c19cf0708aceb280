/**
 * gpt/image.go: the prompt sent to the image generation API, `firstN`, and
 * the check made on the generation response. Strings are sequences of
 * runes, so the byte offset `firstN` slices at is the rune count here.
 */
module GptImage {
  import opened Wrappers

  /** The instruction placed before the story in the image prompt. */
  const ImagePrompt: string :=
    "\nCreate an eye-catching thumbnail in the style of an Audiobook cover for the story that follows. "
    + "Match the style and intended audience of the image to that of the story:\n"

  /** How many runes of the story the image prompt keeps. */
  const StoryRunes: int := 2000

  /**
   * The first `n` runes of `s`: always a prefix of `s`; all of `s` when it
   * is no longer than `n`, and also when `n` is negative; otherwise exactly
   * `n` runes.
   */
  function FirstRunes(s: string, n: int): (r: string)
    ensures r <= s
    ensures n < 0 || |s| <= n ==> r == s
    ensures 0 <= n < |s| ==> |r| == n
  {
    if 0 <= n < |s| then s[..n] else s
  }

  /**
   * `firstN`: walks the runes of `s` counting them, and cuts `s` at the
   * rune where the count reaches `n`. A negative `n` is never reached.
   */
  method FirstN(s: string, n: int) returns (r: string)
    ensures r == FirstRunes(s, n)
  {
    var i := 0;
    var j := 0;
    while j < |s|
      invariant 0 <= j <= |s|
      invariant i == j
      invariant n < 0 || j <= n
    {
      if i == n {
        return s[..j];
      }
      i := i + 1;
      j := j + 1;
    }
    return s;
  }

  /** A count of zero keeps nothing. */
  lemma FirstRunesZero(s: string)
    ensures FirstRunes(s, 0) == ""
  {
  }

  /** Truncating twice to the same count is truncating once. */
  lemma FirstRunesIdempotent(s: string, n: int)
    ensures FirstRunes(FirstRunes(s, n), n) == FirstRunes(s, n)
  {
  }

  /** The image prompt: the instruction, a newline, then at most 2000 runes of the story. */
  function GenerationPrompt(story: string): (p: string)
    ensures |ImagePrompt| + 1 <= |p| <= |ImagePrompt| + 1 + StoryRunes
    ensures p[..|ImagePrompt| + 1] == ImagePrompt + "\n"
    ensures p[|ImagePrompt| + 1..] <= story
    ensures |story| <= StoryRunes ==> p[|ImagePrompt| + 1..] == story
    ensures |story| > StoryRunes ==> |p| == |ImagePrompt| + 1 + StoryRunes
    ensures p[|ImagePrompt| + 1..] == FirstRunes(story, StoryRunes)
  {
    var cut := FirstRunes(story, StoryRunes);
    assert (ImagePrompt + "\n" + cut)[|ImagePrompt| + 1..] == cut;
    ImagePrompt + "\n" + cut
  }

  datatype ImageData = ImageData(revisedPrompt: string, b64JSON: string)

  /** The decoded reply of the image generation API. */
  datatype GenerationResponse = GenerationResponse(data: seq<ImageData>)

  datatype ImageError = UnexpectedDataCount(count: nat)

  /**
   * The check `CreateImage` makes on the reply: exactly one data element,
   * whose base64 image it returns; any other count is an error naming it.
   */
  function ImageFromResponse(resp: GenerationResponse): (r: Result<string, ImageError>)
    ensures r.Ok? <==> |resp.data| == 1
    ensures r.Ok? ==> r.value == resp.data[0].b64JSON
    ensures r.Err? ==> r.error.count == |resp.data|
  {
    if |resp.data| != 1 then Err(UnexpectedDataCount(|resp.data|))
    else Ok(resp.data[0].b64JSON)
  }
}
