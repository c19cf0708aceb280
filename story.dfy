/**
 * gpt/story.go: the vocabulary list written into the story prompt
 * (`wordsByStatus`), the checks made on the completion response
 * (`CreateStory`) and the recording of the raw reply (`contentJSONToStory`).
 *
 * `lingq.MaxWordStatus` and `lingq.WordStatusMeanings` are parameters here
 * (`maxStatus`, `meanings`): their values are left open.
 */
module GptStory {
  import opened Wrappers
  import opened Text
  import opened Lingq
  import opened Gpt

  // ---------------------------------------------------------------------------
  // Vocabulary list
  // ---------------------------------------------------------------------------

  /** Terms of the words whose status is exactly `level`, in input order, duplicates kept. */
  function TermsAt(words: seq<Word>, level: int): seq<string>
  {
    if words == [] then []
    else
      var last := words[|words| - 1];
      TermsAt(words[..|words| - 1], level) + (if last.status == level then [last.term] else [])
  }

  /** The block a level contributes: its meaning, the comma-joined terms, a blank line; nothing when no term has that level. */
  function Block(words: seq<Word>, meanings: int -> string, level: int): string
  {
    var terms := TermsAt(words, level);
    if terms == [] then "" else meanings(level) + "\n" + Join(terms, ",") + "\n\n"
  }

  /** The blocks of `count` consecutive levels starting at `from`, lowest level first. */
  function LevelBlocks(words: seq<Word>, meanings: int -> string, from: int, count: nat): (bs: seq<string>)
    ensures |bs| == count
    ensures forall i :: 0 <= i < count ==> bs[i] == Block(words, meanings, from + i)
  {
    seq(count, i requires 0 <= i < count => Block(words, meanings, from + i))
  }

  /** Number of levels from `threshold` up to `maxStatus` inclusive. */
  function LevelCount(threshold: int, maxStatus: int): nat
  {
    if maxStatus < threshold then 0 else maxStatus - threshold + 1
  }

  /** The vocabulary list: the blocks of every level from `threshold` to `maxStatus`, ascending. */
  function VocabularyList(words: seq<Word>, threshold: int, maxStatus: int, meanings: int -> string): string
  {
    Concat(LevelBlocks(words, meanings, threshold, LevelCount(threshold, maxStatus)))
  }

  /**
   * `wordsByStatus`: groups the terms of the words at or above `threshold`
   * by status in a map, then writes one block per level present, from
   * `threshold` up to `maxStatus`.
   */
  method WordsByStatus(words: seq<Word>, threshold: int, maxStatus: int, meanings: int -> string)
    returns (r: string)
    ensures r == VocabularyList(words, threshold, maxStatus, meanings)
  {
    var statusMap: map<int, seq<string>> := map[];
    for k := 0 to |words|
      invariant Grouped(statusMap, words[..k], threshold)
    {
      var word := words[k];
      ghost var before := statusMap;
      if word.status >= threshold {
        var terms := if word.status in statusMap then statusMap[word.status] else [];
        statusMap := statusMap[word.status := terms + [word.term]];
      }
      GroupStep(before, statusMap, words, k, threshold);
    }
    assert words[..|words|] == words;

    var result := "";
    var level := threshold;
    while level <= maxStatus
      invariant threshold <= level
      invariant level <= maxStatus + 1 || level == threshold
      invariant result == Concat(LevelBlocks(words, meanings, threshold, level - threshold))
    {
      ghost var before := result;
      if level in statusMap {
        var terms := statusMap[level];
        result := result + (meanings(level) + "\n");
        result := result + Join(terms, ",");
        result := result + "\n\n";
        Assoc4(before, meanings(level) + "\n", Join(terms, ","), "\n\n");
      }
      WriteLevel(statusMap, words, threshold, meanings, level, before, result);
      level := level + 1;
    }
    r := result;
  }

  /** One more word recorded in the map keeps it grouped. */
  lemma GroupStep(m: map<int, seq<string>>, m': map<int, seq<string>>, words: seq<Word>, k: nat, threshold: int)
    requires k < |words|
    requires Grouped(m, words[..k], threshold)
    requires words[k].status < threshold ==> m' == m
    requires words[k].status >= threshold
      ==> m' == m[words[k].status := (if words[k].status in m then m[words[k].status] else []) + [words[k].term]]
    ensures Grouped(m', words[..k + 1], threshold)
  {
    forall l {
      TermsAtSnoc(words, k, l);
    }
  }

  /** Writing a level's block, or nothing for an absent level, extends the list by that level. */
  lemma WriteLevel(m: map<int, seq<string>>, words: seq<Word>, threshold: int, meanings: int -> string,
                   level: int, before: string, after: string)
    requires threshold <= level
    requires Grouped(m, words, threshold)
    requires before == Concat(LevelBlocks(words, meanings, threshold, level - threshold))
    requires level in m ==> after == before + (meanings(level) + "\n" + Join(m[level], ",") + "\n\n")
    requires level !in m ==> after == before
    ensures after == Concat(LevelBlocks(words, meanings, threshold, level + 1 - threshold))
  {
    var done := LevelBlocks(words, meanings, threshold, level - threshold);
    LevelBlocksSnoc(words, meanings, threshold, level - threshold);
    ConcatSnoc(done, Block(words, meanings, level));
  }

  /** `m` maps each level from `threshold` up that has terms to those terms, and nothing else. */
  ghost predicate Grouped(m: map<int, seq<string>>, words: seq<Word>, threshold: int)
  {
    && (forall l :: l in m <==> threshold <= l && TermsAt(words, l) != [])
    && (forall l :: l in m ==> m[l] == TermsAt(words, l))
  }

  lemma TermsAtSnoc(words: seq<Word>, k: nat, level: int)
    requires k < |words|
    ensures TermsAt(words[..k + 1], level)
         == TermsAt(words[..k], level) + (if words[k].status == level then [words[k].term] else [])
  {
    assert words[..k + 1][..k] == words[..k];
  }

  lemma {:induction false} TermsAtAppend(a: seq<Word>, b: seq<Word>, level: int)
    ensures TermsAt(a + b, level) == TermsAt(a, level) + TermsAt(b, level)
    decreases |b|
  {
    if b == [] {
      assert a + b == a;
    } else {
      var b' := b[..|b| - 1];
      assert (a + b)[..|a + b| - 1] == a + b';
      assert (a + b)[|a + b| - 1] == b[|b| - 1];
      TermsAtAppend(a, b', level);
    }
  }

  /** Every listed term comes from a word of exactly that level. */
  lemma {:induction false} TermsAtOrigin(words: seq<Word>, level: int, t: string)
    requires t in TermsAt(words, level)
    ensures exists w :: w in words && w.term == t && w.status == level
    decreases |words|
  {
    var last := words[|words| - 1];
    var init := words[..|words| - 1];
    assert words == init + [last];
    if t in TermsAt(init, level) {
      TermsAtOrigin(init, level, t);
      var w :| w in init && w.term == t && w.status == level;
      assert w in words;
    } else {
      assert last in words;
    }
  }

  /** A level has terms exactly when some word has that status. */
  lemma {:induction false} TermsAtEmpty(words: seq<Word>, level: int)
    ensures TermsAt(words, level) == [] <==> forall w :: w in words ==> w.status != level
    decreases |words|
  {
    if words != [] {
      var init := words[..|words| - 1];
      assert words == init + [words[|words| - 1]];
      TermsAtEmpty(init, level);
    }
  }

  /** A level with no word of that status writes neither a header nor terms. */
  lemma BlockEmpty(words: seq<Word>, meanings: int -> string, level: int)
    ensures Block(words, meanings, level) == "" <==> forall w :: w in words ==> w.status != level
    ensures Block(words, meanings, level) != ""
      ==> Block(words, meanings, level)
          == meanings(level) + "\n" + Join(TermsAt(words, level), ",") + "\n\n"
  {
    TermsAtEmpty(words, level);
    var terms := TermsAt(words, level);
    if terms != [] {
      assert |Block(words, meanings, level)| >= 3;
    }
  }

  /** When `threshold` exceeds the highest status, the list is empty. */
  lemma ThresholdAboveMaximum(words: seq<Word>, threshold: int, maxStatus: int, meanings: int -> string)
    requires threshold > maxStatus
    ensures VocabularyList(words, threshold, maxStatus, meanings) == ""
  {
  }

  lemma {:induction false} ConcatEmptyBlocks(bs: seq<string>)
    requires forall i :: 0 <= i < |bs| ==> bs[i] == ""
    ensures Concat(bs) == ""
    decreases |bs|
  {
    if bs != [] {
      ConcatEmptyBlocks(bs[1..]);
    }
  }

  /** When no word reaches `threshold`, the list is empty. */
  lemma NoQualifyingWord(words: seq<Word>, threshold: int, maxStatus: int, meanings: int -> string)
    requires forall w :: w in words ==> w.status < threshold
    ensures VocabularyList(words, threshold, maxStatus, meanings) == ""
  {
    var bs := LevelBlocks(words, meanings, threshold, LevelCount(threshold, maxStatus));
    forall i | 0 <= i < |bs|
      ensures bs[i] == ""
    {
      TermsAtEmpty(words, threshold + i);
    }
    ConcatEmptyBlocks(bs);
  }

  /** Words that reach the list: status from `threshold` up to `maxStatus`. */
  function Listed(words: seq<Word>, threshold: int, maxStatus: int): (ws: seq<Word>)
    ensures forall w :: w in ws <==> w in words && threshold <= w.status <= maxStatus
  {
    if words == [] then []
    else
      var init := Listed(words[..|words| - 1], threshold, maxStatus);
      var last := words[|words| - 1];
      assert forall w :: w in words <==> w in words[..|words| - 1] || w == last;
      init + (if threshold <= last.status <= maxStatus then [last] else [])
  }

  lemma {:induction false} TermsAtListed(words: seq<Word>, threshold: int, maxStatus: int, level: int)
    requires threshold <= level <= maxStatus
    ensures TermsAt(Listed(words, threshold, maxStatus), level) == TermsAt(words, level)
    decreases |words|
  {
    if words != [] {
      var init := words[..|words| - 1];
      var last := words[|words| - 1];
      TermsAtListed(init, threshold, maxStatus, level);
      var kept := if threshold <= last.status <= maxStatus then [last] else [];
      TermsAtAppend(Listed(init, threshold, maxStatus), kept, level);
      if kept != [] {
        assert kept[..0] == [];
      }
    }
  }

  /**
   * Only words with a status from `threshold` up to `maxStatus` matter:
   * those below the threshold are filtered out, and those above the highest
   * status are never written although they pass the filter.
   */
  lemma OnlyListedWordsMatter(words: seq<Word>, threshold: int, maxStatus: int, meanings: int -> string)
    ensures VocabularyList(Listed(words, threshold, maxStatus), threshold, maxStatus, meanings)
         == VocabularyList(words, threshold, maxStatus, meanings)
  {
    var n := LevelCount(threshold, maxStatus);
    var listed := Listed(words, threshold, maxStatus);
    forall level | threshold <= level <= maxStatus
      ensures Block(listed, meanings, level) == Block(words, meanings, level)
    {
      TermsAtListed(words, threshold, maxStatus, level);
    }
    assert LevelBlocks(listed, meanings, threshold, n) == LevelBlocks(words, meanings, threshold, n);
  }

  lemma LevelBlocksSplit(words: seq<Word>, meanings: int -> string, from: int, a: nat, b: nat)
    ensures LevelBlocks(words, meanings, from, a + b)
         == LevelBlocks(words, meanings, from, a) + LevelBlocks(words, meanings, from + a, b)
  {
  }

  /**
   * Levels are written in ascending order: the list is the blocks of the
   * levels below `level`, then `level`'s block, then the blocks of the
   * levels above it.
   */
  lemma AscendingLevels(words: seq<Word>, threshold: int, maxStatus: int, meanings: int -> string, level: int)
    requires threshold <= level <= maxStatus
    ensures VocabularyList(words, threshold, maxStatus, meanings)
         == Concat(LevelBlocks(words, meanings, threshold, level - threshold))
            + Block(words, meanings, level)
            + Concat(LevelBlocks(words, meanings, level + 1, maxStatus - level))
  {
    var below := level - threshold;
    var above := maxStatus - level;
    LevelBlocksSplit(words, meanings, threshold, below, 1 + above);
    LevelBlocksSplit(words, meanings, level, 1, above);
    var lo := LevelBlocks(words, meanings, threshold, below);
    var mid := LevelBlocks(words, meanings, level, 1);
    var hi := LevelBlocks(words, meanings, level + 1, above);
    ConcatAppend(lo, mid + hi);
    ConcatAppend(mid, hi);
    LevelBlocksOne(words, meanings, level);
    Assoc(Concat(lo), Block(words, meanings, level), Concat(hi));
  }

  lemma LevelBlocksOne(words: seq<Word>, meanings: int -> string, level: int)
    ensures Concat(LevelBlocks(words, meanings, level, 1)) == Block(words, meanings, level)
  {
    var bs := LevelBlocks(words, meanings, level, 1);
    assert bs[1..] == [];
  }

  lemma LevelBlocksSnoc(words: seq<Word>, meanings: int -> string, from: int, n: nat)
    ensures LevelBlocks(words, meanings, from, n + 1)
         == LevelBlocks(words, meanings, from, n) + [Block(words, meanings, from + n)]
  {
  }

  // ---------------------------------------------------------------------------
  // Completion response
  // ---------------------------------------------------------------------------

  datatype Choice = Choice(content: string, finishReason: string)

  /** The decoded reply of the completions API. */
  datatype CompletionResponse = CompletionResponse(choices: seq<Choice>)

  datatype StoryError =
    | NoChoices
    | UnexpectedFinishReason(reason: string)
    | DecodingFailed

  /**
   * `contentJSONToStory`: decodes the reply (the JSON decoder is the
   * parameter `decode`) and records the exact reply text in `originalJSON`.
   */
  function ContentJSONToStory(s: string, decode: string -> Option<Story>): (r: Result<Story, StoryError>)
    ensures r.Ok? <==> decode(s).Some?
    ensures r.Err? ==> r.error == DecodingFailed
    ensures r.Ok? ==> r.value.originalJSON == s
    ensures r.Ok? ==> r.value.(originalJSON := decode(s).value.originalJSON) == decode(s).value
  {
    match decode(s)
    case None => Err(DecodingFailed)
    case Some(story) => Ok(story.(originalJSON := s))
  }

  /**
   * The checks `CreateStory` makes once the completions API has answered:
   * at least one choice, the first one finished with "stop"; then the first
   * choice's content is decoded.
   */
  function StoryFromResponse(resp: CompletionResponse, decode: string -> Option<Story>)
    : (r: Result<Story, StoryError>)
    ensures r == Err(NoChoices) <==> |resp.choices| == 0
    ensures (r.Err? && r.error.UnexpectedFinishReason?)
        <==> |resp.choices| > 0 && resp.choices[0].finishReason != "stop"
    ensures r.Err? && r.error.UnexpectedFinishReason? ==> r.error.reason == resp.choices[0].finishReason
    ensures r.Ok? <==> |resp.choices| > 0 && resp.choices[0].finishReason == "stop"
                       && decode(resp.choices[0].content).Some?
    ensures r.Ok? ==> r.value.originalJSON == resp.choices[0].content
    ensures |resp.choices| > 0 && resp.choices[0].finishReason == "stop"
            ==> r == ContentJSONToStory(resp.choices[0].content, decode)
  {
    if |resp.choices| == 0 then Err(NoChoices)
    else if resp.choices[0].finishReason != "stop" then Err(UnexpectedFinishReason(resp.choices[0].finishReason))
    else ContentJSONToStory(resp.choices[0].content, decode)
  }
}
