/**
 * The story value produced by the language model (gpt/gpt.go) and its
 * plain-text transcript, `Story.ToString`.
 */
module Gpt {
  import opened Text

  datatype Question = Question(question: string, answer: string)

  /**
   * A generated story. `originalJSON` keeps the model's reply as received;
   * `thumbnail` is filled in later by the caller.
   */
  datatype Story = Story(
    title: string,
    description: string,
    story: string,
    questions: seq<Question>,
    originalJSON: string,
    thumbnail: string)

  /** Header written between the paragraphs and the questions. */
  const QuestionsHeader: string := "Preguntas:"

  /** The story text cut at each line break; shared with the SSML rendering. */
  function Paragraphs(s: Story): (ps: seq<string>)
    ensures |ps| == Count(s.story, '\n') + 1
    ensures forall p :: p in ps ==> Free(p, '\n')
    ensures Join(ps, "\n") == s.story
  {
    SplitCount(s.story, '\n');
    SplitPiecesFree(s.story, '\n');
    JoinSplit(s.story, '\n');
    Split(s.story, '\n')
  }

  /** Question and answer texts, flattened in list order. */
  function QuestionTexts(qs: seq<Question>): (ts: seq<string>)
    ensures |ts| == 2 * |qs|
  {
    if qs == [] then [] else [qs[0].question, qs[0].answer] + QuestionTexts(qs[1..])
  }

  /**
   * Every text the transcript lays out, in order: the title, the paragraphs,
   * the questions header, then each question followed by its answer.
   */
  function Segments(s: Story): seq<string>
  {
    [s.title] + Paragraphs(s) + [QuestionsHeader] + QuestionTexts(s.questions)
  }

  /** Each text as a block: the text and a blank line. */
  function Blocks(xs: seq<string>): (bs: seq<string>)
    ensures |bs| == |xs|
    ensures forall i :: 0 <= i < |xs| ==> bs[i] == xs[i] + "\n\n"
  {
    seq(|xs|, i requires 0 <= i < |xs| => xs[i] + "\n\n")
  }

  /** The transcript: every segment as its own block. */
  function Transcript(s: Story): string
  {
    Concat(Blocks(Segments(s)))
  }

  /** What one question contributes to the transcript. */
  function QuestionBlock(q: Question): string
  {
    q.question + "\n\n" + q.answer + "\n\n"
  }

  function QuestionBlocks(qs: seq<Question>): (bs: seq<string>)
    ensures |bs| == |qs|
    ensures forall i :: 0 <= i < |qs| ==> bs[i] == QuestionBlock(qs[i])
  {
    seq(|qs|, i requires 0 <= i < |qs| => QuestionBlock(qs[i]))
  }

  /** Length the transcript gives each paragraph: its text and two newlines. */
  function ParagraphsLength(ps: seq<string>): nat
  {
    if ps == [] then 0 else |ps[0]| + 2 + ParagraphsLength(ps[1..])
  }

  /** Length the transcript gives each question: both texts and four newlines. */
  function QuestionsLength(qs: seq<Question>): nat
  {
    if qs == [] then 0 else |qs[0].question| + |qs[0].answer| + 4 + QuestionsLength(qs[1..])
  }

  lemma BlocksAppend(a: seq<string>, b: seq<string>)
    ensures Blocks(a + b) == Blocks(a) + Blocks(b)
  {
  }

  lemma {:induction false} QuestionTextsSnoc(qs: seq<Question>, q: Question)
    ensures QuestionTexts(qs + [q]) == QuestionTexts(qs) + [q.question, q.answer]
    decreases |qs|
  {
    if qs == [] {
      assert qs + [q] == [q];
    } else {
      assert (qs + [q])[0] == qs[0];
      assert (qs + [q])[1..] == qs[1..] + [q];
      QuestionTextsSnoc(qs[1..], q);
    }
  }

  /**
   * `Story.ToString`: the title, a blank line, each paragraph followed by a
   * blank line, the questions header, then each question and its answer
   * followed by blank lines. The story is a value and is left as it was.
   */
  method ToString(s: Story) returns (r: string)
    ensures r == Transcript(s)
  {
    r := "";
    r := r + s.title;
    r := r + "\n\n";
    WriteBlock([], "", s.title);
    var paragraphs := Split(s.story, '\n');
    var i := 0;
    assert [s.title] + paragraphs[..0] == [s.title];
    while i < |paragraphs|
      invariant 0 <= i <= |paragraphs|
      invariant r == Concat(Blocks([s.title] + paragraphs[..i]))
    {
      ghost var before := r;
      r := r + paragraphs[i];
      r := r + "\n\n";
      WriteBlock([s.title] + paragraphs[..i], before, paragraphs[i]);
      PrefixSnoc([s.title], paragraphs, i);
      i := i + 1;
    }
    assert paragraphs[..i] == paragraphs;
    ghost var head := [s.title] + paragraphs + [QuestionsHeader];
    ghost var before := r;
    r := r + "Preguntas:\n\n";
    assert "Preguntas:\n\n" == QuestionsHeader + "\n\n";
    WriteBlock([s.title] + paragraphs, before, QuestionsHeader);
    assert head + QuestionTexts(s.questions[..0]) == head;
    var j := 0;
    while j < |s.questions|
      invariant 0 <= j <= |s.questions|
      invariant r == Concat(Blocks(head + QuestionTexts(s.questions[..j])))
    {
      var q := s.questions[j];
      ghost var before := r;
      r := r + q.question;
      r := r + "\n\n";
      r := r + q.answer;
      r := r + "\n\n";
      WriteQuestion(head, s.questions, j, before);
      j := j + 1;
    }
    assert s.questions[..j] == s.questions;
  }

  /** Writing a text and a blank line after the blocks of `done` adds that text's block. */
  lemma WriteBlock(done: seq<string>, before: string, x: string)
    requires before == Concat(Blocks(done))
    ensures before + x + "\n\n" == Concat(Blocks(done + [x]))
  {
    BlocksAppend(done, [x]);
    assert Blocks([x]) == [x + "\n\n"];
    ConcatSnoc(Blocks(done), x + "\n\n");
    Assoc(before, x, "\n\n");
  }

  /** Writing a question and its answer adds their two blocks. */
  lemma WriteQuestion(head: seq<string>, qs: seq<Question>, j: nat, before: string)
    requires j < |qs|
    requires before == Concat(Blocks(head + QuestionTexts(qs[..j])))
    ensures before + qs[j].question + "\n\n" + qs[j].answer + "\n\n"
         == Concat(Blocks(head + QuestionTexts(qs[..j + 1])))
  {
    var q := qs[j];
    var done := head + QuestionTexts(qs[..j]);
    WriteBlock(done, before, q.question);
    WriteBlock(done + [q.question], before + q.question + "\n\n", q.answer);
    assert qs[..j + 1] == qs[..j] + [q];
    QuestionTextsSnoc(qs[..j], q);
    Assoc(head, QuestionTexts(qs[..j]), [q.question, q.answer]);
    Assoc(done, [q.question], [q.answer]);
    assert [q.question] + [q.answer] == [q.question, q.answer];
  }

  /** The question blocks of the transcript are the questions' blocks, in list order. */
  lemma {:induction false} QuestionTextsBlocks(qs: seq<Question>)
    ensures Concat(Blocks(QuestionTexts(qs))) == Concat(QuestionBlocks(qs))
    decreases |qs|
  {
    if qs != [] {
      var q := qs[0];
      var ts := QuestionTexts(qs[1..]);
      assert QuestionTexts(qs) == [q.question, q.answer] + ts;
      BlocksAppend([q.question, q.answer], ts);
      ConcatAppend(Blocks([q.question, q.answer]), Blocks(ts));
      assert Blocks([q.question, q.answer]) == [q.question + "\n\n", q.answer + "\n\n"];
      assert Concat([q.question + "\n\n", q.answer + "\n\n"]) == QuestionBlock(q);
      QuestionTextsBlocks(qs[1..]);
      assert QuestionBlocks(qs) == [QuestionBlock(q)] + QuestionBlocks(qs[1..]);
    }
  }

  /**
   * The transcript's layout: the title and a blank line, every paragraph and
   * a blank line, the questions header, then every question's block in order.
   */
  lemma TranscriptLayout(s: Story)
    ensures Transcript(s)
      == s.title + "\n\n" + Concat(Blocks(Paragraphs(s))) + "Preguntas:\n\n"
         + Concat(QuestionBlocks(s.questions))
  {
    var ps := Paragraphs(s);
    var qts := QuestionTexts(s.questions);
    assert Segments(s) == [s.title] + ps + [QuestionsHeader] + qts;
    BlocksAppend([s.title] + ps + [QuestionsHeader], qts);
    BlocksAppend([s.title] + ps, [QuestionsHeader]);
    BlocksAppend([s.title], ps);
    ConcatAppend(Blocks([s.title] + ps + [QuestionsHeader]), Blocks(qts));
    ConcatAppend(Blocks([s.title] + ps), Blocks([QuestionsHeader]));
    ConcatAppend(Blocks([s.title]), Blocks(ps));
    assert Concat(Blocks([s.title])) == s.title + "\n\n";
    assert Concat(Blocks([QuestionsHeader])) == "Preguntas:\n\n";
    QuestionTextsBlocks(s.questions);
  }

  /** The transcript begins with the title and a blank line. */
  lemma TranscriptStartsWithTitle(s: Story)
    ensures |Transcript(s)| >= |s.title| + 2
    ensures Transcript(s)[..|s.title| + 2] == s.title + "\n\n"
  {
    TranscriptLayout(s);
  }

  /** A story without questions ends its transcript with the questions header. */
  lemma TranscriptWithoutQuestions(s: Story)
    requires s.questions == []
    ensures |Transcript(s)| >= 12
    ensures Transcript(s)[|Transcript(s)| - 12..] == "Preguntas:\n\n"
  {
    TranscriptLayout(s);
    assert Concat(QuestionBlocks(s.questions)) == "";
  }

  /** An empty story text still gives one empty paragraph block. */
  lemma EmptyStoryOneParagraph(s: Story)
    requires s.story == ""
    ensures Paragraphs(s) == [""]
    ensures Transcript(s) == s.title + "\n\n" + "\n\n" + "Preguntas:\n\n"
                             + Concat(QuestionBlocks(s.questions))
  {
    TranscriptLayout(s);
    assert Concat(Blocks([""])) == "\n\n";
  }

  lemma {:induction false} BlocksLength(ps: seq<string>)
    ensures |Concat(Blocks(ps))| == ParagraphsLength(ps)
    decreases |ps|
  {
    if ps != [] {
      assert Blocks(ps) == [ps[0] + "\n\n"] + Blocks(ps[1..]);
      BlocksLength(ps[1..]);
    }
  }

  lemma {:induction false} QuestionBlocksLength(qs: seq<Question>)
    ensures |Concat(QuestionBlocks(qs))| == QuestionsLength(qs)
    decreases |qs|
  {
    if qs != [] {
      assert QuestionBlocks(qs) == [QuestionBlock(qs[0])] + QuestionBlocks(qs[1..]);
      QuestionBlocksLength(qs[1..]);
    }
  }

  /** Transcript length: title + 2, each paragraph + 2, 12 for the header, each question + 4. */
  lemma TranscriptLength(s: Story)
    ensures |Transcript(s)|
      == |s.title| + 2 + ParagraphsLength(Paragraphs(s)) + 12 + QuestionsLength(s.questions)
  {
    TranscriptLayout(s);
    BlocksLength(Paragraphs(s));
    QuestionBlocksLength(s.questions);
  }
}
