/**
 * The list-title generator: it feeds the ideas, one sentence each, to an
 * extractive summarizer, takes the first sentence of the summary, strips it
 * and shortens it to at most 50 characters, with fallbacks for an empty list
 * and an empty summary. The summarizer is a parameter: a function from the
 * input text to the sentences it picks.
 */
module Summarize {
  import opened Text

  /** The two fields of an idea that the generator reads. */
  datatype Idea = Idea(title: string, description: string)

  /** The title used for an empty list. */
  const DefaultTitle := "My Ideas"

  const MaxLength := 50

  /** One idea as a sentence of the summarizer's input: `title. description`. */
  function Sentence(idea: Idea): string {
    idea.title + ". " + idea.description
  }

  function Sentences(ideas: seq<Idea>): (r: seq<string>)
    ensures |r| == |ideas|
    ensures forall i :: 0 <= i < |ideas| ==> r[i] == Sentence(ideas[i])
  {
    seq(|ideas|, i requires 0 <= i < |ideas| => Sentence(ideas[i]))
  }

  /** The summarizer's input: the sentences, in list order, separated by single spaces. */
  function SummaryInput(ideas: seq<Idea>): (r: string)
    ensures r == "" <==> |ideas| == 0
  {
    Join(Sentences(ideas), " ")
  }

  /** Python's `str.strip()` with no argument. */
  function Strip(s: string): (r: string)
    ensures TrimmedBy(r, IsPySpace) && |r| <= |s|
    // Only Python whitespace is cut off, and only from the two ends.
    ensures exists off :: MiddleBy(s, r, off, IsPySpace)
  {
    TrimMiddle(s, IsPySpace);
    TrimBy(s, IsPySpace)
  }

  /**
   * The length rule: a title of more than 50 characters keeps its first 47
   * and gets "..." appended, so it is exactly 50 long; a shorter one is kept.
   */
  function Shorten(s: string): (t: string)
    ensures |t| <= MaxLength
    ensures |s| <= MaxLength ==> t == s
    ensures |s| > MaxLength ==> |t| == MaxLength && t[..47] == s[..47] && t[47..] == "..."
  {
    if |s| > MaxLength then s[..47] + "..." else s
  }

  /** Shortening a title that is already short enough changes nothing. */
  lemma ShortenIdempotent(s: string)
    ensures Shorten(Shorten(s)) == Shorten(s)
  {
  }

  /**
   * The generated title for `ideas`, with `summarize` the sentences the
   * summarizer picks from its input (at most one is asked for, only the
   * first is used).
   */
  function GenerateTitle(ideas: seq<Idea>, summarize: string -> seq<string>): (t: string)
    ensures |ideas| == 0 ==> t == DefaultTitle
    ensures |ideas| > 0 && summarize(SummaryInput(ideas)) == [] ==> t == ideas[0].title
    ensures |ideas| > 0 && summarize(SummaryInput(ideas)) != [] ==>
      var stripped := Strip(summarize(SummaryInput(ideas))[0]);
      |t| <= MaxLength && (|stripped| <= MaxLength ==> t == stripped)
      && (|stripped| > MaxLength ==> t == stripped[..47] + "...")
  {
    if |ideas| == 0 then DefaultTitle
    else
      var summary := summarize(SummaryInput(ideas));
      if summary == [] then ideas[0].title
      else Shorten(Strip(summary[0]))
  }

  /** A title from the summary is at most 50 characters; only the fallback can be longer. */
  lemma TitleLength(ideas: seq<Idea>, summarize: string -> seq<string>)
    requires |GenerateTitle(ideas, summarize)| > MaxLength
    ensures |ideas| > 0 && summarize(SummaryInput(ideas)) == []
    ensures GenerateTitle(ideas, summarize) == ideas[0].title
  {
  }

  /** Joining one more part appends the separator and that part. */
  lemma {:induction false} JoinSnoc(parts: seq<string>, last: string, sep: string)
    requires |parts| > 0
    ensures Join(parts + [last], sep) == Join(parts, sep) + sep + last
  {
    if |parts| == 1 {
      assert (parts + [last])[1..] == [last];
    } else {
      JoinSnoc(parts[1..], last, sep);
      assert (parts + [last])[1..] == parts[1..] + [last];
    }
  }

  /** A single idea is summarized from its own sentence alone. */
  lemma SummaryInputOne(idea: Idea)
    ensures SummaryInput([idea]) == idea.title + ". " + idea.description
  {
  }

  /** Each further idea adds a space and its sentence at the end: the input keeps list order. */
  lemma SummaryInputAppend(ideas: seq<Idea>, idea: Idea)
    requires |ideas| > 0
    ensures SummaryInput(ideas + [idea]) == SummaryInput(ideas) + " " + Sentence(idea)
  {
    assert Sentences(ideas + [idea]) == Sentences(ideas) + [Sentence(idea)];
    JoinSnoc(Sentences(ideas), Sentence(idea), " ");
  }
}
