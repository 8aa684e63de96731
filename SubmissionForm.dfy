/**
 * The idea submission form: bulk text is cut into blocks at blank lines (the
 * JavaScript regular expression `\n\s*\n`), each non-blank block becomes an
 * idea (first line the title, the rest the description), and submitting
 * posts the parsed ideas with the stored creator id. Toasts report outcomes
 * and each expires by id.
 */
module SubmissionForm {
  import opened Wrappers
  import opened Text

  // ---------------------------------------------------------------------
  // Cutting text at blank lines
  // ---------------------------------------------------------------------

  /** The end of the maximal run of whitespace starting at `k`. */
  function RunEnd(s: string, k: nat): (r: nat)
    requires k <= |s|
    ensures k <= r <= |s|
    ensures forall q :: k <= q < r ==> IsJsSpace(s[q])
    ensures r == |s| || !IsJsSpace(s[r])
    decreases |s| - k
  {
    if k < |s| && IsJsSpace(s[k]) then RunEnd(s, k + 1) else k
  }

  /** The last line feed in `s[lo..hi]`, if any. */
  function LastNewline(s: string, lo: nat, hi: nat): (r: Option<nat>)
    requires lo <= hi <= |s|
    ensures r.Some? ==> lo <= r.value < hi && s[r.value] == '\n'
    ensures r.Some? ==> forall q :: r.value < q < hi ==> s[q] != '\n'
    ensures r.None? ==> forall q :: lo <= q < hi ==> s[q] != '\n'
    decreases hi - lo
  {
    if hi == lo then None
    else if s[hi - 1] == '\n' then Some(hi - 1)
    else LastNewline(s, lo, hi - 1)
  }

  /** `s[a..b]` is a blank-line separator: a line feed, whitespace, and a line feed. */
  predicate IsSeparator(s: string, a: nat, b: nat)
    requires a <= b <= |s|
  {
    a + 2 <= b && s[a] == '\n' && s[b - 1] == '\n' && forall q :: a <= q < b ==> IsJsSpace(s[q])
  }

  /**
   * Where a match of `\n\s*\n` that starts at `i` ends. The greedy `\s*`
   * takes the whole whitespace run and gives back characters until a line
   * feed follows, so the match ends just after the run's last line feed.
   */
  function SeparatorEnd(s: string, i: nat): (r: Option<nat>)
    requires i < |s|
    ensures r.Some? ==> i + 2 <= r.value <= |s| && IsSeparator(s, i, r.value)
  {
    if s[i] != '\n' then None
    else
      match LastNewline(s, i + 1, RunEnd(s, i + 1))
      case None => None
      case Some(j) => Some(j + 1)
  }

  /**
    * The separator match is greedy: it runs through the whole whitespace run after the line
    * feed up to the last line feed in it, and there is a match exactly when that run holds
    * a line feed.
    */
  lemma SeparatorEndGreedy(s: string, i: nat)
    requires i < |s|
    ensures var r := SeparatorEnd(s, i);
      r.Some? ==> r.value <= RunEnd(s, i + 1) && forall q :: r.value <= q < RunEnd(s, i + 1) ==> s[q] != '\n'
    ensures SeparatorEnd(s, i).None? <==> s[i] != '\n' || forall q :: i + 1 <= q < RunEnd(s, i + 1) ==> s[q] != '\n'
  {
  }

  /** A line feed that sees no separator starting at it is followed by a non-space before the next line feed. */
  lemma NoSeparatorMeansText(s: string, p: nat, q: nat)
    requires p < q < |s| && s[p] == '\n' && s[q] == '\n'
    requires SeparatorEnd(s, p).None?
    ensures !AllBy(s[p + 1..q], IsJsSpace)
  {
    var r := RunEnd(s, p + 1);
    assert LastNewline(s, p + 1, r).None?;
    assert r <= q;
    assert r != q;
    assert s[p + 1..q][r - (p + 1)] == s[r];
  }

  /** Where a separator starts, its two line feeds enclose only whitespace. */
  lemma SeparatorMeansBlankLine(s: string, p: nat)
    requires p < |s| && SeparatorEnd(s, p).Some?
    ensures exists q :: p < q < |s| && s[q] == '\n' && AllBy(s[p + 1..q], IsJsSpace)
  {
    var q := SeparatorEnd(s, p).value - 1;
    assert forall k :: p + 1 <= k < q ==> IsJsSpace(s[k]);
    assert AllBy(s[p + 1..q], IsJsSpace);
  }

  /**
   * The blocks of `s` from `start` on, as index ranges, scanning for the
   * leftmost separator at or after `i`. This is `String.prototype.split`
   * with the separator's regular expression.
   */
  function Cuts(s: string, start: nat, i: nat): (r: seq<(nat, nat)>)
    requires start <= i <= |s|
    ensures |r| >= 1 && r[0].0 == start && r[|r| - 1].1 == |s|
    ensures forall k :: 0 <= k < |r| ==> start <= r[k].0 <= r[k].1 <= |s|
    decreases |s| - i
  {
    if i == |s| then [(start, |s|)]
    else
      match SeparatorEnd(s, i)
      case Some(e) => [(start, i)] + Cuts(s, e, e)
      case None => Cuts(s, start, i + 1)
  }

  /** Ranges lying within `s`, each ending before it starts. */
  predicate InRange(s: string, r: seq<(nat, nat)>) {
    forall k :: 0 <= k < |r| ==> r[k].0 <= r[k].1 <= |s|
  }

  /** Consecutive ranges of `r` are apart by exactly one separator. */
  predicate Separated(s: string, r: seq<(nat, nat)>)
    requires InRange(s, r)
  {
    forall k :: 0 <= k < |r| - 1 ==> r[k].1 < r[k + 1].0 && IsSeparator(s, r[k].1, r[k + 1].0)
  }

  /** Consecutive blocks are apart by exactly one separator. */
  lemma {:induction false} CutsSeparated(s: string, start: nat, i: nat)
    requires start <= i <= |s|
    ensures InRange(s, Cuts(s, start, i)) && Separated(s, Cuts(s, start, i))
    decreases |s| - i
  {
    if i < |s| {
      match SeparatorEnd(s, i)
      case Some(e) =>
        CutsSeparated(s, e, e);
        SeparatedAtSeparator(s, start, i, e);
      case None =>
        assert Cuts(s, start, i) == Cuts(s, start, i + 1);
        CutsSeparated(s, start, i + 1);
    }
  }

  /** Cutting at a separator puts one block, then the separator, in front of the later cuts. */
  lemma SeparatedAtSeparator(s: string, start: nat, i: nat, e: nat)
    requires start <= i < |s| && SeparatorEnd(s, i) == Some(e)
    requires InRange(s, Cuts(s, e, e)) && Separated(s, Cuts(s, e, e))
    ensures InRange(s, Cuts(s, start, i)) && Separated(s, Cuts(s, start, i))
  {
    var tail := Cuts(s, e, e);
    assert Cuts(s, start, i) == [(start, i)] + tail;
    ConsSeparated(s, start, i, tail);
  }

  /** A block followed by one separator can go in front of separated ranges. */
  lemma ConsSeparated(s: string, start: nat, i: nat, tail: seq<(nat, nat)>)
    requires start <= i && |tail| >= 1 && i < tail[0].0 <= |s| && IsSeparator(s, i, tail[0].0)
    requires InRange(s, tail) && Separated(s, tail)
    ensures InRange(s, [(start, i)] + tail) && Separated(s, [(start, i)] + tail)
  {
    var r := [(start, i)] + tail;
    forall k | 0 <= k < |r| - 1 ensures r[k].1 < r[k + 1].0 && IsSeparator(s, r[k].1, r[k + 1].0) {
      if k == 0 {
        assert r[1] == tail[0];
      } else {
        assert r[k] == tail[k - 1] && r[k + 1] == tail[k];
      }
    }
  }

  /** No separator starts in `s[a..c]`. */
  predicate NoSeparatorIn(s: string, a: nat, c: nat)
    requires a <= c <= |s|
  {
    forall p :: a <= p < c ==> !StartsSeparator(s, p)
  }

  /** A separator starts at `p`. */
  predicate StartsSeparator(s: string, p: nat)
    requires p < |s|
  {
    SeparatorEnd(s, p).Some?
  }

  /** No separator starts inside any of the ranges. */
  predicate Leftmost(s: string, r: seq<(nat, nat)>)
    requires InRange(s, r)
  {
    forall k :: 0 <= k < |r| ==> NoSeparatorIn(s, r[k].0, r[k].1)
  }

  /** No separator starts inside a block: each block ends at the leftmost separator after its start. */
  lemma {:induction false} CutsLeftmost(s: string, start: nat, i: nat)
    requires start <= i <= |s|
    requires NoSeparatorIn(s, start, i)
    ensures InRange(s, Cuts(s, start, i)) && Leftmost(s, Cuts(s, start, i))
    decreases |s| - i
  {
    if i < |s| {
      match SeparatorEnd(s, i)
      case Some(e) =>
        CutsLeftmost(s, e, e);
        ConsLeftmost(s, start, i, Cuts(s, e, e));
      case None =>
        assert NoSeparatorIn(s, start, i + 1) by {
          NoSeparatorExtend(s, start, i);
        }
        CutsLeftmost(s, start, i + 1);
    }
  }

  lemma NoSeparatorExtend(s: string, start: nat, i: nat)
    requires start <= i < |s| && NoSeparatorIn(s, start, i) && SeparatorEnd(s, i).None?
    ensures NoSeparatorIn(s, start, i + 1)
  {
    assert !StartsSeparator(s, i);
  }

  /** A block in which no separator starts can go in front of such blocks. */
  lemma ConsLeftmost(s: string, start: nat, i: nat, tail: seq<(nat, nat)>)
    requires start <= i <= |s| && NoSeparatorIn(s, start, i)
    requires InRange(s, tail) && Leftmost(s, tail)
    ensures InRange(s, [(start, i)] + tail) && Leftmost(s, [(start, i)] + tail)
  {
    var r := [(start, i)] + tail;
    forall k | 0 <= k < |r| ensures r[k].0 <= r[k].1 <= |s| && NoSeparatorIn(s, r[k].0, r[k].1) {
      if k > 0 {
        assert r[k] == tail[k - 1];
      }
    }
  }

  /** The pieces of `s` named by `ranges`. */
  function Slices(s: string, ranges: seq<(nat, nat)>): (r: seq<string>)
    requires forall k :: 0 <= k < |ranges| ==> ranges[k].0 <= ranges[k].1 <= |s|
    ensures |r| == |ranges|
    ensures forall k :: 0 <= k < |ranges| ==> r[k] == s[ranges[k].0..ranges[k].1]
  {
    if |ranges| == 0 then [] else [s[ranges[0].0..ranges[0].1]] + Slices(s, ranges[1..])
  }

  /** `text.split(/\n\s*\n/)`. */
  function Blocks(text: string): seq<string> {
    Slices(text, Cuts(text, 0, 0))
  }

  /** No two line feeds in `b` enclose only whitespace. */
  predicate NoBlankLine(b: string) {
    forall p, q :: 0 <= p < q < |b| && b[p] == '\n' && b[q] == '\n' ==> !AllBy(b[p + 1..q], IsJsSpace)
  }

  /** A stretch of `s` in which no separator starts holds no blank line. */
  lemma NoSeparatorNoBlankLine(s: string, a: nat, c: nat)
    requires a <= c <= |s|
    requires NoSeparatorIn(s, a, c)
    ensures NoBlankLine(s[a..c])
  {
    var b := s[a..c];
    forall p, q | 0 <= p < q < |b| && b[p] == '\n' && b[q] == '\n' ensures !AllBy(b[p + 1..q], IsJsSpace) {
      var inner, within := b[p + 1..q], s[a + p + 1..a + q];
      assert forall j :: 0 <= j < |inner| ==> inner[j] == within[j];
      assert inner == within;
      assert !StartsSeparator(s, a + p);
      NoSeparatorMeansText(s, a + p, a + q);
    }
  }

  /** No block of the text holds a blank line, and consecutive blocks are apart by one separator. */
  lemma BlocksProperties(text: string)
    ensures |Blocks(text)| >= 1
    ensures forall k :: 0 <= k < |Blocks(text)| ==> NoBlankLine(Blocks(text)[k])
  {
    var r := Cuts(text, 0, 0);
    var blocks := Blocks(text);
    CutsLeftmost(text, 0, 0);
    forall k | 0 <= k < |blocks| ensures NoBlankLine(blocks[k]) {
      NoSeparatorNoBlankLine(text, r[k].0, r[k].1);
    }
  }

  /** Text without a blank line is one block. */
  lemma OneBlock(text: string)
    requires NoBlankLine(text)
    ensures Blocks(text) == [text]
  {
    forall p | 0 <= p < |text| ensures SeparatorEnd(text, p).None? {
      if SeparatorEnd(text, p).Some? {
        SeparatorMeansBlankLine(text, p);
      }
    }
    CutsWithoutSeparator(text, 0);
    assert text[0..|text|] == text;
  }

  lemma {:induction false} CutsWithoutSeparator(s: string, i: nat)
    requires i <= |s|
    requires forall p :: 0 <= p < |s| ==> SeparatorEnd(s, p).None?
    ensures Cuts(s, 0, i) == [(0, |s|)]
    decreases |s| - i
  {
    if i < |s| {
      CutsWithoutSeparator(s, i + 1);
    }
  }

  // ---------------------------------------------------------------------
  // Blocks to ideas
  // ---------------------------------------------------------------------

  datatype IdeaInput = IdeaInput(title: string, description: string)

  /** The list markers a title line may start with. */
  predicate IsMarker(c: char) {
    c == '-' || c == '*' || c == '\U{2022}'
  }

  /** The line with the pattern `^[-*•]?\s*` removed: at most one marker, then leading whitespace. */
  function StripMarker(line: string): (r: string)
    ensures |r| <= |line| && r == line[|line| - |r|..]
    ensures |r| == 0 || !IsJsSpace(r[0])
    // What is cut off is the marker, when the line starts with one, and then whitespace only.
    ensures var m := if |line| > 0 && IsMarker(line[0]) then 1 else 0;
      m <= |line| - |r| && AllBy(line[m..|line| - |r|], IsJsSpace)
  {
    if |line| > 0 && IsMarker(line[0]) then
      var r := TrimStartBy(line[1..], IsJsSpace);
      TrimStartRemovesSpace(line[1..], IsJsSpace);
      assert line[1..|line| - |r|] == line[1..][..|line| - 1 - |r|];
      r
    else
      TrimStartRemovesSpace(line, IsJsSpace);
      TrimStartBy(line, IsJsSpace)
  }

  /**
   * One block as an idea: the first line, without its marker and trimmed, is
   * the title; the other lines joined and trimmed are the description, which
   * falls back to the title when empty.
   */
  function ToIdea(block: string): (idea: IdeaInput)
    ensures IsTrimmed(idea.title) && '\n' !in idea.title
    ensures IsTrimmed(idea.description)
    ensures idea.title != "" ==> idea.description != ""
    ensures '\n' !in block ==> idea.description == idea.title
  {
    var lines := Lines(block);
    var title := Trim(StripMarker(lines[0]));
    var description := Trim(Join(lines[1..], "\n"));
    TrimKeepsAbsent(StripMarker(lines[0]), IsJsSpace, '\n');
    SingleLineHasNoRest(block);
    IdeaInput(title, if description == "" then title else description)
  }

  /**
    * Where the fields come from: the title is the first line with its marker and leading
    * whitespace cut off (see `StripMarker`), then trimmed; the description is the other
    * lines joined by line feeds and trimmed, or the title when that is empty.
    */
  lemma ToIdeaFields(block: string)
    ensures ToIdea(block).title == Trim(StripMarker(Lines(block)[0]))
    ensures var rest := Trim(Join(Lines(block)[1..], "\n"));
      ToIdea(block).description == if rest == "" then ToIdea(block).title else rest
  {
  }

  lemma SingleLineHasNoRest(block: string)
    ensures '\n' !in block ==> Lines(block)[1..] == []
  {
    if '\n' !in block {
      LinesOfLine(block);
    }
  }

  /**
    * A block written the way the form asks for it (an optional list marker and a space,
    * a one-line title, then the description on the lines below) reads back as exactly
    * that title and description; with no description the title stands in for it.
    */
  lemma MarkedBlockIdea(m: string, t: string, d: string)
    requires m == "" || (|m| == 2 && IsMarker(m[0]) && m[1] == ' ')
    requires IsTrimmed(t) && '\n' !in t && (m == "" && |t| > 0 ==> !IsMarker(t[0]))
    requires IsTrimmed(d)
    ensures ToIdea(m + t + (if d == "" then "" else "\n" + d)) == IdeaInput(t, if d == "" then t else d)
  {
    assert '\n' !in m + t by {
      assert forall k :: 0 <= k < |m| ==> m[k] != '\n';
    }
    TitleThenRest(m + t, d);
    StripOneMarker(m, t);
    TrimIdentity(t);
  }

  /** The first line of a block is its title line, and the rest trims back to the description. */
  lemma TitleThenRest(line: string, d: string)
    requires '\n' !in line && IsTrimmed(d)
    ensures var lines := Lines(line + (if d == "" then "" else "\n" + d));
      lines[0] == line && Trim(Join(lines[1..], "\n")) == d
  {
    LinesOfLine(line);
    if d == "" {
      assert line + "" == line;
    } else {
      assert line + ("\n" + d) == line + "\n" + d;
      LinesAppend(line, d);
      JoinLines(d);
      TrimIdentity(d);
    }
  }

  /** Removing the marker and the space after it from a marked title gives back the title. */
  lemma StripOneMarker(m: string, t: string)
    requires m == "" || (|m| == 2 && IsMarker(m[0]) && m[1] == ' ')
    requires IsTrimmed(t) && (m == "" && |t| > 0 ==> !IsMarker(t[0]))
    ensures StripMarker(m + t) == t
  {
    if m == "" {
      assert m + t == t;
    } else {
      assert (m + t)[1..] == " " + t;
      TrimStartLeading(" ", t, IsJsSpace);
    }
  }

  /** What one block contributes: its idea, or nothing when it trims to empty. */
  function BlockIdeas(block: string): (ideas: seq<IdeaInput>)
    ensures |ideas| <= 1
  {
    if Trim(block) != "" then [ToIdea(block)] else []
  }

  /** The ideas of the blocks that are not blank, in order. */
  function IdeasOf(blocks: seq<string>): (ideas: seq<IdeaInput>)
    ensures |ideas| <= |blocks|
  {
    if |blocks| == 0 then [] else BlockIdeas(blocks[0]) + IdeasOf(blocks[1..])
  }

  /** The form's `parseIdeas`: the ideas of the non-blank blocks of `text`. */
  function ParseIdeas(text: string): seq<IdeaInput> {
    IdeasOf(Blocks(text))
  }

  /** The number of blocks that hold more than whitespace. */
  function CountNonBlank(blocks: seq<string>): nat {
    if |blocks| == 0 then 0 else (if IsBlank(blocks[0]) then 0 else 1) + CountNonBlank(blocks[1..])
  }

  /** Every non-blank block yields exactly one idea, and whitespace-only blocks yield none. */
  lemma {:induction false} IdeasPerBlock(blocks: seq<string>)
    ensures |IdeasOf(blocks)| == CountNonBlank(blocks)
  {
    if |blocks| > 0 {
      TrimEmptyBy(blocks[0], IsJsSpace);
      IdeasPerBlock(blocks[1..]);
    }
  }

  /** Ideas are collected block by block: the ideas of joined block lists are joined. */
  lemma {:induction false} IdeasOfAppend(a: seq<string>, b: seq<string>)
    ensures IdeasOf(a + b) == IdeasOf(a) + IdeasOf(b)
  {
    if |a| > 0 {
      var rest := a[1..];
      assert a == [a[0]] + rest;
      assert a + b == [a[0]] + (rest + b);
      IdeasOfCons(a[0], rest + b);
      IdeasOfCons(a[0], rest);
      IdeasOfAppend(rest, b);
      AppendAssoc(BlockIdeas(a[0]), IdeasOf(rest), IdeasOf(b));
    } else {
      assert a + b == b;
    }
  }

  lemma IdeasOfCons(block: string, rest: seq<string>)
    ensures IdeasOf([block] + rest) == BlockIdeas(block) + IdeasOf(rest)
  {
    assert ([block] + rest)[1..] == rest;
  }

  /** A single block gives its own idea, or nothing when it is whitespace only. */
  lemma IdeasOfOne(block: string)
    ensures IsBlank(block) ==> IdeasOf([block]) == []
    ensures !IsBlank(block) ==> IdeasOf([block]) == [ToIdea(block)]
  {
    TrimEmptyBy(block, IsJsSpace);
    assert [block][1..] == [];
    assert IdeasOf([block]) == BlockIdeas(block) + [];
  }

  /** A trimmed one-line title and a trimmed description, non-empty when the title is. */
  predicate WellFormed(idea: IdeaInput) {
    && IsTrimmed(idea.title) && '\n' !in idea.title
    && IsTrimmed(idea.description)
    && (idea.title != "" ==> idea.description != "")
  }

  predicate AllWellFormed(ideas: seq<IdeaInput>) {
    forall k :: 0 <= k < |ideas| ==> WellFormed(ideas[k])
  }

  lemma ConsWellFormed(idea: IdeaInput, rest: seq<IdeaInput>)
    requires WellFormed(idea) && AllWellFormed(rest)
    ensures AllWellFormed([idea] + rest)
  {
    var ideas := [idea] + rest;
    forall k | 0 <= k < |ideas| ensures WellFormed(ideas[k]) {
      if k > 0 {
        assert ideas[k] == rest[k - 1];
      }
    }
  }

  /** Every parsed idea is well formed. */
  lemma {:induction false} ParsedIdeasWellFormed(blocks: seq<string>)
    ensures AllWellFormed(IdeasOf(blocks))
  {
    if |blocks| > 0 {
      ParsedIdeasWellFormed(blocks[1..]);
      if Trim(blocks[0]) != "" {
        ConsWellFormed(ToIdea(blocks[0]), IdeasOf(blocks[1..]));
      } else {
        assert IdeasOf(blocks) == IdeasOf(blocks[1..]);
      }
    }
  }

  /** A non-blank text without a blank line is a single idea. */
  lemma SingleIdea(text: string)
    requires NoBlankLine(text) && !IsBlank(text)
    ensures ParseIdeas(text) == [ToIdea(text)]
  {
    OneBlock(text);
    TrimEmptyBy(text, IsJsSpace);
  }

  /** Blocks that are all whitespace yield no idea. */
  lemma {:induction false} BlankBlocksNoIdeas(blocks: seq<string>)
    requires forall k :: 0 <= k < |blocks| ==> IsBlank(blocks[k])
    ensures IdeasOf(blocks) == []
  {
    if |blocks| > 0 {
      TrimEmptyBy(blocks[0], IsJsSpace);
      BlankBlocksNoIdeas(blocks[1..]);
    }
  }

  /** Text that is empty or all whitespace holds no idea. */
  lemma BlankTextNoIdeas(text: string)
    requires IsBlank(text)
    ensures ParseIdeas(text) == []
  {
    var r := Cuts(text, 0, 0);
    var blocks := Blocks(text);
    forall k | 0 <= k < |blocks| ensures IsBlank(blocks[k]) {
      var b := blocks[k];
      assert b == text[r[k].0..r[k].1];
      forall j | 0 <= j < |b| ensures IsJsSpace(b[j]) {
        assert b[j] == text[r[k].0 + j];
      }
    }
    BlankBlocksNoIdeas(blocks);
  }

  /**
   * A one-line text that is already trimmed and does not start with a list
   * marker is one idea, with the line as title and, for want of further
   * lines, as description too.
   */
  lemma PlainLineOneIdea(line: string)
    requires line != "" && '\n' !in line && IsTrimmed(line) && !IsMarker(line[0])
    ensures ParseIdeas(line) == [IdeaInput(line, line)]
  {
    assert !IsBlank(line) by { assert !IsJsSpace(line[0]); }
    assert NoBlankLine(line) by {
      forall p | 0 <= p < |line| ensures line[p] != '\n' {
        assert line[p] in line;
      }
    }
    SingleIdea(line);
    PlainLineIdea(line);
  }

  lemma PlainLineIdea(line: string)
    requires line != "" && '\n' !in line && IsTrimmed(line) && !IsMarker(line[0])
    ensures ToIdea(line) == IdeaInput(line, line)
  {
    assert Lines(line)[0] == line by { LinesOfLine(line); }
    assert StripMarker(line) == line;
    assert Trim(line) == line by { TrimIdentity(line); }
  }

  // ---------------------------------------------------------------------
  // Toasts
  // ---------------------------------------------------------------------

  datatype ToastKind = Success | Error

  datatype Toast = Toast(id: int, message: string, kind: ToastKind)

  /** The toasts whose id is not `id`, in their order. */
  function WithoutId(toasts: seq<Toast>, id: int): (r: seq<Toast>)
    ensures |r| <= |toasts|
    ensures forall k :: 0 <= k < |r| ==> r[k].id != id && r[k] in toasts
  {
    if |toasts| == 0 then []
    else if toasts[0].id != id then [toasts[0]] + WithoutId(toasts[1..], id)
    else WithoutId(toasts[1..], id)
  }

  /** Filtering by id works piecewise, so the remaining toasts keep their order. */
  lemma {:induction false} WithoutIdAppend(a: seq<Toast>, b: seq<Toast>, id: int)
    ensures WithoutId(a + b, id) == WithoutId(a, id) + WithoutId(b, id)
  {
    if |a| > 0 {
      assert (a + b)[1..] == a[1..] + b;
      WithoutIdAppend(a[1..], b, id);
    } else {
      assert a + b == b;
    }
  }

  /** A list without the id is left unchanged. */
  lemma {:induction false} WithoutAbsentId(toasts: seq<Toast>, id: int)
    requires forall k :: 0 <= k < |toasts| ==> toasts[k].id != id
    ensures WithoutId(toasts, id) == toasts
  {
    if |toasts| > 0 {
      WithoutAbsentId(toasts[1..], id);
    }
  }

  /** The expiry of a toast with a fresh id undoes its append. */
  lemma ExpiryUndoesShow(toasts: seq<Toast>, t: Toast)
    requires forall k :: 0 <= k < |toasts| ==> toasts[k].id != t.id
    ensures WithoutId(toasts + [t], t.id) == toasts
  {
    WithoutIdAppend(toasts, [t], t.id);
    WithoutAbsentId(toasts, t.id);
    assert WithoutId([t], t.id) == [];
  }

  // ---------------------------------------------------------------------
  // The form
  // ---------------------------------------------------------------------

  /** The body posted to the ideas endpoint. */
  datatype SubmitRequest = SubmitRequest(ideas: seq<IdeaInput>, creatorId: string)

  /**
   * The outcome of the post: an HTTP answer whose JSON was read (status ok or
   * not, the `groupId` and `message` fields, empty when absent), or a request
   * or body-parsing failure with its error message.
   */
  datatype SubmitReply = Answered(ok: bool, groupId: string, message: string) | Broken(error: string)

  class Form {
    var ideas: seq<IdeaInput>
    var currentInput: string
    var isSubmitting: bool
    var toasts: seq<Toast>

    /** The parsed ideas are those of the text in the box. */
    ghost predicate Synced()
      reads this`ideas, this`currentInput
    {
      ideas == ParseIdeas(currentInput)
    }

    constructor ()
      ensures Synced() && currentInput == "" && ideas == [] && !isSubmitting && toasts == []
    {
      ideas := [];
      currentInput := "";
      isSubmitting := false;
      toasts := [];
      new;
      BlankTextNoIdeas(currentInput);
    }

    /** A toast stamped with the current time `now` is appended. */
    method ShowToast(message: string, kind: ToastKind, now: int)
      modifies this`toasts
      ensures toasts == old(toasts) + [Toast(now, message, kind)]
    {
      toasts := toasts + [Toast(now, message, kind)];
    }

    /** The timeout of the toast stamped `id`: every toast with that id goes. */
    method ExpireToast(id: int)
      modifies this`toasts
      ensures toasts == WithoutId(old(toasts), id)
    {
      toasts := WithoutId(toasts, id);
    }

    /** Typing: the text and its parsed ideas are replaced together. */
    method HandleInputChange(value: string)
      modifies this`currentInput, this`ideas
      ensures currentInput == value && ideas == ParseIdeas(value)
    {
      var parsed := ParseIdeas(value);
      ideas := parsed;
      currentInput := value;
    }

    /** The "Clear All" button as written: it empties the text and leaves the parsed ideas as they were. */
    method ClearAllAsWritten()
      modifies this`currentInput
      ensures currentInput == "" && ideas == old(ideas)
    {
      currentInput := "";
    }

    /** "Clear All" as evidently intended: the text and its ideas are emptied together. */
    method ClearAll()
      modifies this`currentInput, this`ideas
      ensures currentInput == "" && ideas == []
    {
      currentInput := "";
      ideas := [];
    }

    /**
     * Submitting, with the stored creator id, the server's reply and the
     * current time as inputs. With no parsed idea, or no stored creator id, an
     * error toast is shown and nothing is sent. Otherwise the ideas are posted
     * once; success shows a success toast and redirects to the group's voting
     * page, failure shows the server's message or a fallback.
     */
    method HandleSubmit(storedCreatorId: Option<string>, reply: SubmitReply, now: int)
      returns (request: Option<SubmitRequest>, redirect: Option<string>)
      modifies this`isSubmitting, this`toasts
      ensures request.Some? <==> |ideas| > 0 && storedCreatorId.Some? && |storedCreatorId.value| > 0
      ensures request.Some? ==> request.value == SubmitRequest(ideas, storedCreatorId.value)
      ensures redirect.Some? <==> request.Some? && reply.Answered? && reply.ok
      ensures redirect.Some? ==> redirect.value == "/swipe/" + reply.groupId
      ensures |toasts| > 0 && toasts == old(toasts) + [toasts[|toasts| - 1]]
      ensures toasts[|toasts| - 1].kind == Success <==> redirect.Some?
      ensures !isSubmitting || (isSubmitting == old(isSubmitting) && request.None?)
    {
      request, redirect := None, None;
      if |ideas| == 0 {
        ShowToast("Please add at least one idea", Error, now);
        return;
      }
      if storedCreatorId.None? || |storedCreatorId.value| == 0 {
        ShowToast("Failed to identify creator", Error, now);
        return;
      }
      isSubmitting := true;
      request := Some(SubmitRequest(ideas, storedCreatorId.value));
      match reply {
        case Answered(ok, groupId, message) =>
          if ok {
            ShowToast("Ideas submitted successfully!", Success, now);
            redirect := Some("/swipe/" + groupId);
          } else {
            ShowToast(if message != "" then message else "Something went wrong", Error, now);
          }
        case Broken(error) =>
          ShowToast(error, Error, now);
      }
      isSubmitting := false;
    }
  }

  /**
   * The discrepancy in the form as written: once the box has held an idea
   * (typing a plain line such as "A" gives one, see `PlainLineOneIdea`), clearing it leaves the box
   * empty with no idea in its text, yet a submit still posts the old ideas.
   */
  method ClearThenSubmitSendsStaleIdea(form: Form, creatorId: string, reply: SubmitReply, now: int)
    returns (request: Option<SubmitRequest>)
    requires |form.ideas| > 0 && |creatorId| > 0
    modifies form
    ensures form.currentInput == "" && ParseIdeas(form.currentInput) == []
    ensures request == Some(SubmitRequest(old(form.ideas), creatorId))
  {
    form.ClearAllAsWritten();
    var redirect;
    request, redirect := form.HandleSubmit(Some(creatorId), reply, now);
    BlankTextNoIdeas(form.currentInput);
  }

  /** With the corrected button, clearing and submitting sends nothing, whatever the box held. */
  method ClearThenSubmitSendsNothing(form: Form, creatorId: string, reply: SubmitReply, now: int)
    returns (request: Option<SubmitRequest>)
    modifies form
    ensures form.Synced() && form.currentInput == "" && request.None?
  {
    form.ClearAll();
    var redirect;
    request, redirect := form.HandleSubmit(Some(creatorId), reply, now);
    BlankTextNoIdeas(form.currentInput);
  }
}
