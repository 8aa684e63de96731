/**
 * The collections dashboard: a bulk-idea text in which every line starting
 * with `-` is an idea (the line after it, when it is plain text, is its
 * description), the formatter that writes a collection's ideas back into
 * that text, and the handlers that create a collection, record vote
 * statistics and send the parsed ideas of the text.
 */
module Dashboard {
  import opened Wrappers
  import opened Text

  datatype ParsedIdea = ParsedIdea(title: string, description: string)

  // ---------------------------------------------------------------------
  // Parsing
  // ---------------------------------------------------------------------

  /** `s` starts with `-` (`s.startsWith('-')`). */
  predicate StartsWithDash(s: string) {
    |s| > 0 && s[0] == '-'
  }

  /** A line that starts an idea: once trimmed it starts with `-`. */
  predicate IsDashLine(line: string) {
    StartsWithDash(Trim(line))
  }

  /** The title of a dash line: the trimmed line without its `-`, trimmed again. */
  function TitleOf(line: string): string
    requires IsDashLine(line)
  {
    Trim(Trim(line)[1..])
  }

  /** The line after a dash line can serve as its description: it exists, is not blank, and is no dash line. */
  predicate HasDescription(after: seq<string>) {
    |after| > 0 && Trim(after[0]) != "" && !StartsWithDash(Trim(after[0]))
  }

  /**
   * The description taken from the lines after a dash line: the next line
   * trimmed, when there is one and it is neither empty nor a dash line;
   * otherwise empty.
   */
  function DescriptionOf(after: seq<string>): (d: string)
    ensures d == "" || (|after| > 0 && !IsDashLine(d) && d == Trim(after[0]))
    ensures d != "" <==> HasDescription(after)
  {
    if |after| == 0 then ""
    else
      var next := Trim(after[0]);
      if next != "" && !StartsWithDash(next) then
        TrimIdentity(after[0]);
        TrimOfTrim(after[0]);
        next
      else ""
  }

  lemma TrimOfTrim(s: string)
    ensures Trim(Trim(s)) == Trim(s)
  {
    TrimIdentity(Trim(s));
  }

  /** The ideas of `lines`: one per dash line, in line order. */
  function ParseLines(lines: seq<string>): seq<ParsedIdea> {
    if |lines| == 0 then []
    else if IsDashLine(lines[0]) then
      [ParsedIdea(TitleOf(lines[0]), DescriptionOf(lines[1..]))] + ParseLines(lines[1..])
    else ParseLines(lines[1..])
  }

  /** The number of dash lines. */
  function DashCount(lines: seq<string>): nat {
    if |lines| == 0 then 0 else (if IsDashLine(lines[0]) then 1 else 0) + DashCount(lines[1..])
  }

  /** Every dash line gives exactly one idea and no other line gives one. */
  lemma {:induction false} OneIdeaPerDashLine(lines: seq<string>)
    ensures |ParseLines(lines)| == DashCount(lines)
  {
    if |lines| > 0 {
      OneIdeaPerDashLine(lines[1..]);
    }
  }

  /** A one-line, trimmed text: what a title or a description is in this model. */
  predicate IsOneLine(s: string) {
    IsTrimmed(s) && '\n' !in s
  }

  /**
   * An idea the formatter writes so that the parser reads it back: a
   * one-line trimmed title, and a one-line trimmed description that does not
   * start with `-` (or none).
   */
  predicate Writable(idea: ParsedIdea) {
    IsOneLine(idea.title) && IsOneLine(idea.description) && !StartsWithDash(idea.description)
  }

  /** Every idea of `ideas` is one the formatter can write back (see `Writable`). */
  predicate AllWritable(ideas: seq<ParsedIdea>) {
    forall k :: 0 <= k < |ideas| ==> Writable(ideas[k])
  }

  lemma ConsWritable(idea: ParsedIdea, rest: seq<ParsedIdea>)
    requires Writable(idea) && AllWritable(rest)
    ensures AllWritable([idea] + rest)
  {
    var all := [idea] + rest;
    forall k | 0 <= k < |all| ensures Writable(all[k]) {
      if k > 0 {
        assert all[k] == rest[k - 1];
      }
    }
  }

  /**
   * What parsing lines without line breaks yields: one-line trimmed titles,
   * and descriptions that are one trimmed line not starting with `-`, or empty.
   */
  lemma {:induction false} ParsedShape(lines: seq<string>)
    requires forall k :: 0 <= k < |lines| ==> '\n' !in lines[k]
    ensures AllWritable(ParseLines(lines))
  {
    if |lines| > 0 {
      ParsedShape(lines[1..]);
      if IsDashLine(lines[0]) {
        var idea := ParsedIdea(TitleOf(lines[0]), DescriptionOf(lines[1..]));
        assert Writable(idea) by {
          TitleShape(lines[0]);
          DescriptionShape(lines[1..]);
        }
        ConsWritable(idea, ParseLines(lines[1..]));
      }
    }
  }

  lemma TitleShape(line: string)
    requires IsDashLine(line) && '\n' !in line
    ensures IsOneLine(TitleOf(line))
  {
    var t := Trim(line);
    assert '\n' !in t by { TrimKeepsAbsent(line, IsJsSpace, '\n'); }
    assert '\n' !in t[1..];
    TrimKeepsAbsent(t[1..], IsJsSpace, '\n');
  }

  lemma DescriptionShape(after: seq<string>)
    requires |after| > 0 ==> '\n' !in after[0]
    ensures IsOneLine(DescriptionOf(after)) && !StartsWithDash(DescriptionOf(after))
  {
    var d := DescriptionOf(after);
    if d != "" {
      TrimKeepsAbsent(after[0], IsJsSpace, '\n');
    }
  }

  /** The ideas parsed from any text are ones the formatter writes back. */
  lemma TextShape(text: string)
    ensures AllWritable(ParseLines(Lines(text)))
  {
    ParsedShape(Lines(text));
  }

  /**
   * The dashboard's `parseIdeas`: a pass over the lines of `text` that
   * appends an idea for every dash line, looking one line ahead for its
   * description.
   */
  method ParseIdeas(text: string) returns (acc: seq<ParsedIdea>)
    ensures acc == ParseLines(Lines(text))
  {
    var lines := Lines(text);
    acc := [];
    var i := 0;
    assert lines[0..] == lines;
    while i < |lines|
      invariant 0 <= i <= |lines|
      invariant acc + ParseLines(lines[i..]) == ParseLines(lines)
    {
      Advance(lines, i, acc);
      acc := acc + EntryAt(lines, i);
      i := i + 1;
    }
    NothingLeft(lines);
    assert acc + [] == acc;
  }

  /** Pushing the entry for line `i` keeps the loop invariant. */
  lemma Advance(lines: seq<string>, i: nat, acc: seq<ParsedIdea>)
    requires i < |lines| && acc + ParseLines(lines[i..]) == ParseLines(lines)
    ensures (acc + EntryAt(lines, i)) + ParseLines(lines[i + 1..]) == ParseLines(lines)
  {
    ParseStep(lines, i);
    AppendAssoc(acc, EntryAt(lines, i), ParseLines(lines[i + 1..]));
  }

  lemma NothingLeft(lines: seq<string>)
    ensures ParseLines(lines[|lines|..]) == []
  {
    assert lines[|lines|..] == [];
  }

  /**
   * The reducer's step for line `i`: a line that starts with `-` once
   * trimmed pushes an idea whose description is the next line, trimmed,
   * when that line exists, is not empty and does not start with `-`.
   */
  function EntryAt(lines: seq<string>, i: nat): seq<ParsedIdea>
    requires i < |lines|
  {
    var trimmedLine := Trim(lines[i]);
    if StartsWithDash(trimmedLine) then
      var title := Trim(trimmedLine[1..]);
      var nextLine := if i + 1 < |lines| then Trim(lines[i + 1]) else "";
      var description := if nextLine != "" && !StartsWithDash(nextLine) then nextLine else "";
      [ParsedIdea(title, description)]
    else []
  }

  lemma ParseStep(lines: seq<string>, i: nat)
    requires i < |lines|
    ensures ParseLines(lines[i..]) == EntryAt(lines, i) + ParseLines(lines[i + 1..])
  {
    assert lines[i..] == [lines[i]] + lines[i + 1..];
    NextLineDescription(lines, i);
    if IsDashLine(lines[i]) {
      ParseDashLine(lines[i], lines[i + 1..]);
    } else {
      ParsePlainLine(lines[i], lines[i + 1..]);
    }
  }

  /** The description looked up from line `i` is the next line's, as `DescriptionOf` takes it. */
  lemma NextLineDescription(lines: seq<string>, i: nat)
    requires i < |lines|
    ensures DescriptionOf(lines[i + 1..]) ==
      var nextLine := if i + 1 < |lines| then Trim(lines[i + 1]) else "";
      if nextLine != "" && !StartsWithDash(nextLine) then nextLine else ""
  {
  }

  // ---------------------------------------------------------------------
  // Formatting and the round trip
  // ---------------------------------------------------------------------

  /** One idea as text: `- title`, and the description on the next line when there is one. */
  function Render(idea: ParsedIdea): string {
    "- " + idea.title + (if idea.description != "" then "\n" + idea.description else "")
  }

  function Renders(items: seq<ParsedIdea>): (r: seq<string>)
    ensures |r| == |items|
    ensures forall k :: 0 <= k < |items| ==> r[k] == Render(items[k])
  {
    if |items| == 0 then [] else [Render(items[0])] + Renders(items[1..])
  }

  /** The formatter: the rendered ideas with a blank line between consecutive ones. */
  function Format(items: seq<ParsedIdea>): (t: string)
    ensures t == "" <==> |items| == 0
  {
    Join(Renders(items), "\n\n")
  }

  /** The lines of one rendered idea. */
  function RenderLines(idea: ParsedIdea): seq<string> {
    ["- " + idea.title] + (if idea.description != "" then [idea.description] else [])
  }

  /** The lines of the formatted text. */
  function FormattedLines(items: seq<ParsedIdea>): seq<string> {
    if |items| == 0 then [""]
    else RenderLines(items[0]) + (if |items| == 1 then [] else [""] + FormattedLines(items[1..]))
  }

  lemma RenderLinesOf(idea: ParsedIdea)
    requires Writable(idea)
    ensures Lines(Render(idea)) == RenderLines(idea)
  {
    var head := "- " + idea.title;
    assert '\n' !in head by {
      assert forall k :: 0 <= k < |head| ==> head[k] != '\n' by {
        forall k | 0 <= k < |head| ensures head[k] != '\n' {
          if k >= 2 {
            assert head[k] == idea.title[k - 2];
          }
        }
      }
    }
    LinesOfLine(head);
    if idea.description != "" {
      assert Render(idea) == head + "\n" + idea.description;
      LinesOfLine(idea.description);
      LinesAppend(head, idea.description);
    } else {
      assert Render(idea) == head;
    }
  }

  /** Splitting the formatted text into lines gives the rendered lines with a blank line between ideas. */
  lemma {:induction false} FormatLines(items: seq<ParsedIdea>)
    requires forall k :: 0 <= k < |items| ==> Writable(items[k])
    ensures Lines(Format(items)) == FormattedLines(items)
  {
    if |items| == 1 {
      RenderLinesOf(items[0]);
    } else if |items| > 1 {
      var rs := Renders(items);
      assert rs[1..] == Renders(items[1..]);
      var first, rest := Render(items[0]), Format(items[1..]);
      assert Format(items) == first + "\n\n" + rest;
      assert first + "\n\n" + rest == first + "\n" + ("" + "\n" + rest);
      LinesAppend(first, "" + "\n" + rest);
      LinesAppend("", rest);
      assert "" + "\n" + rest == "\n" + rest;
      FormatLines(items[1..]);
      RenderLinesOf(items[0]);
    }
  }

  /** The dash line written for a trimmed title parses back to that title. */
  lemma TitleRoundTrip(title: string)
    requires IsTrimmed(title)
    ensures IsDashLine("- " + title) && TitleOf("- " + title) == title
  {
    if title == "" {
      LoneDashTitle("- " + title);
    } else {
      DashTitle(title);
    }
  }

  lemma DashTitle(title: string)
    requires IsTrimmed(title) && title != ""
    ensures IsDashLine("- " + title) && TitleOf("- " + title) == title
  {
    assert ("- " + title)[1..] == " " + title;
    DashLineTrimmed(title);
    SpaceThenTitle(title);
  }

  lemma DashLineTrimmed(title: string)
    requires IsTrimmed(title) && title != ""
    ensures Trim("- " + title) == "- " + title
  {
    var line := "- " + title;
    assert line[0] == '-' && line[|line| - 1] == title[|title| - 1];
    TrimIdentity(line);
  }

  lemma SpaceThenTitle(title: string)
    requires IsTrimmed(title)
    ensures Trim(" " + title) == title
  {
    assert IsBlank(" ") by { assert IsJsSpace(" "[0]); }
    TrimLeadingSpace(" ", title);
    TrimIdentity(title);
  }

  /** A dash followed by a space is a dash line with an empty title. */
  lemma LoneDashTitle(line: string)
    requires |line| == 2 && line[0] == '-' && line[1] == ' '
    ensures IsDashLine(line) && TitleOf(line) == ""
  {
    var dash := line[..1];
    assert TrimStartBy(line, IsJsSpace) == line;
    assert line[..|line| - 1] == dash;
    assert TrimEndBy(dash, IsJsSpace) == dash;
    assert TrimEndBy(line, IsJsSpace) == dash;
    assert Trim(line) == dash;
    assert dash[1..] == "";
    TrimIdentity("");
  }

  /** A description line written by the formatter is its own description and starts no idea. */
  lemma DescriptionRoundTrip(d: string, after: seq<string>)
    requires IsTrimmed(d) && d != "" && !StartsWithDash(d)
    ensures DescriptionOf([d] + after) == d && !IsDashLine(d)
  {
    TrimIdentity(d);
  }

  /** The blank line between two rendered ideas starts none and is no description. */
  lemma BlankLine(after: seq<string>)
    ensures !IsDashLine("") && DescriptionOf([""] + after) == ""
  {
    TrimIdentity("");
  }

  lemma ParseDashLine(line: string, after: seq<string>)
    requires IsDashLine(line)
    ensures ParseLines([line] + after) == [ParsedIdea(TitleOf(line), DescriptionOf(after))] + ParseLines(after)
  {
    assert ([line] + after)[1..] == after;
  }

  lemma ParsePlainLine(line: string, after: seq<string>)
    requires !IsDashLine(line)
    ensures ParseLines([line] + after) == ParseLines(after)
  {
    assert ([line] + after)[1..] == after;
  }

  /** The parser reads the formatted lines back as the ideas they were written from. */
  lemma {:induction false} ParseFormattedLines(items: seq<ParsedIdea>)
    requires forall k :: 0 <= k < |items| ==> Writable(items[k])
    ensures ParseLines(FormattedLines(items)) == items
  {
    if |items| == 0 {
      NothingFormatted();
    } else {
      assert |items| == 1 || ParseLines(FormattedLines(items[1..])) == items[1..] by {
        if |items| > 1 {
          ParseFormattedLines(items[1..]);
        }
      }
      ParseFormattedFirst(items);
    }
  }

  /** The text written for no idea is one empty line, which parses to nothing. */
  lemma NothingFormatted()
    ensures ParseLines(FormattedLines([])) == []
  {
    OneBlankLine(FormattedLines([]));
  }

  lemma OneBlankLine(lines: seq<string>)
    requires lines == [""]
    ensures ParseLines(lines) == []
  {
    assert !IsDashLine(lines[0]) by { BlankLine([]); }
    assert lines[1..] == [];
  }

  /** A writable first idea, in front of ideas whose lines parse back, parses back in front of them. */
  lemma ParseFormattedFirst(items: seq<ParsedIdea>)
    requires |items| > 0 && Writable(items[0])
    requires |items| == 1 || ParseLines(FormattedLines(items[1..])) == items[1..]
    ensures ParseLines(FormattedLines(items)) == items
  {
    var tail: seq<string> := if |items| == 1 then [] else [""] + FormattedLines(items[1..]);
    if |items| > 1 {
      BlankLine(FormattedLines(items[1..]));
      ParsePlainLine("", FormattedLines(items[1..]));
    }
    ParseRendered(items[0], tail);
    assert [items[0]] + items[1..] == items;
  }

  /** The lines of a rendered idea, followed by a blank line or by nothing, parse to that idea first. */
  lemma ParseRendered(x: ParsedIdea, tail: seq<string>)
    requires Writable(x)
    requires tail == [] || tail[0] == ""
    ensures ParseLines(RenderLines(x) + tail) == [x] + ParseLines(tail)
  {
    var afterHead := (if x.description != "" then [x.description] else []) + tail;
    assert RenderLines(x) + tail == ["- " + x.title] + afterHead;
    assert DescriptionOf(afterHead) == x.description && ParseLines(afterHead) == ParseLines(tail) by {
      if x.description != "" {
        DescriptionRoundTrip(x.description, tail);
        ParsePlainLine(x.description, tail);
      } else {
        assert afterHead == tail;
        if tail != [] {
          assert tail == [""] + tail[1..];
          BlankLine(tail[1..]);
        }
      }
    }
    TitleRoundTrip(x.title);
    ParseDashLine("- " + x.title, afterHead);
  }

  /**
   * Round trip: formatting a collection's ideas into the bulk text and
   * parsing that text gives the same ideas back, for one-line trimmed
   * titles and descriptions whose description does not start with `-`.
   */
  lemma FormatThenParse(items: seq<ParsedIdea>)
    requires forall k :: 0 <= k < |items| ==> Writable(items[k])
    ensures ParseLines(Lines(Format(items))) == items
  {
    FormatLines(items);
    ParseFormattedLines(items);
  }

  /**
   * Writing the ideas parsed from any text back into the bulk text and
   * parsing again gives the same ideas: the formatter loses nothing the
   * parser found.
   */
  lemma ParseFormatParse(text: string)
    ensures ParseLines(Lines(Format(ParseLines(Lines(text))))) == ParseLines(Lines(text))
  {
    TextShape(text);
    FormatThenParse(ParseLines(Lines(text)));
  }

  // ---------------------------------------------------------------------
  // The dashboard's state
  // ---------------------------------------------------------------------

  datatype Collection = Collection(id: string, name: string, ideas: seq<ParsedIdea>)

  datatype VoteStats = VoteStats(up: int, down: int)

  /** The ideas sent to a collection: its id and the parsed ideas. */
  datatype BulkUpdate = BulkUpdate(collectionId: string, ideas: seq<ParsedIdea>)

  /** The index of the first collection with id `id`, or the length when there is none. */
  function FindIndex(collections: seq<Collection>, id: string): (k: nat)
    ensures k <= |collections|
    ensures k < |collections| ==> collections[k].id == id
    ensures forall j :: 0 <= j < k ==> collections[j].id != id
  {
    if |collections| == 0 || collections[0].id == id then 0
    else 1 + FindIndex(collections[1..], id)
  }

  /** The first collection with id `id` (`Array.prototype.find`). */
  function Find(collections: seq<Collection>, id: string): (r: Option<Collection>)
    ensures r.Some? ==> r.value in collections && r.value.id == id
    ensures r.None? <==> forall j :: 0 <= j < |collections| ==> collections[j].id != id
  {
    var k := FindIndex(collections, id);
    if k < |collections| then Some(collections[k]) else None
  }

  class Home {
    var collectionName: string
    var selectedCollection: string
    var collections: seq<Collection>
    var bulkIdeas: string
    var stats: map<string, VoteStats>

    constructor ()
      ensures collectionName == "" && selectedCollection == "" && collections == []
      ensures bulkIdeas == "" && stats == map[]
    {
      collectionName := "";
      selectedCollection := "";
      collections := [];
      bulkIdeas := "";
      stats := map[];
    }

    /**
     * Creating a collection, with the created collection from the server as
     * `reply` (`None` when the request failed). A whitespace-only name sends
     * nothing; a created collection is appended and the name box emptied; a
     * failure changes nothing.
     */
    method CreateCollection(reply: Option<Collection>) returns (request: Option<string>)
      modifies this`collections, this`collectionName
      ensures request.None? <==> IsBlank(old(collectionName))
      ensures request.Some? ==> request.value == old(collectionName)
      ensures request.Some? && reply.Some? ==>
        collections == old(collections) + [reply.value] && collectionName == ""
      ensures request.None? || reply.None? ==>
        collections == old(collections) && collectionName == old(collectionName)
    {
      TrimEmptyBy(collectionName, IsJsSpace);
      if Trim(collectionName) == "" {
        return None;
      }
      request := Some(collectionName);
      if reply.Some? {
        collections := collections + [reply.value];
        collectionName := "";
      }
    }

    /** The statistics of one collection arrive (`None` when the request failed). */
    method FetchStats(collectionId: string, reply: Option<VoteStats>)
      modifies this`stats
      ensures reply.Some? ==> collectionId in stats && stats[collectionId] == reply.value
      ensures reply.None? ==> stats == old(stats)
      ensures forall id :: id != collectionId ==>
        (id in stats <==> id in old(stats)) && (id in stats ==> stats[id] == old(stats)[id])
    {
      if reply.Some? {
        stats := stats[collectionId := reply.value];
      }
    }

    /**
     * The effect that runs when the selection or the collections change: a
     * selected collection that is found has its ideas formatted into the
     * bulk text; otherwise the text stays.
     */
    method SyncBulkIdeas()
      modifies this`bulkIdeas
      ensures selectedCollection != "" && Find(collections, selectedCollection).Some? ==>
        bulkIdeas == Format(Find(collections, selectedCollection).value.ideas)
      ensures selectedCollection == "" || Find(collections, selectedCollection).None? ==>
        bulkIdeas == old(bulkIdeas)
    {
      if selectedCollection != "" {
        var collection := Find(collections, selectedCollection);
        if collection.Some? {
          bulkIdeas := Format(collection.value.ideas);
        }
      }
    }

    /**
     * Sending the bulk text to the selected collection. Without a selection
     * or with a blank text nothing is sent; otherwise the parsed ideas of the
     * text go to the selected collection.
     */
    method AddBulkIdeas() returns (request: Option<BulkUpdate>)
      ensures request.None? <==> selectedCollection == "" || IsBlank(bulkIdeas)
      ensures request.Some? ==>
        request.value == BulkUpdate(selectedCollection, ParseLines(Lines(bulkIdeas)))
    {
      TrimEmptyBy(bulkIdeas, IsJsSpace);
      if selectedCollection == "" || Trim(bulkIdeas) == "" {
        return None;
      }
      var ideas := ParseIdeas(bulkIdeas);
      request := Some(BulkUpdate(selectedCollection, ideas));
    }
  }

  /**
   * Selecting a collection whose ideas are writable and syncing puts a text
   * in the box whose parsed ideas are exactly that collection's ideas, so
   * sending it back sends those ideas.
   */
  method SelectThenResend(home: Home, id: string) returns (request: Option<BulkUpdate>)
    requires id != "" && Find(home.collections, id).Some?
    requires var items := Find(home.collections, id).value.ideas;
      |items| > 0 && forall k :: 0 <= k < |items| ==> Writable(items[k])
    modifies home`selectedCollection, home`bulkIdeas
    ensures request == Some(BulkUpdate(id, Find(home.collections, id).value.ideas))
  {
    var items := Find(home.collections, id).value.ideas;
    home.selectedCollection := id;
    home.SyncBulkIdeas();
    assert home.bulkIdeas == Format(items);
    FormatThenParse(items);
    assert ParseLines(Lines(home.bulkIdeas)) == items;
    ParsedMeansNotBlank(home.bulkIdeas);
    request := home.AddBulkIdeas();
  }

  /** Every line of a blank text is blank. */
  lemma {:induction false} BlankLines(text: string)
    requires IsBlank(text)
    ensures forall k :: 0 <= k < |Lines(text)| ==> IsBlank(Lines(text)[k])
  {
    if |text| > 0 {
      BlankLines(text[1..]);
      var rest, lines := Lines(text[1..]), Lines(text);
      if text[0] != '\n' {
        assert lines[0] == [text[0]] + rest[0];
        assert forall k :: 1 <= k < |lines| ==> lines[k] == rest[k];
      } else {
        assert forall k :: 1 <= k < |lines| ==> lines[k] == rest[k - 1];
      }
    }
  }

  /** Blank lines start no idea. */
  lemma {:induction false} BlankLinesParseToNothing(lines: seq<string>)
    requires forall k :: 0 <= k < |lines| ==> IsBlank(lines[k])
    ensures ParseLines(lines) == []
  {
    if |lines| > 0 {
      TrimEmptyBy(lines[0], IsJsSpace);
      BlankLinesParseToNothing(lines[1..]);
    }
  }

  /** A text from which an idea parses is not blank, so `AddBulkIdeas` sends it. */
  lemma ParsedMeansNotBlank(text: string)
    requires ParseLines(Lines(text)) != []
    ensures !IsBlank(text)
  {
    if IsBlank(text) {
      BlankLines(text);
      BlankLinesParseToNothing(Lines(text));
    }
  }
}
