/**
 * Context formatting for the report graph (backend/utils.py): rendering
 * finished sections as text, flattening, de-duplicating and rendering web
 * search results, and running a batch of searches against the provider.
 */
module Utils {
  import opened Wrappers
  import opened Text
  import opened State

  // ---------------------------------------------------------------------
  // textwrap.dedent
  // ---------------------------------------------------------------------

  /** A line of spaces and tabs only (or empty): dedent empties it and ignores it for the margin. */
  predicate BlankLine(l: string)
  {
    forall k :: 0 <= k < |l| ==> l[k] == ' ' || l[k] == '\t'
  }

  /** The leading spaces and tabs of a line. */
  function Indentation(l: string): (r: string)
    ensures r <= l
    ensures BlankLine(r)
    ensures |r| < |l| ==> l[|r|] != ' ' && l[|r|] != '\t'
  {
    if |l| == 0 || (l[0] != ' ' && l[0] != '\t') then ""
    else [l[0]] + Indentation(l[1..])
  }

  /** The longest common prefix of two strings. */
  function CommonPrefix(a: string, b: string): (r: string)
    ensures r <= a && r <= b
    ensures |r| < |a| && |r| < |b| ==> a[|r|] != b[|r|]
  {
    if |a| == 0 || |b| == 0 || a[0] != b[0] then ""
    else [a[0]] + CommonPrefix(a[1..], b[1..])
  }

  /**
   * dedent's margin: the common indentation of the non-blank lines, folded
   * in line order; `None` when every line is blank.
   */
  function Margin(lines: seq<string>): Option<string>
  {
    if |lines| == 0 then None
    else
      var m := Margin(lines[..|lines| - 1]);
      var l := lines[|lines| - 1];
      if BlankLine(l) then m
      else match m
        case None => Some(Indentation(l))
        case Some(x) => Some(CommonPrefix(x, Indentation(l)))
  }

  /** One line after dedent: blank lines are emptied, the margin is cut from the others. */
  function DedentLine(l: string, margin: string): string
  {
    if BlankLine(l) then "" else if margin <= l then l[|margin|..] else l
  }

  /** Dedents every line with the same margin. */
  function DedentLines(lines: seq<string>, margin: string): (r: seq<string>)
    ensures |r| == |lines|
    ensures forall k :: 0 <= k < |lines| ==> r[k] == DedentLine(lines[k], margin)
  {
    seq(|lines|, k requires 0 <= k < |lines| => DedentLine(lines[k], margin))
  }

  /** `textwrap.dedent(text)`. */
  function Dedent(text: string): string
  {
    var lines := SplitLines(text);
    Join("\n", DedentLines(lines, Margin(lines).GetOr("")))
  }

  /** A non-blank line without indentation forces the margin to be empty. */
  lemma {:induction false} MarginWithUnindentedLine(lines: seq<string>, k: nat)
    requires k < |lines| && !BlankLine(lines[k]) && Indentation(lines[k]) == ""
    ensures Margin(lines) == Some("")
    decreases |lines|
  {
    var init := lines[..|lines| - 1];
    if k < |lines| - 1 {
      assert init[k] == lines[k];
      MarginWithUnindentedLine(init, k);
    }
  }

  /** Dedent with an empty margin only empties the blank lines. */
  lemma DedentLinesAppend(a: seq<string>, b: seq<string>, margin: string)
    ensures DedentLines(a + b, margin) == DedentLines(a, margin) + DedentLines(b, margin)
  {
  }

  // ---------------------------------------------------------------------
  // format_sections
  // ---------------------------------------------------------------------

  /** Twelve spaces: the indentation of the template's lines. */
  const Indent: string := "            "

  /** Ten dashes. */
  const Dashes10: string := "----------"

  /** Eighty dashes: `'-' * 80`. */
  const Separator: string := Dashes10 + Dashes10 + Dashes10 + Dashes10 + Dashes10 + Dashes10 + Dashes10 + Dashes10

  /** The closing line of the template: eight spaces left before the closing quotes. */
  const Spaces8: string := "        "

  /** The separator is eighty dashes, a single line with no indentation. */
  lemma SeparatorFacts()
    ensures |Separator| == 80 && forall k :: 0 <= k < 80 ==> Separator[k] == '-'
    ensures '\n' !in Separator && !BlankLine(Separator) && Indentation(Separator) == ""
  {
    assert Separator[0] == '-';
  }

  lemma TailLines()
    ensures FlatLines([Indent, Separator, "", Spaces8]) == [Indent, Separator, "", Spaces8]
  {
    SeparatorFacts();
    IndentFacts();
    FlatLinesSingleLines([Indent, Separator, "", Spaces8]);
  }

  /** The two indentations are single blank lines. */
  lemma IndentFacts()
    ensures |Indent| == 12 && BlankLine(Indent) && '\n' !in Indent
    ensures BlankLine(Spaces8) && '\n' !in Spaces8
  {
  }

  /** `str(b)` for a Python bool. */
  function PyBool(b: bool): string
  {
    if b then "True" else "False"
  }

  /** `section.content if section.content else '[no content]'`. */
  function ContentOrPlaceholder(content: string): string
  {
    if content == "" then "[no content]" else content
  }

  /**
   * The lines of the section template after interpolation and before
   * dedent. The `\n` escape before the separator puts the separator at
   * column 0; the closing quotes leave a last line of eight spaces.
   */
  function TemplateLines(s: Section): (ls: seq<string>)
    ensures |ls| == 12
  {
    [ Indent + "SECTION TITLE:", Indent + s.name,
      Indent + "DESCRIPTION:", Indent + s.description,
      Indent + "REQUIRES RESEARCH:", Indent + PyBool(s.research),
      Indent + "CONTENT:", Indent + ContentOrPlaceholder(s.content),
      Indent, Separator, "", Spaces8 ]
  }

  /** The text of one section: the dedented template. */
  function FormatSection(s: Section): string
  {
    Dedent(Join("\n", TemplateLines(s)))
  }

  /** The lines of each part, in order: what splitting their join on newlines gives. */
  function FlatLines(parts: seq<string>): (r: seq<string>)
    ensures |r| >= |parts|
    ensures forall k :: 0 <= k < |r| ==> '\n' !in r[k]
  {
    if |parts| == 0 then [] else FlatLines(parts[..|parts| - 1]) + SplitLines(parts[|parts| - 1])
  }

  lemma {:induction false} FlatLinesAppend(a: seq<string>, b: seq<string>)
    ensures FlatLines(a + b) == FlatLines(a) + FlatLines(b)
    decreases |b|
  {
    if |b| == 0 {
      assert a + b == a;
    } else {
      assert (a + b)[..|a + b| - 1] == a + b[..|b| - 1];
      FlatLinesAppend(a, b[..|b| - 1]);
    }
  }

  lemma {:induction false} FlatLinesSingleLines(parts: seq<string>)
    requires forall k :: 0 <= k < |parts| ==> '\n' !in parts[k]
    ensures FlatLines(parts) == parts
    decreases |parts|
  {
    if |parts| > 0 {
      FlatLinesSingleLines(parts[..|parts| - 1]);
      SplitLinesSingle(parts[|parts| - 1]);
    }
  }

  /** Splitting a join on newlines gives the lines of the parts. */
  lemma {:induction false} SplitJoin(parts: seq<string>)
    requires |parts| > 0
    ensures SplitLines(Join("\n", parts)) == FlatLines(parts)
    decreases |parts|
  {
    if |parts| == 1 {
      assert parts[..0] == [];
    } else {
      SplitJoin(parts[..|parts| - 1]);
      SplitLinesAppend(Join("\n", parts[..|parts| - 1]), parts[|parts| - 1]);
    }
  }

  /** Joining two non-empty runs of parts puts one separator between them. */
  lemma {:induction false} JoinAppend(sep: string, a: seq<string>, b: seq<string>)
    requires |a| > 0 && |b| > 0
    ensures Join(sep, a + b) == Join(sep, a) + sep + Join(sep, b)
    decreases |b|
  {
    if |b| == 1 {
      JoinSnoc(sep, a, b[0]);
    } else {
      var init := b[..|b| - 1];
      JoinAppend(sep, a, init);
      assert a + b == (a + init) + [b[|b| - 1]];
      JoinSnoc(sep, a + init, b[|b| - 1]);
      JoinSnoc(sep, init, b[|b| - 1]);
    }
  }

  /** The last four template lines are single lines: the blank indentation, the separator, two blanks. */
  lemma TemplateSplit(s: Section)
    ensures SplitLines(Join("\n", TemplateLines(s)))
         == FlatLines(TemplateLines(s)[..8]) + [Indent, Separator, "", Spaces8]
  {
    var ls := TemplateLines(s);
    SplitJoin(ls);
    var tail := [Indent, Separator, "", Spaces8];
    assert ls == ls[..8] + tail;
    FlatLinesAppend(ls[..8], tail);
    TailLines();
  }

  /** When some line is non-blank and unindented, dedent only empties the blank lines. */
  lemma DedentEmptyMargin(text: string, k: nat)
    requires k < |SplitLines(text)|
    requires !BlankLine(SplitLines(text)[k]) && Indentation(SplitLines(text)[k]) == ""
    ensures Dedent(text) == Join("\n", DedentLines(SplitLines(text), ""))
  {
    MarginWithUnindentedLine(SplitLines(text), k);
  }

  /**
   * The separator line has no indentation, so dedent's margin is empty:
   * a section's text is its template's lines, unindented lines kept as
   * they are and lines of spaces and tabs emptied.
   */
  lemma FormatSectionKeepsIndentation(s: Section)
    ensures FormatSection(s) == Join("\n", DedentLines(FlatLines(TemplateLines(s)), ""))
  {
    var text := Join("\n", TemplateLines(s));
    TemplateSplit(s);
    SplitJoin(TemplateLines(s));
    var head := FlatLines(TemplateLines(s)[..8]);
    assert SplitLines(text)[|head| + 1] == Separator;
    SeparatorFacts();
    DedentEmptyMargin(text, |head| + 1);
  }

  /** Every section's text ends with the 80-dash separator line and an empty line. */
  lemma FormatSectionEndsWithSeparator(s: Section)
    ensures var t := FormatSection(s);
      |t| >= 83 && t[|t| - 83..] == "\n" + Separator + "\n\n"
  {
    FormatSectionKeepsIndentation(s);
    TemplateSplit(s);
    SplitJoin(TemplateLines(s));
    var fh := FlatLines(TemplateLines(s)[..8]);
    var tail := [Indent, Separator, "", Spaces8];
    DedentLinesAppend(fh, tail, "");
    var dt := DedentTail();
    var dh := DedentLines(fh, "");
    assert |fh| > 0;
    JoinAppend("\n", dh, dt);
  }

  /** The dedented last four lines join to a newline, the separator and two newlines. */
  lemma DedentTail() returns (dt: seq<string>)
    ensures dt == DedentLines([Indent, Separator, "", Spaces8], "")
    ensures Join("\n", dt) == "\n" + Separator + "\n\n"
  {
    SeparatorFacts();
    IndentFacts();
    dt := DedentLines([Indent, Separator, "", Spaces8], "");
    assert dt == ["", Separator, "", ""];
    JoinSnoc("\n", [""], Separator);
    assert [""] + [Separator] == ["", Separator];
    JoinSnoc("\n", ["", Separator], "");
    assert ["", Separator] + [""] == ["", Separator, ""];
    JoinSnoc("\n", ["", Separator, ""], "");
    assert ["", Separator, ""] + [""] == dt;
  }

  /** A field's line after dedent: emptied when the value is only spaces and tabs. */
  function FieldLine(v: string): string
  {
    if BlankLine(v) then "" else Indent + v
  }

  lemma FieldLineDedent(v: string)
    ensures DedentLine(Indent + v, "") == FieldLine(v)
  {
    if !BlankLine(v) {
      var k :| 0 <= k < |v| && v[k] != ' ' && v[k] != '\t';
      assert (Indent + v)[12 + k] == v[k];
    }
  }

  /** The lines a section renders as when its fields have no newline. */
  function RenderedLines(s: Section): (ls: seq<string>)
    ensures |ls| == 12
  {
    [ Indent + "SECTION TITLE:", FieldLine(s.name),
      Indent + "DESCRIPTION:", FieldLine(s.description),
      Indent + "REQUIRES RESEARCH:", Indent + PyBool(s.research),
      Indent + "CONTENT:", FieldLine(ContentOrPlaceholder(s.content)),
      "", Separator, "", "" ]
  }

  /** With newline-free fields, the template's lines are single lines. */
  lemma TemplateLinesSingle(s: Section)
    requires '\n' !in s.name && '\n' !in s.description && '\n' !in s.content
    ensures FlatLines(TemplateLines(s)) == TemplateLines(s)
  {
    var ls := TemplateLines(s);
    IndentFacts();
    SeparatorFacts();
    assert '\n' !in ContentOrPlaceholder(s.content);
    assert '\n' !in PyBool(s.research);
    forall k | 0 <= k < |ls| ensures '\n' !in ls[k] {
    }
    FlatLinesSingleLines(ls);
  }

  /** Each template line dedents to the corresponding rendered line. */
  lemma TemplateLinesDedent(s: Section)
    ensures DedentLines(TemplateLines(s), "") == RenderedLines(s)
  {
    var ls := TemplateLines(s);
    var rs := RenderedLines(s);
    IndentFacts();
    SeparatorFacts();
    FieldLineDedent(s.name);
    FieldLineDedent(s.description);
    FieldLineDedent(ContentOrPlaceholder(s.content));
    FieldLineDedent("SECTION TITLE:");
    FieldLineDedent("DESCRIPTION:");
    FieldLineDedent("REQUIRES RESEARCH:");
    FieldLineDedent(PyBool(s.research));
    FieldLineDedent("CONTENT:");
    assert !BlankLine("SECTION TITLE:") by { assert "SECTION TITLE:"[0] == 'S'; }
    assert !BlankLine("DESCRIPTION:") by { assert "DESCRIPTION:"[0] == 'D'; }
    assert !BlankLine("REQUIRES RESEARCH:") by { assert "REQUIRES RESEARCH:"[0] == 'R'; }
    assert !BlankLine("CONTENT:") by { assert "CONTENT:"[0] == 'C'; }
    assert !BlankLine(PyBool(s.research)) by { assert PyBool(s.research)[1] != ' '; }
    forall k | 0 <= k < 12 ensures DedentLine(ls[k], "") == rs[k] {
    }
  }

  /** With newline-free fields a section renders as exactly the twelve rendered lines. */
  lemma FormatSectionLines(s: Section)
    requires '\n' !in s.name && '\n' !in s.description && '\n' !in s.content
    ensures FormatSection(s) == Join("\n", RenderedLines(s))
  {
    FormatSectionKeepsIndentation(s);
    TemplateLinesSingle(s);
    TemplateLinesDedent(s);
  }

  /** An empty content renders as the `[no content]` placeholder. */
  lemma EmptyContentPlaceholder(s: Section)
    requires s.content == ""
    ensures FormatSection(s) == FormatSection(s.(content := "[no content]"))
  {
  }

  /** The text of a list of sections: one block per section, in list order. */
  function SectionsText(sections: seq<Section>): string
  {
    ConcatMap(FormatSection, sections)
  }

  /** `format_sections`: appends each section's block in a loop. */
  method FormatSections(sections: seq<Section>) returns (text: string)
    ensures text == SectionsText(sections)
  {
    text := "";
    for i := 0 to |sections|
      invariant text == SectionsText(sections[..i])
    {
      assert sections[..i + 1][..i] == sections[..i];
      text := text + FormatSection(sections[i]);
    }
    assert sections[..|sections|] == sections;
  }

  /** The text of concatenated lists is the concatenation of their texts. */
  lemma SectionsTextAppend(a: seq<Section>, b: seq<Section>)
    ensures SectionsText(a + b) == SectionsText(a) + SectionsText(b)
  {
    ConcatMapAppend(FormatSection, a, b);
  }

  /** No sections give the empty string; one section gives its block. */
  lemma SectionsTextSmall(s: Section)
    ensures SectionsText([]) == ""
    ensures SectionsText([s]) == FormatSection(s)
  {
    assert [s][..0] == [];
  }

  // ---------------------------------------------------------------------
  // tavily_search, format_search_results, execute_searches
  // ---------------------------------------------------------------------

  /** One result of a web search; `rawContent` is `None` when the key is missing or `None`. */
  datatype SearchResult = SearchResult(title: string, url: string, content: string, rawContent: Option<string>)

  /** The provider's answer to one query. */
  datatype SearchResponse = SearchResponse(query: string, results: seq<SearchResult>)

  /** `Literal['basic', 'advanced']`. */
  datatype Depth = Basic | Advanced

  /** The arguments of one provider call. */
  datatype SearchRequest = SearchRequest(query: string, searchDepth: Depth, maxResults: nat, includeRawContent: bool)

  /** The search provider, an oracle: one response per request. */
  type SearchProvider = SearchRequest -> SearchResponse

  /** Results asked for per query. */
  const ResultsPerQuery: nat := 2

  /** The provider call made for one query. */
  function RequestFor(query: string, depth: Depth): (r: SearchRequest)
    ensures r.query == query && r.searchDepth == depth
    ensures r.maxResults == 2 && r.includeRawContent
  {
    SearchRequest(query, depth, ResultsPerQuery, true)
  }

  /** The responses to a batch of queries: one per query, in query order. */
  function Responses(provider: SearchProvider, queries: seq<string>, depth: Depth): (rs: seq<SearchResponse>)
    ensures |rs| == |queries|
    ensures forall i :: 0 <= i < |queries| ==> rs[i] == provider(RequestFor(queries[i], depth))
  {
    seq(|queries|, i requires 0 <= i < |queries| => provider(RequestFor(queries[i], depth)))
  }

  /**
   * `tavily_search`: builds one provider call per query in a loop and
   * gathers them; gathering keeps the order of the calls.
   */
  method TavilySearch(provider: SearchProvider, queries: seq<string>, depth: Depth)
    returns (responses: seq<SearchResponse>)
    ensures responses == Responses(provider, queries, depth)
  {
    var tasks: seq<SearchRequest> := [];
    for i := 0 to |queries|
      invariant |tasks| == i
      invariant forall j :: 0 <= j < i ==> tasks[j] == RequestFor(queries[j], depth)
    {
      tasks := tasks + [RequestFor(queries[i], depth)];
    }
    responses := seq(|tasks|, i requires 0 <= i < |tasks| => provider(tasks[i]));
  }

  /** Raw content longer than this is cut. */
  const MaxRawContent: nat := 10000

  /** Appended to cut raw content. */
  const TruncationMarker: string := "... [truncated at 10000 chars]"

  /** Cuts raw content longer than 10000 characters and marks the cut. */
  function Truncate(raw: string): (r: string)
    ensures |raw| <= MaxRawContent ==> r == raw
    ensures |raw| > MaxRawContent ==>
      (|r| == MaxRawContent + |TruncationMarker|
       && r[..MaxRawContent] == raw[..MaxRawContent] && r[MaxRawContent..] == TruncationMarker)
  {
    if |raw| > MaxRawContent then raw[..MaxRawContent] + TruncationMarker else raw
  }

  /** Truncating twice is truncating once. */
  lemma TruncateIdempotent(raw: string)
    ensures Truncate(Truncate(raw)) == Truncate(raw)
  {
  }

  /** `source.get('raw_content', '') or ""`: a missing or `None` raw content reads as empty. */
  function RawOrEmpty(src: SearchResult): (r: string)
    ensures src.rawContent.None? ==> r == ""
    ensures src.rawContent.Some? ==> r == src.rawContent.value
  {
    src.rawContent.GetOr("")
  }

  /** The header of the formatted results. */
  const SourcesHeader: string := "CONTENT FROM SOURCES:\n\n"

  /**
   * The six pieces `format_search_results` appends for one source. The
   * cleaned content is followed directly by `RAW CONTENT:`, with no
   * newline between them.
   */
  function SourcePieces(src: SearchResult): (ps: seq<string>)
    ensures |ps| == 6 && ps[5] == Separator + "\n\n"
  {
    [ Separator + "\n",
      "SOURCE TITLE: " + src.title + "\n",
      "URL: " + src.url + "\n",
      "CLEANED CONTENT: " + src.content,
      "RAW CONTENT: " + Truncate(RawOrEmpty(src)) + "\n\n",
      Separator + "\n\n" ]
  }

  /** The block of one source. */
  function SourceBlock(src: SearchResult): string
  {
    Concat(SourcePieces(src))
  }

  /** A source block ends with the separator and two newlines. */
  lemma SourceBlockEnding(src: SearchResult)
    ensures var b := SourceBlock(src);
      |b| >= 3 && b[|b| - 3] == '-' && b[|b| - 2..] == "\n\n"
  {
    var ps := SourcePieces(src);
    SeparatorFacts();
    var q := ps[5];
    assert SourceBlock(src) == Concat(ps[..5]) + q;
    assert q[|q| - 3] == '-' && q[|q| - 2..] == "\n\n";
  }

  /** `results.extend(response['results'])` over all responses: the results in response order. */
  function FlatResults(responses: seq<SearchResponse>): seq<SearchResult>
  {
    if |responses| == 0 then []
    else FlatResults(responses[..|responses| - 1]) + responses[|responses| - 1].results
  }

  lemma {:induction false} FlatResultsAppend(a: seq<SearchResponse>, b: seq<SearchResponse>)
    ensures FlatResults(a + b) == FlatResults(a) + FlatResults(b)
    decreases |b|
  {
    if |b| == 0 {
      assert a + b == a;
    } else {
      var init := b[..|b| - 1];
      assert (a + b)[..|a + b| - 1] == a + init;
      FlatResultsAppend(a, init);
      assert FlatResults(a + b) == FlatResults(a + init) + b[|b| - 1].results;
      AppendAssoc(FlatResults(a), FlatResults(init), b[|b| - 1].results);
    }
  }

  /** Some result has this URL. */
  predicate HasUrl(rs: seq<SearchResult>, u: string)
  {
    exists i :: 0 <= i < |rs| && rs[i].url == u
  }

  /**
   * The keys of `{source['url']: source for source in results}` in dict
   * order: each URL once, where it first appears.
   */
  function DistinctUrls(rs: seq<SearchResult>): seq<string>
  {
    if |rs| == 0 then []
    else
      var d := DistinctUrls(rs[..|rs| - 1]);
      var u := rs[|rs| - 1].url;
      if u in d then d else d + [u]
  }

  /** Index of the last result with URL `u`, or -1: where the dict's value for `u` comes from. */
  function LastIndex(rs: seq<SearchResult>, u: string): (i: int)
    ensures -1 <= i < |rs|
    ensures i >= 0 ==> rs[i].url == u && forall j :: i < j < |rs| ==> rs[j].url != u
    ensures i == -1 <==> !HasUrl(rs, u)
  {
    if |rs| == 0 then -1
    else if rs[|rs| - 1].url == u then |rs| - 1
    else
      var i := LastIndex(rs[..|rs| - 1], u);
      assert forall j :: 0 <= j < |rs| - 1 ==> rs[..|rs| - 1][j] == rs[j];
      i
  }

  /** Index of the first result with URL `u`, or -1: where the dict's key `u` is placed. */
  function FirstIndex(rs: seq<SearchResult>, u: string): (i: int)
    ensures -1 <= i < |rs|
    ensures i >= 0 ==> rs[i].url == u && forall j :: 0 <= j < i ==> rs[j].url != u
    ensures i == -1 <==> !HasUrl(rs, u)
  {
    if |rs| == 0 then -1
    else if rs[0].url == u then 0
    else
      var i := FirstIndex(rs[1..], u);
      assert forall j :: 1 <= j < |rs| ==> rs[1..][j - 1] == rs[j];
      if i == -1 then -1 else i + 1
  }

  /** The source kept for URL `u`: the last result with that URL. */
  function SourceFor(rs: seq<SearchResult>, u: string): Option<SearchResult>
  {
    var i := LastIndex(rs, u);
    if i >= 0 then Some(rs[i]) else None
  }

  /** The rendered blocks for the URLs `us`, in order. */
  function BlocksFor(us: seq<string>, rs: seq<SearchResult>): string
  {
    if |us| == 0 then ""
    else
      BlocksFor(us[..|us| - 1], rs)
      + match SourceFor(rs, us[|us| - 1]) case Some(src) => SourceBlock(src) case None => ""
  }

  /** `format_search_results(responses)`. */
  function SearchResultsText(responses: seq<SearchResponse>): string
  {
    var rs := FlatResults(responses);
    Strip(SourcesHeader + BlocksFor(DistinctUrls(rs), rs))
  }

  /** A URL is a key exactly when some result has it. */
  lemma {:induction false} DistinctUrlsMembers(rs: seq<SearchResult>)
    ensures forall u :: u in DistinctUrls(rs) <==> HasUrl(rs, u)
    decreases |rs|
  {
    if |rs| > 0 {
      var init := rs[..|rs| - 1];
      DistinctUrlsMembers(init);
      forall u ensures HasUrl(rs, u) <==> HasUrl(init, u) || rs[|rs| - 1].url == u {
        if HasUrl(rs, u) && rs[|rs| - 1].url != u {
          var i :| 0 <= i < |rs| && rs[i].url == u;
          assert init[i] == rs[i];
        }
        if HasUrl(init, u) {
          var i :| 0 <= i < |init| && init[i].url == u;
          assert rs[i] == init[i];
        }
      }
    }
  }

  /** Every URL is a key at most once. */
  lemma {:induction false} DistinctUrlsUnique(rs: seq<SearchResult>)
    ensures forall a, b :: 0 <= a < b < |DistinctUrls(rs)| ==> DistinctUrls(rs)[a] != DistinctUrls(rs)[b]
    decreases |rs|
  {
    if |rs| > 0 {
      DistinctUrlsUnique(rs[..|rs| - 1]);
    }
  }

  lemma FirstIndexExtend(init: seq<SearchResult>, x: SearchResult, u: string)
    requires HasUrl(init, u)
    ensures FirstIndex(init + [x], u) == FirstIndex(init, u)
  {
    var rs := init + [x];
    var i := FirstIndex(init, u);
    assert rs[i] == init[i];
    assert HasUrl(rs, u);
  }

  /** The keys are in order of each URL's first appearance among the results. */
  lemma {:induction false} DistinctUrlsFirstOrder(rs: seq<SearchResult>)
    ensures forall a, b :: 0 <= a < b < |DistinctUrls(rs)| ==>
      0 <= FirstIndex(rs, DistinctUrls(rs)[a]) < FirstIndex(rs, DistinctUrls(rs)[b])
    decreases |rs|
  {
    if |rs| > 0 {
      var init := rs[..|rs| - 1];
      var x := rs[|rs| - 1];
      assert rs == init + [x];
      var d0 := DistinctUrls(init);
      var d := DistinctUrls(rs);
      DistinctUrlsFirstOrder(init);
      DistinctUrlsMembers(init);
      DistinctUrlsMembers(rs);
      forall a | 0 <= a < |d0| ensures FirstIndex(rs, d0[a]) == FirstIndex(init, d0[a]) {
        FirstIndexExtend(init, x, d0[a]);
      }
      if x.url !in d0 {
        assert !HasUrl(init, x.url);
        assert FirstIndex(rs, x.url) == |rs| - 1 by {
          assert rs[|rs| - 1].url == x.url;
          assert forall j :: 0 <= j < |init| ==> init[j] == rs[j];
        }
        assert d == d0 + [x.url];
        forall a, b | 0 <= a < b < |d|
          ensures 0 <= FirstIndex(rs, d[a]) < FirstIndex(rs, d[b])
        {
          assert d[a] == d0[a];
          if b < |d0| {
            assert d[b] == d0[b];
          }
        }
      } else {
        assert d == d0;
        forall a, b | 0 <= a < b < |d|
          ensures 0 <= FirstIndex(rs, d[a]) < FirstIndex(rs, d[b])
        {
          assert FirstIndex(rs, d0[a]) == FirstIndex(init, d0[a]);
          assert FirstIndex(rs, d0[b]) == FirstIndex(init, d0[b]);
        }
      }
    } else {
      assert DistinctUrls(rs) == [];
    }
  }

  /** Adding one result: its URL now maps to it, and the other URLs keep their sources. */
  lemma SourceForExtend(init: seq<SearchResult>, x: SearchResult, u: string)
    ensures SourceFor(init + [x], u) == if x.url == u then Some(x) else SourceFor(init, u)
  {
    assert (init + [x])[..|init|] == init;
  }

  /** One more result of a prefix: its URL is added if new, and now maps to it. */
  lemma DedupStep(rs: seq<SearchResult>, j: nat)
    requires j < |rs|
    ensures DistinctUrls(rs[..j + 1])
         == if rs[j].url in DistinctUrls(rs[..j]) then DistinctUrls(rs[..j]) else DistinctUrls(rs[..j]) + [rs[j].url]
    ensures forall u :: SourceFor(rs[..j + 1], u) == if rs[j].url == u then Some(rs[j]) else SourceFor(rs[..j], u)
  {
    var pre := rs[..j + 1];
    assert pre[..j] == rs[..j] && pre[j] == rs[j];
    forall u ensures SourceFor(pre, u) == if rs[j].url == u then Some(rs[j]) else SourceFor(rs[..j], u) {
      assert LastIndex(pre, u) == if rs[j].url == u then j else LastIndex(rs[..j], u);
    }
  }

  /** A URL has a source exactly when it is a key. */
  lemma SourceForMembers(rs: seq<SearchResult>, u: string)
    ensures SourceFor(rs, u).Some? <==> u in DistinctUrls(rs)
    ensures SourceFor(rs, u).Some? ==> SourceFor(rs, u).value.url == u
  {
    DistinctUrlsMembers(rs);
  }

  /** The first loop of `format_search_results`: every response's results, in order. */
  method CollectResults(responses: seq<SearchResponse>) returns (results: seq<SearchResult>)
    ensures results == FlatResults(responses)
  {
    results := [];
    for i := 0 to |responses|
      invariant results == FlatResults(responses[..i])
    {
      assert responses[..i + 1][..i] == responses[..i];
      results := results + responses[i].results;
    }
    assert responses[..|responses|] == responses;
  }

  /** After the first `j` results: the keys so far, and each key's latest source. */
  ghost predicate Deduplicated(rs: seq<SearchResult>, j: nat, keys: seq<string>, unique: map<string, SearchResult>)
    requires j <= |rs|
  {
    && keys == DistinctUrls(rs[..j])
    && (forall u :: u in unique <==> u in keys)
    && (forall u :: u in unique ==> SourceFor(rs[..j], u) == Some(unique[u]))
  }

  /** Inserting result `j` into the dict keeps `Deduplicated`. */
  lemma DeduplicatedStep(rs: seq<SearchResult>, j: nat, keys: seq<string>, unique: map<string, SearchResult>)
    requires j < |rs| && Deduplicated(rs, j, keys, unique)
    ensures Deduplicated(rs, j + 1, if rs[j].url in unique then keys else keys + [rs[j].url], unique[rs[j].url := rs[j]])
  {
    DedupStep(rs, j);
  }

  /**
   * The dict comprehension `{source['url']: source for source in results}`:
   * insertion-ordered keys and the latest value per key.
   */
  method Deduplicate(results: seq<SearchResult>)
    returns (keys: seq<string>, unique: map<string, SearchResult>)
    ensures keys == DistinctUrls(results)
    ensures forall u :: u in unique <==> u in keys
    ensures forall u :: u in unique ==> SourceFor(results, u) == Some(unique[u])
  {
    keys := [];
    unique := map[];
    for j := 0 to |results|
      invariant Deduplicated(results, j, keys, unique)
    {
      var src := results[j];
      DeduplicatedStep(results, j, keys, unique);
      if src.url !in unique {
        keys := keys + [src.url];
      }
      unique := unique[src.url := src];
    }
    assert results[..|results|] == results;
  }

  /** One more key adds its source's block. */
  lemma BlocksForPrefix(us: seq<string>, k: nat, rs: seq<SearchResult>, src: SearchResult)
    requires k < |us| && SourceFor(rs, us[k]) == Some(src)
    ensures BlocksFor(us[..k + 1], rs) == BlocksFor(us[..k], rs) + SourceBlock(src)
  {
    assert us[..k + 1][..k] == us[..k];
  }

  /** Rendering one more key appends its block to the rendered text. */
  lemma RenderStep(keys: seq<string>, k: nat, results: seq<SearchResult>, src: SearchResult)
    requires k < |keys| && SourceFor(results, keys[k]) == Some(src)
    ensures SourcesHeader + BlocksFor(keys[..k + 1], results)
         == (SourcesHeader + BlocksFor(keys[..k], results)) + SourceBlock(src)
  {
    BlocksForPrefix(keys, k, results, src);
    AppendAssoc(SourcesHeader, BlocksFor(keys[..k], results), SourceBlock(src));
  }

  /** The last loop of `format_search_results`: the header and one block per key, then strip. */
  method RenderSources(keys: seq<string>, unique: map<string, SearchResult>, results: seq<SearchResult>)
    returns (text: string)
    requires forall u :: u in keys ==> u in unique && SourceFor(results, u) == Some(unique[u])
    ensures text == Strip(SourcesHeader + BlocksFor(keys, results))
  {
    var body := SourcesHeader;
    for k := 0 to |keys|
      invariant body == SourcesHeader + BlocksFor(keys[..k], results)
    {
      var src := unique[keys[k]];
      RenderStep(keys, k, results, src);
      body := body + SourceBlock(src);
    }
    assert keys[..|keys|] == keys;
    text := Strip(body);
  }

  /** `format_search_results`: flatten, de-duplicate by URL, render. */
  method FormatSearchResults(responses: seq<SearchResponse>) returns (text: string)
    ensures text == SearchResultsText(responses)
  {
    var results := CollectResults(responses);
    var keys, unique := Deduplicate(results);
    text := RenderSources(keys, unique, results);
  }

  /** `execute_searches`: searches every query (depth `basic` by default) and formats the responses. */
  method ExecuteSearches(provider: SearchProvider, queries: seq<string>, depth: Depth := Basic)
    returns (text: string)
    ensures text == SearchResultsText(Responses(provider, queries, depth))
  {
    var responses := TavilySearch(provider, queries, depth);
    text := FormatSearchResults(responses);
  }

  /** Every non-empty run of blocks ends with a dash and two newlines. */
  lemma {:induction false} BlocksForEnding(us: seq<string>, rs: seq<SearchResult>)
    ensures var b := BlocksFor(us, rs);
      b == "" || (|b| >= 3 && b[|b| - 3] == '-' && b[|b| - 2..] == "\n\n")
    decreases |us|
  {
    if |us| > 0 {
      BlocksForEnding(us[..|us| - 1], rs);
      match SourceFor(rs, us[|us| - 1])
      case Some(src) =>
        var pre := BlocksFor(us[..|us| - 1], rs);
        var blk := SourceBlock(src);
        SourceBlockEnding(src);
        assert BlocksFor(us, rs) == pre + blk;
        assert (pre + blk)[|pre + blk| - 2..] == blk[|blk| - 2..];
      case None =>
    }
  }

  /** The header line is `CONTENT FROM SOURCES:`; neither its first nor last character is a space. */
  lemma HeaderFacts()
    ensures SourcesHeader == "CONTENT FROM SOURCES:" + "\n\n"
    ensures !IsPySpace("CONTENT FROM SOURCES:"[0]) && !IsPySpace("CONTENT FROM SOURCES:"[20])
    ensures !IsPySpace('-') && IsPySpace('\n')
  {
  }

  /** Stripping the header followed by blocks drops exactly the last two newlines. */
  lemma StripHeadered(b: string)
    requires b == "" || (|b| >= 3 && b[|b| - 3] == '-' && b[|b| - 2..] == "\n\n")
    ensures b == "" ==> Strip(SourcesHeader + b) == "CONTENT FROM SOURCES:"
    ensures b != "" ==> Strip(SourcesHeader + b) == SourcesHeader + b[..|b| - 2]
  {
    HeaderFacts();
    var h := "CONTENT FROM SOURCES:";
    if b == "" {
      assert SourcesHeader + b == h + "\n\n";
      StripTrailingRun(h, "\n\n");
    } else {
      var body := SourcesHeader + b[..|b| - 2];
      assert SourcesHeader + b == body + "\n\n";
      assert body[0] == h[0];
      assert body[|body| - 1] == '-';
      StripTrailingRun(body, "\n\n");
    }
  }

  /**
   * The formatted results are the header followed by the blocks without
   * their last two newlines; with no blocks, just `CONTENT FROM SOURCES:`.
   */
  lemma SearchResultsShape(responses: seq<SearchResponse>)
    ensures var rs := FlatResults(responses);
      var b := BlocksFor(DistinctUrls(rs), rs);
      && (b == "" ==> SearchResultsText(responses) == "CONTENT FROM SOURCES:")
      && (b != "" ==> |b| >= 2 && SearchResultsText(responses) == SourcesHeader + b[..|b| - 2])
  {
    var rs := FlatResults(responses);
    var us := DistinctUrls(rs);
    var b := BlocksFor(us, rs);
    assert SearchResultsText(responses) == Strip(SourcesHeader + b);
    BlocksForEnding(us, rs);
    StripHeadered(b);
  }

  /** The formatted results always start with `CONTENT FROM SOURCES:` and are stripped. */
  lemma SearchResultsStartAndStripped(responses: seq<SearchResponse>)
    ensures var t := SearchResultsText(responses);
      |t| >= 21 && t[..21] == "CONTENT FROM SOURCES:" && Strip(t) == t
  {
    SearchResultsShape(responses);
    HeaderFacts();
    var t := SearchResultsText(responses);
    var rs := FlatResults(responses);
    var b := BlocksFor(DistinctUrls(rs), rs);
    BlocksForEnding(DistinctUrls(rs), rs);
    if b == "" {
      assert t == "CONTENT FROM SOURCES:";
    } else {
      assert t == SourcesHeader + b[..|b| - 2];
      assert t[|t| - 1] == b[|b| - 3];
      assert t[..21] == SourcesHeader[..21];
    }
    assert t[0] == 'C';
    assert !IsPySpace(t[|t| - 1]);
    StripTrailingRun(t, "");
    assert t + "" == t;
  }

  lemma {:induction false} FlatResultsNone(responses: seq<SearchResponse>)
    requires forall i :: 0 <= i < |responses| ==> responses[i].results == []
    ensures FlatResults(responses) == []
    decreases |responses|
  {
    if |responses| > 0 {
      FlatResultsNone(responses[..|responses| - 1]);
    }
  }

  /** Responses without results (or no responses at all) format as exactly the header line. */
  lemma NoResultsText(responses: seq<SearchResponse>)
    requires forall i :: 0 <= i < |responses| ==> responses[i].results == []
    ensures SearchResultsText(responses) == "CONTENT FROM SOURCES:"
  {
    FlatResultsNone(responses);
    SearchResultsShape(responses);
  }

  /** Results whose URLs all appear earlier add no key. */
  lemma {:induction false} DistinctUrlsCovered(x: seq<SearchResult>, y: seq<SearchResult>)
    requires forall j :: 0 <= j < |y| ==> HasUrl(x, y[j].url)
    ensures DistinctUrls(x + y) == DistinctUrls(x)
    decreases |y|
  {
    if |y| == 0 {
      assert x + y == x;
    } else {
      var init := y[..|y| - 1];
      assert (x + y)[..|x + y| - 1] == x + init;
      DistinctUrlsCovered(x, init);
      DistinctUrlsMembers(x);
    }
  }

  /** A URL that appears in the later part takes its source from there. */
  lemma {:induction false} SourceForLater(x: seq<SearchResult>, y: seq<SearchResult>, u: string)
    requires HasUrl(y, u)
    ensures SourceFor(x + y, u) == SourceFor(y, u)
    decreases |y|
  {
    var init := y[..|y| - 1];
    var last := y[|y| - 1];
    assert x + y == (x + init) + [last];
    assert y == init + [last];
    SourceForExtend(x + init, last, u);
    SourceForExtend(init, last, u);
    if last.url != u {
      assert HasUrl(init, u) by {
        var i :| 0 <= i < |y| && y[i].url == u;
        assert init[i] == y[i];
      }
      SourceForLater(x, init, u);
    }
  }

  lemma {:induction false} BlocksForSameSources(us: seq<string>, a: seq<SearchResult>, b: seq<SearchResult>)
    requires forall k :: 0 <= k < |us| ==> SourceFor(a, us[k]) == SourceFor(b, us[k])
    ensures BlocksFor(us, a) == BlocksFor(us, b)
    decreases |us|
  {
    if |us| > 0 {
      BlocksForSameSources(us[..|us| - 1], a, b);
    }
  }

  /** De-duplication makes formatting insensitive to repeating the whole input. */
  lemma SearchResultsRepeat(responses: seq<SearchResponse>)
    ensures SearchResultsText(responses + responses) == SearchResultsText(responses)
  {
    var x := FlatResults(responses);
    FlatResultsAppend(responses, responses);
    forall j | 0 <= j < |x| ensures HasUrl(x, x[j].url) {
    }
    DistinctUrlsCovered(x, x);
    var us := DistinctUrls(x);
    DistinctUrlsMembers(x);
    forall k | 0 <= k < |us| ensures SourceFor(x + x, us[k]) == SourceFor(x, us[k]) {
      SourceForLater(x, x, us[k]);
    }
    BlocksForSameSources(us, x + x, x);
  }
}
