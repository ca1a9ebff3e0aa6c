/** The structural merge engine of app.py: the section catalog and the upload filter of `main`,
    the file-name sanitiser, and `build_combined_document` with the helpers it calls, which
    edit a python-docx document in place. */
module App {
  import opened Common
  import opened Docx

  // ---------------------------------------------------------------------------------------
  // The section catalog and the filter in `main`.

  /** `SECTION_ORDER`: the fixed catalog; its order is the order of the book. */
  const SectionOrder: seq<string> := [
    "Top Hits",
    "Methodology",
    "Biographical",
    "Family/Personal Info",
    "Buisness Interests",
    "Race Review",
    "Campaign Finance",
    "Issues",
    "Appendicies",
    "Questionaires",
    "Scorecards",
    "Travel Discosureles",
    "Offical Office Disbursments"
  ]

  /** The catalog names are pairwise different, so the upload dictionary has one key per
      catalog entry and keeps the catalog order. */
  lemma SectionOrderDistinct()
    ensures |SectionOrder| == 13
    ensures forall i, j :: 0 <= i < j < |SectionOrder| ==> SectionOrder[i] != SectionOrder[j]
  {
  }

  /** The upload dictionary built in `main`: one entry per catalog section, in catalog order,
      holding the files chosen for it (none when the uploader was left empty). */
  function Uploads<F>(order: seq<string>, chosen: map<string, seq<F>>): seq<(string, seq<F>)>
  {
    seq(|order|, i requires 0 <= i < |order| =>
      (order[i], if order[i] in chosen then chosen[order[i]] else []))
  }

  /** The first entry of `uploads` with key `s`: a dictionary lookup `uploads[s]`, or None when
      the key is absent. */
  function Lookup<F>(uploads: seq<(string, seq<F>)>, s: string): Option<seq<F>>
  {
    if uploads == [] then None
    else if uploads[0].0 == s then Some(uploads[0].1)
    else Lookup(uploads[1..], s)
  }

  /** Looking a section up in the upload list gives the files chosen for it (none when the
      uploader was left empty), and nothing for a name outside the order. */
  lemma {:induction false} LookupUploads<F>(order: seq<string>, chosen: map<string, seq<F>>, s: string)
    ensures Lookup(Uploads(order, chosen), s)
            == if s in order then Some(if s in chosen then chosen[s] else []) else None
    decreases |order|
  {
    if order != [] {
      LookupUploads(order[1..], chosen, s);
      assert Uploads(order, chosen)[1..] == Uploads(order[1..], chosen);
    }
  }

  /** Over the catalog, the upload list is the dictionary `main` builds: its keys are pairwise
      different and in catalog order, each catalog section maps to the files chosen for it,
      and no other key is present. */
  lemma UploadsIsTheDictionary<F>(chosen: map<string, seq<F>>)
    ensures forall i, j :: 0 <= i < j < |Uploads(SectionOrder, chosen)| ==>
              Uploads(SectionOrder, chosen)[i].0 != Uploads(SectionOrder, chosen)[j].0
    ensures forall s :: Lookup(Uploads(SectionOrder, chosen), s)
              == if s in SectionOrder then Some(if s in chosen then chosen[s] else []) else None
  {
    SectionOrderDistinct();
    forall s
      ensures Lookup(Uploads(SectionOrder, chosen), s)
              == if s in SectionOrder then Some(if s in chosen then chosen[s] else []) else None
    {
      LookupUploads(SectionOrder, chosen, s);
    }
  }

  /** `filtered_sections`: the entries whose file list is non-empty, in their original order.
      The input is a dictionary's items, so its keys are pairwise different and the membership
      and order clauses below fix the result. */
  function FilteredSections<F(==,!new)>(uploads: seq<(string, seq<F>)>): (r: seq<(string, seq<F>)>)
    ensures forall x :: x in r <==> x in uploads && x.1 != []
    ensures Subseq(r, uploads)
  {
    if uploads == [] then []
    else
      var rest := FilteredSections(uploads[1..]);
      assert uploads == [uploads[0]] + uploads[1..];
      if uploads[0].1 == [] then rest
      else
        assert ([uploads[0]] + rest)[1..] == rest;
        [uploads[0]] + rest
  }

  /** What pressing "Generate combined document" leads to: a warning when nothing was
      uploaded, otherwise one call of a builder with the filtered sections. */
  datatype Request<F> = NothingUploaded | Compose(sections: seq<(string, seq<F>)>)

  /** Filtering a concatenation filters each part in turn. */
  lemma {:induction false} FilteredSectionsAppend<F(!new)>(a: seq<(string, seq<F>)>, b: seq<(string, seq<F>)>)
    ensures FilteredSections(a + b) == FilteredSections(a) + FilteredSections(b)
    decreases |a|
  {
    if a == [] {
      assert a + b == b;
    } else {
      assert (a + b)[1..] == a[1..] + b;
      FilteredSectionsAppend(a[1..], b);
    }
  }

  /** The button branch of `main`: a warning exactly when every entry's file list is empty;
      otherwise the builder gets the filtered sections. */
  function Generate<F(==,!new)>(uploads: seq<(string, seq<F>)>): (r: Request<F>)
    ensures r.NothingUploaded? <==> forall x :: x in uploads ==> x.1 == []
    ensures r.Compose? ==> r.sections == FilteredSections(uploads) && r.sections != []
  {
    var sections := FilteredSections(uploads);
    if sections == [] then NothingUploaded
    else
      assert sections[0] in sections;
      Compose(sections)
  }

  /** No builder is called exactly when no section received a file; otherwise the builder
      receives every section that did, and only those, in catalog order. */
  lemma GenerateRefusesOnlyEmptyUploads<F(!new)>(chosen: map<string, seq<F>>)
    ensures Generate(Uploads(SectionOrder, chosen)).NothingUploaded?
            <==> forall s :: s in SectionOrder && s in chosen ==> chosen[s] == []
    ensures Generate(Uploads(SectionOrder, chosen)).Compose? ==>
            var r := Generate(Uploads(SectionOrder, chosen)).sections;
            && Subseq(r, Uploads(SectionOrder, chosen))
            && forall s, fs :: (s, fs) in r <==> s in SectionOrder && s in chosen && chosen[s] == fs && fs != []
  {
    var u := Uploads(SectionOrder, chosen);
    var r := FilteredSections(u);
    forall s, fs
      ensures (s, fs) in r <==> s in SectionOrder && s in chosen && chosen[s] == fs && fs != []
    {
      if (s, fs) in r {
        var i :| 0 <= i < |u| && u[i] == (s, fs);
        assert SectionOrder[i] == s;
      }
      if s in SectionOrder && s in chosen && chosen[s] == fs && fs != [] {
        var i :| 0 <= i < |SectionOrder| && SectionOrder[i] == s;
        assert u[i] == (s, fs);
      }
    }
    if r != [] {
      assert r[0] in r;
    }
    if r == [] {
      forall s | s in SectionOrder && s in chosen
        ensures chosen[s] == []
      {
        assert (s, chosen[s]) !in r;
      }
    }
  }

  // ---------------------------------------------------------------------------------------
  // `_safe_stem`: a section name made safe for a staged file name.

  /** Every character that is not alphanumeric becomes '_'. `isAlnum` stands for Python's
      `str.isalnum`. */
  function Sanitize(value: string, isAlnum: char -> bool): (r: string)
    ensures |r| == |value|
    ensures forall k :: 0 <= k < |value| ==> r[k] == if isAlnum(value[k]) then value[k] else '_'
  {
    if value == [] then []
    else [if isAlnum(value[0]) then value[0] else '_'] + Sanitize(value[1..], isAlnum)
  }

  /** `s` without its leading `c` characters: the longest suffix not starting with `c`. */
  function TrimStart(s: string, c: char): (r: string)
    ensures |r| <= |s| && r == s[|s| - |r|..]
    ensures forall k :: 0 <= k < |s| - |r| ==> s[k] == c
    ensures r != [] ==> r[0] != c
  {
    if s != [] && s[0] == c then TrimStart(s[1..], c) else s
  }

  /** `s` without its trailing `c` characters: the longest prefix not ending with `c`. */
  function TrimEnd(s: string, c: char): (r: string)
    ensures |r| <= |s| && r == s[..|r|]
    ensures forall k :: |r| <= k < |s| ==> s[k] == c
    ensures r != [] ==> r[|r| - 1] != c
  {
    if s != [] && s[|s| - 1] == c then TrimEnd(s[..|s| - 1], c) else s
  }

  /** `str.strip(c)`: no longer than `s`, and neither starting nor ending with `c`. */
  function Strip(s: string, c: char): (r: string)
    ensures |r| <= |s|
    ensures r != [] ==> r[0] != c && r[|r| - 1] != c
  {
    TrimEnd(TrimStart(s, c), c)
  }

  /** `str.strip(c)` leaves nothing exactly when `s` holds nothing but `c`. */
  lemma StripEmptyExactly(s: string, c: char)
    ensures Strip(s, c) == [] <==> forall k :: 0 <= k < |s| ==> s[k] == c
  {
    var t := TrimStart(s, c);
    var r := TrimEnd(t, c);
    if r == [] {
      assert t == [];
    } else {
      assert s[|s| - |t|] == t[0] == r[0] != c;
    }
  }

  /** `_safe_stem`: never empty; "section" when nothing but underscores is left after
      sanitising, otherwise a string of alphanumerics and underscores, with no underscore at
      either end, no longer than the input. */
  function SafeStem(value: string, isAlnum: char -> bool): (r: string)
    ensures r != []
    ensures Strip(Sanitize(value, isAlnum), '_') == [] ==> r == "section"
    ensures Strip(Sanitize(value, isAlnum), '_') != [] ==>
      && |r| <= |value|
      && r[0] != '_' && r[|r| - 1] != '_'
      && forall k :: 0 <= k < |r| ==> isAlnum(r[k]) || r[k] == '_'
  {
    var sanitized := Sanitize(value, isAlnum);
    var stem := Strip(sanitized, '_');
    if stem == [] then "section"
    else
      StemChars(value, isAlnum);
      stem
  }

  /** The stripped, sanitised input is no longer than the input and holds only alphanumerics
      and underscores. */
  lemma StemChars(value: string, isAlnum: char -> bool)
    ensures var stem := Strip(Sanitize(value, isAlnum), '_');
            && |stem| <= |value|
            && forall k :: 0 <= k < |stem| ==> isAlnum(stem[k]) || stem[k] == '_'
  {
    var sanitized := Sanitize(value, isAlnum);
    SanitizedChars(value, isAlnum);
    StripIsWindow(sanitized, '_');
    WindowChars(sanitized, LeadingCount(sanitized, '_'), Strip(sanitized, '_'), isAlnum);
  }

  /** Sanitising leaves only alphanumerics and underscores. */
  lemma SanitizedChars(value: string, isAlnum: char -> bool)
    ensures forall k :: 0 <= k < |Sanitize(value, isAlnum)| ==>
              isAlnum(Sanitize(value, isAlnum)[k]) || Sanitize(value, isAlnum)[k] == '_'
  {
  }

  /** A window of a string of alphanumerics and underscores is one too. */
  lemma WindowChars(s: string, i: nat, w: string, isAlnum: char -> bool)
    requires i + |w| <= |s| && w == s[i..i + |w|]
    requires forall k :: 0 <= k < |s| ==> isAlnum(s[k]) || s[k] == '_'
    ensures forall k :: 0 <= k < |w| ==> isAlnum(w[k]) || w[k] == '_'
  {
    forall k | 0 <= k < |w|
      ensures isAlnum(w[k]) || w[k] == '_'
    {
      assert w[k] == s[i + k];
    }
  }

  /** The fallback "section" is taken exactly when every character of the input is an
      underscore or not alphanumeric. */
  lemma SafeStemFallsBackExactly(value: string, isAlnum: char -> bool)
    ensures Strip(Sanitize(value, isAlnum), '_') == []
            <==> forall k :: 0 <= k < |value| ==> value[k] == '_' || !isAlnum(value[k])
  {
    var s := Sanitize(value, isAlnum);
    StripEmptyExactly(s, '_');
    if Strip(s, '_') == [] {
      forall k | 0 <= k < |value|
        ensures value[k] == '_' || !isAlnum(value[k])
      {
        assert s[k] == '_';
      }
    } else {
      var k :| 0 <= k < |s| && s[k] != '_';
      assert isAlnum(value[k]) && value[k] != '_';
    }
  }

  /** How many characters `TrimStart` drops. */
  function LeadingCount(s: string, c: char): nat
  {
    |s| - |TrimStart(s, c)|
  }

  /** `Strip(s, c)` is a window of `s`: it starts where `TrimStart` stopped. */
  lemma StripIsWindow(s: string, c: char)
    ensures LeadingCount(s, c) + |Strip(s, c)| <= |s|
    ensures Strip(s, c) == s[LeadingCount(s, c)..LeadingCount(s, c) + |Strip(s, c)|]
  {
    var t := TrimStart(s, c);
    var e := TrimEnd(t, c);
    var i := |s| - |t|;
    PrefixOfSuffix(s, i, |e|);
  }

  lemma PrefixOfSuffix(s: string, i: nat, n: nat)
    requires i + n <= |s|
    ensures s[i..][..n] == s[i..i + n]
  {
  }

  /** Outside the window `StripIsWindow` describes, `s` holds only `c`. */
  lemma StripDropsOnlyStripped(s: string, c: char)
    ensures forall k :: 0 <= k < |s| && (k < LeadingCount(s, c) || LeadingCount(s, c) + |Strip(s, c)| <= k)
                        ==> s[k] == c
  {
    var t := TrimStart(s, c);
    var e := TrimEnd(t, c);
    var i := |s| - |t|;
    assert t == s[i..];
    forall k | 0 <= k < |s| && (k < i || i + |e| <= k)
      ensures s[k] == c
    {
      if i <= k {
        assert t[k - i] == s[k];
      }
    }
  }

  /** Outside the window, the sanitised input holds underscores only, so the input holds
      underscores and non-alphanumerics only. */
  lemma OutsideWindow(value: string, isAlnum: char -> bool, i: nat, j: nat)
    requires i <= j <= |value|
    requires forall k :: 0 <= k < |value| && (k < i || j <= k) ==> Sanitize(value, isAlnum)[k] == '_'
    ensures forall k :: 0 <= k < |value| && (k < i || j <= k) ==> value[k] == '_' || !isAlnum(value[k])
  {
    var s := Sanitize(value, isAlnum);
    forall k | 0 <= k < |value| && (k < i || j <= k)
      ensures value[k] == '_' || !isAlnum(value[k])
    {
      assert s[k] == '_';
    }
  }

  /** The characters `_safe_stem` drops from either end of the input are all underscores or
      non-alphanumerics: the stem is the sanitised input cut to the window `StripIsWindow`
      describes. */
  lemma OutsideStripped(value: string, isAlnum: char -> bool)
    ensures forall k :: 0 <= k < |value|
              && (k < LeadingCount(Sanitize(value, isAlnum), '_')
                  || LeadingCount(Sanitize(value, isAlnum), '_') + |Strip(Sanitize(value, isAlnum), '_')| <= k)
              ==> value[k] == '_' || !isAlnum(value[k])
  {
    var s := Sanitize(value, isAlnum);
    StripDropsOnlyStripped(s, '_');
    OutsideWindow(value, isAlnum, LeadingCount(s, '_'), LeadingCount(s, '_') + |Strip(s, '_')|);
  }

  // ---------------------------------------------------------------------------------------
  // `ensure_section_style`.

  const SectionStyleName: string := "BookMaker Section"
  const HeadingOne: string := "Heading 1"
  const TitleStyle: string := "Title"

  /** The KeyError a style lookup by a missing name raises. */
  datatype StyleError = KeyError(name: string)

  /** The section style once complete: a quick-gallery paragraph style based on "Heading 1". */
  const SectionStyle: Style := Style(ParagraphStyle, Some(HeadingOne), true)

  /** What `add_style(name, PARAGRAPH)` creates before its base style is set. */
  const BareSectionStyle: Style := Style(ParagraphStyle, None, false)

  /** The style table after `ensure_section_style`, whether it returned or raised: an existing
      "BookMaker Section" is left alone; otherwise the style is added, and it is based on
      "Heading 1" only when that lookup succeeds. Nothing else changes. */
  function EnsuredStyles(styles: map<string, Style>): (r: map<string, Style>)
    ensures SectionStyleName in r
    ensures forall n :: n in styles ==> n in r && r[n] == styles[n]
    ensures forall n :: n in r ==> n in styles || n == SectionStyleName
  {
    if SectionStyleName in styles then styles
    else if HeadingOne in styles then styles[SectionStyleName := SectionStyle]
    else styles[SectionStyleName := BareSectionStyle]
  }

  /** What `ensure_section_style` returns, or the KeyError it raises. */
  function EnsureOutcome(styles: map<string, Style>): (r: Result<string, StyleError>)
    ensures r.Success? ==> r.value == SectionStyleName
    ensures r.Failure? ==> r.error == KeyError(HeadingOne)
  {
    if SectionStyleName in styles || HeadingOne in styles then Success(SectionStyleName)
    else Failure(KeyError(HeadingOne))
  }

  /** The style is created at most once: after one call the style table is settled, a second
      call succeeds and changes nothing, and a style created by a successful call is based
      on "Heading 1". The call raises exactly when neither style exists. */
  lemma {:induction false} EnsureSectionStyleSettles(styles: map<string, Style>)
    ensures EnsureOutcome(styles).Failure? <==> SectionStyleName !in styles && HeadingOne !in styles
    ensures EnsuredStyles(EnsuredStyles(styles)) == EnsuredStyles(styles)
    ensures EnsureOutcome(EnsuredStyles(styles)) == Success(SectionStyleName)
    ensures SectionStyleName in styles ==> EnsuredStyles(styles) == styles
    ensures SectionStyleName !in styles && EnsureOutcome(styles).Success? ==>
              EnsuredStyles(styles)[SectionStyleName] == SectionStyle
  {
  }

  /** `ensure_section_style`. */
  method EnsureSectionStyle(document: Document) returns (r: Result<string, StyleError>)
    modifies document`styles
    ensures document.styles == EnsuredStyles(old(document.styles))
    ensures r == EnsureOutcome(old(document.styles))
  {
    if SectionStyleName in document.styles {
      return Success(SectionStyleName);
    }
    document.styles := document.styles[SectionStyleName := BareSectionStyle];
    if HeadingOne !in document.styles {
      return Failure(KeyError(HeadingOne));
    }
    var added := document.styles[SectionStyleName];
    document.styles := document.styles[SectionStyleName := added.(baseStyle := Some(HeadingOne), quickStyle := true)];
    assert document.styles == old(document.styles)[SectionStyleName := SectionStyle];
    return Success(SectionStyleName);
  }

  // ---------------------------------------------------------------------------------------
  // `create_field_run` and `clear_paragraph`.

  /** `create_field_run`: a new run at the end of the paragraph holding, in order, the begin
      character, the instruction, the separate character, the cached text and the end
      character. */
  method CreateFieldRun(paragraph: Paragraph, code: string, cached: string) returns (run: Run)
    modifies paragraph
    ensures run == FieldRun(code, cached)
    ensures paragraph.props == old(paragraph.props)
    ensures paragraph.runs == old(paragraph.runs) + [run]
  {
    ghost var before := paragraph.runs;
    paragraph.AddRun("");
    PrefixKept(before, Run([]));
    paragraph.AppendToLastRun(FldChar(Begin));
    assert [] + [FldChar(Begin)] == [FldChar(Begin)];
    assert paragraph.runs == before + [Run([FldChar(Begin)])];
    PrefixKept(before, Run([FldChar(Begin)]));
    paragraph.AppendToLastRun(InstrText(code));
    assert [FldChar(Begin)] + [InstrText(code)] == [FldChar(Begin), InstrText(code)];
    assert paragraph.runs == before + [Run([FldChar(Begin), InstrText(code)])];
    PrefixKept(before, Run([FldChar(Begin), InstrText(code)]));
    paragraph.AppendToLastRun(FldChar(Separate));
    assert [FldChar(Begin), InstrText(code)] + [FldChar(Separate)]
        == [FldChar(Begin), InstrText(code), FldChar(Separate)];
    assert paragraph.runs == before + [Run([FldChar(Begin), InstrText(code), FldChar(Separate)])];
    PrefixKept(before, Run([FldChar(Begin), InstrText(code), FldChar(Separate)]));
    paragraph.AppendToLastRun(Text(cached));
    assert [FldChar(Begin), InstrText(code), FldChar(Separate)] + [Text(cached)]
        == [FldChar(Begin), InstrText(code), FldChar(Separate), Text(cached)];
    assert paragraph.runs == before + [Run([FldChar(Begin), InstrText(code), FldChar(Separate), Text(cached)])];
    PrefixKept(before, Run([FldChar(Begin), InstrText(code), FldChar(Separate), Text(cached)]));
    paragraph.AppendToLastRun(FldChar(End));
    assert [FldChar(Begin), InstrText(code), FldChar(Separate), Text(cached)] + [FldChar(End)]
        == FieldRun(code, cached).children;
    run := paragraph.runs[|paragraph.runs| - 1];
  }

  lemma PrefixKept(before: seq<Run>, last: Run)
    ensures (before + [last])[..|before|] == before
  {
  }

  /** `clear_paragraph`: removes every child of the w:p, its properties included, one by one
      from a snapshot of the children taken first. */
  method ClearParagraph(paragraph: Paragraph)
    modifies paragraph
    ensures paragraph.Value() == Para(None, [])
  {
    var children := ChildrenOf(paragraph.Value());
    var i := 0;
    while i < |children|
      invariant 0 <= i <= |children|
      invariant ChildrenOf(paragraph.Value()) == children[i..]
    {
      assert children[i..][1..] == children[i + 1..];
      paragraph.Remove(children[i]);
      i := i + 1;
    }
    NoChildren(paragraph.Value());
  }

  // ---------------------------------------------------------------------------------------
  // `add_table_of_contents`.

  const TocPlaceholder: string := "Update this table in Word to populate the entries."

  /** The TOC field instruction: hyperlinked entries (\h), tab leaders and page numbers hidden
      in web view (\z), built from the paragraphs in the given style at level 1 (\t). */
  function TocInstruction(styleName: string): string
  {
    "TOC \\h \\z \\t \"" + styleName + ",1\""
  }

  /** The "Table of Contents" title paragraph, in the Title style. */
  const TitlePara: Para := NewPara("Table of Contents", Some(TitleStyle))

  /** The paragraph holding the TOC field, its cached result the placeholder text. */
  function TocPara(styleName: string): Para
  {
    Para(None, [FieldRun(TocInstruction(styleName), TocPlaceholder)])
  }

  /** The title paragraph reads "Table of Contents" and is in the Title style. */
  lemma TitleParagraphReads()
    ensures ParaText(TitlePara) == "Table of Contents"
    ensures TitlePara.props.Some? && TitlePara.props.value.style == Some(TitleStyle)
  {
    var title := TextRun("Table of Contents");
    assert TitlePara.runs == [title];
    assert RunsText([title]) == RunText(title) + RunsText([]);
  }

  /** The TOC paragraph's only field is the TOC instruction over the given style, showing the
      placeholder until Word updates it; over the section style the instruction is
      `TOC \h \z \t "BookMaker Section,1"`. */
  lemma TocParagraphReads(styleName: string)
    ensures Fields(TocPara(styleName).runs) == [(TocInstruction(styleName), TocPlaceholder)]
    ensures ParaText(TocPara(styleName)) == TocPlaceholder
    ensures TocInstruction(SectionStyleName) == "TOC \\h \\z \\t \"BookMaker Section,1\""
  {
    var field := FieldRun(TocInstruction(styleName), TocPlaceholder);
    FieldRunReadsBack(TocInstruction(styleName), TocPlaceholder, field);
    assert RunsText([field]) == RunText(field) + RunsText([]);
    assert Fields([field]) == [(TocInstruction(styleName), TocPlaceholder)] + Fields([]);
  }

  /** `add_table_of_contents`. The paragraphs are built first and then placed where
      `add_paragraph` places them. Setting the Title style looks the style up by name, which
      raises after the title paragraph has been inserted without a style. */
  method AddTableOfContents(document: Document, styleName: string) returns (err: Option<StyleError>)
    modifies document`body
    ensures err.None? <==> TitleStyle in document.styles
    ensures err.None? ==>
              document.body == InsertParagraph(InsertParagraph(old(document.body), TitlePara), TocPara(styleName))
    ensures err.Some? ==>
              err.value == KeyError(TitleStyle)
              && document.body == InsertParagraph(old(document.body), NewPara("Table of Contents", None))
  {
    if TitleStyle !in document.styles {
      var unstyled := new Paragraph("Table of Contents", None);
      document.AddParagraph(unstyled.Value());
      return Some(KeyError(TitleStyle));
    }
    var title := new Paragraph("Table of Contents", Some(TitleStyle));
    document.AddParagraph(title.Value());
    var toc := new Paragraph("", None);
    var field := CreateFieldRun(toc, TocInstruction(styleName), TocPlaceholder);
    assert toc.runs == [] + [field] == [field];
    document.AddParagraph(toc.Value());
    return None;
  }

  // ---------------------------------------------------------------------------------------
  // `remove_initial_paragraph_if_empty`.

  /** The body after `remove_initial_paragraph_if_empty`: the first paragraph is deleted when
      its text is exactly empty; any other body is kept. */
  function RemoveInitialEmpty(body: seq<Node>): seq<Node>
  {
    match FirstParaIndex(body)
    case None => body
    case Some(i) => if ParaText(body[i].para) == "" then body[..i] + body[i + 1..] else body
  }

  /** `remove_initial_paragraph_if_empty`. */
  method RemoveInitialParagraphIfEmpty(document: Document)
    modifies document`body
    ensures document.body == RemoveInitialEmpty(old(document.body))
  {
    match FirstParaIndex(document.body)
    case None =>
    case Some(i) =>
      if ParaText(document.body[i].para) == "" {
        document.body := document.body[..i] + document.body[i + 1..];
      }
  }

  /** A body whose nodes are all non-paragraphs has no paragraphs. */
  lemma {:induction false} NoParagraphsIn(s: seq<Node>)
    requires forall k :: 0 <= k < |s| ==> !s[k].P?
    ensures Paragraphs(s) == [] && NonParagraphs(s) == s
    decreases |s|
  {
    if s != [] {
      NoParagraphsIn(s[1..]);
      assert s == [s[0]] + s[1..];
    }
  }

  /** The paragraphs of a body split at its first paragraph. */
  lemma FirstParagraphSplit(body: seq<Node>, i: nat)
    requires FirstParaIndex(body) == Some(i)
    ensures Paragraphs(body) == [body[i].para] + Paragraphs(body[i + 1..])
    ensures Paragraphs(body[..i] + body[i + 1..]) == Paragraphs(body[i + 1..])
  {
    NoParagraphsIn(body[..i]);
    assert body[i..][1..] == body[i + 1..];
    assert Paragraphs(body[i..]) == [body[i].para] + Paragraphs(body[i + 1..]);
    assert body == body[..i] + body[i..];
    ParagraphsAppend(body[..i], body[i..]);
    ParagraphsAppend(body[..i], body[i + 1..]);
  }

  /** The other nodes of a body split at one of its paragraphs. */
  lemma ParagraphSplitOthers(body: seq<Node>, i: nat)
    requires i < |body| && body[i].P?
    ensures NonParagraphs(body) == NonParagraphs(body[..i]) + NonParagraphs(body[i + 1..])
    ensures NonParagraphs(body[..i] + body[i + 1..]) == NonParagraphs(body[..i]) + NonParagraphs(body[i + 1..])
  {
    assert body[i..][1..] == body[i + 1..];
    assert NonParagraphs(body[i..]) == NonParagraphs(body[i + 1..]);
    assert body == body[..i] + body[i..];
    NonParagraphsAppend(body[..i], body[i..]);
    NonParagraphsAppend(body[..i], body[i + 1..]);
  }

  /** At most one paragraph is removed, and only the first, and only when its text is exactly
      ""; every other node stays, in order. */
  lemma RemoveInitialEmptyDropsAtMostOne(body: seq<Node>)
    ensures var ps := Paragraphs(body);
            Paragraphs(RemoveInitialEmpty(body))
            == if ps != [] && ParaText(ps[0]) == "" then ps[1..] else ps
    ensures NonParagraphs(RemoveInitialEmpty(body)) == NonParagraphs(body)
  {
    match FirstParaIndex(body)
    case None =>
      NoParagraphsIn(body);
    case Some(i) =>
      FirstParagraphSplit(body, i);
      ParagraphSplitOthers(body, i);
      assert Paragraphs(body)[0] == body[i].para;
      assert Paragraphs(body)[1..] == Paragraphs(body[i + 1..]);
  }

  /** A paragraph holding only a space is not empty, so it is kept. */
  lemma WhitespaceParagraphIsKept(rest: seq<Node>)
    ensures RemoveInitialEmpty([P(NewPara(" ", None))] + rest) == [P(NewPara(" ", None))] + rest
  {
    var p := NewPara(" ", None);
    assert RunsText(p.runs) == RunText(TextRun(" ")) + RunsText([]);
    assert ([P(p)] + rest)[0] == P(p);
  }

  // ---------------------------------------------------------------------------------------
  // `append_document_body`.

  /** `append_document_body`: copies of the source's top-level nodes, w:sectPr skipped, are
      appended to the end of the target body in source order. The source is iterated from a
      snapshot, so the result is the same even when both are one document. */
  method AppendDocumentBody(target: Document, source: Document)
    modifies target`body
    ensures target.body == old(target.body) + WithoutSectPr(old(source.body))
  {
    var nodes := source.body;
    var i := 0;
    while i < |nodes|
      invariant 0 <= i <= |nodes|
      invariant target.body == old(target.body) + WithoutSectPr(nodes[..i])
    {
      assert nodes[..i + 1] == nodes[..i] + [nodes[i]];
      WithoutSectPrAppend(nodes[..i], [nodes[i]]);
      assert WithoutSectPr([nodes[i]]) == (if nodes[i] == SectPr then [] else [nodes[i]]) + WithoutSectPr([]);
      if nodes[i] != SectPr {
        target.body := target.body + [nodes[i]];
      }
      i := i + 1;
    }
    assert nodes[..i] == nodes;
  }

  // ---------------------------------------------------------------------------------------
  // `apply_footer_with_page_numbers`.

  /** The footer paragraph the source writes: centred, "Page ", a PAGE field, " of ", a
      NUMPAGES field, both fields showing "1" until Word updates them. */
  const PageNumberPara: Para :=
    Para(Some(WithAlign(None, Center)),
         [TextRun("Page "), FieldRun("PAGE", "1"), TextRun(" of "), FieldRun("NUMPAGES", "1")])

  /** The footer paragraph reads "Page 1 of 1" until Word updates its fields, and is centred
      with no other properties. */
  lemma PageNumberParagraphText()
    ensures ParaText(PageNumberPara) == "Page 1 of 1"
    ensures PageNumberPara.props == Some(ParaProps(None, Some(Center), false))
  {
    var r0, r1, r2, r3 := TextRun("Page "), FieldRun("PAGE", "1"), TextRun(" of "), FieldRun("NUMPAGES", "1");
    assert PageNumberPara.runs == [r0, r1] + [r2, r3];
    RunsTextAppend([r0, r1], [r2, r3]);
    PairReads(r0, r1, "Page ", None, "1", Some(("PAGE", "1")));
    PairReads(r2, r3, " of ", None, "1", Some(("NUMPAGES", "1")));
    PageNumberSpelling();
  }

  lemma PageNumberSpelling()
    ensures "Page " + "1" + (" of " + "1") == "Page 1 of 1"
  {
  }

  /** The footer paragraph holds exactly two fields: PAGE, then NUMPAGES, each showing "1". */
  lemma PageNumberParagraphFields()
    ensures Fields(PageNumberPara.runs) == [("PAGE", "1"), ("NUMPAGES", "1")]
  {
    var r0, r1, r2, r3 := TextRun("Page "), FieldRun("PAGE", "1"), TextRun(" of "), FieldRun("NUMPAGES", "1");
    assert PageNumberPara.runs == [r0, r1] + [r2, r3];
    FieldsAppend([r0, r1], [r2, r3]);
    PairReads(r0, r1, "Page ", None, "1", Some(("PAGE", "1")));
    PairReads(r2, r3, " of ", None, "1", Some(("NUMPAGES", "1")));
  }

  /** Text and fields of two runs, from those of each. */
  lemma PairReads(a: Run, b: Run, ta: string, fa: Option<(string, string)>, tb: string, fb: Option<(string, string)>)
    requires RunText(a) == ta && ReadField(a) == fa && RunText(b) == tb && ReadField(b) == fb
    ensures RunsText([a, b]) == ta + tb
    ensures Fields([a, b]) == (if fa.Some? then [fa.value] else []) + (if fb.Some? then [fb.value] else [])
  {
    assert [a, b][1..] == [b];
    assert RunsText([b]) == tb + RunsText([]);
    assert Fields([b]) == (if fb.Some? then [fb.value] else []) + Fields([]);
  }

  /** A footer seen as a value: its link flag and the contents of its paragraphs. */
  datatype FooterState = FooterState(linked: bool, paragraphs: seq<Para>)

  /** A footer after the rewrite: unlinked, its first paragraph (added when there was none)
      replaced by the page-number paragraph, the other paragraphs as they were. */
  function Rewritten(f: FooterState): FooterState
  {
    FooterState(false, [PageNumberPara] + if f.paragraphs == [] then [] else f.paragraphs[1..])
  }

  /** The rewrite unlinks the footer, sets exactly its first paragraph, keeps the paragraph count
      (one when there was none) and the later paragraphs, and a second rewrite changes nothing
      more, because the first paragraph is cleared before it is written. */
  lemma {:induction false} RewrittenFooter(f: FooterState)
    ensures !Rewritten(f).linked
    ensures |Rewritten(f).paragraphs| == if f.paragraphs == [] then 1 else |f.paragraphs|
    ensures Rewritten(f).paragraphs[0] == PageNumberPara
    ensures forall k :: 1 <= k < |f.paragraphs| ==> Rewritten(f).paragraphs[k] == f.paragraphs[k]
    ensures Rewritten(Rewritten(f)) == Rewritten(f)
  {
    var r := Rewritten(f).paragraphs;
    assert r[1..] == if f.paragraphs == [] then [] else f.paragraphs[1..];
  }

  ghost function StateOf(f: Footer): FooterState
    reads f
  {
    FooterState(f.isLinkedToPrevious, f.paragraphs)
  }

  /** The end of the loop body of `apply_footer_with_page_numbers`: on an emptied paragraph,
      centre it and write "Page ", the PAGE field, " of ", the NUMPAGES field. */
  method WritePageNumbers(p: Paragraph)
    requires p.Value() == Para(None, [])
    modifies p
    ensures p.Value() == PageNumberPara
  {
    p.SetAlignment(Center);
    p.AddRun("Page ");
    var page := CreateFieldRun(p, "PAGE", "1");
    p.AddRun(" of ");
    var pages := CreateFieldRun(p, "NUMPAGES", "1");
    assert p.runs == [TextRun("Page "), FieldRun("PAGE", "1"), TextRun(" of "), FieldRun("NUMPAGES", "1")];
  }

  /** The body of the loop of `apply_footer_with_page_numbers`, for one section's footer:
      unlink it, clear its first paragraph or add one, and write the page numbers into it. */
  method RewriteFooter(f: Footer)
    modifies f
    ensures StateOf(f) == Rewritten(old(StateOf(f)))
  {
    f.isLinkedToPrevious := false;
    var p: Paragraph;
    if f.paragraphs != [] {
      p := new Paragraph.Of(f.paragraphs[0]);
      ClearParagraph(p);
    } else {
      f.AddParagraph();
      p := new Paragraph.Of(f.paragraphs[0]);
    }
    WritePageNumbers(p);
    f.SetFirstParagraph(p.Value());
  }

  /** `apply_footer_with_page_numbers`: every section's footer is rewritten, and nothing else
      changes. A footer object reached from two sections is rewritten twice, which gives the
      same result as once. */
  method ApplyFooterWithPageNumbers(document: Document)
    modifies set f | f in document.footers
    ensures forall j :: 0 <= j < |document.footers| ==>
              StateOf(document.footers[j]) == Rewritten(old(StateOf(document.footers[j])))
  {
    var fs := document.footers;
    for i := 0 to |fs|
      invariant forall j :: 0 <= j < |fs| ==>
                  StateOf(fs[j]) == if fs[j] in fs[..i] then Rewritten(old(StateOf(fs[j]))) else old(StateOf(fs[j]))
    {
      RewriteFooter(fs[i]);
      forall j | 0 <= j < |fs| && fs[j] == fs[i]
        ensures StateOf(fs[j]) == Rewritten(old(StateOf(fs[j])))
      {
        RewrittenFooter(old(StateOf(fs[j])));
      }
      assert fs[..i + 1] == fs[..i] + [fs[i]];
    }
    assert fs[..|fs|] == fs;
  }

  // ---------------------------------------------------------------------------------------
  // `build_combined_document`.

  /** A section heading: the section name in the section style, left-aligned, starting a new
      page. */
  function HeadingPara(name: string): Para
  {
    Para(Some(ParaProps(Some(SectionStyleName), Some(Left), true)), if name == [] then [] else [TextRun(name)])
  }

  /** The body after splicing the given files' bodies in turn. */
  function SpliceFiles(body: seq<Node>, files: seq<seq<Node>>): seq<Node>
    decreases |files|
  {
    if files == [] then body else SpliceFiles(body + WithoutSectPr(files[0]), files[1..])
  }

  /** The body after the loop over the sections: for each, its heading is added and its files
      are spliced. */
  function AddSections(body: seq<Node>, sections: seq<(string, seq<seq<Node>>)>): seq<Node>
    decreases |sections|
  {
    if sections == [] then body
    else AddSections(SpliceFiles(InsertParagraph(body, HeadingPara(sections[0].0)), sections[0].1), sections[1..])
  }

  /** The body `build_combined_document` produces from the template's body. */
  function ComposedBody(templateBody: seq<Node>, sections: seq<(string, seq<seq<Node>>)>): seq<Node>
  {
    var start := RemoveInitialEmpty(templateBody);
    AddSections(InsertParagraph(InsertParagraph(start, TitlePara), TocPara(SectionStyleName)), sections)
  }

  /** The KeyError `build_combined_document` raises, if any: "Heading 1" is looked up when the
      section style is created, "Title" when the title paragraph is styled. */
  function BuildError(styles: map<string, Style>): Option<StyleError>
  {
    match EnsureOutcome(styles)
    case Failure(e) => Some(e)
    case Success(_) => if TitleStyle in styles then None else Some(KeyError(TitleStyle))
  }

  /** The splice loop of `build_combined_document` for one section: each file's body is
      appended to the document, file after file. */
  method SpliceFilesInto(combined: Document, files: seq<seq<Node>>)
    modifies combined`body
    ensures combined.body == SpliceFiles(old(combined.body), files)
  {
    var j := 0;
    while j < |files|
      invariant 0 <= j <= |files|
      invariant SpliceFiles(combined.body, files[j..]) == SpliceFiles(old(combined.body), files)
      modifies combined`body
    {
      assert files[j..][1..] == files[j + 1..];
      var source := new Document(files[j], map[], []);
      AppendDocumentBody(combined, source);
      j := j + 1;
    }
  }

  /** The section loop of `build_combined_document`: for each section a heading paragraph in
      the section style, left-aligned and starting a new page, then the section's files. */
  method AddSectionsTo(combined: Document, styleName: string, sections: seq<(string, seq<seq<Node>>)>)
    requires styleName == SectionStyleName
    modifies combined`body
    ensures combined.body == AddSections(old(combined.body), sections)
  {
    var i := 0;
    while i < |sections|
      invariant 0 <= i <= |sections|
      invariant AddSections(combined.body, sections[i..]) == AddSections(old(combined.body), sections)
      modifies combined`body
    {
      var name, files := sections[i].0, sections[i].1;
      assert sections[i..][1..] == sections[i + 1..];
      var heading := new Paragraph(name, Some(styleName));
      heading.SetAlignment(Left);
      heading.SetPageBreakBefore(true);
      assert heading.Value() == HeadingPara(name);
      combined.AddParagraph(heading.Value());
      SpliceFilesInto(combined, files);
      i := i + 1;
    }
  }

  /** `build_combined_document`. The new document starts from the template's body, styles and
      footers; the files are given as their parsed bodies, in order, section by section. */
  method BuildCombinedDocument(templateBody: seq<Node>, templateStyles: map<string, Style>,
                               templateFooters: seq<Footer>, sections: seq<(string, seq<seq<Node>>)>)
    returns (combined: Document, err: Option<StyleError>)
    modifies set f | f in templateFooters
    ensures fresh(combined)
    ensures err == BuildError(templateStyles)
    ensures err.Some? ==> unchanged(set f | f in templateFooters)
    ensures err.None? ==> combined.body == ComposedBody(templateBody, sections)
    ensures err.None? ==> combined.styles == EnsuredStyles(templateStyles)
    ensures err.None? ==> combined.footers == templateFooters
    ensures err.None? ==> forall j :: 0 <= j < |templateFooters| ==>
              StateOf(templateFooters[j]) == Rewritten(old(StateOf(templateFooters[j])))
  {
    combined := new Document(templateBody, templateStyles, templateFooters);
    RemoveInitialParagraphIfEmpty(combined);
    var style := EnsureSectionStyle(combined);
    if style.Failure? {
      return combined, Some(style.error);
    }
    err := AddTableOfContents(combined, style.value);
    if err.Some? {
      return;
    }
    AddSectionsTo(combined, style.value, sections);
    assert forall j :: 0 <= j < |templateFooters| ==>
             StateOf(templateFooters[j]) == old(StateOf(templateFooters[j]));
    ApplyFooterWithPageNumbers(combined);
  }
}
