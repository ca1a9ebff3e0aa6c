/** The layout `build_combined_document` evidently means to produce: each section's heading
    followed by its files' contents, section after section, all of it before the body's final
    w:sectPr. The code as written gets this only from a template without a w:sectPr: the
    headings go through `add_paragraph`, which inserts before the first w:sectPr, while the
    splices go through `body.append`, which adds after it. Here the splices are placed the way
    `add_paragraph` places a paragraph, and the intended layout is proved for every template. */
module IntendedLayout {
  import opened Common
  import opened Docx
  import opened App
  import opened AppLayout

  /** The splice loop for one section, each file's copies placed before the first w:sectPr. */
  function SpliceFilesBeforeSectPr(body: seq<Node>, files: seq<seq<Node>>): seq<Node>
    decreases |files|
  {
    if files == [] then body
    else SpliceFilesBeforeSectPr(InsertNodes(body, WithoutSectPr(files[0])), files[1..])
  }

  /** The section loop with the corrected splice. */
  function AddSectionsIntended(body: seq<Node>, sections: seq<(string, seq<seq<Node>>)>): seq<Node>
    decreases |sections|
  {
    if sections == [] then body
    else
      AddSectionsIntended(SpliceFilesBeforeSectPr(InsertParagraph(body, HeadingPara(sections[0].0)), sections[0].1),
                          sections[1..])
  }

  /** The body `build_combined_document` would produce with the corrected splice. */
  function IntendedComposedBody(templateBody: seq<Node>, sections: seq<(string, seq<seq<Node>>)>): seq<Node>
  {
    var start := RemoveInitialEmpty(templateBody);
    AddSectionsIntended(InsertParagraph(InsertParagraph(start, TitlePara), TocPara(SectionStyleName)), sections)
  }

  /** With a w:sectPr in the body, the corrected splice puts every file's copies, in order,
      just before it. */
  lemma {:induction false} SpliceBeforeSectPr(pre: seq<Node>, post: seq<Node>, files: seq<seq<Node>>)
    requires SectPr !in pre
    ensures SpliceFilesBeforeSectPr(pre + [SectPr] + post, files) == (pre + Spliced(files)) + [SectPr] + post
    decreases |files|
  {
    if files == [] {
      assert pre + [] == pre;
    } else {
      var copies := WithoutSectPr(files[0]);
      InsertNodesBeforeSectPr(pre, post, copies);
      assert SectPr !in pre + copies;
      SpliceBeforeSectPr(pre + copies, post, files[1..]);
      AppendAssoc(pre, copies, Spliced(files[1..]));
    }
  }

  /** With a w:sectPr in the body, the corrected section loop puts each heading followed by
      its files' copies, section after section, just before it. */
  lemma {:induction false} IntendedLayoutWithSectPr(pre: seq<Node>, post: seq<Node>,
                                                    sections: seq<(string, seq<seq<Node>>)>)
    requires SectPr !in pre
    ensures AddSectionsIntended(pre + [SectPr] + post, sections) == (pre + Interleaved(sections)) + [SectPr] + post
    decreases |sections|
  {
    if sections == [] {
      assert pre + [] == pre;
    } else {
      var h, files := HeadingPara(sections[0].0), sections[0].1;
      InsertBeforeSectPr(pre, post, h);
      assert SectPr !in pre + [P(h)];
      SpliceBeforeSectPr(pre + [P(h)], post, files);
      var pre' := pre + [P(h)] + Spliced(files);
      assert SectPr !in pre';
      IntendedLayoutWithSectPr(pre', post, sections[1..]);
      RegroupBlock(pre, [P(h)], Spliced(files), Interleaved(sections[1..]));
    }
  }

  /** The corrected build, from a template whose body holds a w:sectPr: after what precedes
      it come the title, the TOC paragraph and one heading-and-content block per section in
      order, then the w:sectPr and what followed it. */
  lemma IntendedComposedLayout(templateBody: seq<Node>, sections: seq<(string, seq<seq<Node>>)>,
                               pre: seq<Node>, post: seq<Node>)
    requires RemoveInitialEmpty(templateBody) == pre + [SectPr] + post && SectPr !in pre
    ensures IntendedComposedBody(templateBody, sections)
            == (pre + [P(TitlePara), P(TocPara(SectionStyleName))] + Interleaved(sections)) + [SectPr] + post
  {
    var title, toc := TitlePara, TocPara(SectionStyleName);
    InsertBeforeSectPr(pre, post, title);
    var pre1 := pre + [P(title)];
    assert SectPr !in pre1;
    InsertBeforeSectPr(pre1, post, toc);
    var pre2 := pre1 + [P(toc)];
    assert SectPr !in pre2;
    IntendedLayoutWithSectPr(pre2, post, sections);
    assert pre2 == pre + [P(title), P(toc)];
  }

  /** Without a w:sectPr the corrected splice is the splice as written. */
  lemma {:induction false} SpliceAgreesWithoutSectPr(body: seq<Node>, files: seq<seq<Node>>)
    requires SectPr !in body
    ensures SpliceFilesBeforeSectPr(body, files) == SpliceFiles(body, files)
    decreases |files|
  {
    if files != [] {
      var copies := WithoutSectPr(files[0]);
      InsertNodesWithoutSectPr(body, copies);
      SpliceAgreesWithoutSectPr(body + copies, files[1..]);
    }
  }

  /** Without a w:sectPr the corrected section loop is the loop as written. */
  lemma {:induction false} SectionsAgreeWithoutSectPr(body: seq<Node>, sections: seq<(string, seq<seq<Node>>)>)
    requires SectPr !in body
    ensures AddSectionsIntended(body, sections) == AddSections(body, sections)
    decreases |sections|
  {
    if sections != [] {
      var h, files := HeadingPara(sections[0].0), sections[0].1;
      InsertWithoutSectPr(body, h);
      assert SectPr !in body + [P(h)];
      SpliceAgreesWithoutSectPr(body + [P(h)], files);
      SpliceFilesAppends(body + [P(h)], files);
      assert SectPr !in body + [P(h)] + Spliced(files);
      SectionsAgreeWithoutSectPr(SpliceFiles(body + [P(h)], files), sections[1..]);
    }
  }

  /** From a template without a w:sectPr, the corrected build and the build as written give the
      same body. */
  lemma IntendedAgreesWithoutSectPr(templateBody: seq<Node>, sections: seq<(string, seq<seq<Node>>)>)
    requires SectPr !in templateBody
    ensures IntendedComposedBody(templateBody, sections) == ComposedBody(templateBody, sections)
  {
    var start := RemoveInitialEmpty(templateBody);
    RemoveInitialEmptyKeepsNodes(templateBody);
    InsertWithoutSectPr(start, TitlePara);
    assert SectPr !in start + [P(TitlePara)];
    InsertWithoutSectPr(start + [P(TitlePara)], TocPara(SectionStyleName));
    assert SectPr !in start + [P(TitlePara)] + [P(TocPara(SectionStyleName))];
    SectionsAgreeWithoutSectPr(start + [P(TitlePara)] + [P(TocPara(SectionStyleName))], sections);
  }

  /** Two sections of one file each. */
  const TwoSections: seq<(string, seq<seq<Node>>)> := [("A", [[Other(1)]]), ("B", [[Other(2)]])]

  lemma TwoSectionsParts()
    ensures Headings(TwoSections) == [P(HeadingPara("A")), P(HeadingPara("B"))]
    ensures Content(TwoSections) == [Other(1), Other(2)]
    ensures Interleaved(TwoSections) == [P(HeadingPara("A")), Other(1), P(HeadingPara("B")), Other(2)]
  {
    assert Spliced([[Other(1)]]) == [Other(1)] by {
      assert WithoutSectPr([Other(1)]) == [Other(1)];
    }
    assert Spliced([[Other(2)]]) == [Other(2)] by {
      assert WithoutSectPr([Other(2)]) == [Other(2)];
    }
  }

  lemma BlankTemplateSplit()
    ensures RemoveInitialEmpty([SectPr]) == [] + [SectPr] + []
  {
    assert FirstParaIndex([SectPr]) == None;
  }

  /** As written, from a blank template, the second heading comes before the first section's
      content: the two sections are not contiguous blocks. */
  lemma SectionsNotContiguous()
    ensures ComposedBody([SectPr], TwoSections)
            == [P(TitlePara), P(TocPara(SectionStyleName)), P(HeadingPara("A")), P(HeadingPara("B")),
                SectPr, Other(1), Other(2)]
  {
    TwoSectionsParts();
    BlankTemplateLayout(TwoSections);
    FlattenClustered(P(TitlePara), P(TocPara(SectionStyleName)), P(HeadingPara("A")), P(HeadingPara("B")),
                     Other(1), Other(2));
  }

  lemma FlattenClustered(t: Node, c: Node, h1: Node, h2: Node, x1: Node, x2: Node)
    ensures [t, c] + [h1, h2] + [SectPr] + [x1, x2] == [t, c, h1, h2, SectPr, x1, x2]
  {
  }

  /** The corrected build keeps each heading with its content, before the w:sectPr. */
  lemma SectionsContiguousWhenCorrected()
    ensures IntendedComposedBody([SectPr], TwoSections)
            == [P(TitlePara), P(TocPara(SectionStyleName)), P(HeadingPara("A")), Other(1),
                P(HeadingPara("B")), Other(2), SectPr]
  {
    TwoSectionsParts();
    BlankTemplateSplit();
    IntendedComposedLayout([SectPr], TwoSections, [], []);
    FlattenInterleaved(P(TitlePara), P(TocPara(SectionStyleName)), P(HeadingPara("A")), P(HeadingPara("B")),
                       Other(1), Other(2));
  }

  lemma FlattenInterleaved(t: Node, c: Node, h1: Node, h2: Node, x1: Node, x2: Node)
    ensures ([] + [t, c] + [h1, x1, h2, x2]) + [SectPr] + [] == [t, c, h1, x1, h2, x2, SectPr]
  {
  }
}
