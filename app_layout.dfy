/** Where `build_combined_document` puts things. Headings and the table of contents are placed
    by `add_paragraph`, which inserts before the body's first w:sectPr; spliced file bodies are
    appended at the very end. So when the template body holds a w:sectPr, every paragraph the
    builder adds lands before it and every spliced node after it; when it holds none, headings
    and file bodies alternate section by section. */
module AppLayout {
  import opened Common
  import opened Docx
  import opened App

  /** The copies the splices of a list of files append: each file's nodes but w:sectPr, file
      after file. */
  function Spliced(files: seq<seq<Node>>): (r: seq<Node>)
    ensures SectPr !in r
  {
    if files == [] then [] else WithoutSectPr(files[0]) + Spliced(files[1..])
  }

  /** The nodes of several bodies, one after the other. */
  function Concat(bodies: seq<seq<Node>>): seq<Node>
  {
    if bodies == [] then [] else bodies[0] + Concat(bodies[1..])
  }

  /** The splices append every file's nodes, in file order and in each file's own order, with
      w:sectPr left out. */
  lemma {:induction false} SplicedIsFilesInOrder(files: seq<seq<Node>>)
    ensures Spliced(files) == WithoutSectPr(Concat(files))
    decreases |files|
  {
    if files != [] {
      SplicedIsFilesInOrder(files[1..]);
      WithoutSectPrAppend(files[0], Concat(files[1..]));
    }
  }

  /** Splicing files only appends to the body. */
  lemma {:induction false} SpliceFilesAppends(body: seq<Node>, files: seq<seq<Node>>)
    ensures SpliceFiles(body, files) == body + Spliced(files)
    decreases |files|
  {
    if files != [] {
      SpliceFilesAppends(body + WithoutSectPr(files[0]), files[1..]);
      assert body + WithoutSectPr(files[0]) + Spliced(files[1..])
          == body + (WithoutSectPr(files[0]) + Spliced(files[1..]));
    }
  }

  /** The heading paragraphs, one per section, in section order. */
  function Headings(sections: seq<(string, seq<seq<Node>>)>): seq<Node>
  {
    if sections == [] then []
    else [P(HeadingPara(sections[0].0))] + Headings(sections[1..])
  }

  /** There is one heading per section, and the k-th heading carries the k-th section's name. */
  lemma {:induction false} HeadingsInOrder(sections: seq<(string, seq<seq<Node>>)>)
    ensures |Headings(sections)| == |sections|
    ensures forall k :: 0 <= k < |sections| ==> Headings(sections)[k] == P(HeadingPara(sections[k].0))
    decreases |sections|
  {
    if sections != [] {
      HeadingsInOrder(sections[1..]);
    }
  }

  /** Every node spliced from every file of every section, in order. */
  function Content(sections: seq<(string, seq<seq<Node>>)>): (r: seq<Node>)
    ensures SectPr !in r
  {
    if sections == [] then [] else Spliced(sections[0].1) + Content(sections[1..])
  }

  /** Each section's heading followed by its spliced files, section after section. */
  function Interleaved(sections: seq<(string, seq<seq<Node>>)>): seq<Node>
  {
    if sections == [] then []
    else [P(HeadingPara(sections[0].0))] + Spliced(sections[0].1) + Interleaved(sections[1..])
  }

  /** With no w:sectPr in the body, `add_paragraph` appends. */
  lemma InsertWithoutSectPr(body: seq<Node>, p: Para)
    requires SectPr !in body
    ensures InsertParagraph(body, p) == body + [P(p)]
  {
    InsertNodesWithoutSectPr(body, [P(p)]);
  }

  /** With a w:sectPr in the body, `add_paragraph` inserts just before the first one. */
  lemma InsertBeforeSectPr(pre: seq<Node>, post: seq<Node>, p: Para)
    requires SectPr !in pre
    ensures InsertParagraph(pre + [SectPr] + post, p) == pre + [P(p)] + [SectPr] + post
  {
    InsertNodesBeforeSectPr(pre, post, [P(p)]);
  }

  /** The section loop, when the body holds no w:sectPr: headings and file bodies alternate. */
  lemma {:induction false} LayoutWithoutSectPr(body: seq<Node>, sections: seq<(string, seq<seq<Node>>)>)
    requires SectPr !in body
    ensures AddSections(body, sections) == body + Interleaved(sections)
    decreases |sections|
  {
    if sections != [] {
      var h, files := HeadingPara(sections[0].0), sections[0].1;
      InsertWithoutSectPr(body, h);
      SpliceFilesAppends(body + [P(h)], files);
      var next := body + [P(h)] + Spliced(files);
      assert SectPr !in next;
      LayoutWithoutSectPr(next, sections[1..]);
      RegroupBlock(body, [P(h)], Spliced(files), Interleaved(sections[1..]));
    }
  }

  /** `a + h + f + rest` regrouped as `a + (h + f + rest)`. */
  lemma RegroupBlock(a: seq<Node>, h: seq<Node>, f: seq<Node>, rest: seq<Node>)
    ensures a + h + f + rest == a + (h + f + rest)
  {
    AppendAssoc(a + h, f, rest);
    AppendAssoc(a, h, f + rest);
    AppendAssoc(h, f, rest);
  }

  /** One pass of the section loop, when the body holds a w:sectPr: the heading goes just
      before it and the files' copies at the end. */
  lemma SectionStepWithSectPr(pre: seq<Node>, post: seq<Node>, name: string, files: seq<seq<Node>>)
    requires SectPr !in pre
    ensures SpliceFiles(InsertParagraph(pre + [SectPr] + post, HeadingPara(name)), files)
            == (pre + [P(HeadingPara(name))]) + [SectPr] + (post + Spliced(files))
  {
    var h := HeadingPara(name);
    InsertBeforeSectPr(pre, post, h);
    SpliceFilesAppends(pre + [P(h)] + [SectPr] + post, files);
  }

  /** The section loop, when the body holds a w:sectPr: every heading is inserted before it,
      in section order, and every file body is appended after everything, in order. */
  lemma {:induction false} LayoutWithSectPr(pre: seq<Node>, post: seq<Node>,
                                            sections: seq<(string, seq<seq<Node>>)>)
    requires SectPr !in pre
    ensures AddSections(pre + [SectPr] + post, sections)
            == pre + Headings(sections) + [SectPr] + post + Content(sections)
    decreases |sections|
  {
    if sections == [] {
      assert pre + [] + [SectPr] + post + [] == pre + [SectPr] + post;
    } else {
      var h, files := HeadingPara(sections[0].0), sections[0].1;
      SectionStepWithSectPr(pre, post, sections[0].0, files);
      var pre', post' := pre + [P(h)], post + Spliced(files);
      LayoutWithSectPr(pre', post', sections[1..]);
      Regroup(pre, [P(h)], Headings(sections[1..]), [SectPr], post, Spliced(files), Content(sections[1..]));
    }
  }

  lemma Regroup(a: seq<Node>, h: seq<Node>, hs: seq<Node>, s: seq<Node>, b: seq<Node>, f: seq<Node>, c: seq<Node>)
    ensures (a + h) + hs + s + (b + f) + c == a + (h + hs) + s + b + (f + c)
  {
  }

  /** Removing the leading empty paragraph only deletes a paragraph. */
  lemma RemoveInitialEmptyKeepsNodes(body: seq<Node>)
    ensures forall n :: n in RemoveInitialEmpty(body) ==> n in body
  {
    match FirstParaIndex(body)
    case None =>
    case Some(i) =>
      assert forall n :: n in body[..i] + body[i + 1..] ==> n in body[..i] || n in body[i + 1..];
  }

  /** The built document, from a template whose body holds a w:sectPr: after what precedes it
      come the title, the TOC paragraph and every heading, then the w:sectPr and what followed
      it, then every spliced node. */
  lemma ComposedLayoutWithSectPr(templateBody: seq<Node>, sections: seq<(string, seq<seq<Node>>)>,
                                 pre: seq<Node>, post: seq<Node>)
    requires RemoveInitialEmpty(templateBody) == pre + [SectPr] + post && SectPr !in pre
    ensures ComposedBody(templateBody, sections)
            == pre + [P(TitlePara), P(TocPara(SectionStyleName))] + Headings(sections)
               + [SectPr] + post + Content(sections)
  {
    var title, toc := TitlePara, TocPara(SectionStyleName);
    var start := RemoveInitialEmpty(templateBody);
    InsertBeforeSectPr(pre, post, title);
    var pre1 := pre + [P(title)];
    assert SectPr !in pre1;
    InsertBeforeSectPr(pre1, post, toc);
    var pre2 := pre1 + [P(toc)];
    assert SectPr !in pre2;
    assert InsertParagraph(InsertParagraph(start, title), toc) == pre2 + [SectPr] + post;
    LayoutWithSectPr(pre2, post, sections);
    assert pre2 == pre + [P(title), P(toc)];
  }

  /** The built document, from a template whose body holds no w:sectPr: the title and the TOC
      paragraph, then each section's heading followed by its files. */
  lemma ComposedLayoutWithoutSectPr(templateBody: seq<Node>, sections: seq<(string, seq<seq<Node>>)>)
    requires SectPr !in templateBody
    ensures ComposedBody(templateBody, sections)
            == RemoveInitialEmpty(templateBody) + [P(TitlePara), P(TocPara(SectionStyleName))]
               + Interleaved(sections)
  {
    var title, toc := TitlePara, TocPara(SectionStyleName);
    var start := RemoveInitialEmpty(templateBody);
    RemoveInitialEmptyKeepsNodes(templateBody);
    InsertWithoutSectPr(start, title);
    var start1 := start + [P(title)];
    assert SectPr !in start1;
    InsertWithoutSectPr(start1, toc);
    var start2 := start1 + [P(toc)];
    assert SectPr !in start2;
    assert InsertParagraph(InsertParagraph(start, title), toc) == start2;
    LayoutWithoutSectPr(start2, sections);
    assert start2 == start + [P(title), P(toc)];
  }

  /** From a blank template, the body is the title, the TOC paragraph, one heading per
      section in order, the section properties, and then the files' contents in order. */
  lemma BlankTemplateLayout(sections: seq<(string, seq<seq<Node>>)>)
    ensures ComposedBody([SectPr], sections)
            == [P(TitlePara), P(TocPara(SectionStyleName))] + Headings(sections) + [SectPr] + Content(sections)
  {
    var none: seq<Node> := [];
    var front := [P(TitlePara), P(TocPara(SectionStyleName))];
    assert RemoveInitialEmpty([SectPr]) == none + [SectPr] + none by {
      assert FirstParaIndex([SectPr]) == None;
    }
    ComposedLayoutWithSectPr([SectPr], sections, none, none);
    DropEmptyEnds(front, Headings(sections), Content(sections));
  }

  lemma DropEmptyEnds(front: seq<Node>, hs: seq<Node>, c: seq<Node>)
    ensures [] + front + hs + [SectPr] + [] + c == front + hs + [SectPr] + c
  {
  }

  /** A blank template that starts with an empty paragraph gives the same body: that paragraph
      is removed first. */
  lemma BlankTemplateWithEmptyParagraphLayout(sections: seq<(string, seq<seq<Node>>)>)
    ensures ComposedBody([P(Para(None, [])), SectPr], sections) == ComposedBody([SectPr], sections)
  {
    var withEmpty := [P(Para(None, [])), SectPr];
    assert FirstParaIndex(withEmpty) == Some(0);
    assert withEmpty[..0] + withEmpty[1..] == [SectPr];
  }

  /** A section heading reads as the section name, is in the section style, is left-aligned
      and starts a new page, the first one included. */
  lemma HeadingParaReads(name: string)
    ensures ParaText(HeadingPara(name)) == name
    ensures HeadingPara(name).props.Some?
    ensures HeadingPara(name).props.value.style == Some(SectionStyleName)
    ensures HeadingPara(name).props.value.align == Some(Left)
    ensures HeadingPara(name).props.value.pageBreakBefore
  {
    if name != [] {
      assert RunsText([TextRun(name)]) == RunText(TextRun(name)) + RunsText([]);
    }
  }

  /** Every file node of every section, in order. */
  lemma {:induction false} ContentIsSectionsInOrder(sections: seq<(string, seq<seq<Node>>)>)
    ensures Content(sections) == WithoutSectPr(Concat(AllFiles(sections)))
    decreases |sections|
  {
    if sections != [] {
      ContentIsSectionsInOrder(sections[1..]);
      SplicedIsFilesInOrder(sections[0].1);
      ConcatAppend(sections[0].1, AllFiles(sections[1..]));
      WithoutSectPrAppend(Concat(sections[0].1), Concat(AllFiles(sections[1..])));
    }
  }

  /** The files of every section, section after section. */
  function AllFiles(sections: seq<(string, seq<seq<Node>>)>): seq<seq<Node>>
  {
    if sections == [] then [] else sections[0].1 + AllFiles(sections[1..])
  }

  lemma {:induction false} ConcatAppend(a: seq<seq<Node>>, b: seq<seq<Node>>)
    ensures Concat(a + b) == Concat(a) + Concat(b)
    decreases |a|
  {
    if a == [] {
      assert a + b == b;
    } else {
      assert (a + b)[1..] == a[1..] + b;
      ConcatAppend(a[1..], b);
    }
  }
}
