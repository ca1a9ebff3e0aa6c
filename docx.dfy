/** The word-processing document model the composition engine works on, as the python-docx
    library exposes it over WordprocessingML (ECMA-376 Part 1): the body's ordered top-level
    nodes, paragraphs made of runs, the style table, and one footer per document section.
    Only what the engine reads or writes is represented; parsing and serialising the package
    are not part of this model. */
module Docx {
  import opened Common

  /** The three values of w:fldCharType that delimit a complex field. */
  datatype FieldCharKind = Begin | Separate | End

  /** The children of a run (w:r) that this model distinguishes: a field character,
      a field instruction (w:instrText) and visible text (w:t). */
  datatype RunChild = FldChar(kind: FieldCharKind) | InstrText(code: string) | Text(t: string)

  datatype Run = Run(children: seq<RunChild>)

  datatype Align = Left | Center | Right | Justify

  /** Paragraph properties (w:pPr): the paragraph style, the justification and
      the page-break-before flag. */
  datatype ParaProps = ParaProps(style: Option<string>, align: Option<Align>, pageBreakBefore: bool)

  /** A paragraph (w:p): its optional properties element and its runs. */
  datatype Para = Para(props: Option<ParaProps>, runs: seq<Run>)

  /** A top-level child of the body (w:body): a paragraph, the body's section properties
      (w:sectPr), or any other block (a table, ...) identified by an opaque id. */
  datatype Node = P(para: Para) | SectPr | Other(id: nat)

  datatype StyleType = ParagraphStyle | CharacterStyle | TableStyle | NumberingStyle

  /** An entry of the style table, keyed by style name in `Document.styles`. */
  datatype Style = Style(kind: StyleType, baseStyle: Option<string>, quickStyle: bool)

  // ---------------------------------------------------------------------------------------
  // Text as python-docx reports it: the w:t texts of the runs, in order; field characters
  // and field instructions contribute nothing.

  function ChildrenText(cs: seq<RunChild>): string
  {
    if cs == [] then "" else (if cs[0].Text? then cs[0].t else "") + ChildrenText(cs[1..])
  }

  function RunText(r: Run): string
  {
    ChildrenText(r.children)
  }

  function RunsText(rs: seq<Run>): string
  {
    if rs == [] then "" else RunText(rs[0]) + RunsText(rs[1..])
  }

  /** The text of consecutive runs is the text of each, in turn. */
  lemma {:induction false} RunsTextAppend(a: seq<Run>, b: seq<Run>)
    ensures RunsText(a + b) == RunsText(a) + RunsText(b)
    decreases |a|
  {
    if a == [] {
      assert a + b == b;
    } else {
      assert (a + b)[1..] == a[1..] + b;
      RunsTextAppend(a[1..], b);
    }
  }

  /** Runs read as "" exactly when each of them does. */
  lemma {:induction false} RunsTextEmpty(rs: seq<Run>)
    ensures RunsText(rs) == "" <==> forall i :: 0 <= i < |rs| ==> RunText(rs[i]) == ""
    decreases |rs|
  {
    if rs != [] {
      RunsTextEmpty(rs[1..]);
      assert forall i :: 1 <= i < |rs| ==> rs[i] == rs[1..][i - 1];
    }
  }

  /** `Paragraph.text`: the texts of the runs, in order. It is "" exactly when no run has
      text, as for a paragraph made only of empty runs or fields with empty cached text. */
  function ParaText(p: Para): (r: string)
    ensures r == "" <==> forall i :: 0 <= i < |p.runs| ==> RunText(p.runs[i]) == ""
  {
    RunsTextEmpty(p.runs);
    RunsText(p.runs)
  }

  /** The run `add_run(text)` creates: one w:t child holding the text, none for "". */
  function TextRun(text: string): (r: Run)
    ensures RunText(r) == text
  {
    if text == [] then Run([])
    else
      var cs := [Text(text)];
      assert cs[1..] == [];
      assert ChildrenText(cs) == cs[0].t + ChildrenText(cs[1..]);
      Run(cs)
  }

  // ---------------------------------------------------------------------------------------
  // Complex fields (section 17.16.18 of ECMA-376 Part 1): begin character, instruction,
  // separate character, cached result, end character.

  /** A run holding one whole complex field with instruction `code` and cached result `cached`. */
  function FieldRun(code: string, cached: string): (r: Run)
    ensures RunText(r) == cached
  {
    var cs := [FldChar(Begin), InstrText(code), FldChar(Separate), Text(cached), FldChar(End)];
    assert cs[4..][1..] == [];
    assert ChildrenText(cs[4..]) == "";
    assert cs[3..][1..] == cs[4..];
    assert ChildrenText(cs[3..]) == cached;
    assert cs[2..][1..] == cs[3..];
    assert ChildrenText(cs[2..]) == cached;
    assert cs[1..][1..] == cs[2..];
    assert ChildrenText(cs[1..]) == cached;
    assert ChildrenText(cs) == cached;
    Run(cs)
  }

  /** Reads a run back as a complex field: its instruction and cached result, or None when the
      run's children are not exactly the five-part field layout. */
  function ReadField(r: Run): Option<(string, string)>
  {
    var c := r.children;
    if |c| == 5 && c[0] == FldChar(Begin) && c[1].InstrText? && c[2] == FldChar(Separate)
       && c[3].Text? && c[4] == FldChar(End)
    then Some((c[1].code, c[3].t))
    else None
  }

  /** Reading a field run gives back its instruction and cached text, and a run that reads as
      a field is exactly the field run of what it reads as. */
  lemma FieldRunReadsBack(code: string, cached: string, r: Run)
    ensures ReadField(FieldRun(code, cached)) == Some((code, cached))
    ensures ReadField(r) == Some((code, cached)) ==> r == FieldRun(code, cached)
  {
    if ReadField(r) == Some((code, cached)) {
      var c := r.children;
      assert c == [FldChar(Begin), InstrText(code), FldChar(Separate), Text(cached), FldChar(End)];
    }
  }

  /** The fields of a run list, in order: (instruction, cached text) of every run that reads
      as a whole field. */
  function Fields(rs: seq<Run>): seq<(string, string)>
  {
    if rs == [] then []
    else (match ReadField(rs[0]) case Some(f) => [f] case None => []) + Fields(rs[1..])
  }

  /** The fields of consecutive runs are the fields of each, in turn. */
  lemma {:induction false} FieldsAppend(a: seq<Run>, b: seq<Run>)
    ensures Fields(a + b) == Fields(a) + Fields(b)
    decreases |a|
  {
    if a == [] {
      assert a + b == b;
    } else {
      assert (a + b)[1..] == a[1..] + b;
      FieldsAppend(a[1..], b);
    }
  }

  // ---------------------------------------------------------------------------------------
  // Where things land in the body.

  /** Position of the first w:sectPr child of the body, or |body| when there is none. */
  function BeforeSectPr(body: seq<Node>): (k: nat)
    ensures k <= |body|
    ensures SectPr !in body[..k]
    ensures k < |body| ==> body[k] == SectPr
  {
    if body == [] || body[0] == SectPr then 0
    else
      var k := 1 + BeforeSectPr(body[1..]);
      assert body[..k] == [body[0]] + body[1..][..k - 1];
      k
  }

  /** `add_paragraph` on a document: python-docx inserts the new w:p just before the first
      w:sectPr child of the body, and appends it when the body has none. */
  /** Nodes placed together just before the body's first w:sectPr, or at the end when it has
      none. */
  function InsertNodes(body: seq<Node>, nodes: seq<Node>): seq<Node>
  {
    var k := BeforeSectPr(body);
    body[..k] + nodes + body[k..]
  }

  function InsertParagraph(body: seq<Node>, p: Para): seq<Node>
  {
    InsertNodes(body, [P(p)])
  }

  /** The first w:sectPr of `pre + [SectPr] + post` is the one after `pre`. */
  lemma FirstSectPrAt(pre: seq<Node>, post: seq<Node>)
    requires SectPr !in pre
    ensures BeforeSectPr(pre + [SectPr] + post) == |pre|
  {
    var body := pre + [SectPr] + post;
    var k := BeforeSectPr(body);
    assert body[|pre|] == SectPr;
    assert forall j :: 0 <= j < k ==> body[j] == body[..k][j];
    assert forall j :: 0 <= j < |pre| ==> body[j] == pre[j];
  }

  /** Nodes inserted into a body with a w:sectPr land just before its first one. */
  lemma InsertNodesBeforeSectPr(pre: seq<Node>, post: seq<Node>, nodes: seq<Node>)
    requires SectPr !in pre
    ensures InsertNodes(pre + [SectPr] + post, nodes) == (pre + nodes) + [SectPr] + post
  {
    var body := pre + [SectPr] + post;
    FirstSectPrAt(pre, post);
    assert body[..|pre|] == pre && body[|pre|..] == [SectPr] + post;
  }

  /** Nodes inserted into a body without w:sectPr are appended. */
  lemma InsertNodesWithoutSectPr(body: seq<Node>, nodes: seq<Node>)
    requires SectPr !in body
    ensures InsertNodes(body, nodes) == body + nodes
  {
    assert body[..|body|] == body && body[|body|..] == [];
  }

  /** The inserted paragraph is the only new node: it sits at the first w:sectPr's position, and
      taking it out gives back the body. */
  lemma InsertParagraphPlaces(body: seq<Node>, p: Para)
    ensures |InsertParagraph(body, p)| == |body| + 1
    ensures InsertParagraph(body, p)[BeforeSectPr(body)] == P(p)
    ensures InsertParagraph(body, p)[..BeforeSectPr(body)] + InsertParagraph(body, p)[BeforeSectPr(body) + 1..] == body
  {
    var k := BeforeSectPr(body);
    var pre, post := body[..k], body[k..];
    assert InsertParagraph(body, p) == pre + [P(p)] + post;
    Unsplice(pre, P(p), post);
    assert pre + post == body;
  }

  /** Taking apart a one-node splice. */
  lemma Unsplice(pre: seq<Node>, n: Node, post: seq<Node>)
    ensures (pre + [n] + post)[..|pre|] == pre
    ensures (pre + [n] + post)[|pre| + 1..] == post
    ensures (pre + [n] + post)[|pre|] == n
  {
  }

  /** No w:sectPr comes before the inserted paragraph, and a body without one gets the paragraph
      at its end. */
  lemma InsertParagraphNoSectPrBefore(body: seq<Node>, p: Para)
    ensures SectPr !in InsertParagraph(body, p)[..BeforeSectPr(body) + 1]
    ensures SectPr !in body ==> InsertParagraph(body, p) == body + [P(p)]
  {
    var k := BeforeSectPr(body);
    var r := InsertParagraph(body, p);
    assert r[..k + 1] == body[..k] + [P(p)];
    if SectPr !in body {
      assert body[..k] == body && body[k..] == [];
    }
  }

  /** With a w:sectPr in the body, the first one directly follows the inserted paragraph. */
  lemma InsertParagraphKeepsSectPr(body: seq<Node>, p: Para)
    requires SectPr in body
    ensures InsertParagraph(body, p)[BeforeSectPr(body) + 1] == SectPr
  {
    var k := BeforeSectPr(body);
    var pre, post := body[..k], body[k..];
    assert InsertParagraph(body, p) == pre + [P(p)] + post;
    Unsplice(pre, P(p), post);
    assert k < |body|;
  }

  /** The body nodes that a splice copies: every node but w:sectPr, in order. */
  function WithoutSectPr(s: seq<Node>): (r: seq<Node>)
    ensures SectPr !in r
    ensures forall n :: n in r <==> n in s && n != SectPr
    ensures Subseq(r, s)
  {
    if s == [] then []
    else
      var rest := WithoutSectPr(s[1..]);
      assert s == [s[0]] + s[1..];
      if s[0] == SectPr then rest
      else
        assert ([s[0]] + rest)[1..] == rest;
        [s[0]] + rest
  }

  /** Copying a concatenation copies each part in turn. */
  lemma {:induction false} WithoutSectPrAppend(a: seq<Node>, b: seq<Node>)
    ensures WithoutSectPr(a + b) == WithoutSectPr(a) + WithoutSectPr(b)
    decreases |a|
  {
    if a != [] {
      assert (a + b)[0] == a[0] && (a + b)[1..] == a[1..] + b;
      WithoutSectPrAppend(a[1..], b);
    } else {
      assert a + b == b;
    }
  }

  /** A body without w:sectPr is copied whole. */
  lemma {:induction false} WithoutSectPrKeeps(s: seq<Node>)
    requires SectPr !in s
    ensures WithoutSectPr(s) == s
    decreases |s|
  {
    if s != [] {
      WithoutSectPrKeeps(s[1..]);
    }
  }

  /** `Document.paragraphs`: the paragraphs among the body's top-level nodes, in order. */
  function Paragraphs(body: seq<Node>): (ps: seq<Para>)
    ensures |ps| <= |body|
  {
    if body == [] then [] else (if body[0].P? then [body[0].para] else []) + Paragraphs(body[1..])
  }

  /** `Paragraphs` lists exactly the paragraphs that are top-level nodes of the body. */
  lemma {:induction false} ParagraphsAreTheParagraphNodes(body: seq<Node>)
    ensures forall p :: p in Paragraphs(body) <==> P(p) in body
    decreases |body|
  {
    if body != [] {
      ParagraphsAreTheParagraphNodes(body[1..]);
      assert body == [body[0]] + body[1..];
    }
  }

  /** The body's top-level nodes that are not paragraphs, in order. */
  function NonParagraphs(body: seq<Node>): seq<Node>
  {
    if body == [] then [] else (if body[0].P? then [] else [body[0]]) + NonParagraphs(body[1..])
  }

  /** The paragraphs of a concatenation are those of each part, in turn. */
  lemma {:induction false} ParagraphsAppend(a: seq<Node>, b: seq<Node>)
    ensures Paragraphs(a + b) == Paragraphs(a) + Paragraphs(b)
    decreases |a|
  {
    if a != [] {
      assert (a + b)[0] == a[0] && (a + b)[1..] == a[1..] + b;
      ParagraphsAppend(a[1..], b);
    } else {
      assert a + b == b;
    }
  }

  /** The other nodes of a concatenation are those of each part, in turn. */
  lemma {:induction false} NonParagraphsAppend(a: seq<Node>, b: seq<Node>)
    ensures NonParagraphs(a + b) == NonParagraphs(a) + NonParagraphs(b)
    decreases |a|
  {
    if a != [] {
      assert (a + b)[0] == a[0] && (a + b)[1..] == a[1..] + b;
      NonParagraphsAppend(a[1..], b);
    } else {
      assert a + b == b;
    }
  }

  /** The position of the first paragraph of the body (`document.paragraphs[0]`), if any. */
  function FirstParaIndex(body: seq<Node>): (i: Option<nat>)
    ensures i.None? <==> forall n :: n in body ==> !n.P?
    ensures i.Some? ==> i.value < |body| && body[i.value].P?
                        && forall k :: 0 <= k < i.value ==> !body[k].P?
  {
    if body == [] then None
    else if body[0].P? then Some(0)
    else
      match FirstParaIndex(body[1..])
      case None =>
        assert body == [body[0]] + body[1..];
        None
      case Some(j) => Some(j + 1)
  }

  // ---------------------------------------------------------------------------------------
  // Objects the engine edits in place.

  /** The direct children of a w:p: the optional w:pPr, then the runs. */
  datatype ParaChild = PPr(props: ParaProps) | R(run: Run)

  function RunChildren(rs: seq<Run>): seq<ParaChild>
  {
    if rs == [] then [] else [R(rs[0])] + RunChildren(rs[1..])
  }

  function ChildrenOf(p: Para): seq<ParaChild>
  {
    (if p.props.Some? then [PPr(p.props.value)] else []) + RunChildren(p.runs)
  }

  /** A paragraph has no children exactly when it has neither properties nor runs. */
  lemma NoChildren(p: Para)
    ensures ChildrenOf(p) == [] <==> p == Para(None, [])
  {
    if p.runs != [] {
      assert RunChildren(p.runs)[0] == R(p.runs[0]);
    }
  }

  /** Removing the first child equal to a run removes the first equal run. */
  lemma {:induction false} RemoveRunChild(rs: seq<Run>, r: Run)
    ensures RemoveFirst(RunChildren(rs), R(r)) == RunChildren(RemoveFirst(rs, r))
    decreases |rs|
  {
    if rs != [] {
      RemoveRunChild(rs[1..], r);
      assert RunChildren(rs) == [R(rs[0])] + RunChildren(rs[1..]);
      assert (RunChildren(rs))[1..] == RunChildren(rs[1..]);
      if rs[0] != r {
        assert RemoveFirst(rs, r) == [rs[0]] + RemoveFirst(rs[1..], r);
      }
    }
  }

  lemma {:induction false} NoPPrAmongRuns(rs: seq<Run>, pp: ParaProps)
    ensures PPr(pp) !in RunChildren(rs)
    decreases |rs|
  {
    if rs != [] {
      NoPPrAmongRuns(rs[1..], pp);
    }
  }

  lemma RemoveFirstPast(h: ParaChild, t: seq<ParaChild>, x: ParaChild)
    requires h != x
    ensures RemoveFirst([h] + t, x) == [h] + RemoveFirst(t, x)
  {
    assert ([h] + t)[1..] == t;
  }

  /** Removing the properties child of a paragraph drops its w:pPr; any other properties
      value is not among its children. */
  lemma RemovePropsChild(p: Para, pp: ParaProps)
    ensures RemoveFirst(ChildrenOf(p), PPr(pp))
            == ChildrenOf(if p.props == Some(pp) then Para(None, p.runs) else p)
  {
    NoPPrAmongRuns(p.runs, pp);
    if p.props == Some(pp) {
      assert ChildrenOf(p) == [PPr(pp)] + RunChildren(p.runs);
      assert ChildrenOf(p)[1..] == RunChildren(p.runs);
    } else {
      assert PPr(pp) !in ChildrenOf(p);
    }
  }

  /** Removing a run child of a paragraph removes the first equal run. */
  lemma RemoveRunChildOf(p: Para, r: Run)
    ensures RemoveFirst(ChildrenOf(p), R(r)) == ChildrenOf(Para(p.props, RemoveFirst(p.runs, r)))
  {
    RemoveRunChild(p.runs, r);
    if p.props.Some? {
      var h := PPr(p.props.value);
      assert ChildrenOf(p) == [h] + RunChildren(p.runs);
      RemoveFirstPast(h, RunChildren(p.runs), R(r));
      assert ChildrenOf(Para(p.props, RemoveFirst(p.runs, r))) == [h] + RunChildren(RemoveFirst(p.runs, r));
    } else {
      assert ChildrenOf(p) == RunChildren(p.runs);
    }
  }

  /** `props` with the justification set, creating the w:pPr when there is none. */
  function WithAlign(props: Option<ParaProps>, a: Align): ParaProps
  {
    match props
    case None => ParaProps(None, Some(a), false)
    case Some(pp) => pp.(align := Some(a))
  }

  /** `props` with the page-break-before flag set, creating the w:pPr when there is none. */
  function WithPageBreakBefore(props: Option<ParaProps>, b: bool): ParaProps
  {
    match props
    case None => ParaProps(None, None, b)
    case Some(pp) => pp.(pageBreakBefore := b)
  }

  /** The paragraph `add_paragraph(text, style)` creates. */
  function NewPara(text: string, style: Option<string>): Para
  {
    Para(if style.Some? then Some(ParaProps(style, None, false)) else None,
         if text == [] then [] else [TextRun(text)])
  }

  /** A paragraph being edited (python-docx's Paragraph proxy over one w:p). */
  class Paragraph {
    var props: Option<ParaProps>
    var runs: seq<Run>

    function Value(): Para
      reads this
    {
      Para(props, runs)
    }

    /** A proxy over an existing paragraph. */
    constructor Of(v: Para)
      ensures Value() == v
    {
      props := v.props;
      runs := v.runs;
    }

    /** `add_paragraph(text, style)`, before the paragraph is placed anywhere. */
    constructor (text: string, style: Option<string>)
      ensures Value() == NewPara(text, style)
    {
      props := if style.Some? then Some(ParaProps(style, None, false)) else None;
      runs := if text == [] then [] else [TextRun(text)];
    }

    /** `add_run(text)`. */
    method AddRun(text: string)
      modifies this
      ensures props == old(props)
      ensures runs == old(runs) + [TextRun(text)]
    {
      runs := runs + [TextRun(text)];
    }

    /** `run._r.append(child)` on the last run. */
    method AppendToLastRun(c: RunChild)
      requires runs != []
      modifies this
      ensures props == old(props)
      ensures runs == old(runs[..|runs| - 1]) + [Run(old(runs[|runs| - 1].children) + [c])]
    {
      var last := runs[|runs| - 1];
      runs := runs[..|runs| - 1] + [Run(last.children + [c])];
    }

    /** The `alignment` setter. */
    method SetAlignment(a: Align)
      modifies this
      ensures runs == old(runs)
      ensures props == Some(WithAlign(old(props), a))
    {
      props := Some(WithAlign(props, a));
    }

    /** The `paragraph_format.page_break_before` setter. */
    method SetPageBreakBefore(b: bool)
      modifies this
      ensures runs == old(runs)
      ensures props == Some(WithPageBreakBefore(old(props), b))
    {
      props := Some(WithPageBreakBefore(props, b));
    }

    /** `_p.remove(child)`. The element is removed by identity; here the first equal child
        is removed, which is the same child whenever children are removed front to back. */
    method Remove(c: ParaChild)
      modifies this
      ensures ChildrenOf(Value()) == RemoveFirst(old(ChildrenOf(Value())), c)
    {
      match c
      case PPr(pp) =>
        RemovePropsChild(Value(), pp);
        if props == Some(pp) {
          props := None;
        }
      case R(r) =>
        RemoveRunChildOf(Value(), r);
        runs := RemoveFirst(runs, r);
    }
  }

  /** The primary footer of one document section: its link flag and its paragraphs. */
  class Footer {
    var isLinkedToPrevious: bool
    var paragraphs: seq<Para>

    constructor (linked: bool, paragraphs: seq<Para>)
      ensures isLinkedToPrevious == linked && this.paragraphs == paragraphs
    {
      isLinkedToPrevious := linked;
      this.paragraphs := paragraphs;
    }

    /** `footer.add_paragraph()`: a new empty paragraph at the end of the footer. */
    method AddParagraph()
      modifies this
      ensures isLinkedToPrevious == old(isLinkedToPrevious)
      ensures paragraphs == old(paragraphs) + [Para(None, [])]
    {
      paragraphs := paragraphs + [Para(None, [])];
    }

    /** Stores the paragraph edited through `footer.paragraphs[0]` back as the first one. */
    method SetFirstParagraph(p: Para)
      requires paragraphs != []
      modifies this
      ensures isLinkedToPrevious == old(isLinkedToPrevious)
      ensures paragraphs == [p] + old(paragraphs[1..])
    {
      paragraphs := [p] + paragraphs[1..];
    }
  }

  /** A word-processing document: body, style table and per-section footers. */
  class Document {
    var body: seq<Node>
    var styles: map<string, Style>
    var footers: seq<Footer>

    constructor (body: seq<Node>, styles: map<string, Style>, footers: seq<Footer>)
      ensures this.body == body && this.styles == styles && this.footers == footers
    {
      this.body := body;
      this.styles := styles;
      this.footers := footers;
    }

    /** `add_paragraph`: places a finished paragraph where python-docx puts a new one. */
    method AddParagraph(p: Para)
      modifies this`body
      ensures body == InsertParagraph(old(body), p)
    {
      var k := BeforeSectPr(body);
      body := body[..k] + [P(p)] + body[k..];
    }
  }
}
