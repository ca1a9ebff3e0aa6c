# bookMaker merge engine, modelled in Dafny

bookMaker assembles a "briefing book" out of the Word documents uploaded for each section
(one part file per section in `compose_book_word.py`). Sections come from a fixed catalog of
thirteen (`SECTION_ORDER`). This project models the python-docx merge
path of `app.py` and the section-file selection of `compose_book_word.py`, and proves
properties of both.

The `app.py` merge path works like this:

- The upload filter keeps the catalog sections that received files, in catalog order. It
  refuses to build when none did.
- `build_combined_document` starts from a template document and deletes its first paragraph
  if that paragraph's text is empty.
- It makes sure a "BookMaker Section" paragraph style exists, based on "Heading 1".
- It writes a "Table of Contents" title and a TOC complex field. The field gathers the
  paragraphs in that style.
- For each section, it adds a heading paragraph. The heading is in the section style,
  left-aligned, and starts a new page. Then each file's body is copied in, leaving out its
  section properties (`w:sectPr`).
- Last, it rewrites the first paragraph of every section's footer (adding one when there is
  none) to a centred "Page {PAGE} of {NUMPAGES}" paragraph made of two complex fields; later
  footer paragraphs are kept.
- `_safe_stem` turns a section name into a file-name stem.

`compose_book_word.py` chooses the `.docx` part files of the `bookParts` directory through a
fixed section-to-file map. It refuses to compose when no part file is found.

The model has six modules:

- `Common`: options, results, subsequences.
- `Docx`: the slice of a word-processing document the engine touches, and the python-docx
  operations it calls.
  - The body is a sequence of top-level nodes: paragraphs, `w:sectPr`, and anything else.
  - Paragraphs are values made of properties and runs. A run is a list of field characters,
    instructions and texts.
  - `Paragraph`, `Footer` and `Document` are classes whose methods change their fields, as
    the python-docx proxies do.
- `App`: the functions of `app.py`. Each state-changing function is a method proved against
  a specification function, and each specification function has lemmas about it.
- `AppLayout`: where `build_combined_document` puts things.
- `ComposeBookWord`: `get_section_map`, `section_files` and the check in `main`.
- `IntendedLayout`: the layout the builder evidently means to produce, with each section's
  heading next to its content; see "Findings".

Two python-docx placement rules decide the shape of the result:

- `add_paragraph` inserts the new paragraph just before the body's first `w:sectPr`.
- `body.append`, used by `append_document_body`, adds at the very end.

So when the template body holds a `w:sectPr`, the order is:

1. whatever preceded the `w:sectPr`;
2. the title and the TOC paragraph;
3. every section heading, in order;
4. the `w:sectPr` and whatever followed it;
5. every copied node, in order.

A blank template does hold a `w:sectPr`. Headings and file contents alternate section by
section only when the body holds no `w:sectPr`. `AppLayout.ComposedLayoutWithSectPr`,
`AppLayout.ComposedLayoutWithoutSectPr` and `AppLayout.BlankTemplateLayout` prove both
shapes. `App.BuildCombinedDocument` models the code as written. The corrected layout is in
`IntendedLayout` and is described under "Findings".

## Model

| member | source | states |
|---|---|---|
| `App.SectionOrderDistinct` | app.py:16-30 | the catalog has thirteen pairwise different names, so the upload dictionary has one key per section |
| `App.UploadsIsTheDictionary` | app.py:87-96 | the upload dictionary has pairwise different keys, and looking a name up gives the files chosen for a catalog section (none when nothing was chosen) and nothing for any other name |
| `App.LookupUploads` | app.py:87-96 | looking a name up among the entries built from an order gives that name's files exactly when the name is in the order |
| `App.FilteredSections` | app.py:99-103 | an entry is kept exactly when its file list is non-empty, and the kept entries are a subsequence of the input (order kept) |
| `App.FilteredSectionsAppend` | app.py:99-103 | filtering the items of two dictionaries one after the other gives the two filtered lists one after the other |
| `App.Generate` | app.py:98-107 | the build is refused exactly when every upload entry holds no file; otherwise the builder receives the filtered sections, which are non-empty |
| `App.GenerateRefusesOnlyEmptyUploads` | app.py:98-113 | no builder is called exactly when no catalog section received a file; otherwise the builder receives exactly the sections that did, with their files, in catalog order |
| `App.Sanitize` | app.py:243 | same length as the input; each character is kept when alphanumeric and becomes '_' otherwise |
| `App.TrimStart` | app.py:243 | `strip` on the left: the result is a suffix of the input not starting with the character, and everything dropped is that character |
| `App.TrimEnd` | app.py:243 | `strip` on the right: the result is a prefix not ending with the character, and everything dropped is that character |
| `App.Strip` | app.py:243 | `str.strip(c)` gives a string no longer than the input that neither starts nor ends with `c` |
| `App.StripEmptyExactly` | app.py:243-244 | stripping leaves nothing exactly when the input holds nothing but the stripped character |
| `App.StripIsWindow` | app.py:243 | the stripped string is the contiguous window of the input starting where the leading run of the character ends |
| `App.StripDropsOnlyStripped` | app.py:243 | outside that window the input holds only the stripped character |
| `App.SafeStem` | app.py:242-244 | the stem is never empty; it is "section" when sanitising and stripping leave nothing; otherwise it is no longer than the input, holds only alphanumerics and '_', and neither starts nor ends with '_' |
| `App.StemChars` | app.py:243 | the stripped, sanitised input is no longer than the input and holds only alphanumerics and '_' |
| `App.SafeStemFallsBackExactly` | app.py:243-244 | the fallback "section" is taken exactly when every input character is '_' or not alphanumeric |
| `App.OutsideStripped` | app.py:242-244 | every input character outside the kept window is '_' or not alphanumeric |
| `App.EnsuredStyles` | app.py:247-258 | afterwards "BookMaker Section" exists, every existing style is unchanged, and no other name is added |
| `App.EnsureOutcome` | app.py:247-258 | the call returns "BookMaker Section" or raises the KeyError for "Heading 1" |
| `App.EnsureSectionStyleSettles` | app.py:247-258 | it raises exactly when neither style exists; a second call succeeds and changes nothing; an existing style is left as it is; a style created by a successful call is a quick paragraph style based on "Heading 1" |
| `App.EnsureSectionStyle` | app.py:247-258 | the style table becomes `EnsuredStyles` of the old one, and the result is `EnsureOutcome` of it; the style is added before the "Heading 1" lookup that may raise |
| `App.CreateFieldRun` | app.py:294-318 | exactly one run is appended to the paragraph; it holds begin, instruction, separate, cached text and end, in that order; the paragraph's properties and earlier runs are unchanged |
| `App.ClearParagraph` | app.py:321-323 | removing the children one by one from a snapshot leaves a paragraph with neither properties nor runs |
| `App.TitleParagraphReads` | app.py:262 | the title paragraph reads "Table of Contents" and is in the Title style |
| `App.TocParagraphReads` | app.py:263-268 | the TOC paragraph's only field is `TOC \h \z \t "<style>,1"` with the placeholder as its cached text; over the section style the instruction is `TOC \h \z \t "BookMaker Section,1"` |
| `App.AddTableOfContents` | app.py:261-268 | when the Title style exists, the title and then the TOC paragraph are placed as `add_paragraph` places them; otherwise the unstyled title is placed and the KeyError for "Title" is returned |
| `App.RemoveInitialParagraphIfEmpty` | app.py:326-329 | the body becomes `RemoveInitialEmpty` of the old body |
| `App.RemoveInitialEmptyDropsAtMostOne` | app.py:326-329 | the paragraphs lose their first one exactly when its text is "", and otherwise stay the same; every non-paragraph node stays, in order |
| `App.WhitespaceParagraphIsKept` | app.py:327 | a first paragraph holding only a space is not empty, so it is kept |
| `App.AppendDocumentBody` | app.py:287-291 | the target body gets the source's nodes appended at its end, in order, without `w:sectPr`; the source is read from a snapshot |
| `App.PageNumberParagraphText` | app.py:280-284 | the footer paragraph reads "Page 1 of 1" until Word updates it, and is centred with no other properties |
| `App.PageNumberParagraphFields` | app.py:280-284 | the footer paragraph holds exactly two fields, PAGE and then NUMPAGES, each showing "1" |
| `App.WritePageNumbers` | app.py:280-284 | writing into an emptied paragraph gives exactly the page-number paragraph |
| `App.RewrittenFooter` | app.py:271-284 | a rewritten footer is unlinked and has the same number of paragraphs (one when it had none); its first is the page-number paragraph and the later ones are kept; a second rewrite changes nothing |
| `App.RewriteFooter` | app.py:273-284 | one footer's link flag and paragraphs become `Rewritten` of the old ones |
| `App.ApplyFooterWithPageNumbers` | app.py:271-284 | every section's footer becomes `Rewritten` of its old state, including a footer object shared by several sections |
| `App.SpliceFilesInto` | app.py:141-144 | the body becomes `SpliceFiles` of the old body and the section's files |
| `App.AddSectionsTo` | app.py:136-144 | the body becomes `AddSections` of the old body and the sections |
| `App.BuildCombinedDocument` | app.py:129-146 | the result is a new document. Without a KeyError it has the composed body, the ensured styles, the template's footers, and every footer rewritten. The KeyError raised is the one `BuildError` names, and then the footers are untouched |
| `Docx.TextRun` | app.py:281 | a text run reads back as its text |
| `Docx.FieldRun` | app.py:294-318 | a field run's text is its cached result |
| `Docx.FieldRunReadsBack` | app.py:294-318 | a field run reads back as its instruction and cached text, and only that field run reads back as them |
| `Docx.BeforeSectPr` | app.py:262-263 | the insertion point of `add_paragraph` is the first `w:sectPr`, or the end when there is none |
| `Docx.InsertParagraphPlaces` | app.py:137 | `add_paragraph` adds exactly one node, the new paragraph, at the insertion point; taking it out gives back the old body |
| `Docx.InsertParagraphNoSectPrBefore` | app.py:262-263 | no `w:sectPr` comes before the new paragraph, and a body without `w:sectPr` gets it at its end |
| `Docx.InsertParagraphKeepsSectPr` | app.py:137 | with a `w:sectPr` in the body, the first one directly follows the new paragraph |
| `Docx.ParaText` | app.py:327 | a paragraph's text is "" exactly when every one of its runs reads as "" |
| `Docx.WithoutSectPr` | app.py:288-291 | the copy holds no `w:sectPr` and exactly the other nodes, in order |
| `Docx.WithoutSectPrAppend` | app.py:287-291 | copying a concatenation copies each part in turn |
| `Docx.WithoutSectPrKeeps` | app.py:289-291 | a body without `w:sectPr` is copied whole |
| `Docx.ParagraphsAreTheParagraphNodes` | app.py:327 | `document.paragraphs` lists exactly the paragraph nodes of the body |
| `Docx.FirstParaIndex` | app.py:327-328 | the index of `paragraphs[0]`, when there is one, is the first paragraph node; None exactly when the body has no paragraph |
| `Docx.NoChildren` | app.py:321-323 | a paragraph has no children exactly when it has neither properties nor runs |
| `Docx.Paragraph.constructor` | app.py:137 | `add_paragraph(text, style)` gives a paragraph in that style holding one run of the text, or none for "" |
| `Docx.Paragraph.Of` | app.py:275 | the proxy over a footer's first paragraph starts with that paragraph's content |
| `Docx.Paragraph.AddRun` | app.py:295 | one text run is appended and the properties are unchanged |
| `Docx.Paragraph.AppendToLastRun` | app.py:299 | the child is appended to the last run only |
| `Docx.Paragraph.SetAlignment` | app.py:138 | the justification is set, creating the properties when there are none; the runs are unchanged |
| `Docx.Paragraph.SetPageBreakBefore` | app.py:139 | the page-break-before flag is set, creating the properties when there are none; the runs are unchanged |
| `Docx.Paragraph.Remove` | app.py:323 | the children become the old children with the first equal child removed |
| `Docx.Footer.AddParagraph` | app.py:278 | one empty paragraph is appended to the footer; the link flag is unchanged |
| `Docx.Footer.SetFirstParagraph` | app.py:275-276 | the first footer paragraph is replaced by the edited one; the others and the link flag are unchanged |
| `Docx.Document.AddParagraph` | app.py:137 | the paragraph is inserted where `add_paragraph` inserts, before the first `w:sectPr` |
| `AppLayout.Spliced` | app.py:289-290 | the splices of a section's files never add a `w:sectPr` |
| `AppLayout.SplicedIsFilesInOrder` | app.py:141-144 | the splices of a section append every file's nodes, file after file, each in its own order, without `w:sectPr` |
| `AppLayout.SpliceFilesAppends` | app.py:141-144 | splicing files only appends to the body |
| `AppLayout.Content` | app.py:136-144 | the copied content of all sections holds no `w:sectPr` |
| `AppLayout.ContentIsSectionsInOrder` | app.py:136-144 | the copied content is every file of every section, section after section and file after file, without `w:sectPr` |
| `AppLayout.HeadingsInOrder` | app.py:136-137 | there is one heading per section, and the k-th heading carries the k-th section's name |
| `AppLayout.HeadingParaReads` | app.py:137-139 | a heading reads as its section name, is in the section style, is left-aligned and starts a new page |
| `AppLayout.InsertWithoutSectPr` | app.py:137 | with no `w:sectPr` in the body, `add_paragraph` appends |
| `AppLayout.InsertBeforeSectPr` | app.py:137 | with a `w:sectPr` in the body, `add_paragraph` inserts just before the first one |
| `AppLayout.LayoutWithoutSectPr` | app.py:136-144 | with no `w:sectPr`, each heading is followed by its section's files, section after section |
| `AppLayout.SectionStepWithSectPr` | app.py:137-144 | with a `w:sectPr`, one section's heading goes just before it and that section's files go at the very end |
| `AppLayout.LayoutWithSectPr` | app.py:136-144 | with a `w:sectPr`, all headings end up before it in section order, and all files after everything, in order |
| `AppLayout.RemoveInitialEmptyKeepsNodes` | app.py:326-329 | removing the initial empty paragraph adds no node |
| `AppLayout.ComposedLayoutWithSectPr` | app.py:129-144 | from a template holding a `w:sectPr`: what preceded it, title, TOC, all headings, the `w:sectPr` and what followed it, then all copied content |
| `AppLayout.ComposedLayoutWithoutSectPr` | app.py:129-144 | from a template without `w:sectPr`: the template, title, TOC, then each heading followed by its section's content |
| `AppLayout.BlankTemplateLayout` | app.py:130-144 | from a blank template: title, TOC, all headings, the `w:sectPr`, then all copied content |
| `AppLayout.BlankTemplateWithEmptyParagraphLayout` | app.py:130-131 | a blank template that starts with an empty paragraph gives the same book, because that paragraph is removed first |
| `ComposeBookWord.PartFilesMatchCatalog` | compose_book_word.py:12-28 | the literal map is keyed by exactly the catalog names of `app.py`, and every file name in it is non-empty |
| `ComposeBookWord.SectionMap` | compose_book_word.py:12-28 | `get_section_map` has a key for every catalog section and for nothing else, each with a non-empty file name |
| `ComposeBookWord.FileOf` | compose_book_word.py:33-36 | exactly the catalog sections have a file; it is non-empty and it is the name the map gives |
| `ComposeBookWord.SectionFiles` | compose_book_word.py:31-41 | at most one pair is yielded per entry of the order |
| `ComposeBookWord.SectionFilesMembership` | compose_book_word.py:31-41 | a pair is yielded exactly when its section is in the order, is mapped to a file, and that file exists; its path is then the parts directory joined with the mapped name |
| `ComposeBookWord.SectionFilesKeepOrder` | compose_book_word.py:31-41 | the yielded sections are a subsequence of the order: order kept, each occurrence used at most once |
| `ComposeBookWord.SectionFilesAppend` | compose_book_word.py:33-41 | the result for two orders one after the other is the two results one after the other |
| `ComposeBookWord.AllFoundAllYielded` | compose_book_word.py:33-39 | when every section of the order is found, every one is yielded, in order, each with its path |
| `ComposeBookWord.AllPartsGiveWholeCatalog` | compose_book_word.py:12-41 | when every part file exists, all thirteen catalog sections are yielded in catalog order |
| `ComposeBookWord.NothingYieldedIffNothingFound` | compose_book_word.py:31-41 | `section_files` yields nothing exactly when no section of the order is mapped to an existing file |
| `ComposeBookWord.Compose` | compose_book_word.py:115-117 | composing is refused exactly when no section of the order is found, and otherwise goes ahead with what `section_files` yields |
| `IntendedLayout.SectionsNotContiguous` | app.py:136-144 | as written, two one-file sections from a blank template give title, TOC, both headings, the `w:sectPr`, then both files' content: the second heading precedes the first section's content |
| `IntendedLayout.SpliceBeforeSectPr` | app.py:141-144 | with the splice placed as `add_paragraph` places a paragraph, a section's files land in order just before the first `w:sectPr` |
| `IntendedLayout.IntendedLayoutWithSectPr` | app.py:136-144 | with the corrected splice, each heading is followed by its section's content, section after section, all before the `w:sectPr` |
| `IntendedLayout.IntendedComposedLayout` | app.py:129-144 | the corrected build, from any template holding a `w:sectPr`: what preceded it, title, TOC, one heading-and-content block per section in order, then the `w:sectPr` and what followed it |
| `IntendedLayout.IntendedAgreesWithoutSectPr` | app.py:129-144 | from a template without `w:sectPr`, the corrected build gives the same body as the code as written |
| `IntendedLayout.SectionsContiguousWhenCorrected` | app.py:136-144 | on the same two sections, the corrected build gives title, TOC, heading A, A's content, heading B, B's content, then the `w:sectPr` |

## Findings

| source | as written | input that shows it | evidently intended | confidence | as-written member | corrected member |
|---|---|---|---|---|---|---|
| app.py:137-144 | headings are placed by `add_paragraph`, before the body's first `w:sectPr`, while `append_document_body` appends copied nodes after it, so every heading precedes every section's content and the content follows the body's `w:sectPr` | two sections "A" and "B" of one file each, built from the blank template (whose body holds a `w:sectPr`) | each section is one block, its heading followed by its content, in section order, with the body's `w:sectPr` last | not executed | `IntendedLayout.SectionsNotContiguous` | `IntendedLayout.IntendedComposedLayout` |

## Left out

- The Streamlit page is not modelled: page setup, uploaders, radio buttons, messages and the download button. Only the filter rule of `main` is modelled. The files an uploader holds are opaque values.
- The Word automation path is not modelled: `build_combined_document_with_word`, `compose_sections_with_word` and the Word-side TOC and footer helpers in `app.py`, and `compose_via_word`, `insert_table_of_contents` and `apply_page_numbers` in `compose_book_word.py`. These are calls into an external process whose behaviour is not visible, and they need the platform check and temporary-file staging.
- Parsing and saving documents is not modelled. Each spliced file is given as its parsed body. The result is the built document object, not the bytes of a saved file. A parse error in a file is not modelled.
- python-docx element details that the engine never inspects are not modelled. These include run properties, `xml:space`, and the translation of tabs and newlines in run text. Body nodes other than paragraphs and `w:sectPr` are opaque.
- Styles are keyed by their display name. python-docx's mapping between built-in style names and style ids is not modelled. Neither is the ValueError raised when a style of the wrong type is requested.
- Section breaks inside paragraphs (a `w:sectPr` within a paragraph's `w:pPr`) are not represented: paragraph properties hold only style, alignment and page break. `append_document_body` copies such a break from a spliced file, so python-docx would list an extra document section whose footer the footer loop also rewrites; the model's footers are the template's only.
- Document sections are not derived from the body's `w:sectPr` elements. Each section is represented by its primary footer, and the document holds the list of those footers.
- Unlinking a footer that was linked to the previous section makes python-docx create a new footer part with one empty paragraph. The model keeps the footer's paragraphs instead. With a blank template, the engine's result is the same either way.
- `App.RewriteFooter`: the footer's first paragraph is edited through a copy that is written back once the edit is done. python-docx edits it in place through a proxy. The final contents are the same; aliasing between that proxy and the footer is not modelled.
- `App.AddSectionsTo`: each heading paragraph is built completely and then inserted. python-docx inserts it first and then sets its alignment and page break through the proxy. The body that results is the same.
- `App.SafeStem`: Python's `str.isalnum` is a parameter, because Unicode character classes are not modelled. The contract does not say outright that the stem equals the sanitised input cut to its window; `App.StripIsWindow`, `App.StripDropsOnlyStripped` and `App.OutsideStripped` state that window instead.
- `ComposeBookWord.SectionFiles`: the warning printed for a missing file is not modelled. Neither are the directory checks, path resolution and printing of `main` in `compose_book_word.py`. Whether a path exists is given as a set of existing paths.
- `update_app.py` and the `inspect_*.py` scripts are not part of this model.
