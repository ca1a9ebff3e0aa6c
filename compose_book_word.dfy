/** The section-file selection of `compose_book_word.py`: which `.docx` part of the
    `bookParts` directory stands for which catalog section, which of them are composed, and the
    refusal to compose when none is found. Whether a file exists is given as the set of paths
    that exist. */
module ComposeBookWord {
  import opened Common
  import App

  /** A filesystem path, as its segments. */
  datatype Path = Path(segments: seq<string>)

  /** `parts_dir / filename`. */
  function Join(dir: Path, name: string): Path
  {
    Path(dir.segments + [name])
  }

  /** The literal of `get_section_map`. Some file names differ from their section names
      ("Questionaires" is read from "QUESTIONNAIRES.docx"). */
  const PartFiles: map<string, string> := map[
    "Top Hits" := "TOP HITS.docx",
    "Methodology" := "METHODOLOGY.docx",
    "Biographical" := "BIOGRAPHICAL.docx",
    "Family/Personal Info" := "FAMILY PERSONAL INFO.docx",
    "Buisness Interests" := "BUISNESS INTERESTS.docx",
    "Race Review" := "RACE REVIEW.docx",
    "Campaign Finance" := "CAMPAIGN FINANCE.docx",
    "Issues" := "ISSUES.docx",
    "Appendicies" := "APPENDICIES.docx",
    "Questionaires" := "QUESTIONNAIRES.docx",
    "Scorecards" := "SCORECARD.docx",
    "Travel Discosureles" := "TRAVEL DISCLOSURES.docx",
    "Offical Office Disbursments" := "OFFICIAL OFFICE DISBURSEMENTS.docx"
  ]

  /** The literal is keyed by exactly the catalog of `app.py`, with non-empty file names. */
  lemma PartFilesMatchCatalog()
    ensures forall s :: s in PartFiles <==> s in App.SectionOrder
    ensures forall s :: s in PartFiles ==> PartFiles[s] != ""
  {
    forall k | 0 <= k < |App.SectionOrder|
      ensures App.SectionOrder[k] in PartFiles
    {
      assert k in {0, 1, 2, 3, 4, 5, 6, 7, 8, 9, 10, 11, 12};
    }
  }

  /** `get_section_map`: the part file of each catalog section. It is keyed by exactly the
      catalog, so every section the application offers has a part file, and every name in it is
      non-empty. */
  function SectionMap(): (m: map<string, string>)
    ensures forall s :: s in m <==> s in App.SectionOrder
    ensures forall s :: s in m ==> m[s] != ""
  {
    PartFilesMatchCatalog();
    PartFiles
  }

  /** The file a section is read from, if the map names one: `mapping.get(section)`, with an
      empty name treated like a missing one. Exactly the catalog sections have one. */
  function FileOf(section: string): (r: Option<string>)
    ensures r.Some? <==> section in App.SectionOrder
    ensures r.Some? ==> r.value != "" && r.value == SectionMap()[section]
  {
    if section in SectionMap() && SectionMap()[section] != "" then Some(SectionMap()[section]) else None
  }

  /** One pass of the loop of `section_files`: the pair it yields for `section`, if any. */
  function Yielded(section: string, partsDir: Path, existing: set<Path>): seq<(string, Path)>
  {
    match FileOf(section)
    case None => []
    case Some(filename) =>
      if Join(partsDir, filename) in existing then [(section, Join(partsDir, filename))] else []
  }

  /** `section_files`: the sections of `order`, in order, whose part file exists, each with the
      path of that file. Unmapped sections are skipped silently, missing files with a warning
      (the warning is not modelled). */
  function SectionFiles(order: seq<string>, partsDir: Path, existing: set<Path>): (r: seq<(string, Path)>)
    ensures |r| <= |order|
    decreases |order|
  {
    if order == [] then []
    else Yielded(order[0], partsDir, existing) + SectionFiles(order[1..], partsDir, existing)
  }

  /** Whether `section_files` yields `section`, and then with which path. */
  ghost predicate Found(section: string, partsDir: Path, existing: set<Path>)
  {
    FileOf(section).Some? && Join(partsDir, FileOf(section).value) in existing
  }

  /** A pair is yielded exactly when its section is in the order, is mapped to a file, and
      that file exists, and its path is then `parts_dir / mapping[section]`. */
  lemma {:induction false} SectionFilesMembership(order: seq<string>, partsDir: Path, existing: set<Path>,
                                                  section: string, path: Path)
    ensures (section, path) in SectionFiles(order, partsDir, existing)
            <==> section in order && Found(section, partsDir, existing)
                 && path == Join(partsDir, SectionMap()[section])
    decreases |order|
  {
    if order != [] {
      SectionFilesMembership(order[1..], partsDir, existing, section, path);
      assert order == [order[0]] + order[1..];
    }
  }

  /** The names of the yielded pairs. */
  function Names(pairs: seq<(string, Path)>): (r: seq<string>)
    ensures |r| == |pairs|
    ensures forall k :: 0 <= k < |pairs| ==> r[k] == pairs[k].0
  {
    if pairs == [] then [] else [pairs[0].0] + Names(pairs[1..])
  }

  /** The yielded sections keep the order of `order`, each occurrence used at most once. */
  lemma {:induction false} SectionFilesKeepOrder(order: seq<string>, partsDir: Path, existing: set<Path>)
    ensures Subseq(Names(SectionFiles(order, partsDir, existing)), order)
    decreases |order|
  {
    if order != [] {
      var r := SectionFiles(order, partsDir, existing);
      var rest := SectionFiles(order[1..], partsDir, existing);
      SectionFilesKeepOrder(order[1..], partsDir, existing);
      if r != rest {
        assert r == [r[0]] + rest && r[0].0 == order[0];
        assert Names(r)[1..] == Names(rest);
      }
    }
  }

  /** A section that is not found contributes nothing, so the result for a concatenation of
      orders is the concatenation of the results. */
  lemma {:induction false} SectionFilesAppend(a: seq<string>, b: seq<string>, partsDir: Path, existing: set<Path>)
    ensures SectionFiles(a + b, partsDir, existing)
            == SectionFiles(a, partsDir, existing) + SectionFiles(b, partsDir, existing)
    decreases |a|
  {
    if a == [] {
      assert a + b == b;
    } else {
      assert (a + b)[0] == a[0] && (a + b)[1..] == a[1..] + b;
      SectionFilesAppend(a[1..], b, partsDir, existing);
      var y := Yielded(a[0], partsDir, existing);
      var x, z := SectionFiles(a[1..], partsDir, existing), SectionFiles(b, partsDir, existing);
      assert SectionFiles(a + b, partsDir, existing) == y + (x + z);
      assert SectionFiles(a, partsDir, existing) == y + x;
      AppendAssoc(y, x, z);
    }
  }

  /** When every section of `order` is found, every section is yielded, in order, with its
      path. */
  lemma {:induction false} AllFoundAllYielded(order: seq<string>, partsDir: Path, existing: set<Path>)
    requires forall k :: 0 <= k < |order| ==>
               FileOf(order[k]).Some? && Join(partsDir, FileOf(order[k]).value) in existing
    ensures Names(SectionFiles(order, partsDir, existing)) == order
    ensures forall k :: 0 <= k < |order| ==>
              SectionFiles(order, partsDir, existing)[k].1 == Join(partsDir, FileOf(order[k]).value)
    decreases |order|
  {
    if order != [] {
      AllFoundAllYielded(order[1..], partsDir, existing);
      var r := SectionFiles(order, partsDir, existing);
      var rest := SectionFiles(order[1..], partsDir, existing);
      assert r == [(order[0], Join(partsDir, FileOf(order[0]).value))] + rest;
      assert Names(r) == [order[0]] + Names(rest);
      assert order == [order[0]] + order[1..];
    }
  }

  /** Each catalog section is found when its part file exists under `partsDir`. */
  ghost predicate AllPartsPresent(partsDir: Path, existing: set<Path>)
  {
    forall s :: s in SectionMap() ==> Join(partsDir, SectionMap()[s]) in existing
  }

  /** With every part file present, all thirteen catalog sections are composed, in catalog
      order. */
  lemma AllPartsGiveWholeCatalog(partsDir: Path, existing: set<Path>)
    requires AllPartsPresent(partsDir, existing)
    ensures Names(SectionFiles(App.SectionOrder, partsDir, existing)) == App.SectionOrder
    ensures |SectionFiles(App.SectionOrder, partsDir, existing)| == 13
  {
    forall k | 0 <= k < |App.SectionOrder|
      ensures Join(partsDir, FileOf(App.SectionOrder[k]).value) in existing
    {
      assert App.SectionOrder[k] in SectionMap();
    }
    AllFoundAllYielded(App.SectionOrder, partsDir, existing);
  }

  /** Why `main` stops. */
  datatype ComposeError = NoSourceFiles

  /** `section_files` yields nothing exactly when no section of the order is found. */
  lemma NothingYieldedIffNothingFound(order: seq<string>, partsDir: Path, existing: set<Path>)
    ensures SectionFiles(order, partsDir, existing) == []
            <==> forall s :: s in order ==> !Found(s, partsDir, existing)
  {
    var r := SectionFiles(order, partsDir, existing);
    if r != [] {
      SectionFilesMembership(order, partsDir, existing, r[0].0, r[0].1);
    }
    forall s | s in order && Found(s, partsDir, existing)
      ensures r != []
    {
      SectionFilesMembership(order, partsDir, existing, s, Join(partsDir, SectionMap()[s]));
    }
  }

  /** The check in `main`: composing is refused exactly when no section of the order is found,
      and otherwise goes ahead with what `section_files` yields. */
  function Compose(order: seq<string>, partsDir: Path, existing: set<Path>): (r: Result<seq<(string, Path)>, ComposeError>)
    ensures r.Failure? <==> forall s :: s in order ==> !Found(s, partsDir, existing)
    ensures r.Success? ==> r.value == SectionFiles(order, partsDir, existing)
  {
    NothingYieldedIffNothingFound(order, partsDir, existing);
    var sections := SectionFiles(order, partsDir, existing);
    if sections == [] then Failure(NoSourceFiles) else Success(sections)
  }
}
