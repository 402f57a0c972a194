/**
 * The prompting strategies of `examples_inference`: the system turns each
 * mode injects and `run_doc`, which turns a question record and a mode into
 * a query plan, a skip (grid image not produced yet) or a fatal exit (unknown
 * mode).
 */
module Strategy {
  import opened Wrappers
  import opened Strings
  import opened Envelope
  import opened Persist

  /** One line of the dataset; `questionId` is the text `str()` gives for the id. */
  datatype Doc = Doc(questionId: string, imagePath: string, question: string, answer: string)

  /** What `run_doc` does with a record. */
  datatype Plan =
    | Query(expName: string, imagePaths: seq<string>, question: string, history: seq<Turn>, extra: Record)
    | Skip(dotsPath: string)
    | Invalid(mode: string)

  const AnswerFormat := "Finally, you must conclude your answer in format [[ANSWER]], such as [[true]] or [[false]]."
  const TwoImageIntro :=
    "I will provide you with two images of the same scene. The second image is overlaid with a dot matrix of a shape of "
  const OneImageIntro := "The image is overlaid with a dot matrix of a shape of "
  const GridRuleList :=
    " to help you with your task, and each dot is labeled with two-dimensional coordinates (x,y).\n"
    + " 1. When you mention any key objects in the image, first output their nearest coordinates then identify them.\n"
    + " 2. You use the coordinates to determine the spatial relationships of the objects. Within each column, "
    + "the x-coordinate increases from top to bottom, and within each row, the y-coordinate increases from left to right.\n"
    + " 3. You can search and reason region by region with the help of the dots.\n"
    + " 4. "
  const GridRules := GridRuleList + AnswerFormat
  const CotSuffix := "\n Let's think step by step"
  const GridRows := 6
  const GridCols := 6

  function SystemText(text: string): seq<Turn> {
    [Turn(System, [Text(text)])]
  }

  /** `get_output_inst`: one system turn whose only block is the answer-format instruction. */
  function OutputInstruction(): (r: seq<Turn>)
    ensures |r| == 1 && r[0].role == System && r[0].content == [Text(AnswerFormat)]
  {
    SystemText(AnswerFormat)
  }

  /** `{h} * {w}` in the guideline text. */
  function ShapeClause(h: int, w: int): string {
    IntToString(h) + " * " + IntToString(w)
  }

  /**
   * `get_textual_guidelines(h, w)`: guidelines for the original image plus its
   * grid-overlaid copy, one system text block that opens with the two-image
   * introduction, names the shape `h * w` right after it, and ends with the
   * answer-format instruction.
   */
  function GridGuidelines(h: int, w: int): (r: seq<Turn>)
    ensures |r| == 1 && r[0].role == System && |r[0].content| == 1 && r[0].content[0].Text?
    ensures GuidelineLayout(r[0].content[0].text, TwoImageIntro, ShapeClause(h, w))
  {
    GuidelineParts(TwoImageIntro, ShapeClause(h, w), GridRuleList, AnswerFormat);
    SystemText(TwoImageIntro + ShapeClause(h, w) + GridRules)
  }

  /** `get_textual_guidelines_single(h, w)`: the same layout, with the one-image introduction. */
  function GridGuidelinesSingle(h: int, w: int): (r: seq<Turn>)
    ensures |r| == 1 && r[0].role == System && |r[0].content| == 1 && r[0].content[0].Text?
    ensures GuidelineLayout(r[0].content[0].text, OneImageIntro, ShapeClause(h, w))
  {
    GuidelineParts(OneImageIntro, ShapeClause(h, w), GridRuleList, AnswerFormat);
    SystemText(OneImageIntro + ShapeClause(h, w) + GridRules)
  }

  /** `text` opens with `intro`, continues with `shape`, and ends with the answer-format instruction. */
  predicate GuidelineLayout(text: string, intro: string, shape: string) {
    |intro| + |shape| <= |text| && text[..|intro|] == intro && text[|intro|..|intro| + |shape|] == shape &&
    EndsWith(text, AnswerFormat)
  }

  lemma GuidelineParts(intro: string, shape: string, rules: string, suffix: string)
    ensures var t := intro + shape + (rules + suffix);
      |intro| + |shape| <= |t| && t[..|intro|] == intro && t[|intro|..|intro| + |shape|] == shape &&
      EndsWith(t, suffix)
  {
    var t := intro + shape + (rules + suffix);
    assert t == (intro + shape + rules) + suffix;
  }

  /**
   * `img_path.replace(".jpg", "_dots.jpg")`: every occurrence of `.jpg` is
   * rewritten, so the grid path is never shorter than the source path and
   * equals it exactly when the source path holds no `.jpg`.
   */
  function DotsPath(imagePath: string): (r: string)
    ensures |r| >= |imagePath|
    ensures r == imagePath <==> forall i: nat :: !OccursAt(imagePath, ".jpg", i)
  {
    JpgRewriteIdentity(imagePath);
    ReplaceAll(imagePath, ".jpg", "_dots.jpg")
  }

  function ExpName(mode: string, questionId: string): string {
    "examples/" + mode + "/" + questionId
  }

  function GroundTruth(doc: Doc): Record {
    map["ground_truth" := Str(doc.answer)]
  }

  /**
   * `run_doc`: the if/elif chain over the mode, compared case-sensitively.
   * Exactly the four lower-case mode names are accepted and every other
   * string, case variants included, is fatal; a record is skipped exactly in
   * a grid mode whose grid image is absent, and the skip names that image.
   */
  function RunDoc(doc: Doc, mode: string, onDisk: string -> bool): (r: Plan)
    ensures r.Invalid? <==> mode !in {"direct", "cot", "scaffold", "scaffold_single"}
    ensures r.Invalid? ==> r.mode == mode
    ensures r.Skip? <==> (mode == "scaffold" || mode == "scaffold_single") && !onDisk(DotsPath(doc.imagePath))
    ensures r.Skip? ==> r.dotsPath == DotsPath(doc.imagePath)
  {
    var exp := ExpName(mode, doc.questionId);
    var extra := GroundTruth(doc);
    if mode == "direct" then
      Query(exp, [doc.imagePath], doc.question, OutputInstruction(), extra)
    else if mode == "cot" then
      Query(exp, [doc.imagePath], doc.question + CotSuffix, OutputInstruction(), extra)
    else if mode == "scaffold" then
      var dots := DotsPath(doc.imagePath);
      if !onDisk(dots) then Skip(dots)
      else Query(exp, [doc.imagePath, dots], doc.question, GridGuidelines(GridRows, GridCols), extra)
    else if mode == "scaffold_single" then
      var dots := DotsPath(doc.imagePath);
      if !onDisk(dots) then Skip(dots)
      else Query(exp, [dots], doc.question, GridGuidelinesSingle(GridRows, GridCols), extra)
    else
      Invalid(mode)
  }

  /** A row of the strategy table: which images, what is appended to the question, which system turns. */
  datatype StrategyRow = StrategyRow(withOriginal: bool, withGrid: bool, questionSuffix: string, history: seq<Turn>)

  /** The strategy table the if/elif chain spells out, as a lookup from mode to row. */
  function Strategies(): map<string, StrategyRow> {
    map[
      "direct" := StrategyRow(true, false, "", OutputInstruction()),
      "cot" := StrategyRow(true, false, CotSuffix, OutputInstruction()),
      "scaffold" := StrategyRow(true, true, "", GridGuidelines(GridRows, GridCols)),
      "scaffold_single" := StrategyRow(false, true, "", GridGuidelinesSingle(GridRows, GridCols))
    ]
  }

  /** The plan a table lookup gives: unknown modes are fatal, grid modes need the grid image first. */
  function PlanFromTable(doc: Doc, mode: string, onDisk: string -> bool): Plan {
    if mode !in Strategies() then Invalid(mode)
    else
      var s := Strategies()[mode];
      var dots := DotsPath(doc.imagePath);
      if s.withGrid && !onDisk(dots) then Skip(dots)
      else
        var images := (if s.withOriginal then [doc.imagePath] else []) + (if s.withGrid then [dots] else []);
        Query(ExpName(mode, doc.questionId), images, doc.question + s.questionSuffix, s.history, GroundTruth(doc))
  }

  /** The if/elif chain and the table lookup agree on every record and every mode string. */
  lemma RunDocMatchesTable(doc: Doc, mode: string, onDisk: string -> bool)
    ensures RunDoc(doc, mode, onDisk) == PlanFromTable(doc, mode, onDisk)
  {
  }

  /**
   * Every query plan is keyed `examples/<mode>/<id>`, carries exactly the
   * ground truth as auxiliary field, keeps the question as its prefix (only
   * `cot` appends to it), sends the primary image first except in
   * `scaffold_single`, ends with the grid image in the grid modes, and injects
   * the output instruction or the 6 * 6 guidelines of its mode.
   */
  lemma QueryPlanShape(doc: Doc, mode: string, onDisk: string -> bool)
    ensures var p := RunDoc(doc, mode, onDisk);
      p.Query? ==>
        && p.expName == "examples/" + mode + "/" + doc.questionId
        && p.extra == map["ground_truth" := Str(doc.answer)]
        && (p.question == doc.question <==> mode != "cot")
        && p.question == doc.question + (if mode == "cot" then "\n Let's think step by step" else "")
        && 1 <= |p.imagePaths| <= 2
        && (mode == "direct" || mode == "cot" ==> p.imagePaths == [doc.imagePath])
        && (mode == "scaffold" ==> p.imagePaths == [doc.imagePath, DotsPath(doc.imagePath)])
        && (mode != "scaffold_single" ==> p.imagePaths[0] == doc.imagePath)
        && (mode == "scaffold_single" ==> p.imagePaths == [DotsPath(doc.imagePath)])
        && (mode == "scaffold" || mode == "scaffold_single" ==>
              p.imagePaths[|p.imagePaths| - 1] == DotsPath(doc.imagePath) && onDisk(DotsPath(doc.imagePath)))
        && (mode == "direct" || mode == "cot" ==> p.history == OutputInstruction())
        && (mode == "scaffold" ==> p.history == GridGuidelines(6, 6))
        && (mode == "scaffold_single" ==> p.history == GridGuidelinesSingle(6, 6))
  {
  }

  /**
   * A path without `.jpg` is its own grid image: `scaffold` then sends the
   * same file twice under guidelines that call the second copy overlaid.
   */
  lemma NonJpgScaffoldSendsImageTwice(doc: Doc, onDisk: string -> bool)
    requires forall i: nat :: !OccursAt(doc.imagePath, ".jpg", i)
    requires onDisk(doc.imagePath)
    ensures RunDoc(doc, "scaffold", onDisk).Query?
    ensures RunDoc(doc, "scaffold", onDisk).imagePaths == [doc.imagePath, doc.imagePath]
  {
  }

  lemma JpgRewriteIdentity(imagePath: string)
    ensures ReplaceAll(imagePath, ".jpg", "_dots.jpg") == imagePath <==> forall i: nat :: !OccursAt(imagePath, ".jpg", i)
  {
    if forall i: nat :: !OccursAt(imagePath, ".jpg", i) {
      ReplaceAllWithoutOccurrence(imagePath, ".jpg", "_dots.jpg");
    } else {
      var i: nat :| OccursAt(imagePath, ".jpg", i);
      ReplaceAllGrows(imagePath, i);
    }
  }

  /** Each rewrite adds five characters, so a path holding `.jpg` comes out strictly longer. */
  lemma {:induction false} ReplaceAllGrows(s: string, i: nat)
    requires OccursAt(s, ".jpg", i)
    ensures |ReplaceAll(s, ".jpg", "_dots.jpg")| > |s|
    decreases |s|
  {
    if s[..4] != ".jpg" {
      assert i > 0;
      assert s[1..][i - 1..i - 1 + 4] == s[i..i + 4];
      ReplaceAllGrows(s[1..], i - 1);
    }
  }

  /** For a path whose only `.jpg` is its extension, the grid image is `<stem>_dots.jpg`. */
  lemma DotsPathOfPlainJpg(stem: string)
    requires forall i: nat :: !OccursAt(stem, ".jpg", i)
    ensures DotsPath(stem + ".jpg") == stem + "_dots.jpg"
  {
    var s := stem + ".jpg";
    forall i: nat | i < |stem| ensures !OccursAt(s, ".jpg", i) {
      if i + 4 <= |stem| {
        assert s[i..i + 4] == stem[i..i + 4];
        assert !OccursAt(stem, ".jpg", i);
      } else {
        assert s[|stem|] == '.';
        assert s[i..i + 4][|stem| - i] == s[|stem|];
        assert ".jpg"[1] != '.' && ".jpg"[2] != '.' && ".jpg"[3] != '.';
      }
    }
    ReplaceAllOnlySuffix(stem, ".jpg", "_dots.jpg");
  }

  /**
   * A `.jpg` in a directory name is rewritten too, so the grid image is looked
   * for under a renamed directory: `a.jpg/b.jpg` becomes `a_dots.jpg/b_dots.jpg`
   * for any one-character names `a` and `b`.
   */
  lemma DotsPathRewritesEveryOccurrence(a: char, b: char)
    ensures DotsPath([a] + ".jpg/" + [b] + ".jpg") == [a] + "_dots.jpg/" + [b] + "_dots.jpg"
  {
    RewritePath(a, b);
  }

  /** Both occurrences are found by their leftmost-occurrence steps: neither `a` nor `/b` can start a `.jpg` before them. */
  lemma RewritePath(a: char, b: char)
    ensures ReplaceAll([a] + ".jpg/" + [b] + ".jpg", ".jpg", "_dots.jpg") == [a] + "_dots.jpg/" + [b] + "_dots.jpg"
  {
    var pat, rep := ".jpg", "_dots.jpg";
    var dir := ['/', b];
    var name := dir + pat + [];
    forall i: nat | i < |dir| ensures !OccursAt(name, pat, i) {
      assert name[i..i + 4][1 - i] == name[1];
      assert name[i..i + 4][2 - i] == '.';
    }
    ReplaceAllFirst(dir, pat, rep, []);
    assert ReplaceAll([], pat, rep) == [];
    var path := [a] + pat + name;
    assert !OccursAt(path, pat, 0) by {
      assert path[0..4][1] == '.';
    }
    ReplaceAllFirst([a], pat, rep, name);
    assert path == [a] + ".jpg/" + [b] + ".jpg";
    assert [a] + rep + (dir + rep) == [a] + "_dots.jpg/" + [b] + "_dots.jpg";
  }

  /** Two shape clauses are equal only for equal dimensions: the first space ends the row count. */
  lemma ShapeClauseInjective(h1: int, w1: int, h2: int, w2: int)
    requires ShapeClause(h1, w1) == ShapeClause(h2, w2)
    ensures h1 == h2 && w1 == w2
  {
    var a1, a2 := IntToString(h1), IntToString(h2);
    var s := ShapeClause(h1, w1);
    assert s[|a1|] == ' ';
    assert ShapeClause(h2, w2)[|a2|] == ' ';
    assert a1 == s[..|a1|] == a2;
    IntToStringInjective(h1, h2);
    assert IntToString(w1) == s[|a1| + 3..] == IntToString(w2);
    IntToStringInjective(w1, w2);
  }

  lemma GuidelineTextInjective(intro: string, h1: int, w1: int, h2: int, w2: int)
    requires intro + ShapeClause(h1, w1) + GridRules == intro + ShapeClause(h2, w2) + GridRules
    ensures h1 == h2 && w1 == w2
  {
    var t := intro + ShapeClause(h1, w1) + GridRules;
    assert ShapeClause(h1, w1) == t[|intro|..|t| - |GridRules|];
    assert ShapeClause(h2, w2) == t[|intro|..|t| - |GridRules|];
    ShapeClauseInjective(h1, w1, h2, w2);
  }

  /** The guidelines determine the grid shape they describe, for both the two-image and the one-image text. */
  lemma GuidelinesDetermineShape(h1: int, w1: int, h2: int, w2: int)
    ensures GridGuidelines(h1, w1) == GridGuidelines(h2, w2) ==> h1 == h2 && w1 == w2
    ensures GridGuidelinesSingle(h1, w1) == GridGuidelinesSingle(h2, w2) ==> h1 == h2 && w1 == w2
  {
    if GridGuidelines(h1, w1) == GridGuidelines(h2, w2) {
      assert GridGuidelines(h1, w1)[0].content[0].text == GridGuidelines(h2, w2)[0].content[0].text;
      GuidelineTextInjective(TwoImageIntro, h1, w1, h2, w2);
    }
    if GridGuidelinesSingle(h1, w1) == GridGuidelinesSingle(h2, w2) {
      assert GridGuidelinesSingle(h1, w1)[0].content[0].text == GridGuidelinesSingle(h2, w2)[0].content[0].text;
      GuidelineTextInjective(OneImageIntro, h1, w1, h2, w2);
    }
  }

  predicate EndsWith(s: string, suffix: string) {
    |suffix| <= |s| && s[|s| - |suffix|..] == suffix
  }

  /** Whatever the mode, the one system turn a query carries ends with the answer-format instruction. */
  lemma EveryQueryAsksForAnswerFormat(doc: Doc, mode: string, onDisk: string -> bool)
    ensures var p := RunDoc(doc, mode, onDisk);
      p.Query? ==> |p.history| == 1 && |p.history[0].content| == 1 && p.history[0].content[0].Text? &&
                   EndsWith(p.history[0].content[0].text, AnswerFormat)
  {
  }

  /** The `--mode` default of the command line. */
  const CliDefaultMode := "Scaffold"

  /** The mode `examples_inference` defaults to and the command line evidently meant. */
  const DefaultMode := "scaffold"

  /** Running with the command-line default ends the process on the first record: "Scaffold" is no mode. */
  lemma CliDefaultModeExits(doc: Doc, onDisk: string -> bool)
    ensures RunDoc(doc, CliDefaultMode, onDisk) == Invalid("Scaffold")
  {
  }

  /** With the intended default, every record is queried with both images, or skipped until its grid image exists. */
  lemma DefaultModeRunsScaffold(doc: Doc, onDisk: string -> bool)
    ensures var p := RunDoc(doc, DefaultMode, onDisk);
      && !p.Invalid?
      && (p.Skip? <==> !onDisk(DotsPath(doc.imagePath)))
      && (p.Query? ==> p.imagePaths == [doc.imagePath, DotsPath(doc.imagePath)]
                       && p.history == GridGuidelines(6, 6))
  {
  }
}
