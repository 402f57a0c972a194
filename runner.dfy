/**
 * The sequential path of `examples_inference`: each record goes through
 * `run_doc` in dataset order; a skip moves on, a saved query overwrites its
 * log file, and a fatal condition ends the process.
 */
module Runner {
  import opened Wrappers
  import opened Strings
  import opened Envelope
  import opened Environment
  import opened Client
  import opened Persist
  import opened Strategy

  /** Why the process exits with status 1. */
  datatype Exit = UnknownMode(mode: string) | ImageAbsent(path: string)

  /** What happens to one record. */
  datatype DocOutcome =
    | Skipped(dotsPath: string)
    | Exited(reason: Exit)
    | Saved(path: string, record: Record, calls: nat)

  /**
   * What a plan ends in once `query_single_turn_and_save` has handled it with
   * its default model settings: a skip stays a skip, an unknown mode exits,
   * a query exits exactly when one of its images is absent, and otherwise
   * it is saved under its experiment name after one to `MaxAttempts` calls.
   */
  function PlanOutcome(plan: Plan, env: Env): (o: DocOutcome)
    ensures o.Skipped? <==> plan.Skip?
    ensures o.Exited? && o.reason.UnknownMode? <==> plan.Invalid?
    ensures o.Exited? && o.reason.ImageAbsent? <==>
      plan.Query? && exists i :: 0 <= i < |plan.imagePaths| && !env.onDisk(plan.imagePaths[i])
    ensures o.Exited? && o.reason.ImageAbsent? ==> plan.Query? && o.reason.path in plan.imagePaths
    ensures o.Saved? ==> plan.Query? && o.path == SavePath(env.today, plan.expName) && 1 <= o.calls <= MaxAttempts
  {
    match plan
    case Invalid(m) => Exited(UnknownMode(m))
    case Skip(d) => Skipped(d)
    case Query(exp, paths, question, history, extra) =>
      match SaveSpec(exp, paths, question, Some(history), DefaultModel, DefaultTemperature, DefaultMaxTokens,
                     Some(extra), env)
      case ImageMissing(p) => Exited(ImageAbsent(p))
      case Written(p, r, c) => Saved(p, r, c)
  }

  /** A saved plan's record is the query's record with the plan's auxiliary fields merged over it. */
  lemma PlanOutcomeRecord(plan: Plan, env: Env)
    ensures var o := PlanOutcome(plan, env);
      o.Saved? ==>
        plan.Query? &&
        o.record == RecordOf(plan.expName, plan.imagePaths, Some(plan.history), plan.question, DefaultModel,
                             DefaultTemperature,
                             RetryFrom(env.endpoint, PayloadFor(plan.question, plan.imagePaths, Some(plan.history),
                                                                DefaultModel, DefaultTemperature, DefaultMaxTokens,
                                                                env.onDisk, env.encode).value, 0).response,
                             Some(plan.extra)) &&
        o.calls == RetryFrom(env.endpoint, PayloadFor(plan.question, plan.imagePaths, Some(plan.history),
                                                      DefaultModel, DefaultTemperature, DefaultMaxTokens,
                                                      env.onDisk, env.encode).value, 0).calls
  {
  }

  /** `run_doc(doc, mode)` followed through `query_single_turn_and_save`. */
  function DocSpec(doc: Doc, mode: string, env: Env): (o: DocOutcome)
    ensures var plan := RunDoc(doc, mode, env.onDisk);
      && (o.Skipped? <==> plan.Skip?)
      && (o.Exited? && o.reason.UnknownMode? <==> plan.Invalid?)
      && (o.Exited? && o.reason.ImageAbsent? ==>
            plan.Query? && o.reason.path in plan.imagePaths && !env.onDisk(o.reason.path))
  {
    PlanOutcome(RunDoc(doc, mode, env.onDisk), env)
  }

  method ProcessDoc(doc: Doc, mode: string, env: Env) returns (o: DocOutcome)
    ensures o == DocSpec(doc, mode, env)
  {
    var plan := RunDoc(doc, mode, env.onDisk);
    match plan
    case Invalid(m) =>
      o := Exited(UnknownMode(m));
    case Skip(d) =>
      o := Skipped(d);
    case Query(exp, paths, question, history, extra) =>
      var r := QueryAndSave(exp, paths, question, Some(history), DefaultModel, DefaultTemperature,
                            DefaultMaxTokens, Some(extra), env);
      if r.ImageMissing? {
        o := Exited(ImageAbsent(r.path));
      } else {
        o := Saved(r.path, r.record, r.calls);
      }
  }

  /**
   * A saved record comes from a query plan, lies at
   * `SavePath(today, examples/<mode>/<id>)`, and took one to `MaxAttempts`
   * calls of the endpoint.
   */
  lemma SavedOutcomePath(doc: Doc, mode: string, env: Env)
    ensures var o := DocSpec(doc, mode, env);
      o.Saved? ==>
        && RunDoc(doc, mode, env.onDisk).Query?
        && o.path == SavePath(env.today, ExpName(mode, doc.questionId))
        && 1 <= o.calls <= MaxAttempts
  {
    QueryPlanShape(doc, mode, env.onDisk);
  }

  /**
   * A saved record holds exactly the base keys plus `ground_truth`: the
   * experiment name, the plan's images, question and system turns, the
   * default model settings, the ground truth, and a response that is null
   * only once every attempt has been made.
   */
  lemma SavedOutcomeFacts(doc: Doc, mode: string, env: Env)
    ensures var o := DocSpec(doc, mode, env);
      var plan := RunDoc(doc, mode, env.onDisk);
      o.Saved? ==>
        && plan.Query?
        && o.record.Keys == BaseKeys + {"ground_truth"}
        && o.record["exp"] == Str(ExpName(mode, doc.questionId))
        && o.record["image_paths"] == StrList(plan.imagePaths)
        && o.record["question"] == Str(plan.question)
        && o.record["history"] == TurnList(plan.history)
        && o.record["model"] == Str(DefaultModel)
        && o.record["temperature"] == Num(DefaultTemperature)
        && o.record["ground_truth"] == Str(doc.answer)
        && (o.record["response"] == Null ==> o.calls == MaxAttempts)
  {
    var o := DocSpec(doc, mode, env);
    var plan := RunDoc(doc, mode, env.onDisk);
    if o.Saved? {
      QueryPlanShape(doc, mode, env.onDisk);
      PlanOutcomeRecord(plan, env);
      var attempt := RetryFrom(env.endpoint, PayloadFor(plan.question, plan.imagePaths, Some(plan.history), DefaultModel,
                                                        DefaultTemperature, DefaultMaxTokens, env.onDisk, env.encode).value, 0);
      RecordWithOneExtra(plan.expName, plan.imagePaths, plan.history, plan.question, DefaultModel, DefaultTemperature,
                         attempt.response, "ground_truth", Str(doc.answer));
    }
  }

  /** The process exits over an image exactly when the plan is a query one of whose images is absent. */
  lemma ExitsExactlyOnAbsentImage(doc: Doc, mode: string, env: Env)
    ensures var o := DocSpec(doc, mode, env);
      var plan := RunDoc(doc, mode, env.onDisk);
      o.Exited? && o.reason.ImageAbsent? <==>
        plan.Query? && exists i :: 0 <= i < |plan.imagePaths| && !env.onDisk(plan.imagePaths[i])
  {
  }

  /** A query whose images all exist is saved: nothing else in `query_single_turn_and_save` ends the process. */
  lemma QueryWithImagesIsSaved(doc: Doc, mode: string, env: Env)
    ensures var plan := RunDoc(doc, mode, env.onDisk);
      plan.Query? && (forall i :: 0 <= i < |plan.imagePaths| ==> env.onDisk(plan.imagePaths[i])) ==>
        DocSpec(doc, mode, env).Saved?
  {
    ExitsExactlyOnAbsentImage(doc, mode, env);
  }

  /**
   * A missing question image is fatal only where it is sent: `direct` and
   * `cot` exit over it; `scaffold` first skips the record when the grid
   * image is missing too and exits otherwise; `scaffold_single` never sends
   * it, so the record is saved when the grid image exists and skipped when not.
   */
  lemma MissingImageFatalOnlyWhenSent(doc: Doc, env: Env)
    requires !env.onDisk(doc.imagePath)
    ensures DocSpec(doc, "direct", env).Exited? && DocSpec(doc, "direct", env).reason.ImageAbsent?
    ensures DocSpec(doc, "cot", env).Exited? && DocSpec(doc, "cot", env).reason.ImageAbsent?
    ensures DocSpec(doc, "scaffold", env).Skipped? <==> !env.onDisk(DotsPath(doc.imagePath))
    ensures env.onDisk(DotsPath(doc.imagePath)) ==>
      DocSpec(doc, "scaffold", env).Exited? && DocSpec(doc, "scaffold", env).reason.ImageAbsent?
    ensures DocSpec(doc, "scaffold_single", env).Saved? <==> env.onDisk(DotsPath(doc.imagePath))
    ensures DocSpec(doc, "scaffold_single", env).Skipped? <==> !env.onDisk(DotsPath(doc.imagePath))
  {
    MissingImageExits(doc, "direct", env);
    MissingImageExits(doc, "cot", env);
    if env.onDisk(DotsPath(doc.imagePath)) {
      MissingImageExits(doc, "scaffold", env);
      QueryPlanShape(doc, "scaffold_single", env.onDisk);
      QueryWithImagesIsSaved(doc, "scaffold_single", env);
    }
  }

  /** In a mode that sends the question image and does not skip, a missing question image ends the process. */
  lemma MissingImageExits(doc: Doc, mode: string, env: Env)
    requires mode == "direct" || mode == "cot" || mode == "scaffold"
    requires !env.onDisk(doc.imagePath)
    requires mode == "scaffold" ==> env.onDisk(DotsPath(doc.imagePath))
    ensures DocSpec(doc, mode, env).Exited? && DocSpec(doc, mode, env).reason.ImageAbsent?
  {
    QueryPlanShape(doc, mode, env.onDisk);
    ExitsExactlyOnAbsentImage(doc, mode, env);
    assert !env.onDisk(RunDoc(doc, mode, env.onDisk).imagePaths[0]);
  }

  /**
   * A saved record's response is null exactly when every one of the
   * `MaxAttempts` attempts to post the plan's payload failed.
   */
  lemma SavedResponseNullIffExhausted(doc: Doc, mode: string, env: Env)
    ensures var o := DocSpec(doc, mode, env);
      var plan := RunDoc(doc, mode, env.onDisk);
      o.Saved? ==>
        (o.record["response"] == Null <==>
           forall k :: 0 <= k < MaxAttempts ==>
             env.endpoint(PayloadFor(plan.question, plan.imagePaths, Some(plan.history), DefaultModel,
                                     DefaultTemperature, DefaultMaxTokens, env.onDisk, env.encode).value, k).None?)
  {
    var plan := RunDoc(doc, mode, env.onDisk);
    if plan.Query? {
      ResponseNullIffExhausted(plan.expName, plan.imagePaths, plan.question, Some(plan.history), DefaultModel,
                               DefaultTemperature, DefaultMaxTokens, Some(plan.extra), env);
    }
  }

  /** The experiment name of question `q1` in `direct` mode, a relative path. */
  lemma DirectQ1Name()
    ensures ExpName("direct", "q1") == "examples/direct/q1" && !IsAbsolute("examples/direct/q1")
  {
  }

  /** In `direct` mode a record whose image exists is saved under its id with its question, image and ground truth. */
  lemma DirectModeSaved(doc: Doc, env: Env)
    requires env.onDisk(doc.imagePath)
    ensures var o := DocSpec(doc, "direct", env);
      && o.Saved?
      && o.path == SavePath(env.today, ExpName("direct", doc.questionId))
      && o.record["question"] == Str(doc.question)
      && o.record["ground_truth"] == Str(doc.answer)
      && o.record["image_paths"] == StrList([doc.imagePath])
  {
    QueryPlanShape(doc, "direct", env.onDisk);
    QueryWithImagesIsSaved(doc, "direct", env);
    SavedOutcomePath(doc, "direct", env);
    SavedOutcomeFacts(doc, "direct", env);
  }

  /** A `direct` question about an existing image is saved under `log/<today>/examples/direct/q1.json`. */
  lemma DirectModeExample(doc: Doc, env: Env)
    requires doc == Doc("q1", "img1.jpg", "Is there a cat?", "true")
    requires env.onDisk("img1.jpg")
    requires env.today != [] && env.today[0] != '/' && env.today[|env.today| - 1] != '/'
    ensures var o := DocSpec(doc, "direct", env);
      && o.Saved?
      && o.path == "log/" + env.today + "/" + "examples/direct/q1" + ".json"
      && o.record["question"] == Str("Is there a cat?")
      && o.record["ground_truth"] == Str("true")
      && o.record["image_paths"] == StrList(["img1.jpg"])
  {
    DirectModeSaved(doc, env);
    DirectQ1Name();
    SavePathLayout(env.today, "examples/direct/q1");
  }

  /** The log files, the outcome of every record processed so far, and whether the process has exited. */
  datatype RunState = RunState(files: map<string, Record>, outcomes: seq<DocOutcome>, exited: bool)

  /**
   * One iteration of the sequential loop. Nothing happens after an exit;
   * otherwise the outcome is recorded, an exit raises the flag, and a save
   * writes exactly its own path.
   */
  function Step(st: RunState, o: DocOutcome): RunState {
    if st.exited then st
    else match o
      case Exited(_) => RunState(st.files, st.outcomes + [o], true)
      case Skipped(_) => RunState(st.files, st.outcomes + [o], false)
      case Saved(p, r, _) => RunState(st.files[p := r], st.outcomes + [o], false)
  }

  /**
   * The sequential run over `docs`, starting from the log files `files`;
   * `process` is what handling one record yields (`DocSpec` for a fixed mode
   * and environment). The run handles at most one outcome per record, and
   * one for every record unless the process exits.
   */
  function Run(files: map<string, Record>, docs: seq<Doc>, process: Doc -> DocOutcome): (st: RunState)
    ensures |st.outcomes| <= |docs|
    ensures !st.exited ==> |st.outcomes| == |docs|
    decreases |docs|
  {
    if docs == [] then RunState(files, [], false)
    else Step(Run(files, docs[..|docs| - 1], process), process(docs[|docs| - 1]))
  }

  /** Once the process has exited, later records change nothing. */
  lemma {:induction false} RunStopsAfterExit(files: map<string, Record>, docs: seq<Doc>, n: nat,
                                             process: Doc -> DocOutcome)
    requires n <= |docs|
    requires Run(files, docs[..n], process).exited
    ensures Run(files, docs, process) == Run(files, docs[..n], process)
    decreases |docs| - n
  {
    if n < |docs| {
      var front := docs[..|docs| - 1];
      assert front[..n] == docs[..n];
      RunStopsAfterExit(files, front, n, process);
    } else {
      assert docs[..n] == docs;
    }
  }

  /** Outcome `k` of the run is what handling record `k` yields: records are handled once each, in dataset order. */
  lemma {:induction false} RunVisitsInOrder(files: map<string, Record>, docs: seq<Doc>, process: Doc -> DocOutcome)
    ensures var st := Run(files, docs, process);
      forall k :: 0 <= k < |st.outcomes| ==> st.outcomes[k] == process(docs[k])
    decreases |docs|
  {
    if docs != [] {
      RunVisitsInOrder(files, docs[..|docs| - 1], process);
    }
  }

  /**
   * The run exits exactly when some record's processing exits, and then it
   * stops right after the first such record.
   */
  lemma {:induction false} RunStopsAtFirstExit(files: map<string, Record>, docs: seq<Doc>, process: Doc -> DocOutcome)
    ensures var st := Run(files, docs, process);
      && (st.exited <==> exists k :: 0 <= k < |docs| && process(docs[k]).Exited?)
      && (st.exited ==> |st.outcomes| >= 1 && st.outcomes[|st.outcomes| - 1].Exited?)
      && (forall k :: 0 <= k < |st.outcomes| - 1 ==> !st.outcomes[k].Exited?)
    decreases |docs|
  {
    if docs != [] {
      var front := docs[..|docs| - 1];
      RunStopsAtFirstExit(files, front, process);
      RunVisitsInOrder(files, front, process);
      if Run(files, front, process).exited {
        var k :| 0 <= k < |front| && process(front[k]).Exited?;
        assert docs[k] == front[k];
      }
    }
  }

  /** Outcome `k` saved a record to `p`. */
  predicate SavedTo(outcomes: seq<DocOutcome>, k: int, p: string) {
    0 <= k < |outcomes| && outcomes[k].Saved? && outcomes[k].path == p
  }

  /** Outcome `k` is the last save to its path. */
  predicate LastSaveTo(outcomes: seq<DocOutcome>, k: int) {
    0 <= k < |outcomes| && outcomes[k].Saved? &&
    forall j :: k < j < |outcomes| ==> !SavedTo(outcomes, j, outcomes[k].path)
  }

  /**
   * The log after a run: a path holds a file exactly when it held one before
   * or some record was saved to it; a saved path holds the last record saved
   * to it (overwrite, last write wins); every other file is untouched.
   */
  lemma {:induction false} RunFiles(files: map<string, Record>, docs: seq<Doc>, process: Doc -> DocOutcome)
    ensures var st := Run(files, docs, process);
      forall p :: p in st.files <==> p in files || exists k :: SavedTo(st.outcomes, k, p)
    ensures var st := Run(files, docs, process);
      forall k :: LastSaveTo(st.outcomes, k) ==>
        st.outcomes[k].path in st.files && st.files[st.outcomes[k].path] == st.outcomes[k].record
    ensures var st := Run(files, docs, process);
      forall p :: p in files && (forall k :: !SavedTo(st.outcomes, k, p)) ==> p in st.files && st.files[p] == files[p]
    decreases |docs|
  {
    if docs != [] {
      var front := docs[..|docs| - 1];
      RunFiles(files, front, process);
      var prev := Run(files, front, process);
      if !prev.exited {
        StepKeepsLog(files, prev, process(docs[|docs| - 1]));
      }
    }
  }

  /** One more handled record keeps the relation between the log and the outcomes that `RunFiles` states. */
  lemma StepKeepsLog(files: map<string, Record>, prev: RunState, o: DocOutcome)
    requires !prev.exited
    requires forall p :: p in prev.files <==> p in files || exists k :: SavedTo(prev.outcomes, k, p)
    requires forall k :: LastSaveTo(prev.outcomes, k) ==>
      prev.outcomes[k].path in prev.files && prev.files[prev.outcomes[k].path] == prev.outcomes[k].record
    requires forall p :: p in files && (forall k :: !SavedTo(prev.outcomes, k, p)) ==>
      p in prev.files && prev.files[p] == files[p]
    ensures var st := Step(prev, o);
      forall p :: p in st.files <==> p in files || exists k :: SavedTo(st.outcomes, k, p)
    ensures var st := Step(prev, o);
      forall k :: LastSaveTo(st.outcomes, k) ==>
        st.outcomes[k].path in st.files && st.files[st.outcomes[k].path] == st.outcomes[k].record
    ensures var st := Step(prev, o);
      forall p :: p in files && (forall k :: !SavedTo(st.outcomes, k, p)) ==> p in st.files && st.files[p] == files[p]
  {
    var st := Step(prev, o);
    var n := |prev.outcomes|;
    assert st.outcomes == prev.outcomes + [o];
    forall p ensures p in st.files <==> p in files || exists k :: SavedTo(st.outcomes, k, p) {
      if o.Saved? && o.path == p {
        assert SavedTo(st.outcomes, n, p);
      }
      if exists k :: SavedTo(prev.outcomes, k, p) {
        var k :| SavedTo(prev.outcomes, k, p);
        assert SavedTo(st.outcomes, k, p);
      }
      if exists k :: SavedTo(st.outcomes, k, p) {
        var k :| SavedTo(st.outcomes, k, p);
        if k < n {
          assert SavedTo(prev.outcomes, k, p);
        }
      }
    }
    forall k | LastSaveTo(st.outcomes, k)
      ensures st.outcomes[k].path in st.files && st.files[st.outcomes[k].path] == st.outcomes[k].record
    {
      if k < n {
        assert !SavedTo(st.outcomes, n, st.outcomes[k].path);
        assert LastSaveTo(prev.outcomes, k) by {
          forall j | k < j < n ensures !SavedTo(prev.outcomes, j, prev.outcomes[k].path) {
            assert !SavedTo(st.outcomes, j, st.outcomes[k].path);
          }
        }
      }
    }
    forall p | p in files && (forall k :: !SavedTo(st.outcomes, k, p))
      ensures p in st.files && st.files[p] == files[p]
    {
      assert !SavedTo(st.outcomes, n, p);
      forall k | 0 <= k < n ensures !SavedTo(prev.outcomes, k, p) {
        assert !SavedTo(st.outcomes, k, p);
      }
    }
  }


  /** Within one mode and one day, records with different ids are saved to different files. */
  lemma DistinctIdsDistinctPaths(today: string, mode: string, id1: string, id2: string)
    requires id1 != id2
    ensures SavePath(today, ExpName(mode, id1)) != SavePath(today, ExpName(mode, id2))
  {
    var e1, e2 := ExpName(mode, id1), ExpName(mode, id2);
    var n := |"examples/" + mode + "/"|;
    assert e1[n..] == id1 && e2[n..] == id2;
    if SavePath(today, e1) == SavePath(today, e2) {
      SavePathInjective(today, e1, e2);
    }
  }

  lemma SavedPathsDiffer(d1: Doc, d2: Doc, mode: string, env: Env)
    requires d1.questionId != d2.questionId
    ensures DocSpec(d1, mode, env).Saved? && DocSpec(d2, mode, env).Saved? ==>
      DocSpec(d1, mode, env).path != DocSpec(d2, mode, env).path
  {
    SavedOutcomePath(d1, mode, env);
    SavedOutcomePath(d2, mode, env);
    DistinctIdsDistinctPaths(env.today, mode, d1.questionId, d2.questionId);
  }

  /**
   * With distinct question ids, a run leaves exactly one log file per saved
   * record, holding that record: no record of the run overwrites another.
   */
  lemma EverySavedRecordKept(files: map<string, Record>, docs: seq<Doc>, mode: string, env: Env)
    requires forall i, j :: 0 <= i < j < |docs| ==> docs[i].questionId != docs[j].questionId
    ensures var st := Run(files, docs, d => DocSpec(d, mode, env));
      forall k :: 0 <= k < |st.outcomes| && st.outcomes[k].Saved? ==>
        st.outcomes[k].path in st.files && st.files[st.outcomes[k].path] == st.outcomes[k].record
  {
    var process := d => DocSpec(d, mode, env);
    forall i, j | 0 <= i < j < |docs| && process(docs[i]).Saved? && process(docs[j]).Saved?
      ensures process(docs[i]).path != process(docs[j]).path
    {
      SavedPathsDiffer(docs[i], docs[j], mode, env);
    }
    DistinctSavesKept(files, docs, process);
  }

  /** When no two records save to the same path, every record saved in the run is still in the log. */
  lemma DistinctSavesKept(files: map<string, Record>, docs: seq<Doc>, process: Doc -> DocOutcome)
    requires forall i, j :: 0 <= i < j < |docs| && process(docs[i]).Saved? && process(docs[j]).Saved? ==>
      process(docs[i]).path != process(docs[j]).path
    ensures var st := Run(files, docs, process);
      forall k :: 0 <= k < |st.outcomes| && st.outcomes[k].Saved? ==>
        st.outcomes[k].path in st.files && st.files[st.outcomes[k].path] == st.outcomes[k].record
  {
    RunFiles(files, docs, process);
    RunVisitsInOrder(files, docs, process);
    var st := Run(files, docs, process);
    forall k | 0 <= k < |st.outcomes| && st.outcomes[k].Saved?
      ensures st.outcomes[k].path in st.files && st.files[st.outcomes[k].path] == st.outcomes[k].record
    {
      forall j | k < j < |st.outcomes| ensures !SavedTo(st.outcomes, j, st.outcomes[k].path) {
        assert st.outcomes[k] == process(docs[k]) && st.outcomes[j] == process(docs[j]);
      }
      assert LastSaveTo(st.outcomes, k);
    }
  }

  /** The `parallel == 1` loop of `examples_inference`: `run_doc` on each record in order until the process exits. */
  method RunSequential(files: map<string, Record>, docs: seq<Doc>, mode: string, env: Env) returns (st: RunState)
    ensures st == Run(files, docs, d => DocSpec(d, mode, env))
  {
    ghost var process := d => DocSpec(d, mode, env);
    var written := files;
    var outcomes: seq<DocOutcome> := [];
    var i := 0;
    while i < |docs|
      invariant 0 <= i <= |docs|
      invariant Run(files, docs[..i], process) == RunState(written, outcomes, false)
    {
      var o := ProcessDoc(docs[i], mode, env);
      assert docs[..i + 1][..i] == docs[..i];
      assert o == process(docs[i]);
      assert Run(files, docs[..i + 1], process) == Step(RunState(written, outcomes, false), o);
      outcomes := outcomes + [o];
      if o.Exited? {
        st := RunState(written, outcomes, true);
        RunStopsAfterExit(files, docs, i + 1, process);
        return;
      }
      if o.Saved? {
        written := written[o.path := o.record];
      }
      i := i + 1;
    }
    assert docs[..|docs|] == docs;
    st := RunState(written, outcomes, false);
  }
}
