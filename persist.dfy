/**
 * `query_single_turn_and_save`: run the retried query, build the result
 * record, merge the auxiliary fields over it and compute the file it goes to.
 */
module Persist {
  import opened Wrappers
  import opened Strings
  import opened Envelope
  import opened Environment
  import opened Client

  /** The JSON values a result record holds. */
  datatype Value = Null | Str(s: string) | StrList(items: seq<string>) | TurnList(turns: seq<Turn>)
                 | Num(x: real) | Body(response: Response)

  /** A JSON object, keyed by field name. */
  type Record = map<string, Value>

  const DefaultModel := "gpt-4-vision-preview"
  const DefaultTemperature: real := 0.0
  const DefaultMaxTokens := 4096

  const BaseKeys: set<string> := {"exp", "image_paths", "history", "question", "model", "temperature", "response"}

  function OptionalTurns(history: Option<seq<Turn>>): Value {
    match history
    case None => Null
    case Some(h) => TurnList(h)
  }

  function OptionalBody(response: Option<Response>): Value {
    match response
    case None => Null
    case Some(b) => Body(b)
  }

  /** The dict literal `overall` before the update. */
  function BaseRecord(exp: string, paths: seq<string>, history: Option<seq<Turn>>, question: string,
                      model: string, temperature: real, response: Option<Response>): Record
  {
    map["exp" := Str(exp), "image_paths" := StrList(paths), "history" := OptionalTurns(history),
        "question" := Str(question), "model" := Str(model), "temperature" := Num(temperature),
        "response" := OptionalBody(response)]
  }

  /**
   * The saved record: every base field holds what was passed in unless the
   * auxiliary fields name it, every auxiliary field wins (dict.update), and
   * nothing else is present.
   */
  function RecordOf(exp: string, paths: seq<string>, history: Option<seq<Turn>>, question: string,
                    model: string, temperature: real, response: Option<Response>,
                    extra: Option<Record>): (r: Record)
    ensures r.Keys == BaseKeys + (if extra.Some? then extra.value.Keys else {})
    ensures extra.Some? ==> forall k :: k in extra.value ==> r[k] == extra.value[k]
    ensures var kept := (k: string) => extra.None? || k !in extra.value;
      && (kept("exp") ==> r["exp"] == Str(exp))
      && (kept("image_paths") ==> r["image_paths"] == StrList(paths))
      && (kept("history") ==> (r["history"] == Null <==> history.None?))
      && (kept("history") && history.Some? ==> r["history"] == TurnList(history.value))
      && (kept("question") ==> r["question"] == Str(question))
      && (kept("model") ==> r["model"] == Str(model))
      && (kept("temperature") ==> r["temperature"] == Num(temperature))
      && (kept("response") ==> (r["response"] == Null <==> response.None?))
      && (kept("response") && response.Some? ==> r["response"] == Body(response.value))
  {
    var base := BaseRecord(exp, paths, history, question, model, temperature, response);
    if extra.Some? then base + extra.value else base
  }

  /** With a single auxiliary field outside the base keys, every base field keeps the value passed in. */
  lemma RecordWithOneExtra(exp: string, paths: seq<string>, history: seq<Turn>, question: string, model: string,
                           temperature: real, response: Option<Response>, key: string, v: Value)
    requires key !in BaseKeys
    ensures var r := RecordOf(exp, paths, Some(history), question, model, temperature, response, Some(map[key := v]));
      && r.Keys == BaseKeys + {key}
      && r[key] == v
      && r["exp"] == Str(exp)
      && r["image_paths"] == StrList(paths)
      && r["history"] == TurnList(history)
      && r["question"] == Str(question)
      && r["model"] == Str(model)
      && r["temperature"] == Num(temperature)
      && (r["response"] == Null <==> response.None?)
  {
  }

  /** The date partition's directory, `os.path.join("log", today)`; it does not depend on the experiment name. */
  function LogDir(today: string): string {
    Join("log", today)
  }

  /**
   * `os.path.join(os.path.join("log", today), exp + ".json")`: for a relative
   * experiment name the file lies under the date's directory and its name
   * ends with `<exp>.json`.
   */
  function SavePath(today: string, exp: string): (r: string)
    ensures !IsAbsolute(exp) ==> |LogDir(today)| + |exp| + 5 <= |r|
    ensures !IsAbsolute(exp) ==> r[..|LogDir(today)|] == LogDir(today)
    ensures !IsAbsolute(exp) ==> r[|r| - |exp| - 5..] == exp + ".json"
  {
    Join(LogDir(today), exp + ".json")
  }

  /** For a date with no slash at either end and a relative experiment name, the file is `log/<date>/<exp>.json`. */
  lemma SavePathLayout(today: string, exp: string)
    requires today != [] && today[0] != '/' && today[|today| - 1] != '/'
    requires !IsAbsolute(exp)
    ensures SavePath(today, exp) == "log/" + today + "/" + exp + ".json"
  {
  }

  /** Distinct relative experiment names on the same date are saved to distinct files. */
  lemma SavePathInjective(today: string, e1: string, e2: string)
    requires !IsAbsolute(e1) && !IsAbsolute(e2)
    ensures SavePath(today, e1) == SavePath(today, e2) <==> e1 == e2
  {
    if SavePath(today, e1) == SavePath(today, e2) {
      var dir, p := LogDir(today), SavePath(today, e1);
      var b1, b2 := e1 + ".json", e2 + ".json";
      assert !IsAbsolute(b1) && !IsAbsolute(b2) by {
        assert b1[0] != '/' && b2[0] != '/';
      }
      assert |p| == |dir| + |b1| + (if NeedsSeparator(dir) then 1 else 0);
      assert |p| == |dir| + |b2| + (if NeedsSeparator(dir) then 1 else 0);
      assert b1 == p[|p| - |b1|..] == b2;
      assert e1 == b1[..|e1|] && e2 == b2[..|e2|];
    }
  }

  /** What one call of `query_single_turn_and_save` ends in. */
  datatype SaveResult = Written(path: string, record: Record, calls: nat) | ImageMissing(path: string)

  /**
   * `query_single_turn_and_save` from the query to the record and its path:
   * it ends the process exactly when some image is absent, naming an absent
   * one; otherwise the record goes to `SavePath(today, exp)` after one to
   * `MaxAttempts` calls, whether or not an attempt answered.
   */
  function SaveSpec(exp: string, paths: seq<string>, question: string, history: Option<seq<Turn>>,
                    model: string, temperature: real, maxTokens: int, extra: Option<Record>,
                    env: Env): (r: SaveResult)
    ensures r.ImageMissing? <==> exists i :: 0 <= i < |paths| && !env.onDisk(paths[i])
    ensures r.ImageMissing? ==> r.path in paths && !env.onDisk(r.path)
    ensures r.Written? ==> r.path == SavePath(env.today, exp) && 1 <= r.calls <= MaxAttempts
  {
    match PayloadFor(question, paths, history, model, temperature, maxTokens, env.onDisk, env.encode)
    case MissingImage(p) => ImageMissing(p)
    case Built(payload) =>
      var a := RetryFrom(env.endpoint, payload, 0);
      Written(SavePath(env.today, exp), RecordOf(exp, paths, history, question, model, temperature, a.response, extra),
              a.calls)
  }

  /**
   * A query that goes out is always saved: the record's response is null
   * exactly when all `MaxAttempts` attempts failed, and the endpoint was called
   * at most `MaxAttempts` times.
   */
  lemma ResponseNullIffExhausted(exp: string, paths: seq<string>, question: string, history: Option<seq<Turn>>,
                                 model: string, temperature: real, maxTokens: int, extra: Option<Record>, env: Env)
    requires extra.None? || "response" !in extra.value
    ensures PayloadFor(question, paths, history, model, temperature, maxTokens, env.onDisk, env.encode).Built? ==>
      SaveSpec(exp, paths, question, history, model, temperature, maxTokens, extra, env).Written?
    ensures var r := SaveSpec(exp, paths, question, history, model, temperature, maxTokens, extra, env);
      r.Written? ==>
        && 1 <= r.calls <= MaxAttempts
        && (r.record["response"] == Null <==>
             r.calls == MaxAttempts &&
             forall k :: 0 <= k < MaxAttempts ==>
               env.endpoint(PayloadFor(question, paths, history, model, temperature, maxTokens,
                                       env.onDisk, env.encode).value, k).None?)
  {
  }

  /** `query_single_turn_and_save`, from the query to the record and its path (the write itself is left out). */
  method QueryAndSave(exp: string, paths: seq<string>, question: string, history: Option<seq<Turn>>,
                      model: string, temperature: real, maxTokens: int, extra: Option<Record>,
                      env: Env) returns (r: SaveResult)
    ensures r == SaveSpec(exp, paths, question, history, model, temperature, maxTokens, extra, env)
  {
    var payload := BuildPayload(question, paths, history, model, temperature, maxTokens, env.onDisk, env.encode);
    if payload.MissingImage? {
      return ImageMissing(payload.path);
    }
    var response, calls := QueryWithRetry(env.endpoint, payload.value);
    var overall := BaseRecord(exp, paths, history, question, model, temperature, response);
    if extra.Some? {
      overall := overall + extra.value;
    }
    r := Written(SavePath(env.today, exp), overall, calls);
  }
}
