/** `gas_deployer.py`: the decisions `GoogleAppsScriptDeployer` takes around
    the Google Apps Script API — the request bodies it builds, the retry
    policy of `execute_function`, the three-stage execution fallback of
    `deploy_and_execute_quiz`, and the reading of the form links out of the
    reply. Every API call is a parameter: `run(request, k)` is what the `k`-th
    execution call (counted from 0 over the whole run) answers. */
module GasDeployer {
  import opened Common
  import opened Text
  import opened QuestionBank

  /** An API reply: a JSON object. */
  type Reply = map<string, Json>

  /** `reply.get(key)`: the value, or `None` when the key is absent. */
  function Get(m: map<string, Json>, key: string): Json
  {
    if key in m then m[key] else JNull
  }

  // ---------------------------------------------------------------------
  // Request bodies

  /** The body of `projects().create`: the title, and the parent folder only
      when one is given and non-empty. */
  function CreateBody(title: string, parentFolderId: Option<string>): (b: map<string, Json>)
    ensures "title" in b && b["title"] == JStr(title)
    ensures "parentId" in b <==> parentFolderId.Some? && parentFolderId.value != []
    ensures "parentId" in b ==> b["parentId"] == JStr(parentFolderId.value)
    ensures forall key :: key in b ==> key == "title" || key == "parentId"
  {
    var b := map["title" := JStr(title)];
    if parentFolderId.Some? && parentFolderId.value != [] then b["parentId" := JStr(parentFolderId.value)] else b
  }

  /** The project manifest uploaded next to the script. */
  const Manifest: Json := JObject(map[
    "timeZone" := JStr("America/New_York"),
    "dependencies" := JObject(map[]),
    "exceptionLogging" := JStr("STACKDRIVER"),
    "runtimeVersion" := JStr("V8")])

  function ScriptFile(name: string, kind: string, source: string): Json
  {
    JObject(map["name" := JStr(name), "type" := JStr(kind), "source" := JStr(source)])
  }

  /** The body of `projects().updateContent`; `dumps` is `json.dumps(…, indent=2)`. */
  function UploadBody(scriptContent: string, filename: string, dumps: Json -> string): (b: map<string, Json>)
    ensures "files" in b && b["files"].JList? && |b["files"].items| == 2
  {
    map["files" := JList([ScriptFile("appsscript", "JSON", dumps(Manifest)),
                          ScriptFile(filename, "SERVER_JS", scriptContent)])]
  }

  /** How the service reads an uploaded project: the source of the first file
      with the given name and type. */
  function SourceOf(files: seq<Json>, name: string, kind: string): (r: Option<string>)
  {
    if files == [] then None
    else match files[0]
      case JObject(m) =>
        if Get(m, "name") == JStr(name) && Get(m, "type") == JStr(kind) && Get(m, "source").JStr?
        then Some(Get(m, "source").s)
        else SourceOf(files[1..], name, kind)
      case _ => SourceOf(files[1..], name, kind)
  }

  /** The uploaded project holds exactly two things a reader finds: the
      manifest as the `appsscript` JSON file, and the script, unchanged, as
      the server-side file under the given name. */
  lemma UploadBodyReadsBack(scriptContent: string, filename: string, dumps: Json -> string)
    ensures var files := UploadBody(scriptContent, filename, dumps)["files"].items;
      && SourceOf(files, "appsscript", "JSON") == Some(dumps(Manifest))
      && SourceOf(files, filename, "SERVER_JS") == Some(scriptContent)
      && (forall name, kind :: kind != "JSON" && kind != "SERVER_JS" ==> SourceOf(files, name, kind) == None)
  {
    var files := UploadBody(scriptContent, filename, dumps)["files"].items;
    assert files[0] == ScriptFile("appsscript", "JSON", dumps(Manifest));
    assert files[1] == ScriptFile(filename, "SERVER_JS", scriptContent);
    assert files[1..][0] == files[1] && files[1..][1..] == [];
    forall name, kind | kind != "JSON" && kind != "SERVER_JS"
      ensures SourceOf(files, name, kind) == None
    {
      assert Get(files[0].fields, "type") != JStr(kind);
      assert Get(files[1].fields, "type") != JStr(kind);
      assert SourceOf(files[1..], name, kind) == SourceOf(files[1..][1..], name, kind);
    }
  }

  // ---------------------------------------------------------------------
  // execute_function

  /** The body of `scripts().run`: the function, its parameters (`parameters
      or []`) and the development-mode flag. */
  datatype Request = Request(scriptId: Json, functionName: string, parameters: seq<Json>, devMode: bool)

  /** What one `scripts().run(...).execute()` call does: reply, raise an
      `HttpError` with a message, or raise anything else. */
  datatype Call = Replied(reply: Reply) | HttpFailed(message: string) | Raised

  /** `response['error']['details']`, or nothing when that lookup raises. */
  function ErrorDetails(reply: Reply): Option<Json>
    requires "error" in reply
  {
    match reply["error"]
    case JObject(m) => if "details" in m then Some(m["details"]) else None
    case _ => None
  }

  const NotFound: string := "requested entity was not found"

  /** A call `execute_function` retries when attempts remain: an error reply
      whose details say the entity was not found, or an `HttpError` whose
      message mentions 404 or 403, compared in lower case. `show` is `str()`. */
  predicate Retriable(c: Call, show: Json -> string)
  {
    match c
    case Replied(reply) =>
      "error" in reply && ErrorDetails(reply).Some? && Contains(Lower(show(ErrorDetails(reply).value)), NotFound)
    case HttpFailed(message) => Contains(Lower(message), "404") || Contains(Lower(message), "403")
    case Raised => false
  }

  /** A reply without an `error` key: the call succeeded. */
  predicate Clean(c: Call)
  {
    c.Replied? && "error" !in c.reply
  }

  /** The retry loop from call number `k` with `left` attempts to go: the
      first clean reply, and the number of calls made. */
  function RetryLoop(run: (Request, nat) -> Call, show: Json -> string, req: Request, k: nat, left: int): (r: (Option<Reply>, nat))
    ensures left <= 0 ==> r == (None, 0)
    ensures left > 0 ==> 1 <= r.1 <= left
    ensures forall i :: k <= i < k + r.1 - 1 ==> Retriable(run(req, i), show)
    ensures r.1 >= 1 ==> (r.0.Some? <==> Clean(run(req, k + r.1 - 1)))
    ensures r.0.Some? ==> r.1 >= 1 && run(req, k + r.1 - 1) == Replied(r.0.value)
    ensures 1 <= r.1 < left ==> !Retriable(run(req, k + r.1 - 1), show)
    decreases left
  {
    if left <= 0 then (None, 0)
    else
      var c := run(req, k);
      if Clean(c) then (Some(c.reply), 1)
      else if Retriable(c, show) && left > 1 then
        var r := RetryLoop(run, show, req, k + 1, left - 1);
        (r.0, r.1 + 1)
      else (None, 1)
  }

  /** `execute_function`: nothing without a service, otherwise at most
      `max_retries` calls, returning the first clean reply unchanged. */
  function ExecuteFunction(hasService: bool, run: (Request, nat) -> Call, show: Json -> string, req: Request,
                           k: nat, maxRetries: int): (r: (Option<Reply>, nat))
    ensures !hasService ==> r == (None, 0)
    ensures r.1 <= if maxRetries > 0 then maxRetries else 0
    ensures r.0.Some? ==> "error" !in r.0.value && r.1 >= 1 && run(req, k + r.1 - 1) == Replied(r.0.value)
  {
    if !hasService then (None, 0) else RetryLoop(run, show, req, k, maxRetries)
  }

  /** Call `j` is a clean reply and every call from `k` up to it was a
      retriable failure. */
  predicate CleanAfterRetries(run: (Request, nat) -> Call, show: Json -> string, req: Request, k: nat, j: nat)
  {
    Clean(run(req, j)) && forall i :: k <= i < j ==> Retriable(run(req, i), show)
  }

  /** The retry loop succeeds exactly when, within the allowed attempts, a
      clean reply comes after nothing but retriable failures. */
  lemma {:induction false} RetrySucceedsIff(run: (Request, nat) -> Call, show: Json -> string, req: Request, k: nat, left: int)
    ensures RetryLoop(run, show, req, k, left).0.Some? <==>
      exists j: nat :: k <= j < k + left && CleanAfterRetries(run, show, req, k, j)
    decreases left
  {
    if left > 0 {
      var c := run(req, k);
      if Clean(c) {
        assert CleanAfterRetries(run, show, req, k, k);
      } else if Retriable(c, show) && left > 1 {
        RetrySucceedsIff(run, show, req, k + 1, left - 1);
        if RetryLoop(run, show, req, k, left).0.Some? {
          var j: nat :| k + 1 <= j < k + left && CleanAfterRetries(run, show, req, k + 1, j);
          assert CleanAfterRetries(run, show, req, k, j);
        }
        forall j: nat | k <= j < k + left && CleanAfterRetries(run, show, req, k, j)
          ensures RetryLoop(run, show, req, k, left).0.Some?
        {
          assert j != k;
          assert CleanAfterRetries(run, show, req, k + 1, j);
        }
      } else {
        forall j: nat | k <= j < k + left
          ensures !CleanAfterRetries(run, show, req, k, j)
        {
        }
      }
    }
  }

  /** A "not found" error reply followed by a clean one: with two attempts
      the second call's reply comes back; with one attempt there is none. */
  lemma RetryAfterNotFound(run: (Request, nat) -> Call, show: Json -> string, req: Request, ok: Reply, details: Json)
    requires run(req, 0) == Replied(map["error" := JObject(map["details" := details])])
    requires Contains(Lower(show(details)), NotFound)
    requires run(req, 1) == Replied(ok) && "error" !in ok
    ensures ExecuteFunction(true, run, show, req, 0, 2) == (Some(ok), 2)
    ensures ExecuteFunction(true, run, show, req, 0, 1) == (None, 1)
  {
  }

  // ---------------------------------------------------------------------
  // extract_form_urls

  /** The links a result object carries, when both are truthy. */
  predicate CarriesUrls(result: Json)
  {
    result.JObject? && Truthy(Get(result.fields, "publishedUrl")) && Truthy(Get(result.fields, "editUrl"))
  }

  /** `extract_form_urls`: `(publishedUrl, editUrl)` from `response.result`
      when that is an object with both links truthy, otherwise nothing. */
  function ExtractFormUrls(reply: Reply): (r: Option<(Json, Json)>)
    ensures r.Some? <==> "response" in reply && reply["response"].JObject? && "result" in reply["response"].fields
                         && CarriesUrls(reply["response"].fields["result"])
    ensures r.Some? ==> Truthy(r.value.0) && Truthy(r.value.1)
  {
    if "response" in reply && reply["response"].JObject? && "result" in reply["response"].fields then
      var result := reply["response"].fields["result"];
      if CarriesUrls(result) then Some((Get(result.fields, "publishedUrl"), Get(result.fields, "editUrl")))
      else None
    else None
  }

  /** The reply `createRandomAIQuiz` gives back yields the links it carries. */
  lemma ExtractFormUrlsReadsBack(published: Json, edit: Json, formId: Json)
    requires Truthy(published) && Truthy(edit)
    ensures var result := JObject(map["publishedUrl" := published, "editUrl" := edit, "formId" := formId]);
      ExtractFormUrls(map["done" := JBool(true), "response" := JObject(map["result" := result])]) == Some((published, edit))
  {
  }

  // ---------------------------------------------------------------------
  // deploy_and_execute_quiz

  /** One execution stage: the development-mode flag and `max_retries`. */
  datatype Stage = Stage(devMode: bool, maxRetries: int)

  /** Simple execution, then development mode, then one last development-mode try. */
  const Stages: seq<Stage> := [Stage(false, 2), Stage(true, 2), Stage(true, 1)]

  function Budget(stages: seq<Stage>): (b: int)
    ensures b >= 0
  {
    if stages == [] then 0 else (if stages[0].maxRetries > 0 then stages[0].maxRetries else 0) + Budget(stages[1..])
  }

  function StageRequest(projectId: Json, s: Stage): Request
  {
    Request(projectId, "createRandomAIQuiz", [], s.devMode)
  }

  /** A truthy reply ends the fallback; `None` and `{}` do not. */
  predicate Answered(r: Option<Reply>)
  {
    r.Some? && r.value != map[]
  }

  /** One stage of the fallback as a function of the stage and the call
      number it starts at: `execute_function` with the stage's mode and retries. */
  function StageStep(hasService: bool, run: (Request, nat) -> Call, show: Json -> string, projectId: Json): (Stage, nat) -> (Option<Reply>, nat)
  {
    (s: Stage, c: nat) => ExecuteFunction(hasService, run, show, StageRequest(projectId, s), c, s.maxRetries)
  }

  /** The fallback over any way `step` of running one stage: the stages in
      order, each starting at the call number the previous ones reached, until
      one returns a truthy reply: that reply, the number of stages run and the
      number of calls made. */
  function Fallback(step: (Stage, nat) -> (Option<Reply>, nat), stages: seq<Stage>, k: nat): (r: (Option<Reply>, nat, nat))
    ensures r.1 <= |stages|
    ensures stages != [] ==> r.1 >= 1
    ensures r.0.Some? ==> Answered(r.0)
    decreases |stages|
  {
    if stages == [] then (None, 0, 0)
    else
      var first := step(stages[0], k);
      if Answered(first.0) then (first.0, 1, first.1)
      else
        var rest := Fallback(step, stages[1..], k + first.1);
        (rest.0, rest.1 + 1, first.1 + rest.2)
  }

  /** What stage `i` answers when the stages run one after another from call
      number `k`, each starting where the previous one stopped. */
  function StageAt(step: (Stage, nat) -> (Option<Reply>, nat), stages: seq<Stage>, k: nat, i: nat): (Option<Reply>, nat)
    requires i < |stages|
    decreases i
  {
    var first := step(stages[0], k);
    if i == 0 then first else StageAt(step, stages[1..], k + first.1, i - 1)
  }

  /** Stage `i` answers what `step` gives for stage `i` at some call number. */
  lemma {:induction false} StageAtIsStep(step: (Stage, nat) -> (Option<Reply>, nat), stages: seq<Stage>, k: nat, i: nat)
    requires i < |stages|
    ensures exists c: nat :: StageAt(step, stages, k, i) == step(stages[i], c)
    decreases i
  {
    if i > 0 {
      var first := step(stages[0], k);
      StageAtIsStep(step, stages[1..], k + first.1, i - 1);
      var c: nat :| StageAt(step, stages[1..], k + first.1, i - 1) == step(stages[1..][i - 1], c);
      assert stages[1..][i - 1] == stages[i];
      assert StageAt(step, stages, k, i) == step(stages[i], c);
    } else {
      assert StageAt(step, stages, k, i) == step(stages[i], k);
    }
  }

  /** The fallback's trace: every stage before the last one run gave no
      truthy reply; a reply that comes back is the last stage run's; no reply
      means every stage ran and none answered. */
  lemma {:induction false} FallbackTrace(step: (Stage, nat) -> (Option<Reply>, nat), stages: seq<Stage>, k: nat)
    ensures var r := Fallback(step, stages, k);
      (forall i :: 0 <= i && i + 1 < r.1 ==> !Answered(StageAt(step, stages, k, i).0))
      && (r.0.Some? ==> 1 <= r.1 && r.0 == StageAt(step, stages, k, r.1 - 1).0)
      && (r.0.None? ==> r.1 == |stages| && forall i :: 0 <= i < |stages| ==> !Answered(StageAt(step, stages, k, i).0))
    decreases |stages|
  {
    if stages != [] {
      var first := step(stages[0], k);
      if !Answered(first.0) {
        FallbackTrace(step, stages[1..], k + first.1);
        forall i | 1 <= i < |stages|
          ensures StageAt(step, stages, k, i) == StageAt(step, stages[1..], k + first.1, i - 1)
        {
        }
      }
    }
  }

  /** The calls the fallback makes stay within the stages' budget when no
      stage calls more than its retries allow; when every stage makes at
      least one call, there are at least as many calls as stages run. */
  lemma {:induction false} FallbackCalls(step: (Stage, nat) -> (Option<Reply>, nat), stages: seq<Stage>, k: nat)
    requires forall s: Stage, c: nat :: step(s, c).1 <= if s.maxRetries > 0 then s.maxRetries else 0
    ensures Fallback(step, stages, k).2 <= Budget(stages)
    ensures (forall s: Stage, c: nat :: s.maxRetries > 0 ==> step(s, c).1 >= 1) && (forall i :: 0 <= i < |stages| ==> stages[i].maxRetries > 0)
      ==> Fallback(step, stages, k).2 >= Fallback(step, stages, k).1
    decreases |stages|
  {
    if stages != [] {
      var first := step(stages[0], k);
      FallbackCalls(step, stages[1..], k + first.1);
      if forall i :: 0 <= i < |stages| ==> stages[i].maxRetries > 0 {
        assert forall i :: 0 <= i < |stages[1..]| ==> stages[1..][i].maxRetries > 0 by {
          forall i | 0 <= i < |stages[1..]| ensures stages[1..][i].maxRetries > 0 {
            assert stages[1..][i] == stages[i + 1];
          }
        }
      }
    }
  }

  /** Every reply `execute_function` returns is free of an `error` key, and
      it makes no more calls than the stage's retries allow, at least one
      when there is a service and retries are left. */
  lemma StageStepFacts(hasService: bool, run: (Request, nat) -> Call, show: Json -> string, projectId: Json)
    ensures forall s: Stage, c: nat :: var e := StageStep(hasService, run, show, projectId)(s, c);
      (e.0.Some? ==> "error" !in e.0.value)
      && e.1 <= (if s.maxRetries > 0 then s.maxRetries else 0)
      && (hasService && s.maxRetries > 0 ==> e.1 >= 1)
  {
  }

  /** The deployment's fallback: simple execution, then development mode,
      each `execute_function` starting at the call number the previous
      stages reached, until one returns a truthy reply. */
  function RunStages(hasService: bool, run: (Request, nat) -> Call, show: Json -> string, projectId: Json,
                     stages: seq<Stage>, k: nat): (r: (Option<Reply>, nat, nat))
    ensures r.0.Some? ==> r.0.value != map[] && "error" !in r.0.value
    ensures r.1 <= |stages| && (stages != [] ==> r.1 >= 1)
    ensures r.1 >= 2 ==> !Answered(ExecuteFunction(hasService, run, show, StageRequest(projectId, stages[0]), k, stages[0].maxRetries).0)
  {
    var step := StageStep(hasService, run, show, projectId);
    var r := Fallback(step, stages, k);
    FallbackTrace(step, stages, k);
    StageStepFacts(hasService, run, show, projectId);
    if r.0.Some? then
      StageAtIsStep(step, stages, k, r.1 - 1);
      r
    else r
  }

  /** The calls the deployment's fallback makes stay within the stages'
      budget: the sum of their positive `max_retries`. */
  lemma RunStagesBudget(hasService: bool, run: (Request, nat) -> Call, show: Json -> string,
                        projectId: Json, stages: seq<Stage>, k: nat)
    ensures RunStages(hasService, run, show, projectId, stages, k).2 <= Budget(stages)
  {
    StageStepFacts(hasService, run, show, projectId);
    FallbackCalls(StageStep(hasService, run, show, projectId), stages, k);
  }

  /** With a service and retries left in every stage, each stage run makes a
      call, so there are at least as many calls as stages run. */
  lemma RunStagesCalls(hasService: bool, run: (Request, nat) -> Call, show: Json -> string,
                       projectId: Json, stages: seq<Stage>, k: nat)
    requires hasService && forall i :: 0 <= i < |stages| ==> stages[i].maxRetries > 0
    ensures RunStages(hasService, run, show, projectId, stages, k).2 >= RunStages(hasService, run, show, projectId, stages, k).1
  {
    StageStepFacts(hasService, run, show, projectId);
    FallbackCalls(StageStep(hasService, run, show, projectId), stages, k);
  }

  /** The deployment's fallback, stage by stage: a later stage runs only when
      every earlier one gave no truthy reply, a reply that comes back is the
      last stage run's, and no reply means all stages ran and none answered. */
  lemma RunStagesTrace(hasService: bool, run: (Request, nat) -> Call, show: Json -> string,
                       projectId: Json, stages: seq<Stage>, k: nat)
    ensures var r := RunStages(hasService, run, show, projectId, stages, k);
      var step := StageStep(hasService, run, show, projectId);
      (forall i :: 0 <= i && i + 1 < r.1 ==> !Answered(StageAt(step, stages, k, i).0))
      && (r.0.Some? ==> 1 <= r.1 && r.0 == StageAt(step, stages, k, r.1 - 1).0)
      && (r.0.None? ==> r.1 == |stages| && forall i :: 0 <= i < |stages| ==> !Answered(StageAt(step, stages, k, i).0))
  {
    FallbackTrace(StageStep(hasService, run, show, projectId), stages, k);
  }

  /** The outcome of `deploy_and_execute_quiz`: the links, the stages run and
      the execution calls made. */
  datatype Deployment = Deployment(urls: Option<(Json, Json)>, stages: nat, calls: nat)

  /** `deploy_and_execute_quiz`: `created` is the create call's reply (`None`
      when it raised), `uploaded` whether the upload went through, `driveOk`
      whether the Drive client could be built. */
  function DeployAndExecute(hasService: bool, created: Option<Reply>, uploaded: bool, driveOk: bool,
                            run: (Request, nat) -> Call, show: Json -> string): (r: Deployment)
    ensures r.calls <= 5 && r.stages <= 3
    ensures r.urls.Some? ==> Truthy(r.urls.value.0) && Truthy(r.urls.value.1)
    ensures !hasService || created.None? || !Truthy(Get(created.value, "scriptId")) || !uploaded ==> r == Deployment(None, 0, 0)
    ensures r.stages >= 1 ==> r.calls >= r.stages
    ensures !driveOk ==> r == Deployment(None, 0, 0)
  {
    var projectId := if hasService && created.Some? then Get(created.value, "scriptId") else JNull;
    if !Truthy(projectId) || !(hasService && uploaded) || !driveOk then Deployment(None, 0, 0)
    else
      var ex := RunStages(hasService, run, show, projectId, Stages, 0);
      RunStagesBudget(hasService, run, show, projectId, Stages, 0);
      RunStagesCalls(hasService, run, show, projectId, Stages, 0);
      var urls := if ex.0.Some? then ExtractFormUrls(ex.0.value) else None;
      Deployment(urls, ex.1, ex.2)
  }

  /** Once the project is created with an id, uploaded, and Drive is
      reachable, the deployment reports the fallback's stages and calls, and
      its links are those extracted from the reply of the first stage that
      answered; every stage before it gave no truthy reply. */
  lemma DeployUsesFallback(created: Reply, driveOk: bool, run: (Request, nat) -> Call, show: Json -> string)
    requires Truthy(Get(created, "scriptId")) && driveOk
    ensures var r := DeployAndExecute(true, Some(created), true, driveOk, run, show);
      var id := Get(created, "scriptId");
      var ex := RunStages(true, run, show, id, Stages, 0);
      var step := StageStep(true, run, show, id);
      && r.stages == ex.1 && r.calls == ex.2
      && (forall i :: 0 <= i && i + 1 < r.stages ==> !Answered(StageAt(step, Stages, 0, i).0))
      && (r.urls.Some? ==>
            && 1 <= r.stages
            && Answered(StageAt(step, Stages, 0, r.stages - 1).0)
            && r.urls == ExtractFormUrls(StageAt(step, Stages, 0, r.stages - 1).0.value))
      && (ex.0.Some? ==> r.urls == ExtractFormUrls(ex.0.value))
      && (ex.0.None? ==> r.urls.None? && r.stages == 3)
  {
    var id := Get(created, "scriptId");
    RunStagesTrace(true, run, show, id, Stages, 0);
  }

  /** When every call raises, all three stages run, one call each, and no
      links come back. */
  lemma AllStagesFail(created: Reply, run: (Request, nat) -> Call, show: Json -> string)
    requires Truthy(Get(created, "scriptId"))
    requires forall req, k :: run(req, k) == Raised
    ensures DeployAndExecute(true, Some(created), true, true, run, show) == Deployment(None, 3, 3)
  {
    var step := StageStep(true, run, show, Get(created, "scriptId"));
    assert step(Stages[0], 0) == (None, 1);
    assert step(Stages[1], 1) == (None, 1);
    assert step(Stages[2], 2) == (None, 1);
    assert Stages[1..][1..] == Stages[2..] == [Stage(true, 1)];
    assert Fallback(step, Stages[2..], 2) == (None, 1, 1);
    assert Fallback(step, Stages[1..], 1) == (None, 2, 2);
  }

  /** When the first simple call fails and the first development-mode call
      answers with the links, the second stage delivers them. */
  lemma DevModeFallback(created: Reply, run: (Request, nat) -> Call, show: Json -> string, published: Json, edit: Json)
    requires Truthy(Get(created, "scriptId")) && Truthy(published) && Truthy(edit)
    requires run(StageRequest(Get(created, "scriptId"), Stages[0]), 0) == Raised
    requires run(StageRequest(Get(created, "scriptId"), Stages[1]), 1)
             == Replied(map["response" := JObject(map["result" := JObject(map["publishedUrl" := published, "editUrl" := edit])])])
    ensures DeployAndExecute(true, Some(created), true, true, run, show) == Deployment(Some((published, edit)), 2, 2)
  {
    var id := Get(created, "scriptId");
    var first := ExecuteFunction(true, run, show, StageRequest(id, Stages[0]), 0, 2);
    assert first == (None, 1);
    assert Stages[1..] == [Stage(true, 2), Stage(true, 1)];
    var second := ExecuteFunction(true, run, show, StageRequest(id, Stages[1]), 1, 2);
    var reply := map["response" := JObject(map["result" := JObject(map["publishedUrl" := published, "editUrl" := edit])])];
    assert "response" in reply && "error" !in reply;
    assert Answered(second.0) && second.1 == 1;
    assert RunStages(true, run, show, id, Stages[1..], 1).0 == second.0;
    assert RunStages(true, run, show, id, Stages, 0) == (second.0, 2, 2);
  }
}
