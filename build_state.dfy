/**
 * The build lifecycle of one pull request: nine variants, the documented
 * successor of each, the single legality gate `Transition`, the commit status
 * each variant is reported as, and the JSON written into and read back from a
 * commit status description.
 */
module BuildStates {
  import opened Wrappers
  import opened Json

  /** A batch job, identified by its id. */
  type JobId = int

  /** The commit status context this controller owns (ci/constants.py:3). */
  const CONTEXT := "hail-ci-0-1"

  datatype BuildState =
    | Unknown
    | NoImage(targetSha: string)
    | Buildable(image: string, targetSha: string)
    | Building(job: JobId, image: string, targetSha: string)
    | Failure(exitCode: int, image: string, targetSha: string)
    | NoMergeSHA(exitCode: int, targetSha: string)
    | Deployable(mergedSha: string, targetSha: string)
    | Deploying(job: JobId, mergedSha: string, targetSha: string)
    | Deployed(job: JobId, mergedSha: string, targetSha: string)
  {
    /** The target sha a state carries; Unknown carries none. */
    function TargetSha(): Option<string> {
      if Unknown? then None else Some(targetSha)
    }

    // ------------------------------------------------------------ successors

    /** `Unknown.buildable(image)`; the target sha is passed in, as the constructor needs it. */
    function MakeBuildable(image: string, targetSha: string): (r: BuildState)
      requires Unknown?
      ensures r.Buildable? && r.image == image && r.TargetSha() == Some(targetSha)
    {
      Buildable(image, targetSha)
    }

    /** `Buildable.building(job)` */
    function StartBuilding(job: JobId): (r: BuildState)
      requires Buildable?
      ensures r.Building? && r.job == job && r.image == image && r.TargetSha() == TargetSha()
    {
      Building(job, image, targetSha)
    }

    /** `Building.success(merged_sha)` */
    function Succeeded(mergedSha: string): (r: BuildState)
      requires Building?
      ensures r.Deployable? && r.mergedSha == mergedSha && r.TargetSha() == TargetSha()
    {
      Deployable(mergedSha, targetSha)
    }

    /** `Building.failure(exit_code)` */
    function Failed(exitCode: int): (r: BuildState)
      requires Building?
      ensures r.Failure? && r.exitCode == exitCode && r.image == image && r.TargetSha() == TargetSha()
    {
      Failure(exitCode, image, targetSha)
    }

    /** `Building.no_merge_sha(exit_code)` */
    function LostMergeSha(exitCode: int): (r: BuildState)
      requires Building?
      ensures r.NoMergeSHA? && r.exitCode == exitCode && r.TargetSha() == TargetSha()
    {
      NoMergeSHA(exitCode, targetSha)
    }

    /** `Failure.retry(job)` */
    function Retry(job: JobId): (r: BuildState)
      requires Failure?
      ensures r.Building? && r.job == job && r.image == image && r.TargetSha() == TargetSha()
    {
      Building(job, image, targetSha)
    }

    /** `NoMergeSHA.retry(job, image)` */
    function RetryWithImage(job: JobId, image: string): (r: BuildState)
      requires NoMergeSHA?
      ensures r.Building? && r.job == job && r.image == image && r.TargetSha() == TargetSha()
    {
      Building(job, image, targetSha)
    }

    /** `Deployable.deploy(job_id)` */
    function Deploy(job: JobId): (r: BuildState)
      requires Deployable?
      ensures r.Deploying? && r.job == job && r.mergedSha == mergedSha && r.TargetSha() == TargetSha()
    {
      Deploying(job, mergedSha, targetSha)
    }

    /** `Deploying.deployed()` */
    function MarkDeployed(): (r: BuildState)
      requires Deploying?
      ensures r.Deployed? && r.job == job && r.mergedSha == mergedSha && r.TargetSha() == TargetSha()
    {
      Deployed(job, mergedSha, targetSha)
    }
  }

  // ---------------------------------------------------------------- equality

  /** The nine `__eq__` methods: same variant and equal fields (a Building compares job ids). */
  function Eq(a: BuildState, b: BuildState): (r: bool)
    ensures r <==> a == b
  {
    match a
    case Unknown => b.Unknown?
    case NoImage(t) => b.NoImage? && t == b.targetSha
    case Buildable(i, t) => b.Buildable? && i == b.image && t == b.targetSha
    case Building(j, i, t) => b.Building? && j == b.job && i == b.image && t == b.targetSha
    case Failure(e, i, t) => b.Failure? && e == b.exitCode && i == b.image && t == b.targetSha
    case NoMergeSHA(e, t) => b.NoMergeSHA? && e == b.exitCode && t == b.targetSha
    case Deployable(m, t) => b.Deployable? && m == b.mergedSha && t == b.targetSha
    case Deploying(j, m, t) => b.Deploying? && j == b.job && m == b.mergedSha && t == b.targetSha
    case Deployed(j, m, t) => b.Deployed? && j == b.job && m == b.mergedSha && t == b.targetSha
  }

  // ---------------------------------------------------------------- transition

  /** What a legal transition yields: the new state, and the job to cancel, if any. */
  datatype Transitioned = Transitioned(next: BuildState, cancel: Option<JobId>)

  /**
   * `current.transition(proposed)`. Deployed accepts nothing; Deploying accepts
   * only Deployed; NoImage accepts only Buildable; Building rejects Deploying and
   * Deployed and, when superseded by anything but a build result, asks for its
   * job to be cancelled; every other variant accepts anything. An accepted
   * transition always yields the proposed state.
   */
  function Transition(current: BuildState, proposed: BuildState): (r: Result<Transitioned>)
    ensures current.Deployed? ==> r == Err(BadTransition)
    ensures current.Deploying? ==> (r.Ok? <==> proposed.Deployed?)
    ensures current.NoImage? ==> (r.Ok? <==> proposed.Buildable?)
    ensures current.Building? ==> (r.Ok? <==> !proposed.Deploying? && !proposed.Deployed?)
    ensures (current.Unknown? || current.Buildable? || current.Deployable? ||
             current.Failure? || current.NoMergeSHA?) ==> r.Ok?
    ensures r.Err? ==> r.error == BadTransition
    ensures r.Ok? ==> r.value.next == proposed
    ensures r.Ok? ==>
      (r.value.cancel.Some? <==>
        current.Building? && !proposed.Failure? && !proposed.Deployable? && !proposed.NoMergeSHA?)
    ensures r.Ok? && r.value.cancel.Some? ==> r.value.cancel.value == current.job
  {
    match current
    case Deployed(_, _, _) => Err(BadTransition)
    case Deploying(_, _, _) =>
      if proposed.Deployed? then Ok(Transitioned(proposed, None)) else Err(BadTransition)
    case NoImage(_) =>
      if proposed.Buildable? then Ok(Transitioned(proposed, None)) else Err(BadTransition)
    case Building(job, _, _) =>
      if proposed.Deploying? || proposed.Deployed? then Err(BadTransition)
      else if !proposed.Failure? && !proposed.Deployable? && !proposed.NoMergeSHA? then
        Ok(Transitioned(proposed, Some(job)))
      else Ok(Transitioned(proposed, None))
    case _ => Ok(Transitioned(proposed, None))
  }

  /**
   * Every documented successor is accepted by the gate, cancels nothing and
   * keeps the target sha.
   */
  lemma SuccessorsAreLegal(s: BuildState, job: JobId, image: string, sha: string, code: int)
    ensures s.Unknown? ==>
      Transition(s, s.MakeBuildable(image, sha)) == Ok(Transitioned(s.MakeBuildable(image, sha), None))
    ensures s.Buildable? ==>
      Transition(s, s.StartBuilding(job)) == Ok(Transitioned(s.StartBuilding(job), None))
      && s.StartBuilding(job).TargetSha() == s.TargetSha()
    ensures s.Building? ==>
      && Transition(s, s.Succeeded(sha)) == Ok(Transitioned(s.Succeeded(sha), None))
      && Transition(s, s.Failed(code)) == Ok(Transitioned(s.Failed(code), None))
      && Transition(s, s.LostMergeSha(code)) == Ok(Transitioned(s.LostMergeSha(code), None))
    ensures s.Failure? ==> Transition(s, s.Retry(job)) == Ok(Transitioned(s.Retry(job), None))
    ensures s.NoMergeSHA? ==>
      Transition(s, s.RetryWithImage(job, image)) == Ok(Transitioned(s.RetryWithImage(job, image), None))
    ensures s.Deployable? ==> Transition(s, s.Deploy(job)) == Ok(Transitioned(s.Deploy(job), None))
    ensures s.Deploying? ==> Transition(s, s.MarkDeployed()) == Ok(Transitioned(s.MarkDeployed(), None))
  {
  }

  /** Once Deployed, no sequence of proposed states gets past the gate. */
  lemma DeployedIsTerminal(s: BuildState, proposals: seq<BuildState>)
    requires s.Deployed?
    ensures TransitionAll(s, proposals) == if proposals == [] then Ok(s) else Err(BadTransition)
  {
  }

  /** The state after proposing each of `proposals` in turn, or the first rejection. */
  function TransitionAll(s: BuildState, proposals: seq<BuildState>): (r: Result<BuildState>)
    ensures proposals == [] ==> r == Ok(s)
    ensures r.Ok? && proposals != [] ==> r.value == proposals[|proposals| - 1]
    decreases |proposals|
  {
    if proposals == [] then Ok(s)
    else match Transition(s, proposals[0])
      case Err(e) => Err(e)
      case Ok(t) => TransitionAll(t.next, proposals[1..])
  }

  // ---------------------------------------------------------------- gh_state

  /**
   * `gh_state`: the commit status a state is reported as. Unknown must never
   * be reported and raises.
   */
  function GhState(s: BuildState): (r: Result<string>)
    ensures r == Ok("success") <==> s.Deployed? || s.Deploying? || s.Deployable?
    ensures r == Ok("pending") <==> s.Building? || s.Buildable?
    ensures r == Ok("failure") <==> s.Failure? || s.NoMergeSHA? || s.NoImage?
    ensures r.Err? <==> s.Unknown?
    ensures r.Err? ==> r.error == NoGitHubState
  {
    match s
    case Deployed(_, _, _) => Ok("success")
    case Deploying(_, _, _) => Ok("success")
    case Deployable(_, _) => Ok("success")
    case Building(_, _, _) => Ok("pending")
    case Buildable(_, _) => Ok("pending")
    case Failure(_, _, _) => Ok("failure")
    case NoMergeSHA(_, _) => Ok("failure")
    case NoImage(_) => Ok("failure")
    case Unknown => Err(NoGitHubState)
  }

  // ---------------------------------------------------------------- JSON

  /** `to_json` of each variant. Building writes its job id under "job". */
  function ToJson(s: BuildState): (d: Json)
    ensures d.JObject? && StrAt(d, ["type"]) == Some(TypeName(s))
    ensures s.TargetSha().Some? ==> StrAt(d, ["target_sha"]) == s.TargetSha()
    ensures s.Deployed? || s.Deploying? ==> IntAt(d, ["job_id"]) == Some(s.job)
    ensures s.Building? ==> IntAt(d, ["job"]) == Some(s.job) && "job_id" !in d.fields
  {
    match s
    case Deployed(j, m, t) =>
      JObject(map["type" := JStr("Deployed"), "job_id" := JInt(j), "merged_sha" := JStr(m), "target_sha" := JStr(t)])
    case Deploying(j, m, t) =>
      JObject(map["type" := JStr("Deploying"), "job_id" := JInt(j), "merged_sha" := JStr(m), "target_sha" := JStr(t)])
    case Deployable(m, t) =>
      JObject(map["type" := JStr("Deployable"), "merged_sha" := JStr(m), "target_sha" := JStr(t)])
    case Failure(e, i, t) =>
      JObject(map["type" := JStr("Failure"), "exit_code" := JInt(e), "image" := JStr(i), "target_sha" := JStr(t)])
    case NoMergeSHA(e, t) =>
      JObject(map["type" := JStr("NoMergeSHA"), "exit_code" := JInt(e), "target_sha" := JStr(t)])
    case Building(j, i, t) =>
      JObject(map["type" := JStr("Building"), "job" := JInt(j), "image" := JStr(i), "target_sha" := JStr(t)])
    case Buildable(i, t) =>
      JObject(map["type" := JStr("Buildable"), "image" := JStr(i), "target_sha" := JStr(t)])
    case NoImage(t) =>
      JObject(map["type" := JStr("NoImage"), "target_sha" := JStr(t)])
    case Unknown =>
      JObject(map["type" := JStr("Unknown")])
  }

  /**
   * `doc[key]` as a string; a missing key (KeyError) raises, and so, unlike
   * the Python, which would store whatever value it finds, does a value that
   * is not a string.
   */
  function Str(doc: Json, key: string): Result<string> {
    match StrAt(doc, [key]) case Some(s) => Ok(s) case None => Err(MalformedStatus)
  }

  /**
   * `doc[key]` as an integer; a missing key (KeyError) raises, and so, unlike
   * the Python, does a value that is not an integer.
   */
  function Int(doc: Json, key: string): Result<int> {
    match IntAt(doc, [key]) case Some(i) => Ok(i) case None => Err(MalformedStatus)
  }

  /**
   * The type dispatch of `build_state_from_gh_json` on an already parsed
   * document: a missing `type` raises; an unrecognised one (NoImage and
   * Unknown among them) gives Unknown.
   */
  function Dispatch(doc: Json): (r: Result<BuildState>)
    ensures Field(doc, "type").None? ==> r == Err(MalformedStatus)
    ensures (Field(doc, "type").Some? && Field(doc, "type").value !in
      {JStr("Deployed"), JStr("Deploying"), JStr("Deployable"), JStr("Failure"),
       JStr("NoMergeSHA"), JStr("Building"), JStr("Buildable")}) ==> r == Ok(Unknown)
    ensures r.Ok? && !r.value.Unknown? ==> Field(doc, "type") == Some(JStr(TypeName(r.value)))
  {
    match Field(doc, "type")
    case None => Err(MalformedStatus)
    case Some(t) =>
      if t == JStr("Deployed") then
        var j :- Int(doc, "job_id"); var m :- Str(doc, "merged_sha"); var ts :- Str(doc, "target_sha");
        Ok(Deployed(j, m, ts))
      else if t == JStr("Deploying") then
        var j :- Int(doc, "job_id"); var m :- Str(doc, "merged_sha"); var ts :- Str(doc, "target_sha");
        Ok(Deploying(j, m, ts))
      else if t == JStr("Deployable") then
        var m :- Str(doc, "merged_sha"); var ts :- Str(doc, "target_sha");
        Ok(Deployable(m, ts))
      else if t == JStr("Failure") then
        var e :- Int(doc, "exit_code"); var i :- Str(doc, "image"); var ts :- Str(doc, "target_sha");
        Ok(Failure(e, i, ts))
      else if t == JStr("NoMergeSHA") then
        var e :- Int(doc, "exit_code"); var ts :- Str(doc, "target_sha");
        Ok(NoMergeSHA(e, ts))
      else if t == JStr("Building") then
        var j :- Int(doc, "job_id"); var i :- Str(doc, "image"); var ts :- Str(doc, "target_sha");
        Ok(Building(j, i, ts))
      else if t == JStr("Buildable") then
        var i :- Str(doc, "image"); var ts :- Str(doc, "target_sha");
        Ok(Buildable(i, ts))
      else Ok(Unknown)
  }

  /** The `type` tag `to_json` writes for each variant. */
  function TypeName(s: BuildState): string {
    match s
    case Deployed(_, _, _) => "Deployed"
    case Deploying(_, _, _) => "Deploying"
    case Deployable(_, _) => "Deployable"
    case Failure(_, _, _) => "Failure"
    case NoMergeSHA(_, _) => "NoMergeSHA"
    case Building(_, _, _) => "Building"
    case Buildable(_, _) => "Buildable"
    case NoImage(_) => "NoImage"
    case Unknown => "Unknown"
  }

  /**
   * One commit status as GitHub lists it. `description` is the JSON document
   * the description text ends with, matched from the first `{` of its last
   * line, or None when there is no such parseable document.
   */
  datatype GhStatus = GhStatus(context: string, state: string, description: Option<Json>)

  /** The statuses in `d` whose context is this controller's, in order. */
  function Mine(d: seq<GhStatus>): (r: seq<GhStatus>)
    ensures forall x | x in r :: x in d && x.context == CONTEXT
    ensures forall x | x in d && x.context == CONTEXT :: x in r
    ensures r != [] ==> exists i | 0 <= i < |d| :: d[i] == r[0] && forall k | 0 <= k < i :: d[k].context != CONTEXT
  {
    if d == [] then []
    else if d[0].context == CONTEXT then [d[0]] + Mine(d[1..])
    else
      var rest := Mine(d[1..]);
      assert rest != [] ==> exists i | 0 <= i < |d| :: d[i] == rest[0] && forall k | 0 <= k < i :: d[k].context != CONTEXT by {
        if rest != [] {
          var i :| 0 <= i < |d[1..]| && d[1..][i] == rest[0] && forall k | 0 <= k < i :: d[1..][k].context != CONTEXT;
          assert d[i + 1] == rest[0];
          forall k | 0 <= k < i + 1 ensures d[k].context != CONTEXT {
            if k > 0 { assert d[k] == d[1..][k - 1]; }
          }
        }
      }
      rest
  }

  /**
   * `build_state_from_gh_json`: decode the first of this controller's
   * statuses. No such status, or no parseable document in its description,
   * gives Unknown; a state other than pending, failure or success raises.
   */
  function FromGhJson(d: seq<GhStatus>): (r: Result<BuildState>)
    ensures Mine(d) == [] ==> r == Ok(Unknown)
    ensures Mine(d) != [] && Mine(d)[0].state !in {"pending", "failure", "success"} ==> r == Err(MalformedStatus)
    ensures Mine(d) != [] && Mine(d)[0].state in {"pending", "failure", "success"} ==>
      r == (if Mine(d)[0].description.None? then Ok(Unknown) else Dispatch(Mine(d)[0].description.value))
  {
    var mine := Mine(d);
    if mine == [] then Ok(Unknown)
    else if mine[0].state !in {"pending", "failure", "success"} then Err(MalformedStatus)
    else match mine[0].description
      case None => Ok(Unknown)
      case Some(doc) => Dispatch(doc)
  }

  /**
   * Type dispatch on a document written by `to_json` gives back the same
   * state, for every variant except Building (whose job id is written under
   * "job" and read from "job_id"), NoImage and Unknown.
   */
  lemma JsonRoundTrip(s: BuildState)
    requires !s.Building? && !s.NoImage? && !s.Unknown?
    ensures Dispatch(ToJson(s)) == Ok(s)
  {
    var d := ToJson(s);
    KeyOf(d, "type");
    KeyOf(d, "target_sha");
    match s
    case Buildable(_, _) =>
      KeyOf(d, "image");
    case Failure(_, _, _) =>
      KeyOf(d, "exit_code");
      KeyOf(d, "image");
    case NoMergeSHA(_, _) =>
      KeyOf(d, "exit_code");
    case Deployable(_, _) =>
      KeyOf(d, "merged_sha");
    case Deploying(_, _, _) =>
      KeyOf(d, "job_id");
      KeyOf(d, "merged_sha");
    case Deployed(_, _, _) =>
      KeyOf(d, "job_id");
      KeyOf(d, "merged_sha");
  }

  /** A one-step path reads one field. */
  lemma KeyOf(d: Json, key: string)
    ensures At(d, [key]) == Field(d, key)
  {
    assert [key][0] == key && [key][1..] == [];
  }

  /** A Building state's document does not decode: its job id is missing under "job_id". */
  lemma BuildingDocumentDoesNotDecode(s: BuildState)
    requires s.Building?
    ensures Dispatch(ToJson(s)) == Err(MalformedStatus)
  {
    assert IntAt(ToJson(s), ["job_id"]) == None;
  }

  /** The NoImage and Unknown documents decode to Unknown. */
  lemma UnrecognisedDocumentsDecodeToUnknown(s: BuildState)
    requires s.NoImage? || s.Unknown?
    ensures Dispatch(ToJson(s)) == Ok(Unknown)
  {
  }

  /**
   * A status this controller posted for `s`, with `to_json` in its
   * description, is decoded back to `s` (the variants of JsonRoundTrip).
   */
  lemma {:induction false} StatusRoundTrip(s: BuildState, others: seq<GhStatus>)
    requires !s.Building? && !s.NoImage? && !s.Unknown?
    requires forall x | x in others :: x.context != CONTEXT
    ensures FromGhJson([GhStatus(CONTEXT, GhState(s).value, Some(ToJson(s)))] + others) == Ok(s)
  {
    var d := [GhStatus(CONTEXT, GhState(s).value, Some(ToJson(s)))] + others;
    assert d[0].context == CONTEXT;
    assert Mine(d)[0] == d[0];
    JsonRoundTrip(s);
  }
}
