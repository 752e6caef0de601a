/**
 * One pull request ("PR"): a source commit, a target commit, a review verdict
 * and a build state. Every update folds in one external fact and returns a
 * new PR, together with the external effects it performed. Every change of
 * build goes through NewBuild, which applies the state machine's gate.
 */
module Pulls {
  import opened Wrappers
  import opened GitState
  import opened BuildStates

  datatype Review = Pending | Approved | ChangesRequested

  /** The merged sha recorded for a successful build (ci/pr.py:353). */
  const NO_SHAS_YET := "NO SHAS YET"

  /** A pull request as GitHub reports it. */
  datatype GitHubPR = GitHubPR(state: string, number: string, title: string, source: FQSHA, target: FQSHA) {
    function TargetRef(): FQRef { target.ref }
  }

  datatype PR = PR(target: FQSHA, source: FQSHA, review: Review, build: BuildState, number: string, title: string) {
    predicate IsMergeable() { build.Deployable? && review == Approved }
    predicate IsApproved() { review == Approved }
    predicate IsRunning() { build.Building? }
    predicate IsPendingBuild() { build.Buildable? }
  }

  /** The external effects an update performs, in order. */
  datatype Effect =
    | JobCreated(job: JobId, source: FQSHA, target: FQSHA, image: string)
    | JobCancelled(job: JobId)
    | StatusPosted(sha: string, state: string)
    | MergeRequested(number: string, sha: string)

  /**
   * The external collaborators, as functions of what is asked of them:
   * the build image of a merge of source into target, that is the contents
   * of its image file stripped of surrounding white space (None: the clone,
   * merge or read failed);
   * batch job creation (None: it raised); the HTTP status of posting a commit
   * status and of a merge request; and the build state a merge leaves behind.
   */
  datatype Oracle = Oracle(
    image: (FQSHA, FQSHA) -> Option<string>,
    createJob: (FQSHA, FQSHA, string) -> Option<JobId>,
    postStatus: (string, string) -> int,
    mergeStatus: PR -> int,
    mergedBuild: PR -> BuildState)

  /** The new PR an update returns, and what it did on the way. */
  datatype Step = Step(pr: PR, effects: seq<Effect>)

  predicate SameRefs(a: PR, b: PR) {
    a.source.ref == b.source.ref && a.target.ref == b.target.ref
  }

  predicate NoJobCreated(effects: seq<Effect>) {
    forall e | e in effects :: !e.JobCreated?
  }

  // ---------------------------------------------------------------- construction

  /** `PR.copy`: the fields passed replace the PR's own, the others are kept. */
  function Copy(pr: PR, target: Option<FQSHA> := None, source: Option<FQSHA> := None,
                review: Option<Review> := None, build: Option<BuildState> := None,
                number: Option<string> := None, title: Option<string> := None): (r: PR)
    ensures r.target == (if target.Some? then target.value else pr.target)
    ensures r.source == (if source.Some? then source.value else pr.source)
    ensures r.review == (if review.Some? then review.value else pr.review)
    ensures r.build == (if build.Some? then build.value else pr.build)
    ensures r.number == (if number.Some? then number.value else pr.number)
    ensures r.title == (if title.Some? then title.value else pr.title)
  {
    PR(target := if target.Some? then target.value else pr.target,
       source := if source.Some? then source.value else pr.source,
       review := if review.Some? then review.value else pr.review,
       build := if build.Some? then build.value else pr.build,
       number := if number.Some? then number.value else pr.number,
       title := if title.Some? then title.value else pr.title)
  }

  /** `PR.fresh`: review pending and build Unknown. */
  function Fresh(source: FQSHA, target: FQSHA, number: string, title: string): (r: PR)
    ensures r.source == source && r.target == target && r.number == number && r.title == title
    ensures r.review == Pending && r.build.Unknown?
  {
    PR(target, source, Pending, Unknown, number, title)
  }

  // ---------------------------------------------------------------- builds

  /**
   * `if img:` on a resolved image: there is one only when the lookup
   * succeeded and gave a non-empty name.
   */
  predicate HasImage(o: Oracle, source: FQSHA, target: FQSHA) {
    o.image(source, target).Some? && o.image(source, target).value != ""
  }

  /**
   * `try_new_build`: resolve the image; without one, NoImage; with one, try
   * to create a job: Building on success, Buildable when creation raises.
   * Every state carries the target's sha.
   */
  function TryNewBuild(o: Oracle, source: FQSHA, target: FQSHA): (r: (BuildState, seq<Effect>))
    ensures r.0.TargetSha() == Some(target.sha)
    ensures r.0.NoImage? <==> !HasImage(o, source, target)
    ensures r.0.Buildable? <==> HasImage(o, source, target) && o.createJob(source, target, o.image(source, target).value).None?
    ensures r.0.Building? <==> HasImage(o, source, target) && o.createJob(source, target, o.image(source, target).value).Some?
    ensures r.0.Buildable? || r.0.Building? ==> r.0.image == o.image(source, target).value
    ensures r.0.Building? ==> r.0.job == o.createJob(source, target, r.0.image).value
    ensures r.1 == if r.0.Building? then [JobCreated(r.0.job, source, target, r.0.image)] else []
  {
    if !HasImage(o, source, target) then (NoImage(target.sha), [])
    else
      var img := o.image(source, target).value;
      match o.createJob(source, target, img)
      case None => (Buildable(img, target.sha), [])
      case Some(job) => (Building(job, img, target.sha), [JobCreated(job, source, target, img)])
  }

  /** `determine_buildability`: Buildable with the resolved image, or NoImage. */
  function DetermineBuildability(o: Oracle, source: FQSHA, target: FQSHA): (r: BuildState)
    ensures r.TargetSha() == Some(target.sha)
    ensures r.NoImage? || r.Buildable?
    ensures r.Buildable? <==> HasImage(o, source, target)
    ensures r.Buildable? ==> r.image == o.image(source, target).value
  {
    if HasImage(o, source, target) then Buildable(o.image(source, target).value, target.sha)
    else NoImage(target.sha)
  }

  /**
   * `try_new_build` is `determine_buildability` followed, when the job is
   * created, by the Buildable state's documented `building` successor.
   */
  lemma TryNewBuildExtendsBuildability(o: Oracle, source: FQSHA, target: FQSHA)
    ensures var d := DetermineBuildability(o, source, target);
            var (b, effects) := TryNewBuild(o, source, target);
            && (d.NoImage? ==> b == d && effects == [])
            && (d.Buildable? ==>
                  || (b == d && effects == [])
                  || (b.Building? && b == d.StartBuilding(b.job) && effects == [JobCreated(b.job, source, target, d.image)]))
  {
  }

  // ---------------------------------------------------------------- notify and _new_build

  /**
   * `notify_github`: post the state's commit status on the source sha. A 422
   * (too many statuses) is swallowed; any other failure raises, as does
   * reporting Unknown.
   */
  function NotifyGithub(o: Oracle, pr: PR, build: BuildState): (r: Result<seq<Effect>>)
    ensures r.Err? <==> build.Unknown? || o.postStatus(pr.source.sha, GhState(build).value) !in {201, 422}
    ensures build.Unknown? ==> r == Err(NoGitHubState)
    ensures !build.Unknown? && r.Err? ==> r.error == StatusPostFailed(o.postStatus(pr.source.sha, GhState(build).value))
    ensures r.Ok? ==> r.value == [StatusPosted(pr.source.sha, GhState(build).value)]
  {
    var state :- GhState(build);
    var code := o.postStatus(pr.source.sha, state);
    if code == 201 || code == 422 then Ok([StatusPosted(pr.source.sha, state)])
    else Err(StatusPostFailed(code))
  }

  /** The cancellation the gate asks for when `from` is left for `to`. */
  function CancelEffect(from: BuildState, to: BuildState): seq<Effect> {
    if from.Building? && !to.Failure? && !to.Deployable? && !to.NoMergeSHA? then [JobCancelled(from.job)] else []
  }

  /**
   * `_new_build`: notify GitHub when the build changes, then store
   * `old.transition(new)`. So nothing changes a Deployed PR's build, and
   * superseding a Building state cancels its job.
   */
  function NewBuild(o: Oracle, pr: PR, newBuild: BuildState): (r: Result<Step>)
    ensures r.Ok? <==>
      && Transition(pr.build, newBuild).Ok?
      && (pr.build == newBuild || NotifyGithub(o, pr, newBuild).Ok?)
    ensures pr.build.Deployed? ==> r.Err?
    ensures r.Ok? ==> r.value.pr == pr.(build := newBuild)
    ensures r.Ok? ==>
      r.value.effects == (if pr.build != newBuild then [StatusPosted(pr.source.sha, GhState(newBuild).value)] else [])
                         + CancelEffect(pr.build, newBuild)
    ensures pr.build != newBuild && NotifyGithub(o, pr, newBuild).Err? ==> r == Err(NotifyGithub(o, pr, newBuild).error)
    ensures (pr.build == newBuild || NotifyGithub(o, pr, newBuild).Ok?) && r.Err? ==> r.error == BadTransition
  {
    var posted :- if pr.build != newBuild then NotifyGithub(o, pr, newBuild) else Ok([]);
    var t :- Transition(pr.build, newBuild);
    Ok(Step(Copy(pr, build := Some(t.next)), posted + (if t.cancel.Some? then [JobCancelled(t.cancel.value)] else [])))
  }

  /** `_new_build(try_new_build(source, target))` on the PR's own commits. */
  function Rebuild(o: Oracle, pr: PR): (r: Result<Step>)
    ensures var (b, created) := TryNewBuild(o, pr.source, pr.target);
            && (r.Ok? <==> NewBuild(o, pr, b).Ok?)
            && (r.Ok? ==> r.value == Step(NewBuild(o, pr, b).value.pr, created + NewBuild(o, pr, b).value.effects))
    ensures r.Ok? ==> r.value.pr == pr.(build := TryNewBuild(o, pr.source, pr.target).0)
  {
    var (b, created) := TryNewBuild(o, pr.source, pr.target);
    var step :- NewBuild(o, pr, b);
    Ok(Step(step.pr, created + step.effects))
  }

  /** `PR.build` (called `build_it` by the registry): only a Buildable or failed PR may be rebuilt. */
  function Build(o: Oracle, pr: PR): (r: Result<Step>)
    ensures !pr.build.Buildable? && !pr.build.Failure? ==> r == Err(AssertionFailed)
    ensures pr.build.Buildable? || pr.build.Failure? ==> r == Rebuild(o, pr)
    ensures r.Ok? ==> SameRefs(r.value.pr, pr)
  {
    if !pr.build.Buildable? && !pr.build.Failure? then Err(AssertionFailed)
    else Rebuild(o, pr)
  }

  /**
   * `to_PR`, which the registry calls (ci/prs.py:124, 147, 190) but `PR`
   * does not define: a fresh PR, whose first build is started when asked.
   */
  function ToPR(o: Oracle, gh: GitHubPR, startBuild: bool): (r: Result<Step>)
    ensures !startBuild ==> r == Ok(Step(Fresh(gh.source, gh.target, gh.number, gh.title), []))
    ensures startBuild ==> r == Rebuild(o, Fresh(gh.source, gh.target, gh.number, gh.title))
    ensures r.Ok? ==> r.value.pr.source == gh.source && r.value.pr.target == gh.target
    ensures r.Ok? ==> r.value.pr.review == Pending
  {
    var pr := Fresh(gh.source, gh.target, gh.number, gh.title);
    if startBuild then Rebuild(o, pr) else Ok(Step(pr, []))
  }

  /**
   * `merged`, which `deploy` calls (ci/prs.py:216) but `PR` does not define:
   * only the build changes, to what the merge left behind.
   */
  function Merged(o: Oracle, pr: PR): (r: PR)
    ensures r.build == o.mergedBuild(pr)
    ensures r.source == pr.source && r.target == pr.target && r.review == pr.review
    ensures r.number == pr.number && r.title == pr.title
  {
    Copy(pr, build := Some(o.mergedBuild(pr)))
  }

  // ---------------------------------------------------------------- new shas

  /**
   * `_new_target_and_source`: both commits replaced, review reset, a new
   * build tried. It succeeds exactly when the gate accepts the attempt and,
   * when the build changed, its status could be posted on the new source.
   */
  function NewTargetAndSource(o: Oracle, pr: PR, newTarget: FQSHA, newSource: FQSHA): (r: Result<Step>)
    ensures var (b, created) := TryNewBuild(o, newSource, newTarget);
            && (r.Ok? <==> Transition(pr.build, b).Ok? && (pr.build == b || NotifyGithub(o, pr.(source := newSource), b).Ok?))
            && (r.Ok? ==> r.value.pr == pr.(source := newSource, target := newTarget, review := Pending, build := b))
            && (r.Ok? ==> created <= r.value.effects)
  {
    Rebuild(o, Copy(pr, source := Some(newSource), target := Some(newTarget), review := Some(Pending)))
  }

  /**
   * `_new_target`: the target replaced and buildability re-determined; no
   * job is started. It succeeds exactly when the gate accepts and, when the
   * build changed, its status could be posted.
   */
  function NewTarget(o: Oracle, pr: PR, newTarget: FQSHA): (r: Result<Step>)
    ensures var b := DetermineBuildability(o, pr.source, newTarget);
            && (r.Ok? <==> Transition(pr.build, b).Ok? && (pr.build == b || NotifyGithub(o, pr, b).Ok?))
            && (r.Ok? ==> r.value.pr == pr.(target := newTarget, build := b))
            && (r.Ok? ==> NoJobCreated(r.value.effects))
  {
    NewBuild(o, Copy(pr, target := Some(newTarget)), DetermineBuildability(o, pr.source, newTarget))
  }

  /**
   * `_new_source`: the source replaced, review reset, a new build tried
   * against the current target; success as for `_new_target_and_source`.
   */
  function NewSource(o: Oracle, pr: PR, newSource: FQSHA): (r: Result<Step>)
    ensures var (b, created) := TryNewBuild(o, newSource, pr.target);
            && (r.Ok? <==> Transition(pr.build, b).Ok? && (pr.build == b || NotifyGithub(o, pr.(source := newSource), b).Ok?))
            && (r.Ok? ==> r.value.pr == pr.(source := newSource, review := Pending, build := b))
            && (r.Ok? ==> created <= r.value.effects)
  {
    Rebuild(o, Copy(pr, source := Some(newSource), review := Some(Pending)))
  }

  /**
   * `_maybe_new_shas`. A new source sha resets the review and tries a new
   * build against the (possibly new) target. A change of target alone keeps
   * the review, re-determines buildability and starts no job. No change at
   * all leaves the PR as it is. Each change succeeds exactly when the gate
   * accepts the new build and, when the build changed, its status is posted.
   */
  function MaybeNewShas(o: Oracle, pr: PR, newSource: Option<FQSHA>, newTarget: FQSHA): (r: Result<Step>)
    ensures newSource.Some? && newSource.value != pr.source ==>
      && r == Rebuild(o, pr.(source := newSource.value, target := newTarget, review := Pending))
      && var b := TryNewBuild(o, newSource.value, newTarget).0;
         && (r.Ok? <==> Transition(pr.build, b).Ok? && (pr.build == b || NotifyGithub(o, pr.(source := newSource.value), b).Ok?))
         && (r.Ok? ==> r.value.pr == pr.(source := newSource.value, target := newTarget, review := Pending, build := b))
    ensures (newSource.None? || newSource.value == pr.source) && newTarget != pr.target ==>
      && r == NewBuild(o, pr.(target := newTarget), DetermineBuildability(o, pr.source, newTarget))
      && var b := DetermineBuildability(o, pr.source, newTarget);
         && (r.Ok? <==> Transition(pr.build, b).Ok? && (pr.build == b || NotifyGithub(o, pr, b).Ok?))
         && (r.Ok? ==> r.value.pr == pr.(target := newTarget, build := b) && NoJobCreated(r.value.effects))
    ensures (newSource.None? || newSource.value == pr.source) && newTarget == pr.target ==>
      r == Ok(Step(pr, []))
    ensures r.Err? ==> r.error == BadTransition || r.error.StatusPostFailed?
  {
    if newSource.Some? && pr.source != newSource.value then
      if pr.target != newTarget then NewTargetAndSource(o, pr, newTarget, newSource.value)
      else NewSource(o, pr, newSource.value)
    else if pr.target != newTarget then NewTarget(o, pr, newTarget)
    else Ok(Step(pr, []))
  }

  // ---------------------------------------------------------------- updates

  /** `update_from_github_push`: the target branch moved to `push`, which must be on the PR's target branch. */
  function UpdateFromGithubPush(o: Oracle, pr: PR, push: FQSHA): (r: Result<Step>)
    ensures pr.target.ref != push.ref ==> r == Err(AssertionFailed)
    ensures push == pr.target ==> r == Ok(Step(pr, []))
    ensures pr.target.ref == push.ref && push != pr.target ==>
      var b := DetermineBuildability(o, pr.source, push);
      && r == NewBuild(o, pr.(target := push), b)
      && (r.Ok? <==> Transition(pr.build, b).Ok? && (pr.build == b || NotifyGithub(o, pr, b).Ok?))
      && (r.Ok? ==> r.value.pr == pr.(target := push, build := b) && NoJobCreated(r.value.effects))
    ensures push != pr.target && pr.build.Deployed? ==> r.Err?
    ensures r.Ok? ==> SameRefs(r.value.pr, pr)
  {
    if pr.target.ref != push.ref then Err(AssertionFailed)
    else MaybeNewShas(o, pr, None, push)
  }

  /**
   * `update_from_github_pr`: the report must be for the PR's own branches;
   * new commits are handled as for a push, then title and number are taken
   * from GitHub.
   */
  function UpdateFromGithubPr(o: Oracle, pr: PR, gh: GitHubPR): (r: Result<Step>)
    ensures pr.target.ref != gh.target.ref || pr.source.ref != gh.source.ref ==> r == Err(AssertionFailed)
    ensures r.Ok? <==>
      && pr.target.ref == gh.target.ref && pr.source.ref == gh.source.ref
      && MaybeNewShas(o, pr, Some(gh.source), gh.target).Ok?
    ensures r.Ok? ==>
      var m := MaybeNewShas(o, pr, Some(gh.source), gh.target).value;
      r.value == Step(m.pr.(title := gh.title, number := gh.number), m.effects)
    ensures r.Ok? ==> r.value.pr.source == gh.source && r.value.pr.target == gh.target
    ensures r.Ok? ==> SameRefs(r.value.pr, pr)
  {
    var _ :- if pr.target.ref == gh.target.ref && pr.source.ref == gh.source.ref then Ok(()) else Err(AssertionFailed);
    var step :- MaybeNewShas(o, pr, Some(gh.source), gh.target);
    var result := step.pr;
    var result := if pr.title != gh.title then Copy(result, title := Some(gh.title)) else result;
    var result := if pr.number != gh.number then Copy(result, number := Some(gh.number)) else result;
    Ok(Step(result, step.effects))
  }

  /** `update_from_github_review_state`: only the review changes. */
  function UpdateFromGithubReviewState(pr: PR, review: Review): (r: PR)
    ensures r.review == review
    ensures r.source == pr.source && r.target == pr.target && r.build == pr.build
    ensures r.number == pr.number && r.title == pr.title
  {
    Copy(pr, review := Some(review))
  }

  /**
   * `update_from_github_status`: a reported build is adopted only while the
   * build is Unknown and the report is for the current target sha; otherwise
   * the PR is returned as it is. A report of Unknown, which has no target
   * sha, raises when it would be compared.
   */
  function UpdateFromGithubStatus(pr: PR, build: BuildState): (r: Result<PR>)
    ensures !pr.build.Unknown? ==> r == Ok(pr)
    ensures pr.build.Unknown? && build.TargetSha() == Some(pr.target.sha) ==> r == Ok(pr.(build := build))
    ensures pr.build.Unknown? && build.TargetSha().Some? && build.TargetSha() != Some(pr.target.sha) ==> r == Ok(pr)
    ensures pr.build.Unknown? && build.Unknown? ==> r == Err(MissingAttribute)
  {
    if pr.build.Unknown? then
      if build.Unknown? then Err(MissingAttribute)
      else if pr.target.sha == build.targetSha then Ok(Copy(pr, build := Some(build)))
      else Ok(pr)
    else Ok(pr)
  }

  datatype JobState = Created | Complete | Cancelled | OtherState(name: string)

  /**
   * A batch job as the registry sees it: its id, state and exit code, its
   * image and `type` attribute, and the commits its `source` and `target`
   * attributes name.
   */
  datatype Job = Job(id: JobId, state: JobState, exitCode: int, image: string,
                     jobType: Option<string>, source: FQSHA, target: FQSHA)

  /**
   * `update_from_completed_batch_job`. The job must be for the PR's own
   * branches (an assertion). A job for another target sha or
   * another source sha is stale and leaves the PR unchanged; otherwise exit
   * code 0 makes the build Deployable and any other code a Failure carrying it.
   */
  function UpdateFromCompletedBatchJob(o: Oracle, pr: PR, job: Job): (r: Result<Step>)
    ensures job.target.ref != pr.target.ref || job.source.ref != pr.source.ref ==> r == Err(AssertionFailed)
    ensures job.target.ref == pr.target.ref && job.source.ref == pr.source.ref ==>
      (job.target.sha != pr.target.sha || job.source.sha != pr.source.sha ==> r == Ok(Step(pr, [])))
    ensures job.target == pr.target && job.source == pr.source && job.exitCode == 0 ==>
      r == NewBuild(o, pr, Deployable(NO_SHAS_YET, pr.target.sha))
    ensures job.target == pr.target && job.source == pr.source && job.exitCode != 0 ==>
      r == NewBuild(o, pr, Failure(job.exitCode, job.image, pr.target.sha))
    ensures r.Ok? ==> SameRefs(r.value.pr, pr)
  {
    if job.target.ref != pr.target.ref || job.source.ref != pr.source.ref then Err(AssertionFailed)
    else if job.target.sha != pr.target.sha then Ok(Step(pr, []))
    else if job.source.sha != pr.source.sha then Ok(Step(pr, []))
    else if job.exitCode == 0 then NewBuild(o, pr, Deployable(NO_SHAS_YET, pr.target.sha))
    else NewBuild(o, pr, Failure(job.exitCode, job.image, pr.target.sha))
  }

  /**
   * `refresh_from_batch_job`: a complete job is handled as above, a cancelled
   * one starts a fresh build, a created one makes the build Building for that
   * job, and any other job state fails an assertion.
   */
  function RefreshFromBatchJob(o: Oracle, pr: PR, job: Job): (r: Result<Step>)
    ensures job.state.Complete? ==> r == UpdateFromCompletedBatchJob(o, pr, job)
    ensures job.state.Cancelled? ==> r == Rebuild(o, pr)
    ensures job.state.Created? ==> r == NewBuild(o, pr, Building(job.id, job.image, pr.target.sha))
    ensures job.state.OtherState? ==> r == Err(AssertionFailed)
    ensures r.Ok? ==> SameRefs(r.value.pr, pr)
  {
    match job.state
    case Complete => UpdateFromCompletedBatchJob(o, pr, job)
    case Cancelled => Rebuild(o, pr)
    case Created => NewBuild(o, pr, Building(job.id, job.image, pr.target.sha))
    case OtherState(_) => Err(AssertionFailed)
  }

  // ---------------------------------------------------------------- properties

  /**
   * A Deployed PR is a fixed point: every update that concerns its build
   * either raises or hands back a PR whose build is still the same Deployed
   * state.
   */
  lemma DeployedIsFixedPoint(o: Oracle, pr: PR, push: FQSHA, gh: GitHubPR, job: Job, reported: BuildState)
    requires pr.build.Deployed?
    requires pr.target.ref == push.ref
    requires pr.target.ref == gh.target.ref && pr.source.ref == gh.source.ref
    requires job.target.ref == pr.target.ref && job.source.ref == pr.source.ref
    ensures UpdateFromGithubPush(o, pr, push).Ok? ==> UpdateFromGithubPush(o, pr, push).value.pr.build == pr.build
    ensures UpdateFromGithubPr(o, pr, gh).Ok? ==> UpdateFromGithubPr(o, pr, gh).value.pr.build == pr.build
    ensures RefreshFromBatchJob(o, pr, job).Ok? ==> RefreshFromBatchJob(o, pr, job).value.pr.build == pr.build
    ensures Build(o, pr).Err?
    ensures UpdateFromGithubStatus(pr, reported) == Ok(pr)
  {
  }

  /** Folding in the same push twice gives what folding it in once gave, with no further effects. */
  lemma {:induction false} PushIsIdempotent(o: Oracle, pr: PR, push: FQSHA)
    requires pr.target.ref == push.ref
    requires UpdateFromGithubPush(o, pr, push).Ok?
    ensures var once := UpdateFromGithubPush(o, pr, push).value.pr;
            UpdateFromGithubPush(o, once, push) == Ok(Step(once, []))
  {
  }

  /** Folding in the same completed job twice gives what folding it in once gave. */
  lemma {:induction false} CompletedJobIsIdempotent(o: Oracle, pr: PR, job: Job)
    requires job.target.ref == pr.target.ref && job.source.ref == pr.source.ref
    requires UpdateFromCompletedBatchJob(o, pr, job).Ok?
    ensures var once := UpdateFromCompletedBatchJob(o, pr, job).value.pr;
            UpdateFromCompletedBatchJob(o, once, job) == Ok(Step(once, []))
  {
  }

  /**
   * A Created report for the PR's own Building job proposes the state the PR
   * already has: no status is posted, but the gate cancels the job, since
   * Building superseded by anything but a result asks for a cancellation.
   */
  lemma CreatedReportCancelsOwnJob(o: Oracle, pr: PR, job: Job)
    requires pr.build.Building? && job.state.Created?
    requires job.id == pr.build.job && job.image == pr.build.image && pr.build.targetSha == pr.target.sha
    ensures RefreshFromBatchJob(o, pr, job) == Ok(Step(pr, [JobCancelled(job.id)]))
  {
    assert Building(job.id, job.image, pr.target.sha) == pr.build;
    assert Copy(pr, build := Some(pr.build)) == pr;
    assert Transition(pr.build, pr.build) == Ok(Transitioned(pr.build, Some(job.id)));
    assert [] + [JobCancelled(job.id)] == [JobCancelled(job.id)];
  }

  /**
   * A PR without a build image cannot move to a new target that has none
   * either: NoImage accepts only Buildable, so the push raises, after the
   * status has been posted.
   */
  lemma NoImageRejectsAnotherNoImage(o: Oracle, pr: PR, push: FQSHA)
    requires pr.build.NoImage? && pr.target.ref == push.ref && push != pr.target
    requires !HasImage(o, pr.source, push)
    ensures UpdateFromGithubPush(o, pr, push).Err?
    ensures NotifyGithub(o, pr, NoImage(push.sha)).Ok? ==> UpdateFromGithubPush(o, pr, push) == Err(BadTransition)
  {
  }
}
