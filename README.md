# A verified model of the CI controller's core

The controller watches GitHub pull requests ("PRs") and a batch service. For every
open PR it keeps one record: the source commit, the target commit, the review
verdict and a build state. It starts build jobs, reports their outcome as a
GitHub commit status and merges approved PRs whose build succeeded. This
project models, in Dafny, the parts of the controller that decide things:

- `git_state.dfy` (module `GitState`): the identity values `Repo`, `FQRef` (a branch
  of a repository) and `FQSHA` (a commit on a branch). Equality, hashing and their
  JSON readers and writers are modelled field by field.
- `build_state.dfy` (module `BuildStates`): the nine build states, as one
  datatype. It holds each state's documented successors and the legality gate
  `transition`. `Transition` returns `Err(BadTransition)` or the new state, plus
  the job to cancel if any. It also holds the commit status each state is
  reported as, and the decoder of a state from GitHub's list of commit statuses.
- `pr.dfy` (module `Pulls`): the PR record and its copy-on-write updates,
  one per external fact (a push, a PR event, a review, a reported status, a
  batch job). Every change of build goes through `NewBuild`, which posts the
  status and applies the gate. The external collaborators form one `Oracle`
  value of functions:
  - resolving a build image;
  - creating a batch job;
  - the HTTP status of posting a commit status and of a merge request;
  - the state a merge leaves behind.
  An update returns the new PR and the list of `Effect`s it performed: jobs
  created, jobs cancelled, statuses posted, merges requested.
- `prs.dfy` (module `Registry`): the registry class `PRS`. It holds two
  nested dictionaries, target → source → PR and source → target → PR, which
  its methods update in place. Python dictionaries iterate in insertion
  order, and "the last" PR is chosen in that order. So the inner dictionary
  of each target is an `OrderedMap` (`ordered_maps.dfy`): a key sequence plus
  a map, where re-assigning a key keeps its position. The invariant `Valid`
  says the two views agree pair by pair. Every method keeps it.
  - The merge-or-build decision ("healing") is specified by pure functions
    over one target's entries: `HealTargetSpec`, `ToBuild`, `DeploySpec`
    and `Fold`.
  - The methods are proved to leave exactly what those functions compute.
- `ci.dfy` (module `Controller`): the decision logic of the web handlers:
  - which pushes reach the registry;
  - what a pull-request event does;
  - the deduplication of batch jobs under an abstract order `after`;
  - the reconciliation of the registry with GitHub's list of open PRs.

`wrappers.dfy` holds `Option`, `Result` and `Error`, with one constructor of
`Error` per kind of exception the code raises. `json.dfy` holds a small JSON
document type for the commit-status descriptions and the job attributes.

## Where the code is unfinished

The Python does not run as written. The model keeps its decisions and takes
the evident intent where the text is broken:

- Several `PR` methods lack `self`.
- `_maybe_new_shas` assigns to an undefined `result` and returns nothing.
  The model returns the updated PR, or the PR itself when no sha changed.
- `build` drops the result of `_new_build`, which it also calls without
  `self.` (ci/pr.py:222). The model returns that result.
- `_new_target` and `_new_source` call an undefined `maybe_build_image`
  whose result is unused. The model leaves the call out.
- `maybe_get_image` is called with its arguments swapped in
  `try_new_build` (ci/pr.py:10), and `try_new_build` is called with its
  arguments swapped in `refresh_from_batch_job` (ci/pr.py:331). The model
  uses (source, target) throughout.
- `update_from_completed_batch_job` compares an undefined `job_source_sha`
  (ci/pr.py:348). The model compares the job's source sha with the PR's.
- Several build states are constructed with too few arguments: `Building(job)`,
  `Buildable(img)`, `NoImage()`, `Deployable('NO SHAS YET')`,
  `Failure(exit_code)` and `Unknown.buildable`. The model uses the constructor
  shapes of ci/build_state.py. The missing target sha is the PR's current
  target sha, and `Failure` takes the job's image.
- `notify_github` stores the bound method `build.gh_state` without calling it.
  The model calls it, so reporting Unknown raises `NoGitHubState`.
- `PRS` calls `build_it`, `to_PR` and `merged`, which `PR` does not define.
  - `build_it` is `PR.build`.
  - `to_PR` gives a fresh PR; `pr_push` also starts its first build.
  - `merged` changes only the build, to the oracle's `mergedBuild`.
- `deploy` asks `put_repo` to accept 200 and 409 only. Any other response
  raises, modelled as `Err(MergeRejected(code))`.
- Failed `assert`s on arguments become `Err(AssertionFailed)`. A `KeyError` or
  failed `assert` while decoding a status becomes `Err(MalformedStatus)`.
- `Building.to_json` writes the job id under `"job"` (ci/build_state.py:263),
  but the decoder reads `"job_id"` (ci/build_state.py:39). The model keeps
  both as written. `BuildingDocumentDoesNotDecode` states the consequence:
  a Building status written by the controller cannot be read back.
- `github_push` checks the prefix `refs/heads` without the slash, then drops
  eleven characters (ci/ci.py:53-54). `SeparatorIsNotChecked` states this:
  whatever character follows the prefix is dropped.
- `notify_github` sets `target_url` from an undefined `url` (ci/pr.py:230).
  The model leaves the URL out. The code also posts `str(build)` as the
  description (ci/pr.py:227), not the build's `to_json`, so the controller's
  own statuses would decode to Unknown. A comment at ci/ci.py:179 says the
  document does not fit. The decoder is modelled on the documents it expects.
- The 422 branch of `notify_github` logs an undefined `source_sha`
  (ci/pr.py:241), so as written it raises NameError. The model takes the
  evident intent: a 422 answer is logged and the post counts as done.
- The wrong-target branch of `update_from_github_status` logs an undefined
  `target_sha` (ci/pr.py:319), so as written it raises NameError. The model
  takes the evident intent: the report is ignored and the PR is returned.
- `_new_source` has no comma between `source=new_source` and
  `review='pending'` (ci/pr.py:204-205), so ci/pr.py does not parse as written.
  The model passes both fields to `copy`.
- `GitHubPR` cannot be built as written: `__init__` lacks `self` and asserts
  an undefined `review` (ci/pr.py:101, 107), `from_gh_json` is a
  `@staticmethod` with a `self` parameter (ci/pr.py:114-115), and
  `github_pull_request` passes it an extra `target_sha` (ci/ci.py:72-73).
  The model takes a `GitHubPR` value with the five fields `__init__` stores.
- `_maybe_new_shas` takes `new_source` and `new_target` (ci/pr.py:166), but its
  callers pass `target=` (ci/pr.py:288) and `source=`, `target=`
  (ci/pr.py:294-297). The model passes them as the parameters they evidently
  mean.
- `gh_pr.target_ref` is read as an attribute (ci/prs.py:121, 127, 144, 149, 186, 192;
  ci/ci.py:78, 176), but `GitHubPR` defines no such attribute. The model gives
  `GitHubPR` a `TargetRef()`, the target's ref.
- `FQSHA.from_json` (ci/ci.py:115-116, 130-131; ci/pr.py:340-341) and
  `FQRef.from_json` (ci/ci.py:162-163) are called but not defined. The model's
  readers invert the layout that `to_json` writes.
- `FQRef.to_json` and `FQSHA.to_json` put the `Repo` and `FQRef` objects
  themselves in the dictionary (ci/git_state.py:51, 82), not their `to_json`.
  The model nests the documents.
- `Str` and `Int`, the decoder's field readers, raise when a field has the
  wrong JSON type. The Python would store whatever value it finds.
- `refresh_github_state` calls `refresh_pulls` once per watched repository,
  with that repository's pull requests only (ci/ci.py:170-177). `refresh_pulls`
  forgets every registered target that is not among them (ci/ci.py:188-190), so
  each call forgets the targets of the other repositories. `RefreshPulls` models
  one call as written.
- A batch report that a PR's own Building job is Created asks for that job to
  be cancelled (ci/pr.py:332-334 with ci/build_state.py:245-255): Building is
  replaced by an equal Building, which the gate treats as superseding it.
  `CreatedReportCancelsOwnJob` states this.
- The `type` attribute of build jobs, `BUILD_JOB_TYPE`, is imported from
  `real_constants` (ci/ci.py:19), which is not part of this model. Its value
  `"hail-ci-0-1-build"` is taken from ci/constants.py:4-5, and the commit-status
  context `"hail-ci-0-1"` from ci/constants.py:3.

## Model

| member | source | states |
|---|---|---|
| GitState.RepoEq | ci/git_state.py:8-9 | two repositories are equal exactly when owner and name are equal |
| GitState.RepoNe | ci/git_state.py:11-12 | `__ne__` is exactly the negation of equality |
| GitState.RefEq | ci/git_state.py:37-38 | two refs are equal exactly when repository and branch are equal |
| GitState.RefNe | ci/git_state.py:40-41 | `__ne__` is exactly the negation of equality |
| GitState.ShaEq | ci/git_state.py:62-63 | two commits are equal exactly when ref and sha are equal |
| GitState.ShaNe | ci/git_state.py:65-66 | `__ne__` is exactly the negation of equality |
| GitState.HashAgreesWithEquality | ci/git_state.py:68-69 | for all three types, equality holds exactly when the hashed tuples are equal; so equal values hash equally under any hash of the tuple |
| GitState.RepoFromGhJson | ci/git_state.py:26-28 | a repository is read exactly when `owner.login` and `name` are present; owner comes from `owner.login`, name from `name` |
| GitState.ShaFromGhJson | ci/git_state.py:71-75 | a commit is read exactly when the four fields are present; owner from `repo.owner.login`, name from `repo.name`, branch from `ref`, sha from `sha` |
| GitState.ShaFromJson | ci/ci.py:129-131 | the job-attribute reader gives a commit exactly when the four paths of `to_json`'s layout are strings, built from those four |
| GitState.RepoToJson | ci/git_state.py:20-24 | the document has exactly the keys `owner` and `name`, holding the repository's owner and name |
| GitState.RefToJson | ci/git_state.py:49-53 | the document has exactly the keys `repo` and `ref`; `repo` holds the repository's document and `ref` the branch |
| GitState.ShaToJson | ci/git_state.py:80-84 | the document has exactly the keys `ref` and `sha`; `ref` holds the ref's document and `sha` the commit |
| GitState.ShaJsonRoundTrip | ci/git_state.py:80-84 | reading back the document `to_json` writes gives the same commit |
| BuildStates.BuildState.MakeBuildable | ci/build_state.py:352-353 | Unknown's successor is Buildable with the given image and target sha |
| BuildStates.BuildState.StartBuilding | ci/build_state.py:287-288 | Buildable's successor is Building for the job, keeping image and target sha |
| BuildStates.BuildState.Succeeded | ci/build_state.py:236-237 | a successful build gives Deployable with the merged sha, keeping the target sha |
| BuildStates.BuildState.Failed | ci/build_state.py:239-240 | a failed build gives Failure with the exit code, keeping image and target sha |
| BuildStates.BuildState.LostMergeSha | ci/build_state.py:242-243 | a build without a merge sha gives NoMergeSHA with the exit code, keeping the target sha |
| BuildStates.BuildState.Retry | ci/build_state.py:164-165 | retrying a Failure gives Building for the new job, keeping image and target sha |
| BuildStates.BuildState.RetryWithImage | ci/build_state.py:200-201 | retrying after NoMergeSHA gives Building for the new job and image, keeping the target sha |
| BuildStates.BuildState.Deploy | ci/build_state.py:127-128 | deploying gives Deploying for the job, keeping merged and target sha |
| BuildStates.BuildState.MarkDeployed | ci/build_state.py:88-89 | Deploying's successor is Deployed with all three fields kept |
| BuildStates.Eq | ci/build_state.py:271-277 | the nine `__eq__` methods hold exactly when the two states are equal: same variant, equal fields |
| BuildStates.Transition | ci/build_state.py:245-255 | Deployed accepts nothing; Deploying accepts only Deployed; NoImage only Buildable; Building all but Deploying/Deployed; the other five variants accept anything. Every rejection is BadTransition. An accepted transition returns the proposed state. A cancellation is asked for exactly when Building is superseded by something other than Failure, Deployable or NoMergeSHA, and it names Building's job |
| BuildStates.SuccessorsAreLegal | ci/build_state.py:290-293 | every documented successor passes the gate unchanged and cancels nothing |
| BuildStates.DeployedIsTerminal | ci/build_state.py:54-55 | from Deployed, every non-empty sequence of proposed states is rejected |
| BuildStates.GhState | ci/build_state.py:366-367 | success for Deployed, Deploying and Deployable; pending for Building and Buildable; failure for Failure, NoMergeSHA and NoImage; Unknown raises NoGitHubState |
| BuildStates.Mine | ci/build_state.py:12 | the statuses with this controller's context, and only those; the first is the first such status in the list |
| BuildStates.Dispatch | ci/build_state.py:27-44 | a document without `type` raises; an unrecognised type gives Unknown; a decoded state's variant is the document's `type` |
| BuildStates.FromGhJson | ci/build_state.py:9-46 | no status of this context gives Unknown; a first status whose state is not pending, failure or success raises; a description without a parseable trailing document gives Unknown; otherwise the document's dispatch |
| BuildStates.ToJson | ci/build_state.py:60-365 | every state's document names its class under `type` and carries its target sha; Deployed and Deploying carry their job under `job_id`, Building carries its job under `job` and has no `job_id` |
| BuildStates.JsonRoundTrip | ci/build_state.py:27-41 | dispatch on the `to_json` document of Deployed, Deploying, Deployable, Failure, NoMergeSHA or Buildable gives back the same state |
| BuildStates.BuildingDocumentDoesNotDecode | ci/build_state.py:260-266 | the document written for a Building state raises when decoded |
| BuildStates.UnrecognisedDocumentsDecodeToUnknown | ci/build_state.py:42-44 | the documents of NoImage and Unknown decode to Unknown |
| BuildStates.StatusRoundTrip | ci/build_state.py:12-41 | a status list whose first status of this context has a description holding the state's `to_json` gives that state back, for every state except Building, NoImage and Unknown |
| Pulls.PR.IsMergeable | ci/pr.py:270-274 | a PR is mergeable when its build is Deployable and its review approved |
| Pulls.PR.IsApproved | ci/pr.py:276-277 | the review is approved |
| Pulls.PR.IsRunning | ci/pr.py:279-280 | the build is Building |
| Pulls.PR.IsPendingBuild | ci/pr.py:282-283 | the build is Buildable |
| Pulls.HasImage | ci/pr.py:63-64 | `if img:`: an image exists when the lookup gave one and it is not empty |
| Pulls.Copy | ci/pr.py:151-164 | each field passed replaces the PR's own; every other field is kept |
| Pulls.Fresh | ci/pr.py:247-255 | a fresh PR has the given commits, number and title, a pending review and an Unknown build |
| Pulls.TryNewBuild | ci/pr.py:9-59 | NoImage exactly when no image resolves or the image is empty; Buildable with the image exactly when job creation fails; Building for the created job otherwise; a job-created effect exactly for Building; the target sha is always the target's |
| Pulls.DetermineBuildability | ci/pr.py:61-66 | Buildable with the image exactly when a non-empty one resolves, else NoImage, always with the target's sha |
| Pulls.TryNewBuildExtendsBuildability | ci/pr.py:9-66 | `try_new_build` agrees with `determine_buildability`, except that a created job moves Buildable to its documented successor Building |
| Pulls.NotifyGithub | ci/pr.py:224-245 | an Unknown build raises; a post answered 201 or 422 succeeds with one posted status on the source sha; any other answer raises, carrying its code |
| Pulls.NewBuild | ci/pr.py:210-215 | succeeds exactly when the gate accepts and, when the build changed, the post succeeded; a failed post raises with the post's error, any other failure is BadTransition; a Deployed PR always raises; only the build changes; the effects are the status post (only on change) followed by the gate's cancellation |
| Pulls.Rebuild | ci/pr.py:222 | a new build tried on the PR's own commits: the created job's effect precedes the new build's effects; only the build changes |
| Pulls.Build | ci/pr.py:217-222 | only a Buildable or Failure PR may be rebuilt; any other raises AssertionFailed; the refs are kept |
| Pulls.Merged | ci/prs.py:216 | only the build changes, to the state the merge leaves behind |
| Pulls.NewTargetAndSource | ci/pr.py:184-191 | succeeds exactly when the gate accepts the new attempt and, on a change, its status is posted on the new source; both commits are replaced, the review reset and the build is the attempt's; the created job's effect is among the effects |
| Pulls.NewTarget | ci/pr.py:193-199 | succeeds exactly when the gate accepts the re-determined buildability and, on a change, its status is posted; only target and build change; no job is created |
| Pulls.NewSource | ci/pr.py:201-208 | succeeds exactly when the gate accepts the new attempt and, on a change, its status is posted; the source is replaced, the review reset and the build is the attempt's; the created job's effect is among the effects |
| Pulls.ToPR | ci/prs.py:122-124 | a fresh PR for GitHub's commits, with a pending review, its first build started only when asked |
| Pulls.MaybeNewShas | ci/pr.py:166-208 | a new source sha is a rebuild of the PR with both new commits and a pending review, succeeding exactly when the gate accepts the attempt and a changed build's status is posted; a new target alone is `NewBuild` of the re-determined buildability, with the review kept and no job created, succeeding under the same condition; no change returns the PR with no effects; only gate or post errors raise |
| Pulls.UpdateFromGithubPush | ci/pr.py:285-288 | a push to another branch raises; the current commit changes nothing; a new one is `NewBuild` of the re-determined buildability on the new target, succeeding exactly when the gate accepts and a changed build's status is posted, and creates no job |
| Pulls.UpdateFromGithubPr | ci/pr.py:290-304 | a report for other branches raises; otherwise the new commits are handled as by `_maybe_new_shas` and title and number are taken from GitHub |
| Pulls.UpdateFromGithubReviewState | ci/pr.py:306-309 | only the review changes |
| Pulls.UpdateFromGithubStatus | ci/pr.py:311-323 | a reported build is adopted only while the build is Unknown and the report is for the current target sha; otherwise the PR is unchanged; a report of Unknown raises when compared |
| Pulls.UpdateFromCompletedBatchJob | ci/pr.py:336-356 | a job for other branches raises; a job for an old target or source sha leaves the PR unchanged; exit code 0 makes the build Deployable and any other code a Failure carrying it |
| Pulls.RefreshFromBatchJob | ci/pr.py:325-334 | Complete handles the completed job; Cancelled starts a fresh build; Created makes the build Building for the job; any other state raises |
| Pulls.DeployedIsFixedPoint | ci/pr.py:210-215 | every update of a Deployed PR either raises or leaves its build as it was; a rebuild always raises |
| Pulls.PushIsIdempotent | ci/pr.py:285-288 | folding in the same push twice gives what folding it in once gave, with no further effects |
| Pulls.CompletedJobIsIdempotent | ci/pr.py:345-356 | folding in the same completed job twice gives what folding it in once gave, with no further effects |
| Pulls.CreatedReportCancelsOwnJob | ci/pr.py:332-334 | a Created report for the PR's own Building job leaves the PR as it is and cancels that job |
| Pulls.NoImageRejectsAnotherNoImage | ci/build_state.py:322-325 | a NoImage PR pushed to a new target that has no image raises, with BadTransition once the status was posted |
| OrderedMaps.OrderedMap.Set | ci/prs.py:22 | assigning a key stores the value; a new key goes last and an existing key keeps its position |
| OrderedMaps.RemoveKeepsOrder | ci/prs.py:44 | popping a key closes its gap: the other keys keep their order, and popping an absent key leaves the keys as they were |
| OrderedMaps.OrderedMap.Remove | ci/prs.py:44 | popping a key removes it and its value; every other key and value stays |
| Registry.Filter | ci/prs.py:88 | a comprehension keeps exactly the elements satisfying its condition |
| Registry.ReadyToMergeOf | ci/prs.py:71-72 | exactly the mergeable PRs |
| Registry.ToBuild | ci/prs.py:87-102 | only Buildable PRs of the target are picked |
| Registry.ToBuildWhileRunning | ci/prs.py:89-91 | while an approved PR is building, nothing is built |
| Registry.ToBuildLastApproved | ci/prs.py:93-97 | otherwise, when approved Buildable PRs exist, exactly the last of them is built |
| Registry.ToBuildAllPending | ci/prs.py:99-102 | otherwise every Buildable PR is built, in insertion order |
| Registry.FilterLast | ci/prs.py:82 | the last element of a comprehension is the last element of the list satisfying its condition |
| Registry.DeploySpec | ci/prs.py:203-223 | succeeds exactly on 200 or 409, with one merge request; 200 stores the merged PR, 409 forgets the pair; any other status raises MergeRejected |
| Registry.Fold | ci/prs.py:104-105 | succeeds exactly when every update does; then the entries still form a proper ordered map, keep every key, and hold every updated PR's source |
| Registry.HealTargetSpec | ci/prs.py:78-85 | succeeds exactly when the last mergeable PR's merge is answered 200 or 409, or, when none is mergeable, when every chosen rebuild succeeds; every PR other than the merged one stays registered |
| Registry.FoldReplaces | ci/prs.py:104-105 | updating distinct registered PRs in turn replaces exactly those, each by its own update, and keeps the order |
| Registry.HealTargetMergesOnlyTheLast | ci/prs.py:78-85 | when a PR is mergeable, healing requests exactly one merge, of the last mergeable PR, creates no job and keeps every other PR |
| Registry.HealTargetBuildsTheChosen | ci/prs.py:84-85 | when nothing is mergeable, healing rebuilds exactly the PRs `ToBuild` picks, each by its own `build`, and keeps every other PR and the order |
| Registry.BuildNextReplacesChosen | ci/prs.py:104-105 | `build_next`'s loop replaces each chosen PR by its own `build` and keeps the others |
| Registry.SetAgrees | ci/prs.py:14-23 | `_set` keeps the two views in agreement |
| Registry.PopAgrees | ci/prs.py:41-45 | `_pop` keeps the two views in agreement |
| Registry.ForgetTargetAgrees | ci/prs.py:129-134 | `forget_target` keeps the two views in agreement |
| Registry.RefreshJobSpec | ci/prs.py:167-182 | an unknown pair changes nothing; a stored PR for other commits raises AssertionFailed; otherwise it succeeds exactly when the PR's `refresh_from_batch_job` does, and the pair then holds that PR with its effects and the target keeps its sources; only the job's target changes, and the registry keeps its targets |
| Registry.PrPushSpec | ci/prs.py:119-127 | the PR's source is registered under its target afterwards; no other target changes |
| Registry.PrPushEntries | ci/prs.py:119-127 | the PR's source is added to the target's entries and stored with GitHub's source and target commits; every other source keeps its PR |
| Registry.PushSpec | ci/prs.py:107-117 | a target without PRs changes nothing; otherwise no other target changes and none is added |
| Registry.PushSpecPhases | ci/prs.py:113-117 | for a target with PRs, the push fails when a PR's push or the healing fails; otherwise the target's entries become what `HealTargetSpec` makes of the `Fold` of the push over its PRs, with the push effects followed by the healing effects |
| Registry.PRS.constructor | ci/prs.py:10-12 | the registry starts with both views empty |
| Registry.PRS.Entries | ci/prs.py:28-30 | a target's entries are a proper ordered map of PRs stored under their source; an unknown target has none |
| Registry.PRS.Get | ci/prs.py:36-39 | a PR is found exactly when the pair is in the source view; it is that view's PR, stored under its own refs |
| Registry.PRS.ForTarget | ci/prs.py:68-69 | exactly the stored PRs of the target |
| Registry.PRS.ReadyToMerge | ci/prs.py:71-72 | exactly the stored mergeable PRs of the target |
| Registry.PRS.Exists | ci/prs.py:56-60 | holds exactly when a stored PR is for both given commits |
| Registry.PRS.SetPair | ci/prs.py:14-23 | both views hold the PR under the pair; nothing else changes; the views still agree |
| Registry.PRS.Pop | ci/prs.py:41-45 | the pair leaves both views and its PR is returned; nothing else changes |
| Registry.PRS.Forget | ci/prs.py:136-139 | the pair leaves both views; nothing else changes |
| Registry.PRS.ForgetTarget | ci/prs.py:129-134 | every pair of the target leaves both views; nothing else changes |
| Registry.PRS.ApplyAll | ci/prs.py:104-105 | `_set(f(pr))` for each PR of the target in turn leaves what `Fold` computes, or raises when `Fold` does |
| Registry.PRS.BuildNext | ci/prs.py:87-105 | rebuilds the PRs `ToBuild` picks, as `Fold` over them computes |
| Registry.PRS.Deploy | ci/prs.py:203-223 | a 200 stores the merged PR, a 409 forgets the pair, both with one merge request; any other status raises and changes nothing |
| Registry.PRS.HealTarget | ci/prs.py:78-85 | the target's entries become what `HealTargetSpec` computes, with its effects |
| Registry.PRS.Heal | ci/prs.py:74-76 | every registered target ends as its own `HealTargetSpec` says, whatever the order; no target is added or removed |
| Registry.PRS.Push | ci/prs.py:107-117 | nothing changes for a target without PRs; otherwise the registry becomes what `PushSpec` computes |
| Registry.PRS.PushAndHeal | ci/prs.py:113-117 | each PR of the target takes the push in order, then the target is healed, as `PushSpec` says |
| Registry.PRS.PrPush | ci/prs.py:119-127 | an unknown pair is stored as a fresh PR with its first build started; a known one takes GitHub's report; on an error nothing changes |
| Registry.PRS.Review | ci/prs.py:141-150 | the pair's PR, fresh when unknown, is stored with the new review |
| Registry.PRS.BuildFinished | ci/prs.py:152-165 | an unknown pair changes nothing; otherwise the PR takes the completed job, then the target is healed |
| Registry.PRS.RefreshFromJob | ci/prs.py:167-182 | an unknown pair changes nothing; a stored PR for other commits raises and changes nothing; otherwise as `RefreshJobSpec` |
| Registry.PRS.RefreshFromGithubBuildStatus | ci/prs.py:184-193 | the pair's PR, fresh when unknown, is stored after taking the reported status; on an error nothing changes |
| Registry.PRS.Build | ci/prs.py:195-201 | an unknown pair raises NoSuchPR; otherwise the PR is rebuilt and stored; on an error nothing changes |
| Controller.PushedBranch | ci/ci.py:53-54 | a branch is named exactly when the ref starts with `refs/heads`; it is the ref from its twelfth character on |
| Controller.BranchPushNamesBranch | ci/ci.py:53-54 | `refs/heads/b` names branch `b` |
| Controller.TagPushNamesNoBranch | ci/ci.py:53 | a tag push names no branch |
| Controller.SeparatorIsNotChecked | ci/ci.py:53-54 | the character after `refs/heads` is dropped unchecked |
| Controller.GithubPush | ci/ci.py:50-62 | a branch push has the registry take the push of that branch; any other push changes nothing |
| Controller.PullRequestEvent | ci/ci.py:66-81 | opened and synchronize push the PR, and change nothing when the push raises; closed forgets the pair; any other action changes nothing |
| Controller.Considered | ci/ci.py:125-135 | the build jobs whose pair of commits the registry holds, in their order. It keeps a subsequence of the list |
| Controller.ConsideredCounts | ci/ci.py:125-135 | a build job of a registered pair is kept as often as it is listed; no other job is kept |
| Controller.DedupStep | ci/ci.py:138-153 | one turn of the loop: the job's pair is registered; it holds the new job or the one it held before; every other pair keeps its job; the cancellations already made stay, and exactly one job is either newly kept or newly cancelled |
| Controller.DedupOf | ci/ci.py:136-153 | the loop over the whole list: each kept job is stored under its own pair |
| Controller.DedupCount | ci/ci.py:136-153 | every job of the list is either kept or cancelled: the survivors and the cancellations together number the jobs |
| Controller.DedupTurn | ci/ci.py:138-153 | the loop body for one job does one `DedupStep` |
| Controller.DedupJobs | ci/ci.py:136-153 | the loop computes the deduplication of the jobs |
| Controller.DedupCorrect | ci/ci.py:136-153 | one job is kept per pair, the greatest under the order; exactly the other jobs are cancelled, each once |
| Controller.DedupKeepsLatestCancelsRest | ci/ci.py:143-153 | a kept job for every pair seen and none other; every job other than its pair's survivor is cancelled exactly once; no survivor is cancelled |
| Controller.RefreshEach | ci/ci.py:154-155 | `refresh_from_job` for each surviving pair in turn, stopping at the first that raises; the registry keeps its targets |
| Controller.CancelEffects | ci/ci.py:147-153 | one cancellation per cancelled id, in order |
| Controller.RefreshBatchState | ci/ci.py:123-156 | the cancellations, then `refresh_from_job` once per surviving pair, with its survivor, in first-seen order |
| Controller.ForgetClosedTargets | ci/ci.py:188-190 | the targets left are exactly those with an open PR; their entries are kept |
| Controller.PrPushKeepsOthers | ci/prs.py:119-127 | `pr_push` adds the PR's source to its target and leaves every other target alone |
| Controller.PushPullsSpec | ci/ci.py:192-193 | `pr_push` of each open PR in turn on one target's entries; the entries stay a proper ordered map |
| Controller.PushPullsRegisters | ci/ci.py:192-193 | the pushes register every open PR's source and keep every other PR of the target as it was |
| Controller.PushPullsTakesGitHubCommits | ci/ci.py:192-193 | a PR that no later PR of the list shares a source with is stored with exactly GitHub's source and target commits |
| Controller.PushPulls | ci/ci.py:191-193 | succeeds exactly when `PushPullsSpec` does, with its effects; the target's entries become what it computes; no other target changes |
| Controller.ForgetDeadSources | ci/ci.py:194-199 | the target's sources become exactly the open ones, each keeping its PR; no other target changes |
| Controller.RefreshTarget | ci/ci.py:191-199 | succeeds exactly when `PushPullsSpec` does, with its effects; the target then holds exactly its open PRs' sources, each PR as the pushes left it; no other target changes |
| Controller.RefreshOpenTargets | ci/ci.py:191-199 | each open target in GitHub's order is refreshed: on success each holds exactly its open PRs' sources as its pushes left them, and the effects are those of `RefreshEffects` |
| Controller.RefreshEffectsAgree | ci/ci.py:188-191 | forgetting closed targets does not change the effects of refreshing the open ones |
| Controller.RefreshPulls | ci/ci.py:187-200 | no target without an open PR is left; on success each open target holds exactly the sources of its open PRs, each PR as its target's pushes left it, and the effects are each open target's push effects, concatenated in GitHub's order of targets |

## Left out

- `maybe_get_image` (git clone, fetch, merge, file read) is the oracle's `image`.
  Job creation is the oracle's `createJob`. The job's command, environment and
  volumes are not modelled.
- HTTP is replaced by the oracle's status codes: `post_repo` in
  `notify_github`, `put_repo` in `deploy`, and `get_repo`, `get_reviews` and
  `open_pulls`. The merge itself is the oracle's `mergedBuild`.
- `try_to_cancel_job` and `job_ordering` come from `batch_helper`, which is
  not part of this model. A cancellation is an emitted `JobCancelled` effect;
  the order is a parameter `after`.
- `batch_client.get_job` in the decoder is not modelled: a Building state keeps
  the job id.
- The regular expression and `json.loads` of a status description are not
  modelled. The decoder takes the already-parsed trailing document, or None
  when there is none.
- Webhook payload parsing is not modelled: `request.json`, `GitHubPR.from_gh_json`
  and `FQRef.from_json`. The handlers take the parsed values.
- The Flask routes, `/status`, the error handler, the polling thread with its
  sleeps, logging and the GCS uploads of `receive_job` are I/O and concurrency.
  `receive_job` is `PRS.BuildFinished`. `force_retest` is `PRS.Build`. The
  `/heal` route is `PRS.Heal`.
- `ci/constants.py` reads the environment and builds clients; only its constants
  are modelled.
- `pull_request_review`, `refresh_reviews`, `overall_review_state` and
  `review_status` aggregate reviews fetched from GitHub, and that aggregation
  is not part of this model. A review verdict reaches the registry through
  `PRS.Review`.
- `refresh_statuses` is not modelled, because the code never calls it
  (ci/ci.py:179-180). The registry side is `PRS.RefreshFromGithubBuildStatus`.
- `to_json` of `PR`, `GitHubPR` and `PRS`, `__str__`, and the description
  text of a status are text formatting.
- Registry.PRS.Heal: the source visits the targets in the insertion order of
  its dictionary (ci/prs.py:62-63, 74-76). The model keeps the outer
  dictionary as a `map` and visits the targets in an order it does not fix.
  So its contract states the final registry, not the order of the effects.
- Registry.PRS.Heal, Registry.PRS.HealTarget, Registry.PRS.BuildNext,
  Registry.PRS.Push, Registry.PRS.PushAndHeal, Registry.PRS.BuildFinished,
  Registry.PRS.ApplyAll, Controller.GithubPush, Controller.RefreshBatchState,
  Controller.PushPulls, Controller.RefreshTarget, Controller.RefreshOpenTargets
  and Controller.RefreshPulls: when an update raises part-way, the contract states only that the views
  still agree. The updates already made are not stated. The effects already
  performed are not returned, because an `Err` carries no effects.
- Pulls.NewBuild: when the status is posted and the gate then rejects the
  build (ci/pr.py:211-214), the `Err` does not carry the posted status.
- Pulls.Rebuild: when a job is created and the following `NewBuild` raises
  (ci/pr.py:222), the `Err` does not carry the created job, which is left
  running.
- Registry.PRS.Deploy: when the merge is answered with a status other than 200
  or 409 (ci/prs.py:206-213), the `Err` does not carry the merge request
  already sent.
- OrderedMaps.OrderedMap.Remove: states which keys remain. Their order is
  stated by `RemoveKeepsOrder`.
- Controller.ForgetDeadSources, Controller.RefreshTarget and
  Controller.RefreshPulls: state which sources each open target keeps and
  their PRs, not the order of those sources. Each removal keeps the order, by
  `RemoveKeepsOrder`, but it is not carried through the loops.
- Controller.DedupCorrect and Controller.DedupKeepsLatestCancelsRest need the
  considered jobs to have distinct ids, and `after` to be a strict total order
  on them. `job_ordering` is not part of this model.
