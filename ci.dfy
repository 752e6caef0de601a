/**
 * The controller's decisions on top of the registry: which pushes reach it,
 * what a pull-request event does, how the batch service's jobs are
 * reconciled with the registry, and how the registry is brought in line with
 * GitHub's list of open pull requests.
 */
module Controller {
  import opened Wrappers
  import opened OrderedMaps
  import opened GitState
  import opened BuildStates
  import opened Pulls
  import opened Registry

  /** The `type` attribute of the build jobs the controller itself creates. */
  const BUILD_JOB_TYPE: string := "hail-ci-0-1-build"

  /** The prefix a push's ref must start with to be a branch push. */
  const HEADS: string := "refs/heads"

  // ---------------------------------------------------------------- push events

  /**
   * The branch a push event moved: a ref that starts with `refs/heads` names
   * the branch from its twelfth character on (`ref[11:]`, empty when the ref
   * is shorter); any other ref names none.
   */
  function PushedBranch(ref: string): (r: Option<string>)
    ensures r.Some? <==> |ref| >= |HEADS| && ref[..|HEADS|] == HEADS
    ensures r.Some? && |ref| >= 11 ==> ref == ref[..11] + r.value
    ensures r.Some? && |ref| < 11 ==> r.value == ""
  {
    if |ref| >= |HEADS| && ref[..|HEADS|] == HEADS then
      Some(if |ref| >= 11 then ref[11..] else "")
    else None
  }

  /** A push to branch `b` is reported as `refs/heads/b`, and names `b`. */
  lemma BranchPushNamesBranch(b: string)
    ensures PushedBranch("refs/heads/" + b) == Some(b)
  {
    var ref := "refs/heads/" + b;
    assert ref[..|HEADS|] == HEADS;
    assert ref[11..] == b;
  }

  /** A tag push names no branch. */
  lemma TagPushNamesNoBranch(b: string)
    ensures PushedBranch("refs/tags/" + b) == None
  {
    assert ("refs/tags/" + b)[5] == 't';
  }

  /**
   * Only `refs/heads` is checked, not the slash after it: the character
   * after the prefix is dropped, whatever it is.
   */
  lemma SeparatorIsNotChecked(c: char, b: string)
    ensures PushedBranch(HEADS + [c] + b) == Some(b)
  {
    var ref := HEADS + [c] + b;
    assert ref[..|HEADS|] == HEADS;
    assert ref[11..] == b;
  }

  /**
   * `github_push`: a branch push moves that branch of `repository` to commit
   * `after`, and the registry takes it; any other push changes nothing.
   */
  method GithubPush(prs: PRS, o: Oracle, ref: string, repository: Repo, after: string) returns (r: Result<seq<Effect>>)
    requires prs.Valid()
    modifies prs
    ensures prs.Valid()
    ensures PushedBranch(ref).None? ==> r == Ok([]) && prs.tsp == old(prs.tsp) && prs.stp == old(prs.stp)
    ensures PushedBranch(ref).Some? ==>
      var spec := PushSpec(o, old(prs.tsp), FQSHA(FQRef(repository, PushedBranch(ref).value), after));
      (r.Ok? <==> spec.Ok?) && (r.Ok? ==> r.value == spec.value.1 && prs.tsp == spec.value.0)
  {
    var branch := PushedBranch(ref);
    if branch.None? {
      return Ok([]);
    }
    r := prs.Push(o, FQSHA(FQRef(repository, branch.value), after));
  }

  // ---------------------------------------------------------------- pull request events

  /**
   * `github_pull_request`: an opened or synchronized pull request is pushed
   * to the registry, a closed one is forgotten, and any other action changes
   * nothing.
   */
  method PullRequestEvent(prs: PRS, o: Oracle, action: string, gh: GitHubPR) returns (r: Result<seq<Effect>>)
    requires prs.Valid()
    modifies prs
    ensures prs.Valid()
    ensures action == "opened" || action == "synchronize" ==>
      var spec := PrPushSpec(o, old(prs.tsp), gh);
      && (r.Ok? <==> spec.Ok?) && (r.Ok? ==> r.value == spec.value.1 && prs.tsp == spec.value.0)
      && (r.Err? ==> prs.tsp == old(prs.tsp) && prs.stp == old(prs.stp))
    ensures action == "closed" ==>
      r == Ok([]) && prs.tsp == PopTargets(old(prs.tsp), gh.source.ref, gh.TargetRef())
    ensures action != "opened" && action != "synchronize" && action != "closed" ==>
      r == Ok([]) && prs.tsp == old(prs.tsp) && prs.stp == old(prs.stp)
  {
    if action == "opened" || action == "synchronize" {
      r := prs.PrPush(o, gh);
    } else if action == "closed" {
      prs.Forget(gh.source.ref, gh.TargetRef());
      r := Ok([]);
    } else {
      r := Ok([]);
    }
  }

  // ---------------------------------------------------------------- batch state

  type JobKey = (FQSHA, FQSHA)

  /** The pair of commits a job was built for. */
  function Key(j: Job): JobKey {
    (j.source, j.target)
  }

  /**
   * The jobs `refresh_batch_state` looks at, in the batch service's order:
   * build jobs for a pair of commits the registry holds.
   */
  function Considered(prs: PRS, jobs: seq<Job>): (r: seq<Job>)
    reads prs
    requires prs.Valid()
    ensures forall j :: j in r <==> j in jobs && j.jobType == Some(BUILD_JOB_TYPE) && prs.Exists(j.source, j.target)
    ensures IsSubsequence(r, jobs)
  {
    if jobs == [] then []
    else
      var rest := Considered(prs, jobs[1..]);
      assert forall j :: j in jobs <==> j == jobs[0] || j in jobs[1..];
      if jobs[0].jobType == Some(BUILD_JOB_TYPE) && prs.Exists(jobs[0].source, jobs[0].target) then
        assert ([jobs[0]] + rest)[1..] == rest;
        [jobs[0]] + rest
      else rest
  }

  /** A considered job is there as often as in the batch service's list; any other job is not there. */
  lemma {:induction false} ConsideredCounts(prs: PRS, jobs: seq<Job>)
    requires prs.Valid()
    ensures forall j ::
              multiset(Considered(prs, jobs))[j] ==
              (if j.jobType == Some(BUILD_JOB_TYPE) && prs.Exists(j.source, j.target) then multiset(jobs)[j] else 0)
  {
    if jobs != [] {
      ConsideredCounts(prs, jobs[1..]);
      assert jobs == [jobs[0]] + jobs[1..];
    }
  }

  /** `sub` is `s` with some of its elements left out, the others in their order. */
  ghost predicate IsSubsequence(sub: seq<Job>, s: seq<Job>)
    decreases |s|
  {
    if sub == [] then true
    else if s == [] then false
    else (sub[0] == s[0] && IsSubsequence(sub[1..], s[1..])) || IsSubsequence(sub, s[1..])
  }

  /** `latest_jobs` and the ids cancelled so far. */
  datatype Survivors = Survivors(latest: OrderedMap<JobKey, Job>, cancelled: seq<JobId>)

  /**
   * One turn of the deduplication loop: a job for a new pair is kept; a job
   * `after` the one kept for its pair replaces it and cancels it; any other
   * job is cancelled.
   */
  function DedupStep(acc: Survivors, j: Job, after: (Job, Job) -> bool): (r: Survivors)
    requires acc.latest.Valid()
    ensures r.latest.Valid()
    ensures r.latest.items.Keys == acc.latest.items.Keys + {Key(j)}
    ensures r.latest.items[Key(j)] == j || (Key(j) in acc.latest.items && r.latest.items[Key(j)] == acc.latest.items[Key(j)])
    ensures forall k | k in acc.latest.items && k != Key(j) :: r.latest.items[k] == acc.latest.items[k]
    ensures |acc.cancelled| <= |r.cancelled| && r.cancelled[..|acc.cancelled|] == acc.cancelled
    ensures |r.latest.keys| + |r.cancelled| == |acc.latest.keys| + |acc.cancelled| + 1
  {
    match acc.latest.Get(Key(j))
    case None => Survivors(acc.latest.Set(Key(j), j), acc.cancelled)
    case Some(kept) =>
      if after(j, kept) then Survivors(acc.latest.Set(Key(j), j), acc.cancelled + [kept.id])
      else Survivors(acc.latest, acc.cancelled + [j.id])
  }

  /** The deduplication loop run over `jobs`, from an empty `latest_jobs`. */
  function DedupOf(jobs: seq<Job>, after: (Job, Job) -> bool): (r: Survivors)
    ensures r.latest.Valid()
    ensures forall k | k in r.latest.items :: Key(r.latest.items[k]) == k
    decreases |jobs|
  {
    if jobs == [] then Survivors(Empty(), [])
    else DedupStep(DedupOf(jobs[..|jobs| - 1], after), jobs[|jobs| - 1], after)
  }

  /** Every job of the list is either kept in `latest_jobs` or cancelled, never both. */
  lemma {:induction false} DedupCount(jobs: seq<Job>, after: (Job, Job) -> bool)
    ensures |DedupOf(jobs, after).latest.keys| + |DedupOf(jobs, after).cancelled| == |jobs|
    decreases |jobs|
  {
    if jobs != [] {
      DedupCount(jobs[..|jobs| - 1], after);
    }
  }

  /** Running the loop over one more job is one more `DedupStep`. */
  lemma DedupOfPrefix(jobs: seq<Job>, i: nat, after: (Job, Job) -> bool)
    requires i < |jobs|
    ensures DedupOf(jobs[..i + 1], after) == DedupStep(DedupOf(jobs[..i], after), jobs[i], after)
  {
    assert jobs[..i + 1][..i] == jobs[..i];
  }

  /** The body of the deduplication loop, for one job. */
  method DedupTurn(latest: OrderedMap<JobKey, Job>, cancelled: seq<JobId>, job: Job, after: (Job, Job) -> bool)
    returns (latest': OrderedMap<JobKey, Job>, cancelled': seq<JobId>)
    requires latest.Valid()
    ensures Survivors(latest', cancelled') == DedupStep(Survivors(latest, cancelled), job, after)
  {
    var key := (job.source, job.target);
    var kept := latest.Get(key);
    latest', cancelled' := latest, cancelled;
    if kept.None? {
      latest' := latest.Set(key, job);
    } else if after(job, kept.value) {
      cancelled' := cancelled + [kept.value.id];
      latest' := latest.Set(key, job);
    } else {
      cancelled' := cancelled + [job.id];
    }
  }

  /** The deduplication loop of `refresh_batch_state`. */
  method DedupJobs(jobs: seq<Job>, after: (Job, Job) -> bool) returns (latest: OrderedMap<JobKey, Job>, cancelled: seq<JobId>)
    ensures Survivors(latest, cancelled) == DedupOf(jobs, after)
  {
    latest := Empty();
    cancelled := [];
    var i := 0;
    while i < |jobs|
      invariant 0 <= i <= |jobs|
      invariant Survivors(latest, cancelled) == DedupOf(jobs[..i], after)
    {
      DedupOfPrefix(jobs, i, after);
      latest, cancelled := DedupTurn(latest, cancelled, jobs[i], after);
      i := i + 1;
    }
    assert jobs[..i] == jobs;
  }

  /** The batch service lists each job once: no two entries share an id. */
  ghost predicate IdsDistinct(jobs: seq<Job>) {
    forall i, k | 0 <= i < k < |jobs| :: jobs[i].id != jobs[k].id
  }

  /** `job_ordering(a, b) > 0`, read as `after(a, b)`, is a strict total order on the jobs. */
  ghost predicate StrictTotalOrder(after: (Job, Job) -> bool, jobs: seq<Job>) {
    && (forall a | a in jobs :: !after(a, a))
    && (forall a, b | a in jobs && b in jobs && a != b :: after(a, b) || after(b, a))
    && (forall a, b, c | a in jobs && b in jobs && c in jobs && after(a, b) && after(b, c) :: after(a, c))
  }

  function Ids(jobs: seq<Job>): set<JobId> {
    set j | j in jobs :: j.id
  }

  /**
   * What the loop keeps true after it has seen `seen`: one job per pair
   * seen, itself seen and for that pair, and after every other job for it;
   * the cancelled ids are distinct ids of seen jobs, and a seen job is
   * cancelled exactly when it is not the one kept for its pair.
   */
  ghost predicate Deduplicated(acc: Survivors, seen: seq<Job>, after: (Job, Job) -> bool) {
    KeptLatest(acc.latest, seen, after) && CancelledOthers(acc, seen)
  }

  ghost predicate KeptLatest(latest: OrderedMap<JobKey, Job>, seen: seq<Job>, after: (Job, Job) -> bool) {
    && latest.Valid()
    && (forall j | j in seen :: Key(j) in latest.items)
    && (forall k | k in latest.items :: latest.items[k] in seen && Key(latest.items[k]) == k)
    && (forall j | j in seen :: j == latest.items[Key(j)] || after(latest.items[Key(j)], j))
  }

  ghost predicate CancelledOthers(acc: Survivors, seen: seq<Job>) {
    && (forall j | j in seen :: Key(j) in acc.latest.items && (j.id in acc.cancelled <==> j != acc.latest.items[Key(j)]))
    && Distinct(acc.cancelled)
    && (forall x | x in acc.cancelled :: x in Ids(seen))
  }

  lemma IdsOfLast(seen: seq<Job>, j: Job)
    requires IdsDistinct(seen + [j])
    ensures j.id !in Ids(seen)
    ensures j !in seen
    ensures forall a, b | a in seen && b in seen && a.id == b.id :: a == b
  {
    var all := seen + [j];
    forall a | a in seen ensures a.id != j.id {
      var i :| 0 <= i < |seen| && seen[i] == a;
      assert all[i] == a && all[|seen|] == j;
    }
    forall a, b | a in seen && b in seen && a.id == b.id ensures a == b {
      var i :| 0 <= i < |seen| && seen[i] == a;
      var k :| 0 <= k < |seen| && seen[k] == b;
      assert all[i] == a && all[k] == b;
    }
  }

  /** A job for a pair not seen before is kept. */
  lemma DedupStepNew(acc: Survivors, seen: seq<Job>, j: Job, after: (Job, Job) -> bool)
    requires Deduplicated(acc, seen, after)
    requires IdsDistinct(seen + [j])
    requires Key(j) !in acc.latest.items
    ensures Deduplicated(DedupStep(acc, j, after), seen + [j], after)
  {
    IdsOfLast(seen, j);
    var latest := acc.latest.Set(Key(j), j);
    assert DedupStep(acc, j, after) == Survivors(latest, acc.cancelled);
    NewKeepsLatest(acc.latest, seen, j, after);
    NewCancelsNothing(acc, latest, seen, j);
  }

  lemma NewKeepsLatest(latest: OrderedMap<JobKey, Job>, seen: seq<Job>, j: Job, after: (Job, Job) -> bool)
    requires KeptLatest(latest, seen, after)
    requires Key(j) !in latest.items
    ensures KeptLatest(latest.Set(Key(j), j), seen + [j], after)
  {
    var latest' := latest.Set(Key(j), j);
    forall x | x in seen + [j] ensures Key(x) in latest'.items && (x == latest'.items[Key(x)] || after(latest'.items[Key(x)], x)) {
      if x != j {
        assert x in seen && Key(x) != Key(j);
      }
    }
  }

  lemma NewCancelsNothing(acc: Survivors, latest': OrderedMap<JobKey, Job>, seen: seq<Job>, j: Job)
    requires acc.latest.Valid() && CancelledOthers(acc, seen)
    requires Key(j) !in acc.latest.items && latest' == acc.latest.Set(Key(j), j)
    requires j.id !in Ids(seen)
    ensures CancelledOthers(Survivors(latest', acc.cancelled), seen + [j])
  {
    forall x | x in seen + [j]
      ensures Key(x) in latest'.items && (x.id in acc.cancelled <==> x != latest'.items[Key(x)])
    {
      if x != j {
        assert x in seen && Key(x) != Key(j);
      } else {
        assert j.id !in acc.cancelled;
      }
    }
    forall x | x in acc.cancelled ensures x in Ids(seen + [j]) {
      var y :| y in seen && y.id == x;
      assert y in seen + [j];
    }
  }

  /** A job after the kept one replaces it, and the kept one is cancelled. */
  lemma DedupStepReplace(acc: Survivors, seen: seq<Job>, j: Job, after: (Job, Job) -> bool)
    requires Deduplicated(acc, seen, after)
    requires IdsDistinct(seen + [j]) && StrictTotalOrder(after, seen + [j])
    requires Key(j) in acc.latest.items && after(j, acc.latest.items[Key(j)])
    ensures Deduplicated(DedupStep(acc, j, after), seen + [j], after)
  {
    IdsOfLast(seen, j);
    var kept := acc.latest.items[Key(j)];
    assert DedupStep(acc, j, after) == Survivors(acc.latest.Set(Key(j), j), acc.cancelled + [kept.id]);
    ReplaceKeepsLatest(acc.latest, seen, j, after);
    ReplaceCancelsKept(acc, seen, j, kept);
  }

  lemma ReplaceKeepsLatest(latest: OrderedMap<JobKey, Job>, seen: seq<Job>, j: Job, after: (Job, Job) -> bool)
    requires KeptLatest(latest, seen, after)
    requires StrictTotalOrder(after, seen + [j])
    requires Key(j) in latest.items && after(j, latest.items[Key(j)])
    ensures KeptLatest(latest.Set(Key(j), j), seen + [j], after)
  {
    var kept := latest.items[Key(j)];
    var latest' := latest.Set(Key(j), j);
    assert latest'.items == latest.items[Key(j) := j];
    assert kept in seen;
    forall x | x in seen + [j] ensures x in seen || x == j { }
    forall x | x in seen && Key(x) == Key(j) ensures after(j, x) {
      assert x == kept || after(kept, x);
    }
  }

  lemma ReplaceCancelsKept(acc: Survivors, seen: seq<Job>, j: Job, kept: Job)
    requires CancelledOthers(acc, seen)
    requires acc.latest.Valid()
    requires Key(j) in acc.latest.items && kept == acc.latest.items[Key(j)] && kept in seen && Key(kept) == Key(j)
    requires j.id !in Ids(seen) && j !in seen
    requires forall a, b | a in seen && b in seen && a.id == b.id :: a == b
    ensures CancelledOthers(Survivors(acc.latest.Set(Key(j), j), acc.cancelled + [kept.id]), seen + [j])
  {
    var acc' := Survivors(acc.latest.Set(Key(j), j), acc.cancelled + [kept.id]);
    assert acc'.latest.items == acc.latest.items[Key(j) := j];
    forall x | x in seen + [j] ensures x in seen || x == j { }
    forall x | x in seen ensures x.id in acc'.cancelled <==> x != acc'.latest.items[Key(x)] {
      if Key(x) == Key(j) {
        assert x.id == kept.id <==> x == kept;
      }
    }
    assert Distinct(acc'.cancelled) by {
      assert kept.id !in acc.cancelled;
    }
    assert kept.id in Ids(seen);
    assert forall x | x in acc'.cancelled :: x in acc.cancelled || x == kept.id;
  }

  /** Any other job is cancelled, and the kept one stays. */
  lemma DedupStepCancel(acc: Survivors, seen: seq<Job>, j: Job, after: (Job, Job) -> bool)
    requires Deduplicated(acc, seen, after)
    requires IdsDistinct(seen + [j]) && StrictTotalOrder(after, seen + [j])
    requires Key(j) in acc.latest.items && !after(j, acc.latest.items[Key(j)])
    ensures Deduplicated(DedupStep(acc, j, after), seen + [j], after)
  {
    IdsOfLast(seen, j);
    var kept := acc.latest.items[Key(j)];
    var acc' := DedupStep(acc, j, after);
    assert acc'.latest == acc.latest;
    assert acc'.cancelled == acc.cancelled + [j.id];
    assert kept in seen && kept != j;
    assert after(kept, j);
    forall x | x in seen + [j] ensures x in seen || x == j { }
    assert Distinct(acc'.cancelled) by {
      assert j.id !in acc.cancelled;
    }
    assert forall x | x in acc'.cancelled :: x in acc.cancelled || x == j.id;
  }

  lemma OrderOnPrefix(after: (Job, Job) -> bool, jobs: seq<Job>, n: nat)
    requires n <= |jobs|
    requires IdsDistinct(jobs) && StrictTotalOrder(after, jobs)
    ensures IdsDistinct(jobs[..n]) && StrictTotalOrder(after, jobs[..n])
  {
    assert forall a | a in jobs[..n] :: a in jobs;
  }

  /**
   * The loop's result: for each pair among the jobs, the job kept is the
   * greatest for that pair under the order, and exactly the others are
   * cancelled, each once.
   */
  lemma {:induction false} DedupCorrect(jobs: seq<Job>, after: (Job, Job) -> bool)
    requires IdsDistinct(jobs) && StrictTotalOrder(after, jobs)
    ensures Deduplicated(DedupOf(jobs, after), jobs, after)
    decreases |jobs|
  {
    if jobs != [] {
      var n := |jobs| - 1;
      var seen := jobs[..n];
      OrderOnPrefix(after, jobs, n);
      DedupCorrect(seen, after);
      var acc := DedupOf(seen, after);
      assert seen + [jobs[n]] == jobs;
      if Key(jobs[n]) !in acc.latest.items {
        DedupStepNew(acc, seen, jobs[n], after);
      } else if after(jobs[n], acc.latest.items[Key(jobs[n])]) {
        DedupStepReplace(acc, seen, jobs[n], after);
      } else {
        DedupStepCancel(acc, seen, jobs[n], after);
      }
    }
  }

  lemma {:induction false} DistinctCount(s: seq<JobId>, x: JobId)
    requires Distinct(s)
    ensures multiset(s)[x] == if x in s then 1 else 0
  {
    if s != [] {
      assert s == [s[0]] + s[1..];
      assert Distinct(s[1..]) by {
        forall i, k | 0 <= i < k < |s[1..]| ensures s[1..][i] != s[1..][k] {
          assert s[1..][i] == s[i + 1] && s[1..][k] == s[k + 1];
        }
      }
      assert s[0] !in s[1..] by {
        forall i | 0 <= i < |s[1..]| ensures s[1..][i] != s[0] {
          assert s[1..][i] == s[i + 1];
        }
      }
      DistinctCount(s[1..], x);
    }
  }

  /**
   * The deduplication loop's promise: one job kept per
   * pair, the greatest for its pair; every other job cancelled exactly
   * once; no kept job cancelled.
   */
  lemma DedupKeepsLatestCancelsRest(jobs: seq<Job>, after: (Job, Job) -> bool)
    requires IdsDistinct(jobs) && StrictTotalOrder(after, jobs)
    ensures forall k :: k in DedupOf(jobs, after).latest.items <==> exists j | j in jobs :: Key(j) == k
    ensures forall j | j in jobs ::
      && DedupOf(jobs, after).latest.items[Key(j)] in jobs
      && Key(DedupOf(jobs, after).latest.items[Key(j)]) == Key(j)
      && (j == DedupOf(jobs, after).latest.items[Key(j)] || after(DedupOf(jobs, after).latest.items[Key(j)], j))
    ensures forall j | j in jobs ::
      multiset(DedupOf(jobs, after).cancelled)[j.id] == if j == DedupOf(jobs, after).latest.items[Key(j)] then 0 else 1
    ensures forall x | x in DedupOf(jobs, after).cancelled :: x in Ids(jobs)
  {
    DedupCorrect(jobs, after);
    var d := DedupOf(jobs, after);
    forall k | k in d.latest.items ensures exists j | j in jobs :: Key(j) == k {
      assert d.latest.items[k] in jobs;
    }
    forall j | j in jobs
      ensures multiset(d.cancelled)[j.id] == if j == d.latest.items[Key(j)] then 0 else 1
    {
      DistinctCount(d.cancelled, j.id);
    }
  }

  lemma IdsDistinctTail(s: seq<Job>)
    requires s != [] && IdsDistinct(s)
    ensures IdsDistinct(s[1..]) && s[0].id !in Ids(s[1..])
  {
    forall i, k | 0 <= i < k < |s[1..]| ensures s[1..][i].id != s[1..][k].id {
      assert s[1..][i] == s[i + 1] && s[1..][k] == s[k + 1];
    }
    forall x | x in s[1..] ensures x.id != s[0].id {
      var i :| 0 <= i < |s[1..]| && s[1..][i] == x;
      assert s[i + 1] == x;
    }
  }

  lemma IdsDistinctCons(x: Job, s: seq<Job>)
    requires IdsDistinct(s) && x.id !in Ids(s)
    ensures IdsDistinct([x] + s)
  {
    var r := [x] + s;
    forall i, k | 0 <= i < k < |r| ensures r[i].id != r[k].id {
      assert r[k] == s[k - 1] && r[k] in s;
      if i > 0 {
        assert r[i] == s[i - 1];
      }
    }
  }

  /** The considered jobs inherit the batch service's distinct ids. */
  lemma {:induction false} ConsideredIdsDistinct(prs: PRS, jobs: seq<Job>)
    requires prs.Valid()
    requires IdsDistinct(jobs)
    ensures IdsDistinct(Considered(prs, jobs))
    decreases |jobs|
  {
    if jobs != [] {
      IdsDistinctTail(jobs);
      ConsideredIdsDistinct(prs, jobs[1..]);
      var rest := Considered(prs, jobs[1..]);
      assert Ids(rest) <= Ids(jobs[1..]) by {
        forall y | y in rest ensures y in jobs[1..] { }
      }
      if jobs[0].jobType == Some(BUILD_JOB_TYPE) && prs.Exists(jobs[0].source, jobs[0].target) {
        IdsDistinctCons(jobs[0], rest);
      }
    }
  }

  /** `try_to_cancel_job` for each id, in order. */
  function CancelEffects(ids: seq<JobId>): (r: seq<Effect>)
    ensures |r| == |ids|
    ensures forall i | 0 <= i < |ids| :: r[i] == JobCancelled(ids[i])
  {
    seq(|ids|, i requires 0 <= i < |ids| => JobCancelled(ids[i]))
  }

  /**
   * `refresh_from_job` for each key in turn, with the job kept for it,
   * stopping at the first that raises.
   */
  function RefreshEach(o: Oracle, tsp: TargetView, keys: seq<JobKey>, latest: map<JobKey, Job>): (r: Result<(TargetView, seq<Effect>)>)
    requires WellFormed(tsp)
    requires forall k | k in keys :: k in latest
    ensures r.Ok? ==> WellFormed(r.value.0)
    ensures r.Ok? ==> r.value.0.Keys == tsp.Keys
    decreases |keys|
  {
    if keys == [] then Ok((tsp, []))
    else
      var n := |keys| - 1;
      var done :- RefreshEach(o, tsp, keys[..n], latest);
      var last :- RefreshJobSpec(o, done.0, keys[n].0, keys[n].1, latest[keys[n]]);
      Ok((last.0, done.1 + last.1))
  }

  /** Once a refresh raises, the whole of RefreshEach raises. */
  lemma {:induction false} RefreshEachStops(o: Oracle, tsp: TargetView, keys: seq<JobKey>, latest: map<JobKey, Job>, n: nat)
    requires WellFormed(tsp)
    requires forall k | k in keys :: k in latest
    requires n <= |keys|
    requires RefreshEach(o, tsp, keys[..n], latest).Err?
    ensures RefreshEach(o, tsp, keys, latest).Err?
    decreases |keys| - n
  {
    if n < |keys| {
      assert keys[..n + 1][..n] == keys[..n];
      RefreshEachStops(o, tsp, keys, latest, n + 1);
    } else {
      assert keys[..n] == keys;
    }
  }

  /** RefreshEach over one more key. */
  lemma RefreshEachStep(o: Oracle, tsp: TargetView, keys: seq<JobKey>, latest: map<JobKey, Job>, n: nat,
                        mid: TargetView, effects: seq<Effect>)
    requires WellFormed(tsp)
    requires forall k | k in keys :: k in latest
    requires n < |keys|
    requires RefreshEach(o, tsp, keys[..n], latest) == Ok((mid, effects))
    ensures WellFormed(mid)
    ensures RefreshJobSpec(o, mid, keys[n].0, keys[n].1, latest[keys[n]]).Err? ==>
      RefreshEach(o, tsp, keys[..n + 1], latest).Err?
    ensures RefreshJobSpec(o, mid, keys[n].0, keys[n].1, latest[keys[n]]).Ok? ==>
      RefreshEach(o, tsp, keys[..n + 1], latest)
      == Ok((RefreshJobSpec(o, mid, keys[n].0, keys[n].1, latest[keys[n]]).value.0,
             effects + RefreshJobSpec(o, mid, keys[n].0, keys[n].1, latest[keys[n]]).value.1))
  {
    assert keys[..n + 1][..n] == keys[..n];
    assert keys[..n + 1][n] == keys[n];
  }

  /**
   * `refresh_batch_state`: keep the greatest build job per pair of commits
   * the registry holds, cancel the others, then refresh each surviving pair
   * from its job, in the order the pairs were first seen.
   */
  method RefreshBatchState(prs: PRS, o: Oracle, jobs: seq<Job>, after: (Job, Job) -> bool) returns (r: Result<seq<Effect>>)
    requires prs.Valid()
    modifies prs
    ensures prs.Valid()
    ensures var d := DedupOf(old(Considered(prs, jobs)), after);
            var spec := RefreshEach(o, old(prs.tsp), d.latest.keys, d.latest.items);
            && (r.Ok? <==> spec.Ok?)
            && (r.Ok? ==> prs.tsp == spec.value.0 && r.value == CancelEffects(d.cancelled) + spec.value.1)
  {
    var considered := Considered(prs, jobs);
    var latest, cancelled := DedupJobs(considered, after);
    var keys := latest.keys;
    ghost var start := prs.tsp;
    var refreshed := [];
    var i := 0;
    while i < |keys|
      invariant 0 <= i <= |keys|
      invariant prs.Valid()
      invariant RefreshEach(o, start, keys[..i], latest.items) == Ok((prs.tsp, refreshed))
    {
      var key := keys[i];
      RefreshEachStep(o, start, keys, latest.items, i, prs.tsp, refreshed);
      var step := prs.RefreshFromJob(o, key.0, key.1, latest.items[key]);
      if step.Err? {
        RefreshEachStops(o, start, keys, latest.items, i + 1);
        return Err(step.error);
      }
      refreshed := refreshed + step.value;
      i := i + 1;
    }
    assert keys[..i] == keys;
    return Ok(CancelEffects(cancelled) + refreshed);
  }

  // ---------------------------------------------------------------- open pull requests

  /** The source branches of a target's open pull requests. */
  function PulledSources(pulls: seq<GitHubPR>): set<FQRef> {
    set gh | gh in pulls :: gh.source.ref
  }

  /** The source refs of a target's PRs are its keys. */
  lemma SourcesOfValues(m: Entries)
    requires m.Valid() && Keyed(m)
    ensures (set p | p in m.Values() :: p.source.ref) == m.items.Keys
  {
    var vs := m.Values();
    forall s | s in m.items.Keys ensures s in (set p | p in vs :: p.source.ref) {
      var i :| 0 <= i < |m.keys| && m.keys[i] == s;
      assert vs[i] == m.items[s];
    }
  }

  /** `refresh_pulls`, first part: forget every target with no open pull request. */
  method ForgetClosedTargets(prs: PRS, open: set<FQRef>)
    requires prs.Valid()
    modifies prs
    ensures prs.Valid()
    ensures forall t :: t in prs.tsp <==> t in old(prs.tsp) && t in open
    ensures forall t | t in prs.tsp :: prs.tsp[t] == old(prs.tsp)[t]
    ensures forall t | t in open :: EntriesOf(prs.tsp, t) == EntriesOf(old(prs.tsp), t)
  {
    var dead := prs.tsp.Keys - open;
    while dead != {}
      invariant prs.Valid()
      invariant dead <= old(prs.tsp).Keys - open
      invariant forall t :: t in prs.tsp <==> t in old(prs.tsp) && (t in open || t in dead)
      invariant forall t | t in prs.tsp :: prs.tsp[t] == old(prs.tsp)[t]
      decreases dead
    {
      var t :| t in dead;
      prs.ForgetTarget(t);
      dead := dead - {t};
    }
  }

  /** `pr_push` adds the pull request's source to its target and leaves every other target alone. */
  lemma PrPushKeepsOthers(o: Oracle, before: TargetView, gh: GitHubPR, after: TargetView)
    requires WellFormed(before)
    requires PrPushSpec(o, before, gh).Ok? && after == PrPushSpec(o, before, gh).value.0
    ensures forall k | k in after :: k in before || k == gh.TargetRef()
    ensures forall k | k != gh.TargetRef() :: EntriesOf(after, k) == EntriesOf(before, k)
    ensures EntriesOf(after, gh.TargetRef()).items.Keys == EntriesOf(before, gh.TargetRef()).items.Keys + {gh.source.ref}
  {
    var t := gh.TargetRef();
    forall k | k != t ensures EntriesOf(after, k) == EntriesOf(before, k) {
      if k in before {
        assert after[k] == before[k];
      }
    }
  }

  /**
   * `pr_push` for each of `pulls` in turn on one target's entries, stopping
   * at the first that raises.
   */
  function PushPullsSpec(o: Oracle, m: Entries, pulls: seq<GitHubPR>): (r: Result<(Entries, seq<Effect>)>)
    requires m.Valid()
    ensures r.Ok? ==> r.value.0.Valid()
    decreases |pulls|
  {
    if pulls == [] then Ok((m, []))
    else
      var first :- PrPushEntries(o, m, pulls[0]);
      Prepend(first.1, PushPullsSpec(o, first.0, pulls[1..]))
  }

  lemma SourcesOfCons(pulls: seq<GitHubPR>)
    requires pulls != []
    ensures PulledSources(pulls) == {pulls[0].source.ref} + PulledSources(pulls[1..])
  {
    assert pulls == [pulls[0]] + pulls[1..];
  }

  /**
   * The pushes register the source of every open pull request and keep
   * every other PR of the target as it was.
   */
  lemma {:induction false} PushPullsRegisters(o: Oracle, m: Entries, pulls: seq<GitHubPR>)
    requires m.Valid()
    requires PushPullsSpec(o, m, pulls).Ok?
    ensures PushPullsSpec(o, m, pulls).value.0.items.Keys == m.items.Keys + PulledSources(pulls)
    ensures forall s | s in m.items && s !in PulledSources(pulls) ::
      PushPullsSpec(o, m, pulls).value.0.items[s] == m.items[s]
    decreases |pulls|
  {
    if pulls != [] {
      var first := PrPushEntries(o, m, pulls[0]).value;
      PushPullsRegisters(o, first.0, pulls[1..]);
      SourcesOfCons(pulls);
    }
  }

  /**
   * After the pushes, an open pull request whose source no later one shares
   * is stored with exactly GitHub's commits.
   */
  lemma {:induction false} PushPullsTakesGitHubCommits(o: Oracle, m: Entries, pulls: seq<GitHubPR>, i: nat)
    requires m.Valid() && i < |pulls|
    requires forall j | i < j < |pulls| :: pulls[j].source.ref != pulls[i].source.ref
    requires PushPullsSpec(o, m, pulls).Ok?
    ensures pulls[i].source.ref in PushPullsSpec(o, m, pulls).value.0.items
    ensures PushPullsSpec(o, m, pulls).value.0.items[pulls[i].source.ref].source == pulls[i].source
    ensures PushPullsSpec(o, m, pulls).value.0.items[pulls[i].source.ref].target == pulls[i].target
    decreases |pulls|
  {
    var first := PrPushEntries(o, m, pulls[0]).value;
    var rest := pulls[1..];
    PushPullsRegisters(o, first.0, rest);
    if i == 0 {
      assert pulls[0].source.ref !in PulledSources(rest) by {
        forall gh | gh in rest ensures gh.source.ref != pulls[0].source.ref {
          var j :| 0 <= j < |rest| && rest[j] == gh;
          assert rest[j] == pulls[j + 1];
        }
      }
    } else {
      assert rest[i - 1] == pulls[i];
      assert forall j | i - 1 < j < |rest| :: rest[j] == pulls[j + 1];
      PushPullsTakesGitHubCommits(o, first.0, rest, i - 1);
    }
  }

  /**
   * One open target's registered sources are exactly those of its open pull
   * requests, each stored as the pushes left it.
   */
  ghost predicate Refreshed(o: Oracle, before: Entries, after: Entries, pulls: seq<GitHubPR>) {
    && before.Valid()
    && PushPullsSpec(o, before, pulls).Ok?
    && after.items.Keys == PulledSources(pulls)
    && forall s | s in PulledSources(pulls) ::
         s in PushPullsSpec(o, before, pulls).value.0.items && after.items[s] == PushPullsSpec(o, before, pulls).value.0.items[s]
  }

  /**
   * `refresh_pulls`, for one open target: push each of its open pull
   * requests, then forget each of its registered sources that has none.
   */
  method RefreshTarget(prs: PRS, o: Oracle, t: FQRef, pulls: seq<GitHubPR>) returns (r: Result<seq<Effect>>)
    requires prs.Valid()
    requires forall gh | gh in pulls :: gh.TargetRef() == t
    modifies prs
    ensures prs.Valid()
    ensures forall k | k in prs.tsp :: k in old(prs.tsp) || k == t
    ensures forall k | k != t :: EntriesOf(prs.tsp, k) == EntriesOf(old(prs.tsp), k)
    ensures var spec := PushPullsSpec(o, old(prs.Entries(t)), pulls);
            && (r.Ok? <==> spec.Ok?)
            && (r.Ok? ==> r.value == spec.value.1)
    ensures r.Ok? ==> Refreshed(o, old(prs.Entries(t)), EntriesOf(prs.tsp, t), pulls)
  {
    ghost var m0 := prs.Entries(t);
    r := PushPulls(prs, o, t, pulls);
    if r.Ok? {
      PushPullsRegisters(o, m0, pulls);
      ForgetDeadSources(prs, t, PulledSources(pulls));
    }
  }

  /** `pr_push` for each open pull request of target `t`, in order. */
  method PushPulls(prs: PRS, o: Oracle, t: FQRef, pulls: seq<GitHubPR>) returns (r: Result<seq<Effect>>)
    requires prs.Valid()
    requires forall gh | gh in pulls :: gh.TargetRef() == t
    modifies prs
    ensures prs.Valid()
    ensures forall k | k in prs.tsp :: k in old(prs.tsp) || k == t
    ensures forall k | k != t :: EntriesOf(prs.tsp, k) == EntriesOf(old(prs.tsp), k)
    ensures var spec := PushPullsSpec(o, old(prs.Entries(t)), pulls);
            && (r.Ok? <==> spec.Ok?)
            && (r.Ok? ==> r.value == spec.value.1 && EntriesOf(prs.tsp, t) == spec.value.0)
  {
    ghost var m0 := prs.Entries(t);
    var effects := [];
    var i := 0;
    PrependNothing(PushPullsSpec(o, m0, pulls));
    while i < |pulls|
      invariant 0 <= i <= |pulls|
      invariant prs.Valid()
      invariant forall k | k in prs.tsp :: k in old(prs.tsp) || k == t
      invariant forall k | k != t :: EntriesOf(prs.tsp, k) == EntriesOf(old(prs.tsp), k)
      invariant PushPullsSpec(o, m0, pulls) == Prepend(effects, PushPullsSpec(o, EntriesOf(prs.tsp, t), pulls[i..]))
    {
      assert pulls[i] in pulls;
      ghost var before := prs.tsp;
      var step := prs.PrPush(o, pulls[i]);
      if step.Err? {
        PushFails(o, m0, before, t, pulls, i, effects);
        return Err(step.error);
      }
      PrPushKeepsOthers(o, before, pulls[i], prs.tsp);
      PushOneMore(o, m0, before, prs.tsp, t, pulls, i, effects, step.value);
      effects := effects + step.value;
      i := i + 1;
    }
    assert effects + [] == effects;
    return Ok(effects);
  }

  /** One more open pull request pushed, its effects moved to the ones already made. */
  lemma PushOneMore(o: Oracle, m0: Entries, before: TargetView, after: TargetView, t: FQRef,
                    pulls: seq<GitHubPR>, i: nat, effects: seq<Effect>, stepEffects: seq<Effect>)
    requires WellFormed(before) && WellFormed(after) && m0.Valid()
    requires i < |pulls| && pulls[i].TargetRef() == t
    requires PrPushSpec(o, before, pulls[i]) == Ok((after, stepEffects))
    requires PushPullsSpec(o, m0, pulls) == Prepend(effects, PushPullsSpec(o, EntriesOf(before, t), pulls[i..]))
    ensures PushPullsSpec(o, m0, pulls) == Prepend(effects + stepEffects, PushPullsSpec(o, EntriesOf(after, t), pulls[i + 1..]))
  {
    assert pulls[i..][0] == pulls[i] && pulls[i..][1..] == pulls[i + 1..];
    assert EntriesOf(after, t) == PrPushEntries(o, EntriesOf(before, t), pulls[i]).value.0;
    PrependTwice(effects, stepEffects, PushPullsSpec(o, EntriesOf(after, t), pulls[i + 1..]));
  }

  /** A push that raises makes the whole sequence of pushes raise. */
  lemma PushFails(o: Oracle, m0: Entries, before: TargetView, t: FQRef, pulls: seq<GitHubPR>, i: nat, effects: seq<Effect>)
    requires WellFormed(before) && m0.Valid()
    requires i < |pulls| && pulls[i].TargetRef() == t
    requires PrPushSpec(o, before, pulls[i]).Err?
    requires PushPullsSpec(o, m0, pulls) == Prepend(effects, PushPullsSpec(o, EntriesOf(before, t), pulls[i..]))
    ensures PushPullsSpec(o, m0, pulls).Err?
  {
    assert pulls[i..][0] == pulls[i];
  }

  lemma ForgetOneSource(before: TargetView, after: TargetView, t: FQRef, s: FQRef, pulled: set<FQRef>, dead: set<FQRef>)
    requires WellFormed(before)
    requires EntriesOf(before, t).items.Keys == pulled + dead && s in dead && dead !! pulled
    requires after == if t in before then before[t := before[t].Remove(s)] else before
    ensures after.Keys == before.Keys
    ensures forall k | k != t :: EntriesOf(after, k) == EntriesOf(before, k)
    ensures EntriesOf(after, t).items.Keys == pulled + (dead - {s})
    ensures forall x | x in pulled :: EntriesOf(after, t).items[x] == EntriesOf(before, t).items[x]
  {
    assert t in before;
  }

  /** `forget` each registered source of target `t` that is not in `pulled`; the others are kept as they are. */
  method ForgetDeadSources(prs: PRS, t: FQRef, pulled: set<FQRef>)
    requires prs.Valid()
    requires pulled <= EntriesOf(prs.tsp, t).items.Keys
    modifies prs
    ensures prs.Valid()
    ensures prs.tsp.Keys == old(prs.tsp).Keys
    ensures forall k | k != t :: EntriesOf(prs.tsp, k) == EntriesOf(old(prs.tsp), k)
    ensures EntriesOf(prs.tsp, t).items.Keys == pulled
    ensures forall s | s in pulled :: EntriesOf(prs.tsp, t).items[s] == EntriesOf(old(prs.tsp), t).items[s]
  {
    var registered := prs.Entries(t);
    SourcesOfValues(registered);
    var dead := (set p | p in registered.Values() :: p.source.ref) - pulled;
    while dead != {}
      invariant prs.Valid()
      invariant EntriesOf(prs.tsp, t).items.Keys == pulled + dead
      invariant dead !! pulled
      invariant prs.tsp.Keys == old(prs.tsp).Keys
      invariant forall k | k != t :: EntriesOf(prs.tsp, k) == EntriesOf(old(prs.tsp), k)
      invariant forall s | s in pulled :: EntriesOf(prs.tsp, t).items[s] == EntriesOf(old(prs.tsp), t).items[s]
      decreases dead
    {
      var s :| s in dead;
      ghost var before := prs.tsp;
      prs.Forget(s, t);
      ForgetOneSource(before, prs.tsp, t, s, pulled, dead);
      dead := dead - {s};
    }
  }

  /**
   * The effects of pushing the open pull requests of each of `targets` in
   * turn, each target's pushes starting from its entries in `tsp`.
   */
  ghost function RefreshEffects(o: Oracle, tsp: TargetView, targets: seq<FQRef>, pullsByTarget: map<FQRef, seq<GitHubPR>>): seq<Effect>
    requires WellFormed(tsp)
    decreases |targets|
  {
    if targets == [] then []
    else
      var t := targets[|targets| - 1];
      var pushed := if t in pullsByTarget then PushPullsSpec(o, EntriesOf(tsp, t), pullsByTarget[t]) else Ok((Empty(), []));
      RefreshEffects(o, tsp, targets[..|targets| - 1], pullsByTarget) + (if pushed.Ok? then pushed.value.1 else [])
  }

  /** One more target refreshed, its effects appended. */
  lemma RefreshEffectsStep(o: Oracle, tsp: TargetView, targets: seq<FQRef>, i: nat, pullsByTarget: map<FQRef, seq<GitHubPR>>,
                           effects: seq<Effect>, stepEffects: seq<Effect>)
    requires WellFormed(tsp) && i < |targets| && targets[i] in pullsByTarget
    requires effects == RefreshEffects(o, tsp, targets[..i], pullsByTarget)
    requires PushPullsSpec(o, EntriesOf(tsp, targets[i]), pullsByTarget[targets[i]]).Ok?
    requires stepEffects == PushPullsSpec(o, EntriesOf(tsp, targets[i]), pullsByTarget[targets[i]]).value.1
    ensures effects + stepEffects == RefreshEffects(o, tsp, targets[..i + 1], pullsByTarget)
  {
    assert targets[..i + 1][..i] == targets[..i];
  }

  /** Two views that agree on the given targets' entries give those targets the same effects. */
  lemma {:induction false} RefreshEffectsAgree(o: Oracle, a: TargetView, b: TargetView, targets: seq<FQRef>,
                                               pullsByTarget: map<FQRef, seq<GitHubPR>>)
    requires WellFormed(a) && WellFormed(b)
    requires forall t | t in pullsByTarget :: EntriesOf(a, t) == EntriesOf(b, t)
    ensures RefreshEffects(o, a, targets, pullsByTarget) == RefreshEffects(o, b, targets, pullsByTarget)
    decreases |targets|
  {
    if targets != [] {
      RefreshEffectsAgree(o, a, b, targets[..|targets| - 1], pullsByTarget);
    }
  }

  /**
   * `refresh_pulls(pulls_by_target)`: reconcile the registry with GitHub's
   * open pull requests, grouped by target in the order GitHub listed them.
   * Afterwards no target without an open pull request is registered, and
   * each open target holds exactly the sources of its open pull requests.
   */
  method RefreshPulls(prs: PRS, o: Oracle, pullsByTarget: OrderedMap<FQRef, seq<GitHubPR>>) returns (r: Result<seq<Effect>>)
    requires prs.Valid()
    requires pullsByTarget.Valid()
    requires forall t, gh | t in pullsByTarget.items && gh in pullsByTarget.items[t] :: gh.TargetRef() == t
    modifies prs
    ensures prs.Valid()
    ensures forall t | t in prs.tsp :: t in pullsByTarget.items
    ensures r.Ok? ==> forall t | t in pullsByTarget.items ::
      EntriesOf(prs.tsp, t).items.Keys == PulledSources(pullsByTarget.items[t])
    ensures r.Ok? ==> forall t | t in pullsByTarget.items ::
      Refreshed(o, old(prs.Entries(t)), EntriesOf(prs.tsp, t), pullsByTarget.items[t])
    ensures r.Ok? ==> r.value == RefreshEffects(o, old(prs.tsp), pullsByTarget.keys, pullsByTarget.items)
  {
    ghost var start := prs.tsp;
    ForgetClosedTargets(prs, pullsByTarget.items.Keys);
    ghost var open := prs.tsp;
    r := RefreshOpenTargets(prs, o, pullsByTarget);
    RefreshEffectsAgree(o, start, open, pullsByTarget.keys, pullsByTarget.items);
  }

  /** The first `i` targets refreshed from `start`, the rest still as in `start`. */
  ghost predicate RefreshedUpTo(o: Oracle, start: TargetView, cur: TargetView, targets: seq<FQRef>, i: nat,
                                pullsByTarget: map<FQRef, seq<GitHubPR>>)
    requires WellFormed(start) && i <= |targets|
    requires forall t | t in targets :: t in pullsByTarget
  {
    && (forall j | i <= j < |targets| :: EntriesOf(cur, targets[j]) == EntriesOf(start, targets[j]))
    && (forall j | 0 <= j < i ::
          Refreshed(o, EntriesOf(start, targets[j]), EntriesOf(cur, targets[j]), pullsByTarget[targets[j]]))
  }

  /** Refreshing target `i` keeps the others as they were. */
  lemma RefreshedOneMore(o: Oracle, start: TargetView, before: TargetView, after: TargetView, targets: seq<FQRef>, i: nat,
                         pullsByTarget: map<FQRef, seq<GitHubPR>>)
    requires WellFormed(start) && i < |targets| && Distinct(targets)
    requires forall t | t in targets :: t in pullsByTarget
    requires RefreshedUpTo(o, start, before, targets, i, pullsByTarget)
    requires forall k | k != targets[i] :: EntriesOf(after, k) == EntriesOf(before, k)
    requires Refreshed(o, EntriesOf(before, targets[i]), EntriesOf(after, targets[i]), pullsByTarget[targets[i]])
    ensures RefreshedUpTo(o, start, after, targets, i + 1, pullsByTarget)
  {
    assert forall j | 0 <= j < |targets| && j != i :: targets[j] != targets[i];
  }

  /** Once every target is refreshed, each target of the list is. */
  lemma RefreshedAll(o: Oracle, start: TargetView, cur: TargetView, targets: seq<FQRef>, pullsByTarget: map<FQRef, seq<GitHubPR>>)
    requires WellFormed(start)
    requires forall t | t in targets :: t in pullsByTarget
    requires RefreshedUpTo(o, start, cur, targets, |targets|, pullsByTarget)
    ensures forall t | t in targets :: Refreshed(o, EntriesOf(start, t), EntriesOf(cur, t), pullsByTarget[t])
  {
    forall t | t in targets ensures Refreshed(o, EntriesOf(start, t), EntriesOf(cur, t), pullsByTarget[t]) {
      var j :| 0 <= j < |targets| && targets[j] == t;
    }
  }

  /** The second part of `refresh_pulls`: each open target in turn, in the order GitHub listed them. */
  method RefreshOpenTargets(prs: PRS, o: Oracle, pullsByTarget: OrderedMap<FQRef, seq<GitHubPR>>) returns (r: Result<seq<Effect>>)
    requires prs.Valid()
    requires pullsByTarget.Valid()
    requires forall t, gh | t in pullsByTarget.items && gh in pullsByTarget.items[t] :: gh.TargetRef() == t
    requires forall t | t in prs.tsp :: t in pullsByTarget.items
    modifies prs
    ensures prs.Valid()
    ensures forall t | t in prs.tsp :: t in pullsByTarget.items
    ensures r.Ok? ==> forall t | t in pullsByTarget.items ::
      Refreshed(o, old(prs.Entries(t)), EntriesOf(prs.tsp, t), pullsByTarget.items[t])
    ensures r.Ok? ==> r.value == RefreshEffects(o, old(prs.tsp), pullsByTarget.keys, pullsByTarget.items)
  {
    ghost var start := prs.tsp;
    var targets := pullsByTarget.keys;
    var effects := [];
    var i := 0;
    assert forall t | t in targets :: t in pullsByTarget.items;
    while i < |targets|
      invariant 0 <= i <= |targets|
      invariant prs.Valid()
      invariant forall t | t in prs.tsp :: t in pullsByTarget.items
      invariant RefreshedUpTo(o, start, prs.tsp, targets, i, pullsByTarget.items)
      invariant effects == RefreshEffects(o, start, targets[..i], pullsByTarget.items)
    {
      var t := targets[i];
      ghost var before := prs.tsp;
      assert EntriesOf(before, t) == EntriesOf(start, t);
      var step := RefreshTarget(prs, o, t, pullsByTarget.items[t]);
      if step.Err? {
        return Err(step.error);
      }
      RefreshedOneMore(o, start, before, prs.tsp, targets, i, pullsByTarget.items);
      RefreshEffectsStep(o, start, targets, i, pullsByTarget.items, effects, step.value);
      effects := effects + step.value;
      i := i + 1;
    }
    RefreshedAll(o, start, prs.tsp, targets, pullsByTarget.items);
    assert targets[..|targets|] == targets;
    return Ok(effects);
  }
}
