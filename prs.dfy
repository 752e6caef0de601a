/**
 * The registry of open PRs: two nested dictionaries, target ref -> source ref
 * -> PR and source ref -> target ref -> PR, kept in agreement, with the
 * merge-or-build decision ("healing") for a target and the entry points that
 * fold external facts into the stored PRs.
 *
 * The decisions are specified by pure functions over one target's entries
 * (an ordered map from source ref to PR, in insertion order); the class
 * methods mutate the dictionaries in place and are proved to leave exactly
 * what those functions compute.
 */
module Registry {
  import opened Wrappers
  import opened OrderedMaps
  import opened GitState
  import opened BuildStates
  import opened Pulls

  /** One target's PRs, keyed by source ref, in insertion order. */
  type Entries = OrderedMap<FQRef, PR>

  // ---------------------------------------------------------------- list comprehensions

  predicate IsMergeablePR(p: PR) { p.IsMergeable() }
  predicate IsApprovedPR(p: PR) { p.IsApproved() }
  predicate IsRunningPR(p: PR) { p.IsRunning() }
  predicate IsPendingBuildPR(p: PR) { p.IsPendingBuild() }
  predicate IsApprovedPendingPR(p: PR) { p.IsApproved() && p.IsPendingBuild() }

  /** `[p for p in prs if f(p)]` */
  function Filter(prs: seq<PR>, f: PR -> bool): (r: seq<PR>)
    ensures forall p :: p in r <==> p in prs && f(p)
    ensures |r| <= |prs|
  {
    if prs == [] then [] else (if f(prs[0]) then [prs[0]] else []) + Filter(prs[1..], f)
  }

  /** The index of the last element of `prs` satisfying `f`, or -1 when there is none. */
  function LastIndex(prs: seq<PR>, f: PR -> bool): (j: int)
    ensures -1 <= j < |prs|
    ensures j == -1 <==> forall k | 0 <= k < |prs| :: !f(prs[k])
    ensures j >= 0 ==> f(prs[j]) && forall k | j < k < |prs| :: !f(prs[k])
  {
    if prs == [] then -1
    else
      var j := LastIndex(prs[1..], f);
      assert forall k | 1 <= k < |prs| :: prs[k] == prs[1..][k - 1];
      if j >= 0 then j + 1 else if f(prs[0]) then 0 else -1
  }

  /** The last element of a comprehension is the last element of the list that satisfies the condition. */
  lemma {:induction false} FilterLast(prs: seq<PR>, f: PR -> bool)
    ensures Filter(prs, f) != [] <==> LastIndex(prs, f) >= 0
    ensures Filter(prs, f) != [] ==> Filter(prs, f)[|Filter(prs, f)| - 1] == prs[LastIndex(prs, f)]
  {
    if prs != [] {
      var tail := prs[1..];
      FilterLast(tail, f);
      var head := if f(prs[0]) then [prs[0]] else [];
      var j := LastIndex(tail, f);
      assert Filter(prs, f) == head + Filter(tail, f);
      if j >= 0 {
        assert LastIndex(prs, f) == j + 1 && tail[j] == prs[j + 1];
      } else {
        assert Filter(tail, f) == [];
      }
    }
  }

  /** Filtering twice is filtering once by both conditions. */
  lemma {:induction false} FilterApprovedPending(prs: seq<PR>)
    ensures Filter(Filter(prs, IsApprovedPR), IsPendingBuildPR) == Filter(prs, IsApprovedPendingPR)
  {
    if prs != [] {
      FilterApprovedPending(prs[1..]);
      var head := if IsApprovedPR(prs[0]) then [prs[0]] else [];
      assert Filter(prs, IsApprovedPR) == head + Filter(prs[1..], IsApprovedPR);
      FilterConcat(head, Filter(prs[1..], IsApprovedPR), IsPendingBuildPR);
    }
  }

  lemma {:induction false} FilterConcat(a: seq<PR>, b: seq<PR>, f: PR -> bool)
    ensures Filter(a + b, f) == Filter(a, f) + Filter(b, f)
  {
    if a != [] {
      assert (a + b)[1..] == a[1..] + b;
      FilterConcat(a[1..], b, f);
    } else {
      assert a + b == b;
    }
  }

  // ---------------------------------------------------------------- healing, specified

  /** `ready_to_merge`: the mergeable PRs, in order. */
  function ReadyToMergeOf(prs: seq<PR>): (r: seq<PR>)
    ensures forall p :: p in r <==> p in prs && p.IsMergeable()
  {
    Filter(prs, IsMergeablePR)
  }

  /**
   * The PRs `build_next` rebuilds: none while an approved PR is building;
   * otherwise the last approved Buildable PR; otherwise every Buildable PR.
   */
  function ToBuild(prs: seq<PR>): (r: seq<PR>)
    ensures forall p | p in r :: p in prs && p.IsPendingBuild()
  {
    var approved := Filter(prs, IsApprovedPR);
    var running := Filter(approved, IsRunningPR);
    if |running| != 0 then []
    else
      var needStatus := Filter(approved, IsPendingBuildPR);
      if |needStatus| != 0 then
        var last := needStatus[|needStatus| - 1];
        assert last in needStatus && last in approved && IsPendingBuildPR(last);
        [last]
      else Filter(prs, IsPendingBuildPR)
  }

  /** A comprehension whose condition holds of no element is empty. */
  lemma {:induction false} FilterNone(prs: seq<PR>, f: PR -> bool)
    requires forall p | p in prs :: !f(p)
    ensures Filter(prs, f) == []
  {
    if prs != [] {
      assert forall p | p in prs[1..] :: p in prs;
      FilterNone(prs[1..], f);
    }
  }

  /** While an approved PR is building, `build_next` builds nothing. */
  lemma ToBuildWhileRunning(prs: seq<PR>, p: PR)
    requires p in prs && p.IsApproved() && p.IsRunning()
    ensures ToBuild(prs) == []
  {
    assert p in Filter(prs, IsApprovedPR);
    assert p in Filter(Filter(prs, IsApprovedPR), IsRunningPR);
  }

  /** Otherwise, when an approved PR is Buildable, it builds exactly the last of them. */
  lemma ToBuildLastApproved(prs: seq<PR>)
    requires forall p | p in prs :: !(p.IsApproved() && p.IsRunning())
    requires LastIndex(prs, IsApprovedPendingPR) >= 0
    ensures ToBuild(prs) == [prs[LastIndex(prs, IsApprovedPendingPR)]]
  {
    var approved := Filter(prs, IsApprovedPR);
    assert forall p | p in approved :: !IsRunningPR(p);
    FilterNone(approved, IsRunningPR);
    FilterApprovedPending(prs);
    FilterLast(prs, IsApprovedPendingPR);
    var need := Filter(approved, IsPendingBuildPR);
    assert need == Filter(prs, IsApprovedPendingPR) && need != [];
    assert need[|need| - 1] == prs[LastIndex(prs, IsApprovedPendingPR)];
  }

  /** Otherwise it builds every Buildable PR, in order. */
  lemma ToBuildAllPending(prs: seq<PR>)
    requires forall p | p in prs :: !(p.IsApproved() && p.IsRunning())
    requires forall p | p in prs :: !(p.IsApproved() && p.IsPendingBuild())
    ensures ToBuild(prs) == Filter(prs, IsPendingBuildPR)
  {
    FilterNone(Filter(prs, IsApprovedPR), IsRunningPR);
    FilterApprovedPending(prs);
    FilterNone(prs, IsApprovedPendingPR);
  }

  /** `deploy` on one target's entries: merged on 200, forgotten on 409, rejected otherwise. */
  function DeploySpec(o: Oracle, m: Entries, pr: PR): (r: Result<(Entries, seq<Effect>)>)
    requires m.Valid()
    ensures r.Ok? ==> r.value.0.Valid() && r.value.1 == [MergeRequested(pr.number, pr.source.sha)]
    ensures r.Ok? <==> o.mergeStatus(pr) in {200, 409}
    ensures o.mergeStatus(pr) == 200 ==> r.value.0.items == m.items[pr.source.ref := Merged(o, pr)]
    ensures o.mergeStatus(pr) == 409 ==> r.value.0.items == m.items - {pr.source.ref}
    ensures r.Err? ==> r.error == MergeRejected(o.mergeStatus(pr))
  {
    var code := o.mergeStatus(pr);
    if code == 200 then Ok((m.Set(pr.source.ref, Merged(o, pr)), [MergeRequested(pr.number, pr.source.sha)]))
    else if code == 409 then Ok((m.Remove(pr.source.ref), [MergeRequested(pr.number, pr.source.sha)]))
    else Err(MergeRejected(code))
  }

  /** `effects` followed by what `r` did, when `r` succeeded. */
  function Prepend(effects: seq<Effect>, r: Result<(Entries, seq<Effect>)>): Result<(Entries, seq<Effect>)> {
    if r.Ok? then Ok((r.value.0, effects + r.value.1)) else r
  }

  lemma FoldStep(m: Entries, todo: seq<PR>, i: nat, f: PR -> Result<Step>)
    requires m.Valid() && i < |todo| && f(todo[i]).Ok?
    ensures Fold(m, todo[i..], f) ==
      Prepend(f(todo[i]).value.effects, Fold(m.Set(todo[i].source.ref, f(todo[i]).value.pr), todo[i + 1..], f))
  {
    assert todo[i..][0] == todo[i] && todo[i..][1..] == todo[i + 1..];
  }

  /** One more update of `Fold` done, its effects moved to the ones already made. */
  lemma FoldAdvance(m0: Entries, m: Entries, todo: seq<PR>, i: nat, f: PR -> Result<Step>, effects: seq<Effect>)
    requires m0.Valid() && m.Valid() && i < |todo| && f(todo[i]).Ok?
    requires Fold(m0, todo, f) == Prepend(effects, Fold(m, todo[i..], f))
    ensures Fold(m0, todo, f) ==
      Prepend(effects + f(todo[i]).value.effects, Fold(m.Set(todo[i].source.ref, f(todo[i]).value.pr), todo[i + 1..], f))
  {
    FoldStep(m, todo, i, f);
    PrependTwice(effects, f(todo[i]).value.effects, Fold(m.Set(todo[i].source.ref, f(todo[i]).value.pr), todo[i + 1..], f));
  }

  lemma FoldStepFails(m: Entries, todo: seq<PR>, i: nat, f: PR -> Result<Step>)
    requires m.Valid() && i < |todo| && f(todo[i]).Err?
    ensures Fold(m, todo[i..], f).Err?
  {
    assert todo[i..][0] == todo[i];
  }

  lemma PrependNothing(r: Result<(Entries, seq<Effect>)>)
    ensures Prepend([], r) == r
  {
    if r.Ok? {
      assert [] + r.value.1 == r.value.1;
    }
  }

  lemma PrependTwice(a: seq<Effect>, b: seq<Effect>, r: Result<(Entries, seq<Effect>)>)
    ensures Prepend(a, Prepend(b, r)) == Prepend(a + b, r)
  {
    if r.Ok? {
      assert a + (b + r.value.1) == (a + b) + r.value.1;
    }
  }

  /**
   * `for pr in todo: _set(pr.source.ref, pr.target.ref, f(pr))` on one
   * target's entries: each update in turn, stopping at the first that raises.
   */
  function Fold(m: Entries, todo: seq<PR>, f: PR -> Result<Step>): (r: Result<(Entries, seq<Effect>)>)
    requires m.Valid()
    ensures r.Ok? <==> forall p | p in todo :: f(p).Ok?
    ensures r.Ok? ==> r.value.0.Valid()
    ensures r.Ok? ==> m.items.Keys <= r.value.0.items.Keys
    ensures r.Ok? ==> forall p | p in todo :: p.source.ref in r.value.0.items
    decreases |todo|
  {
    if todo == [] then Ok((m, []))
    else
      assert forall p :: p in todo <==> p == todo[0] || p in todo[1..];
      var step :- f(todo[0]);
      Prepend(step.effects, Fold(m.Set(todo[0].source.ref, step.pr), todo[1..], f))
  }

  /**
   * Updating PRs already present changes the entries of exactly those PRs,
   * each to its own update, and keeps the order; each update succeeded.
   */
  lemma {:induction false} FoldReplaces(m: Entries, todo: seq<PR>, f: PR -> Result<Step>)
    requires m.Valid()
    requires forall i | 0 <= i < |todo| :: todo[i].source.ref in m.items
    requires forall i, j | 0 <= i < j < |todo| :: todo[i].source.ref != todo[j].source.ref
    requires Fold(m, todo, f).Ok?
    ensures Fold(m, todo, f).value.0.keys == m.keys
    ensures forall i | 0 <= i < |todo| :: f(todo[i]).Ok? && Fold(m, todo, f).value.0.items[todo[i].source.ref] == f(todo[i]).value.pr
    ensures forall k | k in m.items && (forall i | 0 <= i < |todo| :: todo[i].source.ref != k) ::
      Fold(m, todo, f).value.0.items[k] == m.items[k]
    decreases |todo|
  {
    if todo != [] {
      var step := f(todo[0]).value;
      var k0 := todo[0].source.ref;
      var m' := m.Set(k0, step.pr);
      var tail := todo[1..];
      assert m'.keys == m.keys && m'.items == m.items[k0 := step.pr];
      assert forall i | 0 <= i < |tail| :: tail[i] == todo[i + 1];
      assert Fold(m, todo, f) == Prepend(step.effects, Fold(m', tail, f));
      FoldReplaces(m', tail, f);
      var after := Fold(m, todo, f).value.0;
      assert after == Fold(m', tail, f).value.0;
      assert after.items[k0] == step.pr by {
        assert forall i | 0 <= i < |tail| :: tail[i].source.ref != k0;
      }
    }
  }

  function Builder(o: Oracle): PR -> Result<Step> {
    p => Pulls.Build(o, p)
  }

  function Pusher(o: Oracle, push: FQSHA): PR -> Result<Step> {
    p => UpdateFromGithubPush(o, p, push)
  }

  /** A push leaves each PR on its own branches. */
  lemma PusherKeepsRefs(o: Oracle, push: FQSHA, todo: seq<PR>)
    ensures forall p | p in todo :: Pusher(o, push)(p).Ok? ==> SameRefs(Pusher(o, push)(p).value.pr, p)
  {
    forall p | p in todo && Pusher(o, push)(p).Ok?
      ensures SameRefs(Pusher(o, push)(p).value.pr, p)
    {
      assert Pusher(o, push)(p) == UpdateFromGithubPush(o, p, push);
    }
  }

  /** `heal_target` on one target's entries: merge the last mergeable PR, or else build the next ones. */
  function HealTargetSpec(o: Oracle, m: Entries): (r: Result<(Entries, seq<Effect>)>)
    requires m.Valid()
    ensures r.Ok? ==> r.value.0.Valid()
    ensures var ready := ReadyToMergeOf(m.Values());
            r.Ok? <==> if |ready| != 0 then o.mergeStatus(ready[|ready| - 1]) in {200, 409}
                       else forall p | p in ToBuild(m.Values()) :: Pulls.Build(o, p).Ok?
    ensures var ready := ReadyToMergeOf(m.Values());
            r.Ok? ==> forall k | k in m.items && (|ready| == 0 || k != ready[|ready| - 1].source.ref) ::
                        k in r.value.0.items
  {
    var ready := ReadyToMergeOf(m.Values());
    if |ready| != 0 then DeploySpec(o, m, ready[|ready| - 1])
    else Fold(m, ToBuild(m.Values()), Builder(o))
  }

  /**
   * When a PR of the target is mergeable, healing merges the last of them
   * and nothing else: one merge request, no build started, and every other
   * PR of the target kept as it was.
   */
  lemma HealTargetMergesOnlyTheLast(o: Oracle, m: Entries)
    requires m.Valid()
    requires exists p | p in m.Values() :: p.IsMergeable()
    ensures var last := m.Values()[LastIndex(m.Values(), IsMergeablePR)];
            && LastIndex(m.Values(), IsMergeablePR) >= 0
            && (HealTargetSpec(o, m).Ok? ==>
                  && HealTargetSpec(o, m).value.1 == [MergeRequested(last.number, last.source.sha)]
                  && NoJobCreated(HealTargetSpec(o, m).value.1)
                  && (forall k | k in m.items && k != last.source.ref ::
                        k in HealTargetSpec(o, m).value.0.items && HealTargetSpec(o, m).value.0.items[k] == m.items[k]))
  {
    var values := m.Values();
    var p :| p in values && p.IsMergeable();
    var ready := ReadyToMergeOf(values);
    assert p in ready;
    FilterLast(values, IsMergeablePR);
    var last := values[LastIndex(values, IsMergeablePR)];
    assert ready[|ready| - 1] == last;
    assert HealTargetSpec(o, m) == DeploySpec(o, m, last);
  }

  /**
   * When nothing is mergeable, healing rebuilds exactly the PRs `ToBuild`
   * picks, each to its own `build`, and keeps every other PR of the target.
   */
  lemma HealTargetBuildsTheChosen(o: Oracle, m: Entries)
    requires m.Valid() && Keyed(m)
    requires forall p | p in m.Values() :: !p.IsMergeable()
    requires HealTargetSpec(o, m).Ok?
    ensures HealTargetSpec(o, m) == Fold(m, ToBuild(m.Values()), Builder(o))
    ensures HealTargetSpec(o, m).value.0.keys == m.keys
    ensures forall p | p in ToBuild(m.Values()) ::
      Pulls.Build(o, p).Ok? && HealTargetSpec(o, m).value.0.items[p.source.ref] == Pulls.Build(o, p).value.pr
    ensures forall k | k in m.items && m.items[k] !in ToBuild(m.Values()) ::
      HealTargetSpec(o, m).value.0.items[k] == m.items[k]
  {
    FilterNone(m.Values(), IsMergeablePR);
    BuildNextReplacesChosen(o, m);
  }

  /** Building the chosen PRs replaces each by its own `build` and keeps the others. */
  lemma BuildNextReplacesChosen(o: Oracle, m: Entries)
    requires m.Valid() && Keyed(m)
    requires Fold(m, ToBuild(m.Values()), Builder(o)).Ok?
    ensures Fold(m, ToBuild(m.Values()), Builder(o)).value.0.keys == m.keys
    ensures forall p | p in ToBuild(m.Values()) ::
      Pulls.Build(o, p).Ok? && Fold(m, ToBuild(m.Values()), Builder(o)).value.0.items[p.source.ref] == Pulls.Build(o, p).value.pr
    ensures forall k | k in m.items && m.items[k] !in ToBuild(m.Values()) ::
      Fold(m, ToBuild(m.Values()), Builder(o)).value.0.items[k] == m.items[k]
  {
    var chosen := ToBuild(m.Values());
    ToBuildDistinct(m);
    ValuesKeyed(m);
    FoldChosen(m, chosen, Builder(o));
    forall p | p in chosen ensures Builder(o)(p) == Pulls.Build(o, p) {
    }
  }

  /**
   * Updating distinct PRs of a target changes the entries of exactly those
   * PRs, each to its own update, and keeps the order.
   */
  lemma FoldChosen(m: Entries, chosen: seq<PR>, f: PR -> Result<Step>)
    requires m.Valid()
    requires forall p | p in chosen :: p.source.ref in m.items && m.items[p.source.ref] == p
    requires forall i, j | 0 <= i < j < |chosen| :: chosen[i].source.ref != chosen[j].source.ref
    requires Fold(m, chosen, f).Ok?
    ensures Fold(m, chosen, f).value.0.keys == m.keys
    ensures forall p | p in chosen :: f(p).Ok? && Fold(m, chosen, f).value.0.items[p.source.ref] == f(p).value.pr
    ensures forall k | k in m.items && m.items[k] !in chosen :: Fold(m, chosen, f).value.0.items[k] == m.items[k]
  {
    var after := Fold(m, chosen, f).value.0;
    forall i | 0 <= i < |chosen| ensures chosen[i].source.ref in m.items {
      assert chosen[i] in chosen;
    }
    FoldReplaces(m, chosen, f);
    forall p | p in chosen ensures f(p).Ok? && after.items[p.source.ref] == f(p).value.pr {
      var i :| 0 <= i < |chosen| && chosen[i] == p;
    }
    forall k | k in m.items && m.items[k] !in chosen ensures after.items[k] == m.items[k] {
      forall i | 0 <= i < |chosen| ensures chosen[i].source.ref != k {
        assert chosen[i] in chosen;
        assert m.items[chosen[i].source.ref] == chosen[i];
      }
    }
  }

  /** Every PR of a target is stored under its own source ref. */
  ghost predicate Keyed(m: Entries) {
    forall k | k in m.items :: m.items[k].source.ref == k
  }

  lemma ValuesKeyed(m: Entries)
    requires m.Valid() && Keyed(m)
    ensures forall p | p in m.Values() :: p.source.ref in m.items && m.items[p.source.ref] == p
  {
    forall p | p in m.Values() ensures p.source.ref in m.items && m.items[p.source.ref] == p {
      var i :| 0 <= i < |m.Values()| && m.Values()[i] == p;
      assert m.keys[i] in m.items;
    }
  }

  /** The PRs `ToBuild` picks from a target's entries have distinct source refs. */
  lemma ToBuildDistinct(m: Entries)
    requires m.Valid() && Keyed(m)
    ensures forall i, j | 0 <= i < j < |ToBuild(m.Values())| ::
      ToBuild(m.Values())[i].source.ref != ToBuild(m.Values())[j].source.ref
  {
    var values := m.Values();
    var chosen := ToBuild(values);
    if |chosen| > 1 {
      assert chosen == Filter(values, IsPendingBuildPR);
      forall i, j | 0 <= i < j < |values| ensures values[i].source.ref != values[j].source.ref {
        assert m.keys[i] != m.keys[j];
      }
      FilterDistinct(values, IsPendingBuildPR);
    }
  }

  /** A comprehension over a list whose source refs are distinct has distinct source refs. */
  lemma {:induction false} FilterDistinct(prs: seq<PR>, f: PR -> bool)
    requires forall i, j | 0 <= i < j < |prs| :: prs[i].source.ref != prs[j].source.ref
    ensures forall i, j | 0 <= i < j < |Filter(prs, f)| :: Filter(prs, f)[i].source.ref != Filter(prs, f)[j].source.ref
  {
    if prs != [] {
      var tail := prs[1..];
      assert forall i | 0 <= i < |tail| :: tail[i] == prs[i + 1];
      FilterDistinct(tail, f);
      var r := Filter(prs, f);
      var t := Filter(tail, f);
      if f(prs[0]) {
        assert r == [prs[0]] + t;
        forall i, j | 0 <= i < j < |r| ensures r[i].source.ref != r[j].source.ref {
          if i == 0 {
            assert r[0] == prs[0];
            assert r[j] == t[j - 1] && t[j - 1] in tail;
            var k :| 0 <= k < |tail| && tail[k] == r[j];
            assert prs[k + 1] == r[j];
            assert prs[0].source.ref != prs[k + 1].source.ref;
          } else {
            assert r[i] == t[i - 1] && r[j] == t[j - 1];
            assert t[i - 1].source.ref != t[j - 1].source.ref;
          }
        }
      } else {
        assert r == t;
      }
    }
  }

  // ---------------------------------------------------------------- the two views

  type TargetView = map<FQRef, Entries>
  type SourceView = map<FQRef, map<FQRef, PR>>

  /**
   * The two views agree pair by pair, every inner dictionary is a proper
   * ordered map, and every PR is stored under its own refs.
   */
  ghost predicate Agree(tsp: TargetView, stp: SourceView) {
    WellFormed(tsp) && Forward(tsp, stp) && Backward(tsp, stp)
  }

  ghost predicate WellFormed(tsp: TargetView) {
    forall t | t in tsp ::
      && tsp[t].Valid() && Keyed(tsp[t])
      && (forall s | s in tsp[t].items :: tsp[t].items[s].target.ref == t)
  }

  /** Every pair of the target view is in the source view, holding the same PR. */
  ghost predicate Forward(tsp: TargetView, stp: SourceView) {
    forall t, s | t in tsp && s in tsp[t].items :: s in stp && t in stp[s] && stp[s][t] == tsp[t].items[s]
  }

  /** Every pair of the source view is in the target view. */
  ghost predicate Backward(tsp: TargetView, stp: SourceView) {
    forall s, t | s in stp && t in stp[s] :: t in tsp && s in tsp[t].items
  }

  function EntriesOf(tsp: TargetView, t: FQRef): Entries {
    if t in tsp then tsp[t] else Empty()
  }

  function TargetsOf(stp: SourceView, s: FQRef): map<FQRef, PR> {
    if s in stp then stp[s] else map[]
  }

  /** `_set` keeps the views in agreement. */
  lemma SetAgrees(tsp: TargetView, stp: SourceView, s: FQRef, t: FQRef, pr: PR)
    requires Agree(tsp, stp) && pr.source.ref == s && pr.target.ref == t
    ensures EntriesOf(tsp, t).Valid()
    ensures Agree(tsp[t := EntriesOf(tsp, t).Set(s, pr)], stp[s := TargetsOf(stp, s)[t := pr]])
  {
    SetWellFormed(tsp, s, t, pr);
    SetForward(tsp, stp, s, t, pr);
    SetBackward(tsp, stp, s, t, pr);
  }

  lemma SetWellFormed(tsp: TargetView, s: FQRef, t: FQRef, pr: PR)
    requires WellFormed(tsp) && pr.source.ref == s && pr.target.ref == t
    ensures EntriesOf(tsp, t).Valid()
    ensures WellFormed(tsp[t := EntriesOf(tsp, t).Set(s, pr)])
  {
    var e := EntriesOf(tsp, t).Set(s, pr);
    assert e.items == EntriesOf(tsp, t).items[s := pr];
    forall s' | s' in e.items ensures e.items[s'].source.ref == s' && e.items[s'].target.ref == t {
      if s' != s {
        assert s' in tsp[t].items;
      }
    }
  }

  lemma SetForward(tsp: TargetView, stp: SourceView, s: FQRef, t: FQRef, pr: PR)
    requires WellFormed(tsp) && Forward(tsp, stp) && pr.source.ref == s && pr.target.ref == t
    ensures Forward(tsp[t := EntriesOf(tsp, t).Set(s, pr)], stp[s := TargetsOf(stp, s)[t := pr]])
  {
    var tsp' := tsp[t := EntriesOf(tsp, t).Set(s, pr)];
    var stp' := stp[s := TargetsOf(stp, s)[t := pr]];
    forall t', s' | t' in tsp' && s' in tsp'[t'].items
      ensures s' in stp' && t' in stp'[s'] && stp'[s'][t'] == tsp'[t'].items[s']
    {
      if t' == t && s' == s {
      } else if t' == t {
        assert s' in tsp[t].items && tsp'[t].items[s'] == tsp[t].items[s'];
      } else {
        assert tsp'[t'] == tsp[t'];
      }
    }
  }

  lemma SetBackward(tsp: TargetView, stp: SourceView, s: FQRef, t: FQRef, pr: PR)
    requires WellFormed(tsp) && Backward(tsp, stp)
    ensures Backward(tsp[t := EntriesOf(tsp, t).Set(s, pr)], stp[s := TargetsOf(stp, s)[t := pr]])
  {
    var tsp' := tsp[t := EntriesOf(tsp, t).Set(s, pr)];
    var stp' := stp[s := TargetsOf(stp, s)[t := pr]];
    forall s', t' | s' in stp' && t' in stp'[s'] ensures t' in tsp' && s' in tsp'[t'].items {
      if s' == s && t' == t {
      } else if s' == s {
        assert t' in stp[s];
      } else {
        assert t' in stp[s'];
      }
    }
  }

  function PopTargets(tsp: TargetView, s: FQRef, t: FQRef): TargetView
    requires t in tsp ==> tsp[t].Valid()
  {
    if t in tsp then tsp[t := tsp[t].Remove(s)] else tsp
  }

  function PopSources(stp: SourceView, s: FQRef, t: FQRef): SourceView {
    if s in stp then stp[s := stp[s] - {t}] else stp
  }

  /** `_pop` keeps the views in agreement. */
  lemma PopAgrees(tsp: TargetView, stp: SourceView, s: FQRef, t: FQRef)
    requires Agree(tsp, stp)
    ensures Agree(PopTargets(tsp, s, t), PopSources(stp, s, t))
  {
    PopWellFormed(tsp, s, t);
    PopForward(tsp, stp, s, t);
    PopBackward(tsp, stp, s, t);
  }

  lemma PopWellFormed(tsp: TargetView, s: FQRef, t: FQRef)
    requires WellFormed(tsp)
    ensures WellFormed(PopTargets(tsp, s, t))
  {
    var tsp' := PopTargets(tsp, s, t);
    forall t' | t' in tsp'
      ensures tsp'[t'].Valid() && Keyed(tsp'[t'])
      ensures forall s' | s' in tsp'[t'].items :: tsp'[t'].items[s'].target.ref == t'
    {
      if t' == t {
        assert tsp'[t'].items == tsp[t].items - {s};
      }
    }
  }

  lemma PopForward(tsp: TargetView, stp: SourceView, s: FQRef, t: FQRef)
    requires (t in tsp ==> tsp[t].Valid()) && Forward(tsp, stp)
    ensures Forward(PopTargets(tsp, s, t), PopSources(stp, s, t))
  {
    var tsp' := PopTargets(tsp, s, t);
    var stp' := PopSources(stp, s, t);
    forall t', s' | t' in tsp' && s' in tsp'[t'].items
      ensures s' in stp' && t' in stp'[s'] && stp'[s'][t'] == tsp'[t'].items[s']
    {
      PopForwardPair(tsp, stp, s, t, t', s');
    }
  }

  /** One pair left after `_pop` is still in the source view, holding the same PR. */
  lemma PopForwardPair(tsp: TargetView, stp: SourceView, s: FQRef, t: FQRef, t': FQRef, s': FQRef)
    requires (t in tsp ==> tsp[t].Valid()) && Forward(tsp, stp)
    requires t' in PopTargets(tsp, s, t) && s' in PopTargets(tsp, s, t)[t'].items
    ensures var stp' := PopSources(stp, s, t);
            s' in stp' && t' in stp'[s'] && stp'[s'][t'] == PopTargets(tsp, s, t)[t'].items[s']
  {
    PopKeepsOtherPair(tsp, s, t, t', s');
    assert s' in stp && t' in stp[s'] && stp[s'][t'] == tsp[t'].items[s'];
    if s' == s {
      assert PopSources(stp, s, t)[s] == stp[s] - {t} && t' != t;
    }
  }

  /** A pair still present after `_pop` was present before, holding the same PR, and is not the popped one. */
  lemma PopKeepsOtherPair(tsp: TargetView, s: FQRef, t: FQRef, t': FQRef, s': FQRef)
    requires t in tsp ==> tsp[t].Valid()
    requires t' in PopTargets(tsp, s, t) && s' in PopTargets(tsp, s, t)[t'].items
    ensures !(t' == t && s' == s)
    ensures t' in tsp && s' in tsp[t'].items && PopTargets(tsp, s, t)[t'].items[s'] == tsp[t'].items[s']
  {
  }

  lemma PopBackward(tsp: TargetView, stp: SourceView, s: FQRef, t: FQRef)
    requires (t in tsp ==> tsp[t].Valid()) && Backward(tsp, stp)
    ensures Backward(PopTargets(tsp, s, t), PopSources(stp, s, t))
  {
    var tsp' := PopTargets(tsp, s, t);
    var stp' := PopSources(stp, s, t);
    forall s', t' | s' in stp' && t' in stp'[s'] ensures t' in tsp' && s' in tsp'[t'].items {
      assert t' in stp[s'];
      assert !(t' == t && s' == s);
    }
  }

  /** `forget_target` keeps the views in agreement. */
  lemma ForgetTargetAgrees(tsp: TargetView, stp: SourceView, t: FQRef)
    requires Agree(tsp, stp)
    ensures Agree(tsp - {t}, map s | s in stp :: stp[s] - {t})
  {
    ForgetTargetForward(tsp, stp, t);
    ForgetTargetBackward(tsp, stp, t);
  }

  lemma ForgetTargetForward(tsp: TargetView, stp: SourceView, t: FQRef)
    requires Forward(tsp, stp)
    ensures Forward(tsp - {t}, map s | s in stp :: stp[s] - {t})
  {
    var tsp' := tsp - {t};
    var stp' := map s | s in stp :: stp[s] - {t};
    forall t', s' | t' in tsp' && s' in tsp'[t'].items
      ensures s' in stp' && t' in stp'[s'] && stp'[s'][t'] == tsp'[t'].items[s']
    {
      assert t' in tsp && tsp'[t'] == tsp[t'];
      assert s' in stp && t' in stp[s'] && t' != t;
    }
  }

  lemma ForgetTargetBackward(tsp: TargetView, stp: SourceView, t: FQRef)
    requires Backward(tsp, stp)
    ensures Backward(tsp - {t}, map s | s in stp :: stp[s] - {t})
  {
    var stp' := map s | s in stp :: stp[s] - {t};
    forall s', t' | s' in stp' && t' in stp'[s'] ensures t' in tsp - {t} && s' in tsp[t'].items {
      assert t' in stp[s'];
    }
  }

  /** `stp` with `t` removed from the dictionaries of the sources in `done`. */
  function ForgetSome(stp: SourceView, done: seq<FQRef>, t: FQRef): SourceView {
    map s | s in stp :: if s in done then stp[s] - {t} else stp[s]
  }

  /** One more source done. */
  lemma ForgetOneMore(stp: SourceView, done: seq<FQRef>, s: FQRef, t: FQRef)
    requires s in stp
    ensures ForgetSome(stp, done, t)[s := ForgetSome(stp, done, t)[s] - {t}] == ForgetSome(stp, done + [s], t)
  {
    var before := ForgetSome(stp, done, t);
    var after := ForgetSome(stp, done + [s], t);
    assert forall x :: x in done + [s] <==> x in done || x == s;
    assert before[s := before[s] - {t}].Keys == after.Keys;
    forall x | x in after ensures before[s := before[s] - {t}][x] == after[x] {
      if x == s {
        assert before[s] - {t} == stp[s] - {t};
      }
    }
  }

  /**
   * The sources registered for target `t` are in the source view, and only
   * their dictionaries mention `t`: so removing `t` from theirs removes it
   * from every one.
   */
  lemma SourcesOfTarget(tsp: TargetView, stp: SourceView, t: FQRef)
    requires Agree(tsp, stp)
    ensures forall s | s in EntriesOf(tsp, t).keys :: s in stp
    ensures ForgetSome(stp, EntriesOf(tsp, t).keys, t) == map s | s in stp :: stp[s] - {t}
  {
    var sources := EntriesOf(tsp, t).keys;
    forall s | s in stp && s !in sources ensures stp[s] - {t} == stp[s] {
      assert t !in stp[s];
    }
  }

  /**
   * `refresh_from_job` on the target view: an unknown pair is ignored; the
   * stored PR must be for exactly these commits; then its entry takes the
   * job's state.
   */
  function RefreshJobSpec(o: Oracle, tsp: TargetView, source: FQSHA, target: FQSHA, job: Job): (r: Result<(TargetView, seq<Effect>)>)
    requires WellFormed(tsp)
    ensures r.Ok? ==> WellFormed(r.value.0)
    ensures r.Ok? ==> r.value.0.Keys == tsp.Keys
    ensures r.Ok? ==> forall t | t in tsp && t != target.ref :: r.value.0[t] == tsp[t]
    ensures source.ref !in EntriesOf(tsp, target.ref).items ==> r == Ok((tsp, []))
    ensures source.ref in EntriesOf(tsp, target.ref).items ==>
      var pr := EntriesOf(tsp, target.ref).items[source.ref];
      && (source.sha != pr.source.sha || target.sha != pr.target.sha ==> r == Err(AssertionFailed))
      && (source.sha == pr.source.sha && target.sha == pr.target.sha ==>
            var step := RefreshFromBatchJob(o, pr, job);
            && (r.Ok? <==> step.Ok?)
            && (r.Ok? ==> target.ref in r.value.0 && r.value.0[target.ref].items.Keys == EntriesOf(tsp, target.ref).items.Keys)
            && (r.Ok? ==> r.value.0[target.ref].items[source.ref] == step.value.pr && r.value.1 == step.value.effects))
  {
    var e := EntriesOf(tsp, target.ref);
    match e.Get(source.ref)
    case None => Ok((tsp, []))
    case Some(pr) =>
      if source.sha != pr.source.sha || target.sha != pr.target.sha then Err(AssertionFailed)
      else
        var step :- RefreshFromBatchJob(o, pr, job);
        var e' := e.Set(source.ref, step.pr);
        assert Keyed(e') && forall s | s in e'.items :: e'.items[s].target.ref == target.ref;
        Ok((tsp[target.ref := e'], step.effects))
  }

  /**
   * `pr_push(gh_pr)` on the target view: an unknown pair becomes a fresh PR
   * with its first build started, a known one takes GitHub's report.
   */
  function PrPushSpec(o: Oracle, tsp: TargetView, gh: GitHubPR): (r: Result<(TargetView, seq<Effect>)>)
    requires WellFormed(tsp)
    ensures r.Ok? ==> r.value.0.Keys == tsp.Keys + {gh.TargetRef()}
    ensures r.Ok? ==> gh.source.ref in r.value.0[gh.TargetRef()].items
    ensures r.Ok? ==> forall t | t in tsp && t != gh.TargetRef() :: r.value.0[t] == tsp[t]
  {
    var pushed :- PrPushEntries(o, EntriesOf(tsp, gh.TargetRef()), gh);
    Ok((tsp[gh.TargetRef() := pushed.0], pushed.1))
  }

  /**
   * `pr_push(gh_pr)` on the entries of the pull request's target: the pair
   * is stored with GitHub's commits, and every other PR is kept.
   */
  function PrPushEntries(o: Oracle, m: Entries, gh: GitHubPR): (r: Result<(Entries, seq<Effect>)>)
    requires m.Valid()
    ensures r.Ok? ==> r.value.0.Valid() && r.value.0.items.Keys == m.items.Keys + {gh.source.ref}
    ensures r.Ok? ==> r.value.0.items[gh.source.ref].source == gh.source
    ensures r.Ok? ==> r.value.0.items[gh.source.ref].target == gh.target
    ensures r.Ok? ==> forall s | s in m.items && s != gh.source.ref :: r.value.0.items[s] == m.items[s]
  {
    var step :- match m.Get(gh.source.ref)
                case None => ToPR(o, gh, true)
                case Some(pr) => UpdateFromGithubPr(o, pr, gh);
    Ok((m.Set(gh.source.ref, step.pr), step.effects))
  }

  /**
   * `push(new_target)` on the target view: nothing when the target has no
   * PRs; otherwise each of its PRs takes the push in order, then the target
   * is healed.
   */
  function PushSpec(o: Oracle, tsp: TargetView, newTarget: FQSHA): (r: Result<(TargetView, seq<Effect>)>)
    requires WellFormed(tsp)
    ensures EntriesOf(tsp, newTarget.ref).Values() == [] ==> r == Ok((tsp, []))
    ensures r.Ok? ==> r.value.0.Keys == tsp.Keys
    ensures r.Ok? ==> forall t | t in tsp && t != newTarget.ref :: r.value.0[t] == tsp[t]
  {
    var t := newTarget.ref;
    var m := EntriesOf(tsp, t);
    var prs := m.Values();
    if prs == [] then Ok((tsp, []))
    else
      var pushed :- Fold(m, prs, Pusher(o, newTarget));
      var healed :- HealTargetSpec(o, pushed.0);
      Ok((tsp[t := healed.0], pushed.1 + healed.1))
  }

  lemma UpdateTwice(tsp: TargetView, t: FQRef, a: Entries, b: Entries)
    ensures tsp[t := a][t := b] == tsp[t := b]
  {
  }

  /** PushSpec, read off the two phases of `push` when the target has PRs. */
  lemma PushSpecPhases(o: Oracle, tsp: TargetView, newTarget: FQSHA, pushed: Result<(Entries, seq<Effect>)>)
    requires WellFormed(tsp)
    requires EntriesOf(tsp, newTarget.ref).Values() != []
    requires pushed == Fold(EntriesOf(tsp, newTarget.ref), EntriesOf(tsp, newTarget.ref).Values(), Pusher(o, newTarget))
    ensures pushed.Err? ==> PushSpec(o, tsp, newTarget).Err?
    ensures pushed.Ok? ==>
      var healed := HealTargetSpec(o, pushed.value.0);
      && (healed.Err? ==> PushSpec(o, tsp, newTarget).Err?)
      && (healed.Ok? ==> PushSpec(o, tsp, newTarget) == Ok((tsp[newTarget.ref := healed.value.0], pushed.value.1 + healed.value.1)))
  {
  }

  /** The PR `heal_target` would merge is a registered PR of the target. */
  lemma LastReadyOfTarget(tsp: TargetView, t: FQRef)
    requires WellFormed(tsp)
    requires ReadyToMergeOf(EntriesOf(tsp, t).Values()) != []
    ensures var ready := ReadyToMergeOf(EntriesOf(tsp, t).Values());
            t in tsp && ready[|ready| - 1].target.ref == t
  {
    var m := EntriesOf(tsp, t);
    var ready := ReadyToMergeOf(m.Values());
    var pr := ready[|ready| - 1];
    assert pr in ready;
    var i :| 0 <= i < |m.Values()| && m.Values()[i] == pr;
    assert m.keys[i] in m.items;
  }

  /** Healing a target with a mergeable PR is `deploy` of the last one, read on the view. */
  lemma HealTargetByDeploy(o: Oracle, tsp: TargetView, t: FQRef, pr: PR)
    requires WellFormed(tsp) && t in tsp && pr.target.ref == t
    requires var ready := ReadyToMergeOf(tsp[t].Values()); ready != [] && pr == ready[|ready| - 1]
    ensures HealTargetSpec(o, tsp[t]) == DeploySpec(o, tsp[t], pr)
    ensures o.mergeStatus(pr) == 200 ==>
      tsp[t := DeploySpec(o, tsp[t], pr).value.0] == tsp[pr.target.ref := EntriesOf(tsp, pr.target.ref).Set(pr.source.ref, Merged(o, pr))]
    ensures o.mergeStatus(pr) == 409 ==>
      tsp[t := DeploySpec(o, tsp[t], pr).value.0] == tsp[pr.target.ref := tsp[pr.target.ref].Remove(pr.source.ref)]
  {
  }

  /** One more target healed: the targets still to do keep what they had. */
  lemma HealOneMore(o: Oracle, orig: TargetView, cur: TargetView, t: FQRef, todo: set<FQRef>, next: TargetView)
    requires forall x | x in orig :: orig[x].Valid()
    requires cur.Keys == orig.Keys && todo <= cur.Keys && t in todo
    requires forall x | x in todo :: cur[x] == orig[x]
    requires forall x | x in cur && x !in todo ::
      HealTargetSpec(o, orig[x]).Ok? && cur[x] == HealTargetSpec(o, orig[x]).value.0
    requires HealTargetSpec(o, EntriesOf(cur, t)).Ok?
    requires next == cur[t := HealTargetSpec(o, EntriesOf(cur, t)).value.0]
    ensures next.Keys == orig.Keys && todo - {t} <= next.Keys
    ensures forall x | x in todo - {t} :: next[x] == orig[x]
    ensures forall x | x in next && x !in todo - {t} ::
      HealTargetSpec(o, orig[x]).Ok? && next[x] == HealTargetSpec(o, orig[x]).value.0
  {
    assert EntriesOf(cur, t) == orig[t];
    forall x | x in todo - {t} ensures next[x] == orig[x] {
      assert x != t && next[x] == cur[x];
    }
    HealedSoFar(o, orig, cur, t, todo, next);
  }

  /** One more target healed: the targets done, and `t`, are as healing made them. */
  lemma HealedSoFar(o: Oracle, orig: TargetView, cur: TargetView, t: FQRef, todo: set<FQRef>, next: TargetView)
    requires forall x | x in orig :: orig[x].Valid()
    requires cur.Keys == orig.Keys && t in todo && t in cur && cur[t] == orig[t]
    requires forall x | x in cur && x !in todo ::
      HealTargetSpec(o, orig[x]).Ok? && cur[x] == HealTargetSpec(o, orig[x]).value.0
    requires HealTargetSpec(o, orig[t]).Ok?
    requires next == cur[t := HealTargetSpec(o, orig[t]).value.0]
    ensures forall x | x in next && x !in todo - {t} ::
      HealTargetSpec(o, orig[x]).Ok? && next[x] == HealTargetSpec(o, orig[x]).value.0
  {
    forall x | x in next && x !in todo - {t}
      ensures HealTargetSpec(o, orig[x]).Ok? && next[x] == HealTargetSpec(o, orig[x]).value.0
    {
      if x != t {
        assert x in cur && x !in todo && next[x] == cur[x];
      }
    }
  }

  // ---------------------------------------------------------------- the registry

  /**
   * `PRS`: `tsp` is `target_source_pr` (target ref -> source ref -> PR, the
   * inner dictionaries in insertion order) and `stp` is `source_target_pr`
   * (source ref -> target ref -> PR). Either may keep an empty inner
   * dictionary after a removal, as the source's do.
   */
  class PRS {
    var tsp: map<FQRef, Entries>
    var stp: map<FQRef, map<FQRef, PR>>

    /** The views agree; see Agree. */
    ghost predicate Valid()
      reads this
    {
      Agree(tsp, stp)
    }

    constructor()
      ensures Valid()
      ensures tsp == map[] && stp == map[]
    {
      tsp := map[];
      stp := map[];
    }

    /** The entries of target `t`; none when `t` is not registered. */
    function Entries(t: FQRef): (r: Entries)
      reads this
      requires Valid()
      ensures r.Valid() && Keyed(r)
      ensures t !in tsp ==> r.items == map[]
    {
      EntriesOf(tsp, t)
    }

    /** Every stored PR. */
    ghost function Stored(): set<PR>
      reads this
    {
      set t, s | t in tsp && s in tsp[t].items :: tsp[t].items[s]
    }

    /**
     * `_get(source, target)`: the PR stored for the pair, found through
     * either view, and stored under its own refs.
     */
    function Get(s: FQRef, t: FQRef): (r: Option<PR>)
      reads this
      requires Valid()
      ensures r.Some? <==> s in stp && t in stp[s]
      ensures r.Some? ==> r.value == stp[s][t] && r.value in Stored()
      ensures r.Some? ==> r.value.source.ref == s && r.value.target.ref == t
    {
      if t in tsp && s in tsp[t].items then Some(tsp[t].items[s]) else None
    }

    /** `for_target`: the target's PRs in insertion order. */
    function ForTarget(t: FQRef): (r: seq<PR>)
      reads this
      requires Valid()
      ensures forall p | p in r :: p in Stored() && p.target.ref == t
      ensures forall p | p in Stored() && p.target.ref == t :: p in r
    {
      ValuesKeyed(Entries(t));
      Entries(t).Values()
    }

    /** `ready_to_merge`: the target's mergeable PRs, in insertion order. */
    function ReadyToMerge(t: FQRef): (r: seq<PR>)
      reads this
      requires Valid()
      ensures forall p :: p in r <==> p in Stored() && p.target.ref == t && p.IsMergeable()
    {
      ReadyToMergeOf(ForTarget(t))
    }

    /**
     * `exists(source, target)`: some stored PR is for exactly these two
     * commits.
     */
    function Exists(s: FQSHA, t: FQSHA): (r: bool)
      reads this
      requires Valid()
      ensures r <==> exists p | p in Stored() :: p.source == s && p.target == t
    {
      match Get(s.ref, t.ref)
      case None => false
      case Some(pr) => pr.source.sha == s.sha && pr.target.sha == t.sha
    }

    /** `_set(source, target, pr)` */
    method SetPair(s: FQRef, t: FQRef, pr: PR)
      requires Valid()
      requires pr.source.ref == s && pr.target.ref == t
      modifies this
      ensures Valid()
      ensures tsp == old(tsp)[t := old(Entries(t)).Set(s, pr)]
      ensures stp == old(stp)[s := TargetsOf(old(stp), s)[t := pr]]
    {
      SetAgrees(tsp, stp, s, t, pr);
      tsp := tsp[t := EntriesOf(tsp, t).Set(s, pr)];
      stp := stp[s := TargetsOf(stp, s)[t := pr]];
    }

    /** `_pop(source, target)`: the pair leaves both views; the PR it held is returned. */
    method Pop(s: FQRef, t: FQRef) returns (r: Option<PR>)
      requires Valid()
      modifies this
      ensures Valid()
      ensures r == old(Get(s, t))
      ensures tsp == if t in old(tsp) then old(tsp)[t := old(tsp)[t].Remove(s)] else old(tsp)
      ensures stp == if s in old(stp) then old(stp)[s := old(stp)[s] - {t}] else old(stp)
    {
      r := Get(s, t);
      PopAgrees(tsp, stp, s, t);
      tsp := PopTargets(tsp, s, t);
      stp := PopSources(stp, s, t);
    }

    /** `forget(source, target)` */
    method Forget(s: FQRef, t: FQRef)
      requires Valid()
      modifies this
      ensures Valid()
      ensures tsp == if t in old(tsp) then old(tsp)[t := old(tsp)[t].Remove(s)] else old(tsp)
      ensures stp == if s in old(stp) then old(stp)[s := old(stp)[s] - {t}] else old(stp)
    {
      var _ := Pop(s, t);
    }

    /** `forget_target(target)`: every pair with target `t` leaves both views. */
    method ForgetTarget(t: FQRef)
      requires Valid()
      modifies this
      ensures Valid()
      ensures tsp == old(tsp) - {t}
      ensures stp == map s | s in old(stp) :: old(stp)[s] - {t}
    {
      ForgetTargetAgrees(tsp, stp, t);
      var sources := Entries(t).keys;
      SourcesOfTarget(tsp, stp, t);
      ghost var before := stp;
      tsp := tsp - {t};
      var i := 0;
      while i < |sources|
        invariant 0 <= i <= |sources|
        invariant tsp == old(tsp) - {t}
        invariant stp == ForgetSome(before, sources[..i], t)
      {
        assert sources[..i + 1] == sources[..i] + [sources[i]];
        ForgetOneMore(before, sources[..i], sources[i], t);
        stp := stp[sources[i] := stp[sources[i]] - {t}];
        i := i + 1;
      }
      assert sources[..i] == sources;
    }

    /**
     * `for pr in todo: _set(pr.source.ref, pr.target.ref, f(pr))` for PRs of
     * target `t`, stopping at the first update that raises.
     */
    method ApplyAll(t: FQRef, todo: seq<PR>, f: PR -> Result<Step>) returns (r: Result<seq<Effect>>)
      requires Valid()
      requires forall p | p in todo :: p.target.ref == t
      requires forall p | p in todo :: f(p).Ok? ==> SameRefs(f(p).value.pr, p)
      modifies this
      ensures Valid()
      ensures var spec := Fold(old(Entries(t)), todo, f);
              && (r.Ok? <==> spec.Ok?)
              && (r.Ok? ==> r.value == spec.value.1)
              && (r.Ok? ==> tsp == if t in old(tsp) || todo != [] then old(tsp)[t := spec.value.0] else old(tsp))
    {
      var i := 0;
      var effects := [];
      ghost var m := Entries(t);
      assert todo[i..] == todo;
      PrependNothing(Fold(m, todo, f));
      while i < |todo|
        invariant 0 <= i <= |todo|
        invariant Valid()
        invariant m.Valid() && EntriesOf(tsp, t) == m
        invariant tsp == if t in old(tsp) || i > 0 then old(tsp)[t := m] else old(tsp)
        invariant Fold(old(Entries(t)), todo, f) == Prepend(effects, Fold(m, todo[i..], f))
      {
        var p := todo[i];
        assert p in todo;
        var step := f(p);
        if step.Err? {
          FoldStepFails(m, todo, i, f);
          return Err(step.error);
        }
        FoldAdvance(old(Entries(t)), m, todo, i, f, effects);
        ghost var next := m.Set(p.source.ref, step.value.pr);
        SetPair(p.source.ref, p.target.ref, step.value.pr);
        UpdateTwice(old(tsp), t, m, next);
        m := next;
        effects := effects + step.value.effects;
        i := i + 1;
      }
      return Ok(effects);
    }

    /** `build_next(target)`: rebuild the PRs ToBuild picks for the target. */
    method BuildNext(o: Oracle, t: FQRef) returns (r: Result<seq<Effect>>)
      requires Valid()
      modifies this
      ensures Valid()
      ensures var spec := Fold(old(Entries(t)), ToBuild(old(ForTarget(t))), Builder(o));
              && (r.Ok? <==> spec.Ok?)
              && (r.Ok? ==> r.value == spec.value.1)
              && (r.Ok? ==> tsp == if t in old(tsp) then old(tsp)[t := spec.value.0] else old(tsp))
    {
      var toBuild := ToBuild(ForTarget(t));
      r := ApplyAll(t, toBuild, Builder(o));
    }

    /**
     * `deploy(pr)`: ask GitHub to merge; on 200 store the merged PR, on 409
     * forget the pair, on any other status raise and change nothing.
     */
    method Deploy(o: Oracle, pr: PR) returns (r: Result<seq<Effect>>)
      requires Valid()
      modifies this
      ensures Valid()
      ensures o.mergeStatus(pr) in {200, 409} ==> r == Ok([MergeRequested(pr.number, pr.source.sha)])
      ensures o.mergeStatus(pr) == 200 ==>
        tsp == old(tsp)[pr.target.ref := old(Entries(pr.target.ref)).Set(pr.source.ref, Merged(o, pr))]
      ensures o.mergeStatus(pr) == 409 ==>
        tsp == if pr.target.ref in old(tsp) then old(tsp)[pr.target.ref := old(tsp)[pr.target.ref].Remove(pr.source.ref)] else old(tsp)
      ensures o.mergeStatus(pr) !in {200, 409} ==>
        r == Err(MergeRejected(o.mergeStatus(pr))) && tsp == old(tsp) && stp == old(stp)
    {
      var code := o.mergeStatus(pr);
      if code == 200 {
        SetPair(pr.source.ref, pr.target.ref, Merged(o, pr));
      } else if code == 409 {
        Forget(pr.source.ref, pr.target.ref);
      } else {
        return Err(MergeRejected(code));
      }
      return Ok([MergeRequested(pr.number, pr.source.sha)]);
    }

    /** `heal_target(target)`: merge the last mergeable PR, or else build the next ones. */
    method HealTarget(o: Oracle, t: FQRef) returns (r: Result<seq<Effect>>)
      requires Valid()
      modifies this
      ensures Valid()
      ensures var spec := HealTargetSpec(o, old(Entries(t)));
              && (r.Ok? <==> spec.Ok?)
              && (r.Ok? ==> r.value == spec.value.1)
              && (r.Ok? ==> tsp == if t in old(tsp) then old(tsp)[t := spec.value.0] else old(tsp))
    {
      var ready := ReadyToMergeOf(Entries(t).Values());
      if |ready| != 0 {
        var pr := ready[|ready| - 1];
        LastReadyOfTarget(tsp, t);
        HealTargetByDeploy(o, tsp, t, pr);
        r := Deploy(o, pr);
      } else {
        r := BuildNext(o, t);
      }
    }

    /**
     * `heal()`: heal every registered target. Healing a target touches only
     * that target's entries, so whatever the order, each target ends as its
     * own HealTargetSpec says, and no target is added or removed.
     */
    method Heal(o: Oracle) returns (r: Result<seq<Effect>>)
      requires Valid()
      modifies this
      ensures Valid()
      ensures r.Ok? ==> tsp.Keys == old(tsp).Keys
      ensures r.Ok? ==> forall t | t in tsp ::
        HealTargetSpec(o, old(tsp)[t]).Ok? && tsp[t] == HealTargetSpec(o, old(tsp)[t]).value.0
    {
      var todo := tsp.Keys;
      var effects := [];
      while todo != {}
        invariant Valid()
        invariant tsp.Keys == old(tsp).Keys && todo <= tsp.Keys
        invariant forall t | t in todo :: tsp[t] == old(tsp)[t]
        invariant forall t | t in tsp && t !in todo ::
          HealTargetSpec(o, old(tsp)[t]).Ok? && tsp[t] == HealTargetSpec(o, old(tsp)[t]).value.0
        decreases todo
      {
        var t :| t in todo;
        ghost var before := tsp;
        var healed := HealTarget(o, t);
        if healed.Err? {
          return Err(healed.error);
        }
        HealOneMore(o, old(tsp), before, t, todo, tsp);
        effects := effects + healed.value;
        todo := todo - {t};
      }
      return Ok(effects);
    }

    /**
     * `push(new_target)`: the target branch moved. Nothing happens when the
     * target has no PRs; otherwise every PR of the target takes the push,
     * in order, and then the target is healed.
     */
    method Push(o: Oracle, newTarget: FQSHA) returns (r: Result<seq<Effect>>)
      requires Valid()
      modifies this
      ensures Valid()
      ensures old(ForTarget(newTarget.ref)) == [] ==> r == Ok([]) && tsp == old(tsp) && stp == old(stp)
      ensures var spec := PushSpec(o, old(tsp), newTarget);
              (r.Ok? <==> spec.Ok?) && (r.Ok? ==> r.value == spec.value.1 && tsp == spec.value.0)
    {
      var prs := ForTarget(newTarget.ref);
      if |prs| == 0 {
        assert EntriesOf(tsp, newTarget.ref).Values() == [];
        return Ok([]);
      }
      r := PushAndHeal(o, newTarget, prs);
    }

    /** The two phases of `push` for a target that has PRs. */
    method PushAndHeal(o: Oracle, newTarget: FQSHA, prs: seq<PR>) returns (r: Result<seq<Effect>>)
      requires Valid()
      requires prs == ForTarget(newTarget.ref) && prs != []
      modifies this
      ensures Valid()
      ensures var spec := PushSpec(o, old(tsp), newTarget);
              (r.Ok? <==> spec.Ok?) && (r.Ok? ==> r.value == spec.value.1 && tsp == spec.value.0)
    {
      var t := newTarget.ref;
      assert prs == EntriesOf(tsp, t).Values();
      PusherKeepsRefs(o, newTarget, prs);
      ghost var before := tsp;
      ghost var folded := Fold(EntriesOf(tsp, t), prs, Pusher(o, newTarget));
      PushSpecPhases(o, tsp, newTarget, folded);
      var pushed := ApplyAll(t, prs, Pusher(o, newTarget));
      if pushed.Err? {
        return pushed;
      }
      assert tsp == before[t := folded.value.0];
      var healed := HealTarget(o, t);
      if healed.Err? {
        return healed;
      }
      UpdateTwice(before, t, folded.value.0, HealTargetSpec(o, folded.value.0).value.0);
      return Ok(pushed.value + healed.value);
    }

    /**
     * `pr_push(gh_pr)`: a pull request was opened or has new commits. An
     * unknown pair becomes a fresh PR whose first build is started; a known
     * one takes GitHub's report.
     */
    method PrPush(o: Oracle, gh: GitHubPR) returns (r: Result<seq<Effect>>)
      requires Valid()
      modifies this
      ensures Valid()
      ensures var known := old(Get(gh.source.ref, gh.TargetRef()));
              var step := if known.None? then ToPR(o, gh, true) else UpdateFromGithubPr(o, known.value, gh);
              && (r.Ok? <==> step.Ok?)
              && (r.Ok? ==> r.value == step.value.effects)
              && (r.Ok? ==> tsp == old(tsp)[gh.TargetRef() := old(Entries(gh.TargetRef())).Set(gh.source.ref, step.value.pr)])
              && (r.Err? ==> tsp == old(tsp) && stp == old(stp))
      ensures var spec := PrPushSpec(o, old(tsp), gh);
              (r.Ok? <==> spec.Ok?) && (r.Ok? ==> r.value == spec.value.1 && tsp == spec.value.0)
    {
      var known := Get(gh.source.ref, gh.TargetRef());
      var step := if known.None? then ToPR(o, gh, true) else UpdateFromGithubPr(o, known.value, gh);
      if step.Err? {
        return Err(step.error);
      }
      SetPair(gh.source.ref, gh.TargetRef(), step.value.pr);
      return Ok(step.value.effects);
    }

    /**
     * `review(gh_pr, state)`: record a review verdict, registering an
     * unknown pair as a fresh PR first (without starting a build).
     */
    method Review(o: Oracle, gh: GitHubPR, state: Pulls.Review)
      requires Valid()
      modifies this
      ensures Valid()
      ensures var known := old(Get(gh.source.ref, gh.TargetRef()));
              var base := if known.None? then ToPR(o, gh, false).value.pr else known.value;
              tsp == old(tsp)[gh.TargetRef() := old(Entries(gh.TargetRef())).Set(gh.source.ref, UpdateFromGithubReviewState(base, state))]
    {
      var known := Get(gh.source.ref, gh.TargetRef());
      var base := if known.None? then ToPR(o, gh, false).value.pr else known.value;
      SetPair(gh.source.ref, gh.TargetRef(), UpdateFromGithubReviewState(base, state));
    }

    /**
     * `build_finished(source, target, job)`: a job's completion callback.
     * Ignored for an unknown pair; otherwise the PR takes the completed job
     * and the target is healed.
     */
    method BuildFinished(o: Oracle, source: FQSHA, target: FQSHA, job: Job) returns (r: Result<seq<Effect>>)
      requires Valid()
      modifies this
      ensures Valid()
      ensures old(Get(source.ref, target.ref)).None? ==> r == Ok([]) && tsp == old(tsp) && stp == old(stp)
      ensures old(Get(source.ref, target.ref)).Some? ==>
        var step := UpdateFromCompletedBatchJob(o, old(Get(source.ref, target.ref)).value, job);
        && (step.Err? ==> r == Err(step.error) && tsp == old(tsp) && stp == old(stp))
        && (step.Ok? ==>
              var stored := old(tsp)[target.ref].Set(source.ref, step.value.pr);
              && (r.Ok? <==> HealTargetSpec(o, stored).Ok?)
              && (r.Ok? ==> r.value == step.value.effects + HealTargetSpec(o, stored).value.1)
              && (r.Ok? ==> tsp == old(tsp)[target.ref := HealTargetSpec(o, stored).value.0]))
    {
      var known := Get(source.ref, target.ref);
      if known.None? {
        return Ok([]);
      }
      var step := UpdateFromCompletedBatchJob(o, known.value, job);
      if step.Err? {
        return Err(step.error);
      }
      ghost var before := tsp;
      ghost var stored := tsp[target.ref].Set(source.ref, step.value.pr);
      SetPair(source.ref, target.ref, step.value.pr);
      assert tsp == before[target.ref := stored];
      var healed := HealTarget(o, target.ref);
      if healed.Err? {
        return healed;
      }
      UpdateTwice(before, target.ref, stored, HealTargetSpec(o, stored).value.0);
      return Ok(step.value.effects + healed.value);
    }

    /**
     * `refresh_from_job(source, target, job)`: fold in a job's current
     * state. Ignored for an unknown pair; the stored PR must be for exactly
     * these commits.
     */
    method RefreshFromJob(o: Oracle, source: FQSHA, target: FQSHA, job: Job) returns (r: Result<seq<Effect>>)
      requires Valid()
      modifies this
      ensures Valid()
      ensures old(Get(source.ref, target.ref)).None? ==> r == Ok([]) && tsp == old(tsp) && stp == old(stp)
      ensures old(Get(source.ref, target.ref)).Some? && !old(Exists(source, target)) ==>
        r == Err(AssertionFailed) && tsp == old(tsp) && stp == old(stp)
      ensures var spec := RefreshJobSpec(o, old(tsp), source, target, job);
              && (r.Ok? <==> spec.Ok?)
              && (r.Ok? ==> r.value == spec.value.1 && tsp == spec.value.0)
              && (r.Err? ==> tsp == old(tsp) && stp == old(stp))
    {
      var known := Get(source.ref, target.ref);
      if known.None? {
        return Ok([]);
      }
      if source.sha != known.value.source.sha || target.sha != known.value.target.sha {
        return Err(AssertionFailed);
      }
      var step := RefreshFromBatchJob(o, known.value, job);
      if step.Err? {
        return Err(step.error);
      }
      SetPair(source.ref, target.ref, step.value.pr);
      return Ok(step.value.effects);
    }

    /**
     * `refresh_from_github_build_status(gh_pr, status)`: fold in the build
     * state GitHub reports, registering an unknown pair as a fresh PR first.
     */
    method RefreshFromGithubBuildStatus(o: Oracle, gh: GitHubPR, status: BuildState) returns (r: Result<()>)
      requires Valid()
      modifies this
      ensures Valid()
      ensures var known := old(Get(gh.source.ref, gh.TargetRef()));
              var base := if known.None? then ToPR(o, gh, false).value.pr else known.value;
              var updated := UpdateFromGithubStatus(base, status);
              && (r.Ok? <==> updated.Ok?)
              && (r.Ok? ==> tsp == old(tsp)[gh.TargetRef() := old(Entries(gh.TargetRef())).Set(gh.source.ref, updated.value)])
              && (r.Err? ==> tsp == old(tsp) && stp == old(stp))
    {
      var known := Get(gh.source.ref, gh.TargetRef());
      var base := if known.None? then ToPR(o, gh, false).value.pr else known.value;
      var updated := UpdateFromGithubStatus(base, status);
      if updated.Err? {
        return Err(updated.error);
      }
      SetPair(gh.source.ref, gh.TargetRef(), updated.value);
      return Ok(());
    }

    /** `build(source, target)`: rebuild a registered PR; an unknown pair raises. */
    method Build(o: Oracle, s: FQRef, t: FQRef) returns (r: Result<seq<Effect>>)
      requires Valid()
      modifies this
      ensures Valid()
      ensures old(Get(s, t)).None? ==> r == Err(NoSuchPR) && tsp == old(tsp) && stp == old(stp)
      ensures old(Get(s, t)).Some? ==>
        var step := Pulls.Build(o, old(Get(s, t)).value);
        && (r.Ok? <==> step.Ok?)
        && (r.Ok? ==> r.value == step.value.effects && tsp == old(tsp)[t := old(tsp)[t].Set(s, step.value.pr)])
        && (r.Err? ==> tsp == old(tsp) && stp == old(stp))
    {
      var known := Get(s, t);
      if known.None? {
        return Err(NoSuchPR);
      }
      var step := Pulls.Build(o, known.value);
      if step.Err? {
        return Err(step.error);
      }
      SetPair(s, t, step.value.pr);
      return Ok(step.value.effects);
    }
  }
}
