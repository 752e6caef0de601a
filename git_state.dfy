/**
 * Identity values: a repository, a branch of a repository, and a commit on a
 * branch. They are immutable, compared field by field, hashed over the same
 * fields, and used as keys everywhere else.
 */
module GitState {
  import opened Wrappers
  import opened Json

  datatype Repo = Repo(owner: string, name: string)

  /** A fully qualified ref: a branch name within a repository. */
  datatype FQRef = FQRef(repo: Repo, ref: string)

  /** A fully qualified sha: a commit sha on a fully qualified ref. */
  datatype FQSHA = FQSHA(ref: FQRef, sha: string)

  // ---------------------------------------------------------------- equality

  /** `Repo.__eq__` */
  function RepoEq(a: Repo, b: Repo): (r: bool)
    ensures r <==> a == b
  {
    a.owner == b.owner && a.name == b.name
  }

  /** `Repo.__ne__` */
  function RepoNe(a: Repo, b: Repo): (r: bool)
    ensures r <==> a != b
  {
    !RepoEq(a, b)
  }

  /** `FQRef.__eq__` */
  function RefEq(a: FQRef, b: FQRef): (r: bool)
    ensures r <==> a == b
  {
    RepoEq(a.repo, b.repo) && a.ref == b.ref
  }

  /** `FQRef.__ne__` */
  function RefNe(a: FQRef, b: FQRef): (r: bool)
    ensures r <==> a != b
  {
    !RefEq(a, b)
  }

  /** `FQSHA.__eq__` */
  function ShaEq(a: FQSHA, b: FQSHA): (r: bool)
    ensures r <==> a == b
  {
    RefEq(a.ref, b.ref) && a.sha == b.sha
  }

  /** `FQSHA.__ne__` */
  function ShaNe(a: FQSHA, b: FQSHA): (r: bool)
    ensures r <==> a != b
  {
    !ShaEq(a, b)
  }

  // ---------------------------------------------------------------- hashing

  /** The tuple `Repo.__hash__` hashes. */
  function RepoHashKey(r: Repo): (string, string) {
    (r.owner, r.name)
  }

  /** The tuple `FQRef.__hash__` hashes; its first component is hashed as a Repo. */
  function RefHashKey(r: FQRef): ((string, string), string) {
    (RepoHashKey(r.repo), r.ref)
  }

  type ShaKey = (((string, string), string), string)

  /** The tuple `FQSHA.__hash__` hashes. */
  function ShaHashKey(s: FQSHA): ShaKey {
    (RefHashKey(s.ref), s.sha)
  }

  /**
   * Each hash is taken over exactly what equality compares, so whatever
   * function `h` hashes the tuple, equal values hash equally; and values with
   * equal hash keys are equal.
   */
  lemma HashAgreesWithEquality(h: ShaKey -> int, a: FQSHA, b: FQSHA)
    ensures RepoEq(a.ref.repo, b.ref.repo) <==> RepoHashKey(a.ref.repo) == RepoHashKey(b.ref.repo)
    ensures RefEq(a.ref, b.ref) <==> RefHashKey(a.ref) == RefHashKey(b.ref)
    ensures ShaEq(a, b) <==> ShaHashKey(a) == ShaHashKey(b)
    ensures ShaEq(a, b) ==> h(ShaHashKey(a)) == h(ShaHashKey(b))
  {
  }

  // ---------------------------------------------------------------- JSON

  /** `Repo.to_json`: the owner under `owner`, the name under `name`, and nothing else. */
  function RepoToJson(repo: Repo): (d: Json)
    ensures d.JObject? && d.fields.Keys == {"owner", "name"}
    ensures StrAt(d, ["owner"]) == Some(repo.owner) && StrAt(d, ["name"]) == Some(repo.name)
  {
    JObject(map["owner" := JStr(repo.owner), "name" := JStr(repo.name)])
  }

  /** `FQRef.to_json`, with the repository written as its own document. */
  function RefToJson(ref: FQRef): (d: Json)
    ensures d.JObject? && d.fields.Keys == {"repo", "ref"}
    ensures StrAt(d, ["repo", "owner"]) == Some(ref.repo.owner) && StrAt(d, ["repo", "name"]) == Some(ref.repo.name)
    ensures StrAt(d, ["ref"]) == Some(ref.ref)
  {
    var d := JObject(map["repo" := RepoToJson(ref.repo), "ref" := JStr(ref.ref)]);
    assert At(d, ["repo", "owner"]) == At(RepoToJson(ref.repo), ["owner"]);
    assert At(d, ["repo", "name"]) == At(RepoToJson(ref.repo), ["name"]);
    d
  }

  /** `FQSHA.to_json`, with the ref written as its own document. */
  function ShaToJson(s: FQSHA): (d: Json)
    ensures d.JObject? && d.fields.Keys == {"ref", "sha"}
    ensures StrAt(d, ["ref", "repo", "owner"]) == Some(s.ref.repo.owner)
    ensures StrAt(d, ["ref", "repo", "name"]) == Some(s.ref.repo.name)
    ensures StrAt(d, ["ref", "ref"]) == Some(s.ref.ref) && StrAt(d, ["sha"]) == Some(s.sha)
  {
    var d := JObject(map["ref" := RefToJson(s.ref), "sha" := JStr(s.sha)]);
    assert At(d, ["ref", "repo", "owner"]) == At(RefToJson(s.ref), ["repo", "owner"]);
    assert At(d, ["ref", "repo", "name"]) == At(RefToJson(s.ref), ["repo", "name"]);
    assert At(d, ["ref", "ref"]) == At(RefToJson(s.ref), ["ref"]);
    d
  }

  /**
   * `FQSHA.from_json`, the reader of the documents `to_json` writes; it is
   * called on job attributes but not defined by the source.
   */
  function ShaFromJson(d: Json): (r: Option<FQSHA>)
    ensures r.Some? <==>
      && StrAt(d, ["ref", "repo", "owner"]).Some? && StrAt(d, ["ref", "repo", "name"]).Some?
      && StrAt(d, ["ref", "ref"]).Some? && StrAt(d, ["sha"]).Some?
    ensures r.Some? ==> r.value == FQSHA(FQRef(Repo(StrAt(d, ["ref", "repo", "owner"]).value,
                                                    StrAt(d, ["ref", "repo", "name"]).value),
                                               StrAt(d, ["ref", "ref"]).value),
                                         StrAt(d, ["sha"]).value)
  {
    var owner := StrAt(d, ["ref", "repo", "owner"]);
    var name := StrAt(d, ["ref", "repo", "name"]);
    var branch := StrAt(d, ["ref", "ref"]);
    var sha := StrAt(d, ["sha"]);
    if owner.Some? && name.Some? && branch.Some? && sha.Some? then
      Some(FQSHA(FQRef(Repo(owner.value, name.value), branch.value), sha.value))
    else None
  }

  /** Reading back what `to_json` wrote gives the same commit. */
  lemma {:induction false} ShaJsonRoundTrip(s: FQSHA)
    ensures ShaFromJson(ShaToJson(s)) == Some(s)
  {
  }

  /** `Repo.from_gh_json`: owner from `owner.login`, name from `name`. */
  function RepoFromGhJson(d: Json): (r: Option<Repo>)
    ensures r.Some? <==> StrAt(d, ["owner", "login"]).Some? && StrAt(d, ["name"]).Some?
    ensures r.Some? ==> r.value.owner == StrAt(d, ["owner", "login"]).value
    ensures r.Some? ==> r.value.name == StrAt(d, ["name"]).value
  {
    var owner := StrAt(d, ["owner", "login"]);
    var name := StrAt(d, ["name"]);
    if owner.Some? && name.Some? then Some(Repo(owner.value, name.value)) else None
  }

  /**
   * `FQSHA.from_gh_json` on the `head` or `base` object of a pull request:
   * owner from `repo.owner.login`, name from `repo.name`, branch from `ref`
   * and sha from `sha`. A missing field (a KeyError) gives None.
   */
  function ShaFromGhJson(d: Json): (r: Option<FQSHA>)
    ensures r.Some? <==>
      && StrAt(d, ["repo", "owner", "login"]).Some? && StrAt(d, ["repo", "name"]).Some?
      && StrAt(d, ["ref"]).Some? && StrAt(d, ["sha"]).Some?
    ensures r.Some? ==>
      && r.value.ref.repo.owner == StrAt(d, ["repo", "owner", "login"]).value
      && r.value.ref.repo.name == StrAt(d, ["repo", "name"]).value
      && r.value.ref.ref == StrAt(d, ["ref"]).value
      && r.value.sha == StrAt(d, ["sha"]).value
  {
    var repo := match Field(d, "repo") case Some(j) => RepoFromGhJson(j) case None => None;
    var branch := StrAt(d, ["ref"]);
    var sha := StrAt(d, ["sha"]);
    assert Field(d, "repo").Some? ==>
      && At(d, ["repo", "owner", "login"]) == At(Field(d, "repo").value, ["owner", "login"])
      && At(d, ["repo", "name"]) == At(Field(d, "repo").value, ["name"]);
    if repo.Some? && branch.Some? && sha.Some? then
      Some(FQSHA(FQRef(repo.value, branch.value), sha.value))
    else None
  }
}
