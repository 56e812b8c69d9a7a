/** The merge plan: the four configuration fields the scripts read and the
    check that rejects a plan before any command is issued. */
module Plans {
  import opened Commands

  /** The configuration after `config.get`: None stands for a key that is absent
      or holds JSON null. */
  datatype Config = Config(
    sourceBranch: Option<string>,
    targetBranch: Option<string>,
    workingDir: Option<string>,
    revisions: Option<seq<Revision>>)

  /** A plan that passed validation. */
  datatype Plan = Plan(
    sourceBranch: string,
    targetBranch: string,
    workingDir: string,
    revisions: seq<Revision>)

  /** Python truthiness of an optional string: present and non-empty. */
  predicate Truthy(s: Option<string>)
  {
    s.Some? && s.value != ""
  }

  /** `config.get("revisions", [])`: an absent or null list is an empty one. */
  function RevisionsOrEmpty(c: Config): seq<Revision>
  {
    match c.revisions
    case None => []
    case Some(rs) => rs
  }

  /** The plan, or None when any of the four fields is falsy. */
  function Validate(c: Config): (r: Option<Plan>)
    ensures r.Some? <==>
      Truthy(c.sourceBranch) && Truthy(c.targetBranch) && Truthy(c.workingDir)
      && RevisionsOrEmpty(c) != []
    ensures r.Some? ==>
      && r.value.sourceBranch != "" && c.sourceBranch == Some(r.value.sourceBranch)
      && r.value.targetBranch != "" && c.targetBranch == Some(r.value.targetBranch)
      && r.value.workingDir != "" && c.workingDir == Some(r.value.workingDir)
      && r.value.revisions != [] && c.revisions == Some(r.value.revisions)
  {
    if Truthy(c.sourceBranch) && Truthy(c.targetBranch) && Truthy(c.workingDir)
       && RevisionsOrEmpty(c) != []
    then Some(Plan(c.sourceBranch.value, c.targetBranch.value, c.workingDir.value, RevisionsOrEmpty(c)))
    else None
  }
}
