/** The project scaffolding command's name check, the same rule as for spiders. */
module CreateProjects {
  import opened Common
  import CreateSpiders

  /** `CreateProject(project_name)`: the field check_name uses. */
  datatype CreateProject = CreateProject(projectName: string)

  /**
   * CreateProject.check_name: True for a letter followed by letters,
   * digits and underscores, NameError for anything else, including the
   * empty name.
   */
  function CheckName(p: CreateProject): (r: Result<bool>)
    ensures r.Ok? <==> CreateSpiders.ValidName(p.projectName)
    ensures r.Ok? ==> r.value
    ensures r.Err? ==> r.error == NameError
  {
    var name := p.projectName;
    var m := CreateSpiders.WordPrefix(name);
    if !(|name| > 0 && CreateSpiders.DigitOrUnderscore(name[0])) && m > 0 && m == |name| then Ok(true)
    else Err(NameError)
  }
}
