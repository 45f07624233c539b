/** The project manager of the older layout, where a project lives either
    in `projects/<project>` or under some enterprise. Its project
    identifiers and its matching history are those of
    `UnifiedProjectManager`; what differs is how it finds the project
    directory, and that it loads a matching from the `historique` folder
    only. */
module ProjectManager {
  import opened Wrappers
  import opened JsonValue
  import opened UnifiedProjectManager

  /** The first enterprise directory, in listing order, holding the
      project. */
  function FirstEnterpriseProject(enterpriseDirs: seq<string>, projectId: string, fs: Files): (r: Option<nat>)
    ensures r.Some? ==> r.value < |enterpriseDirs|
    ensures r.Some? ==> enterpriseDirs[r.value] in fs.dirs && fs.Exists(Join(Join(enterpriseDirs[r.value], "projects"), projectId))
    ensures forall i :: 0 <= i < |enterpriseDirs| && (r.None? || i < r.value) ==>
      !(enterpriseDirs[i] in fs.dirs && fs.Exists(Join(Join(enterpriseDirs[i], "projects"), projectId)))
    decreases |enterpriseDirs|
  {
    if enterpriseDirs == [] then None
    else if enterpriseDirs[0] in fs.dirs && fs.Exists(Join(Join(enterpriseDirs[0], "projects"), projectId)) then Some(0)
    else
      var rest := FirstEnterpriseProject(enterpriseDirs[1..], projectId, fs);
      if rest.None? then None else Some(rest.value + 1)
  }

  /** `get_project_path`: `projects/<project>` when it exists, else the
      project folder of the first listed enterprise directory that has
      one, else `None`. */
  function GetProjectPath(projectsFolder: string, enterprises: string, enterpriseDirs: seq<string>,
                          projectId: string, fs: Files): (r: Option<string>)
    ensures r.Some? ==> fs.Exists(r.value)
    ensures fs.Exists(Join(projectsFolder, projectId)) ==> r == Some(Join(projectsFolder, projectId))
    ensures !fs.Exists(Join(projectsFolder, projectId)) ==>
      if !fs.Exists(enterprises) then r.None?
      else
        var k := FirstEnterpriseProject(enterpriseDirs, projectId, fs);
        r == if k.None? then None else Some(Join(Join(enterpriseDirs[k.value], "projects"), projectId))
  {
    var legacy := Join(projectsFolder, projectId);
    if fs.Exists(legacy) then Some(legacy)
    else if !fs.Exists(enterprises) then None
    else
      var k := FirstEnterpriseProject(enterpriseDirs, projectId, fs);
      if k.None? then None else Some(Join(Join(enterpriseDirs[k.value], "projects"), projectId))
  }

  /** `load_matching` of the older manager: only
      `historique/<timestamp>.json` is read, and an unknown project or a
      missing file gives `None`. */
  function LoadMatching(projectDir: Option<string>, timestamp: string, fs: Files): (r: Result<Option<Json>>)
    ensures projectDir.None? ==> r == Ok(None)
    ensures projectDir.Some? && fs.Exists(OldResultPath(projectDir.value, timestamp)) ==>
      r == Found(Load(fs, OldResultPath(projectDir.value, timestamp)))
    ensures projectDir.Some? && !fs.Exists(OldResultPath(projectDir.value, timestamp)) ==> r == Ok(None)
  {
    if projectDir.None? then Ok(None)
    else
      var file := OldResultPath(projectDir.value, timestamp);
      if !fs.Exists(file) then Ok(None) else Found(Load(fs, file))
  }

  /** The two managers load the same result from a project directory that
      has no current-layout file for the timestamp; when it has one, the
      older manager ignores it and may answer `None`. */
  lemma LoadMatchingAgrees(projectDir: string, timestamp: string, fs: Files)
    ensures !fs.Exists(NewResultPath(projectDir, timestamp)) ==>
      LoadMatching(Some(projectDir), timestamp, fs) == ResultInDir(fs, projectDir, timestamp)
    ensures fs.Exists(NewResultPath(projectDir, timestamp)) && !fs.Exists(OldResultPath(projectDir, timestamp)) ==>
      LoadMatching(Some(projectDir), timestamp, fs) == Ok(None) && ResultInDir(fs, projectDir, timestamp) != Ok(None)
  {
  }
}
