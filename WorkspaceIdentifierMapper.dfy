/** `TuistWorkspaceIdentifierMapper`: marks a generated workspace by asking
    for a known file inside its `.xcworkspace` directory. The name of that
    file (`Constants.tuistGeneratedFileName`) is a parameter; the debug log
    line is not modelled. */
module WorkspaceIdentifierMapper {
  import opened Wrappers
  import opened Paths
  import opened SideEffects
  import opened Graph
  import opened Mappers

  /** `map(workspace:)`: never throws, returns the workspace unchanged and
      exactly one file descriptor, `tuistGeneratedFileName` inside the
      workspace's `xcWorkspacePath`, with no contents, to be present. */
  function TuistWorkspaceIdentifierMapper(tuistGeneratedFileName: string, workspace: WorkspaceWithProjects)
    : (r: MapResult<WorkspaceWithProjects>)
    ensures r.Success? && r.value.0 == workspace
    ensures |r.value.1| == 1 && r.value.1[0].File?
    ensures r.value.1[0].file.path.components
         == workspace.workspace.xcWorkspacePath.components + [tuistGeneratedFileName]
    ensures r.value.1[0].file.contents.None? && r.value.1[0].file.state == Present
  {
    var descriptor := FileAt(Appending(workspace.workspace.xcWorkspacePath, tuistGeneratedFileName));
    Success((workspace, [File(descriptor)]))
  }

  /** The mapper as a pipeline stage. */
  function AsWorkspaceMapper(tuistGeneratedFileName: string): Mapper<WorkspaceWithProjects>
  {
    (w: WorkspaceWithProjects) => TuistWorkspaceIdentifierMapper(tuistGeneratedFileName, w)
  }

  /** Mapping the mapped workspace again gives the same workspace and the
      same descriptor. */
  lemma MappingTwiceIsStable(tuistGeneratedFileName: string, workspace: WorkspaceWithProjects)
    ensures var once := TuistWorkspaceIdentifierMapper(tuistGeneratedFileName, workspace);
            TuistWorkspaceIdentifierMapper(tuistGeneratedFileName, once.value.0) == once
  {
  }

  /** In a sequential workspace pipeline run twice, the workspace comes out
      unchanged and the same descriptor is emitted once per run. */
  lemma TwiceInPipeline(tuistGeneratedFileName: string, workspace: WorkspaceWithProjects)
    ensures var m := AsWorkspaceMapper(tuistGeneratedFileName);
            var d := TuistWorkspaceIdentifierMapper(tuistGeneratedFileName, workspace).value.1[0];
            Sequential([m, m], workspace) == Success((workspace, [d, d]))
  {
    var m := AsWorkspaceMapper(tuistGeneratedFileName);
    SequentialTwo(m, m, workspace);
    var d := TuistWorkspaceIdentifierMapper(tuistGeneratedFileName, workspace).value.1[0];
    assert [d] + [d] == [d, d];
  }
}
