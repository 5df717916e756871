/** The graph entities the mappers transform: projects, their targets and
    workspaces. Only the fields the modelled mappers read or write are kept. */
module Graph {
  import opened Wrappers
  import opened Paths
  import opened SideEffects

  /** A property-list value (`Plist.Value`). */
  datatype PlistValue =
    | PlistString(s: string)
    | PlistInteger(i: int)
    | PlistReal(x: real)
    | PlistBoolean(b: bool)
    | PlistDictionary(entries: map<string, PlistValue>)
    | PlistArray(items: seq<PlistValue>)

  /** How a target's Info.plist is provided. */
  datatype InfoPlist =
    | InfoPlistFile(path: AbsolutePath)
    | InfoPlistDictionary(content: map<string, PlistValue>)
    | ExtendingDefault(extendedWith: map<string, PlistValue>)
    | GeneratedFile(path: AbsolutePath, data: Data)

  /** `InfoPlist.path`: the file an Info.plist refers to, if any. */
  function InfoPlistPath(infoPlist: InfoPlist): Option<AbsolutePath>
  {
    match infoPlist
    case InfoPlistFile(path) => Some(path)
    case GeneratedFile(path, _) => Some(path)
    case _ => None
  }

  datatype Target = Target(name: string, infoPlist: Option<InfoPlist>)

  /** A project; `targets` holds the values of the project's name-keyed target
      dictionary in the dictionary's iteration order. */
  datatype Project = Project(name: string, path: AbsolutePath, targets: seq<Target>)

  datatype Workspace = Workspace(name: string, path: AbsolutePath, xcWorkspacePath: AbsolutePath, projects: seq<AbsolutePath>)

  datatype WorkspaceWithProjects = WorkspaceWithProjects(workspace: Workspace, projects: seq<Project>)

  function TargetNames(targets: seq<Target>): (names: seq<string>)
  {
    seq(|targets|, i requires 0 <= i < |targets| => targets[i].name)
  }
}
