/** Deferred effects: what a mapper asks to be done to the file system or by
    a process, returned instead of performed. The order of a list of
    descriptors is meaningful. */
module SideEffects {
  import opened Wrappers
  import opened Paths

  type Data = seq<bv8>

  /** Whether the described file or directory should exist afterwards. */
  datatype DescriptorState = Present | Absent

  /** `FileDescriptor(path:contents:state:)`; `contents` is nil by default. */
  datatype FileDescriptor = FileDescriptor(path: AbsolutePath, contents: Option<Data>, state: DescriptorState)

  /** `CommandDescriptor(command:)`: the argument vector of a process. */
  datatype CommandDescriptor = CommandDescriptor(command: seq<string>)

  datatype DirectoryDescriptor = DirectoryDescriptor(path: AbsolutePath, state: DescriptorState)

  datatype SideEffectDescriptor =
    | File(file: FileDescriptor)
    | Command(command: CommandDescriptor)
    | Directory(directory: DirectoryDescriptor)

  /** `FileDescriptor(path:)` with its default contents and state. */
  function FileAt(path: AbsolutePath): (d: FileDescriptor)
  {
    FileDescriptor(path, None, Present)
  }
}
