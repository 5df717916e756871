# Tuist graph pipeline core, modelled in Dafny

This project models three parts of Tuist, the Xcode project generator, and proves properties about them.

- **Copy-files fingerprinting** (`CopyFilesHashing.dfy`). `CopyFilesContentHasher.hash(identifier:copyFiles:)` turns a target's copy-files build phases into a Merkle tree.
  - The root has one node per action. Each action node has `name`, `destination` and `files` children, plus an optional `subpath` child.
  - The `files` node holds one node per file, sorted by path. Each file node has `content`, `isReference` and `codeSignOnCopy` children, plus an optional `condition` child.
  - Every composite hash is the combiner applied to the node's children's hashes.
  - The digest, file reading, the platform-condition hasher and the combiner are collaborators. They are function-valued fields, and each one can fail. The first failure aborts the computation.
- **The mapper pipeline.**
  - `Mappers.dfy`: sequential composition of mappers (`SequentialProjectMapper`), and the lifting of a target mapper to a project mapper (`TargetProjectMapper`), as their tests pin them.
  - `WorkspaceIdentifierMapper.dfy`: `TuistWorkspaceIdentifierMapper`.
  - `GenerateInfoPlistMapper.dfy`: `GenerateInfoPlistProjectMapper`. A dictionary Info.plist is used as it is, and one that extends the default is filled in by the injected `InfoPlistContentProvider`. Either way the dictionary is written to a derived file, and the target is repointed at that file.
  - A mapper returns a new entity plus a list of side-effect descriptors (`SideEffects.dfy`). These are file, command or directory requests.
- **The decision logic of `tuist init`** (`InitService.dfy`):
  - which template attributes are offered as required or optional options;
  - how `parseAttributes` merges the defaults with the command-line options;
  - how the template directory, the project name and the platform are chosen;
  - when the target directory counts as non-empty;
  - `InitServiceError.type`.

  `GenerationOptions.dfy` models the two `GenerationOptions.options(...)` factories of the `Config` manifest.

`Wrappers.dfy` holds `Option`, `Result` and the fail-fast map `MapAll`, which is Swift's `try xs.map { ... }`. `Paths.dfy` holds absolute paths, as the component lists the path library reports, and the order on path strings. `Graph.dfy` holds the project, target, workspace and Info.plist entities.

The hasher, the mappers and the option factories are pure, and are modelled as datatypes, recursive functions and lemmas. `InitService.dfy` is mixed. The two `reduce(into:)` passes there update an accumulator step by step, so they are methods with loops (`PartitionAttributes`, `ParseAttributes`). Each is proved equal to a prefix-recursive specification function, and the properties are lemmas about those functions.

## Model

| member | source | states |
|---|---|---|
| Wrappers.MapAll | Sources/TuistHasher/CopyFilesContentHasher.swift:25-62 | `try xs.map`: succeeds iff every element succeeds. Then it has one result per element, in order. Otherwise it fails with the error of the first failing element, and every earlier element succeeded. |
| CopyFilesHashing.SortByPath | Sources/TuistHasher/CopyFilesContentHasher.swift:30 | The files sorted by path: a permutation of the input that is ordered by path string. |
| CopyFilesHashing.SortedUnique | Sources/TuistHasher/CopyFilesContentHasher.swift:30 | Two path-sorted permutations of the same files are equal when files sharing a path are identical. |
| CopyFilesHashing.SortByPathPermutationInvariant | Sources/TuistHasher/CopyFilesContentHasher.swift:30 | Reordering the files does not change their sorted order, under the same condition. |
| CopyFilesHashing.FileChildren | Sources/TuistHasher/CopyFilesContentHasher.swift:31-41 | On failure, the error is that of the first hasher call that throws, in the order `content` (`hash(path:)`), `isReference`, `codeSignOnCopy`, condition. On success there are 3 children, or 4 with a condition. They are labelled `content`, `isReference` and `codeSignOnCopy`, and each holds its hasher's result. The fourth is the condition hasher's node. If no collaborator fails, it succeeds. |
| CopyFilesHashing.HashFile | Sources/TuistHasher/CopyFilesContentHasher.swift:31-46 | On failure, the error is the children's first error, or else the combiner's. In particular, a `hash(path:)` failure is the file's failure. On success, the node is identified by the file's path. Its children are `content`, `isReference` and `codeSignOnCopy`, plus the condition hasher's node when a condition is present. Each leaf holds its hasher's result, and the node's hash is the combiner over its children. If no collaborator fails, it succeeds. |
| CopyFilesHashing.FileNodes | Sources/TuistHasher/CopyFilesContentHasher.swift:30-47 | On failure, the error is that of the first file, in path order, whose node fails, and every earlier file's node succeeded. |
| CopyFilesHashing.FilesNode | Sources/TuistHasher/CopyFilesContentHasher.swift:30-52 | On failure, the error is that of the first failing file node in path order, or else the combiner's. The `files` node has one child per file: the file nodes of the path-sorted files. Their identifiers are in path order, and its hash is the combiner over them. If no collaborator fails, it succeeds. |
| CopyFilesHashing.ActionChildren | Sources/TuistHasher/CopyFilesContentHasher.swift:26-56 | On failure, the error is that of the first call that throws, in the order `name`, `destination`, the files node, `subpath`. On success, the children are labelled exactly `name`, `destination`, `files`, plus `subpath` only when set. The leaves hold their hashers' results, and the third child is the files node. If no collaborator fails, it succeeds. |
| CopyFilesHashing.HashAction | Sources/TuistHasher/CopyFilesContentHasher.swift:26-61 | On failure, the error is the children's first error, or else the combiner's. On success, the node is identified by the action name. Its children are labelled exactly `name`, `destination`, `files`, plus `subpath` only when set. Each leaf holds its hasher's result, the third child is the action's files node, and the node's hash is the combiner over its children. If no collaborator fails, it succeeds. |
| CopyFilesHashing.HashCopyFiles | Sources/TuistHasher/CopyFilesContentHasher.swift:24-69 | On failure, the error is that of the first action, in input order, whose node fails, with every earlier action succeeding, or else the combiner's. A failing action therefore always fails the call. On success, the root carries the caller's identifier and has one child per action, in input order. Each child is that action's node, and the root hash is the combiner over them. If no collaborator fails (`CollaboratorsSucceed`: no unreadable file, and no throwing digest, combiner or condition hasher), it succeeds. |
| CopyFilesHashing.UnreadableFileAbortsHash | Sources/TuistHasher/CopyFilesContentHasher.swift:25-32 | If `hash(path:)` fails for any file of any action, the whole call fails and no node is returned. Suppose that path is the only unreadable one and no other collaborator throws. Then the call fails with exactly the error reading that file raised. |
| CopyFilesHashing.FileFailureIsUnreadable | Sources/TuistHasher/CopyFilesContentHasher.swift:31-46 | When only reading a file can fail, a failing file node carries the error `hash(path:)` raised for that file. |
| CopyFilesHashing.FilesFailureIsUnreadable | Sources/TuistHasher/CopyFilesContentHasher.swift:30-52 | When only reading a file can fail, a failing `files` node carries the `hash(path:)` error of one of the listed files. |
| CopyFilesHashing.ActionFailureIsUnreadable | Sources/TuistHasher/CopyFilesContentHasher.swift:26-61 | When only reading a file can fail, a failing action node carries the `hash(path:)` error of one of the action's files. |
| CopyFilesHashing.HashCopyFilesFailureIsUnreadable | Sources/TuistHasher/CopyFilesContentHasher.swift:24-69 | When only reading a file can fail, the call fails only with the `hash(path:)` error of a file that some action refers to. |
| CopyFilesHashing.HashCopyFilesSucceedsIffFilesReadable | Sources/TuistHasher/CopyFilesContentHasher.swift:24-69 | When only reading a file can fail, the call succeeds exactly when every file that some action refers to can be read. |
| CopyFilesHashing.FilesOrderDoesNotChangeActionHash | Sources/TuistHasher/CopyFilesContentHasher.swift:30-52 | Permuting an action's files leaves its node, and so its `files` child and its hash, unchanged. This holds when files sharing a path are identical, for example when paths are distinct. |
| CopyFilesHashing.HashActionDependsOnFilesNode | Sources/TuistHasher/CopyFilesContentHasher.swift:26-61 | Two actions with the same name, destination and subpath, and the same file nodes, have the same action result, failures included. |
| CopyFilesHashing.FilesOrderDoesNotChangeFingerprint | Sources/TuistHasher/CopyFilesContentHasher.swift:24-69 | The same holds for the root result when the files of one action are permuted. |
| CopyFilesHashing.SubpathPresenceChangesActionHash | Sources/TuistHasher/CopyFilesContentHasher.swift:54-60 | Under an injective combiner, adding a subpath changes the action hash. |
| CopyFilesHashing.ConditionPresenceChangesFileHash | Sources/TuistHasher/CopyFilesContentHasher.swift:36-45 | Under an injective combiner, adding a platform condition changes the file hash. |
| CopyFilesHashing.ContentChangesFileHash | Sources/TuistHasher/CopyFilesContentHasher.swift:31-46 | Under an injective combiner, a different content hash for the file's path changes the file hash. |
| CopyFilesHashing.ContentChangesFilesHash | Sources/TuistHasher/CopyFilesContentHasher.swift:30-52 | Under an injective combiner, a different content hash for any file changes the hash of the `files` node. |
| CopyFilesHashing.ContentChangesActionHash | Sources/TuistHasher/CopyFilesContentHasher.swift:30-61 | The same for any file of an action: the action hash changes. |
| CopyFilesHashing.ContentChangesFingerprint | Sources/TuistHasher/CopyFilesContentHasher.swift:24-69 | The same for any file of any action: the root hash changes. |
| CopyFilesHashing.ContentChangesFingerprintWhenNothingFails | Sources/TuistHasher/CopyFilesContentHasher.swift:24-69 | When no collaborator fails, before or after the change, both fingerprints exist. Under an injective combiner, a different content hash for any file of any action changes the root hash. |
| Mappers.Sequential | Tests/TuistCoreTests/Graph/Mappers/ProjectMapperTests.swift:70-112 | `SequentialProjectMapper.map`: an empty pipeline succeeds with no side effects, and a one-mapper pipeline is that mapper. The composition laws below (append, first failure, threading, side-effect order) are lemmas about it. |
| Mappers.SequentialEmpty | Tests/TuistCoreTests/Graph/Mappers/ProjectMapperTests.swift:70-87 | A pipeline with no mappers returns the entity with no side effects. |
| Mappers.SequentialSingleton | Tests/TuistCoreTests/Graph/Mappers/ProjectMapperTests.swift:70-87 | A pipeline of one mapper behaves as that mapper, failures included. |
| Mappers.SequentialTwo | Tests/TuistCoreTests/Graph/Mappers/ProjectMapperTests.swift:70-112 | In a two-mapper pipeline, the second mapper sees the first one's output, and the side effects come out as the first one's followed by the second one's. |
| Mappers.SequentialAppend | Tests/TuistCoreTests/Graph/Mappers/ProjectMapperTests.swift:70-112 | Running `ms1 + ms2` is running `ms1`, then `ms2` on its output entity, with the side effects of `ms1` first. |
| Mappers.SequentialFailsAtFirstFailingStage | Tests/TuistCoreTests/Graph/Mappers/ProjectMapperTests.swift:122 | `map(project:)` is declared `throws`, and under Swift's throw semantics the first error propagates unchanged. So a failing pipeline fails with exactly the error of some mapper `k`, applied to the entity the first `k` mappers produced, and those `k` mappers all succeeded. |
| Mappers.SequentialWithoutSideEffects | Tests/TuistCoreTests/Graph/Mappers/ProjectMapperTests.swift:86 | If no mapper emits side effects, the pipeline emits none. |
| Mappers.SequentialThreadsProject | Tests/TuistCoreTests/Graph/Mappers/ProjectMapperTests.swift:72-86 | `[Update1_, Update2_]` turns "Project" into "Update2_Update1_Project", with no side effects. |
| Mappers.SequentialConcatenatesSideEffects | Tests/TuistCoreTests/Graph/Mappers/ProjectMapperTests.swift:89-111 | The side effects are `[command 1, command 2]`, in mapper order. |
| Mappers.SequentialOrderMatters | Tests/TuistCoreTests/Graph/Mappers/ProjectMapperTests.swift:70-112 | Swapping two mappers changes the resulting name (Y_X_T against X_Y_T) and reverses the order of their side effects. |
| Mappers.TargetProjectMapper | Tests/TuistCoreTests/Graph/Mappers/ProjectMapperTests.swift:10-53 | Succeeds iff the target mapper succeeds on every target. On failure, the error is that of the first target, in iteration order, whose mapping throws, and every earlier target succeeded. On success only the targets change, the number of targets is kept, and each target is replaced by its mapped value. The side effects, as a multiset, are the union of every target's side effects. |
| Mappers.TargetSideEffectsIncluded | Tests/TuistCoreTests/Graph/Mappers/ProjectMapperTests.swift:35-52 | Every side effect one target's mapping emits is among the merged side effects. |
| Mappers.SideEffectsOfTargetsPermutation | Tests/TuistCoreTests/Graph/Mappers/ProjectMapperTests.swift:49-52 | The merged side effects do not depend on the order in which the target dictionary yields its targets. |
| Mappers.MappedTargetsPermutation | Tests/TuistCoreTests/Graph/Mappers/ProjectMapperTests.swift:26-29 | Neither do success, the mapped targets (as a multiset) or the side effects (as a multiset). |
| Mappers.NoTargetSideEffectsNoProjectSideEffects | Tests/TuistCoreTests/Graph/Mappers/ProjectMapperTests.swift:14-30 | A target mapper that emits nothing makes the lifted mapper emit nothing. |
| Mappers.TargetNamesPermutation | Tests/TuistCoreTests/Graph/Mappers/ProjectMapperTests.swift:26 | Permuted targets have permuted names, which is why the test sorts the names. |
| Mappers.TargetProjectMapperRenamesEveryTarget | Tests/TuistCoreTests/Graph/Mappers/ProjectMapperTests.swift:10-31 | Targets A and B, in either dictionary order, become Updated_A and Updated_B: two targets out, and no side effects. |
| Mappers.RenamingTargetSideEffects | Tests/TuistCoreTests/Graph/Mappers/ProjectMapperTests.swift:35-39 | The test's target mapper emits one file descriptor, `/Targets/<name>.swift`. |
| Mappers.TargetProjectMapperMergesSideEffects | Tests/TuistCoreTests/Graph/Mappers/ProjectMapperTests.swift:33-53 | For targets A and B the side effects are, as a multiset, exactly the files `/Targets/A.swift` and `/Targets/B.swift`. |
| Paths.Appending | Sources/TuistKit/Mappers/Workspace/TuistWorkspaceIdentifierMapper.swift:13-20 | `appending(component:)` adds exactly one last component and keeps the others. |
| WorkspaceIdentifierMapper.TuistWorkspaceIdentifierMapper | Sources/TuistKit/Mappers/Workspace/TuistWorkspaceIdentifierMapper.swift:10-25 | Never fails and returns the workspace unchanged. It emits exactly one side effect: a file at `xcWorkspacePath/<tuistGeneratedFileName>`, with no contents, to be present. |
| WorkspaceIdentifierMapper.MappingTwiceIsStable | Sources/TuistKit/Mappers/Workspace/TuistWorkspaceIdentifierMapper.swift:10-25 | Mapping the mapped workspace again gives the same workspace and the same descriptor. |
| WorkspaceIdentifierMapper.TwiceInPipeline | Sources/TuistKit/Mappers/Workspace/TuistWorkspaceIdentifierMapper.swift:10-25 | Run twice in a pipeline, the mapper leaves the workspace unchanged and emits the same descriptor twice. |
| GenerateInfoPlistMapper.GeneratedContent | Tests/TuistGeneratorTests/ProjectMappers/GenerateInfoPlistProjectMapperTests.swift:16-21 | The dictionary to generate. A dictionary Info.plist gives its own content. One extending the default gives what the injected content provider returns for the project, the target and the extra entries. Any other kind of Info.plist, or none, gives nothing. |
| GenerateInfoPlistMapper.DerivedInfoPlistPath | Tests/TuistGeneratorTests/ProjectMappers/GenerateInfoPlistProjectMapperTests.swift:84-86 | The derived path is the project path followed by the two configured directory names and `<target>-Info.plist`. |
| GenerateInfoPlistMapper.MapTarget | Tests/TuistGeneratorTests/ProjectMappers/GenerateInfoPlistProjectMapperTests.swift:30-100 | One target. With nothing to generate, the target is returned unchanged with no side effect. Otherwise the call fails iff serialisation fails. On success the target keeps its name, its Info.plist refers to the derived path, and the single side effect is the file at that path holding the serialisation. |
| GenerateInfoPlistMapper.GenerateInfoPlist | Tests/TuistGeneratorTests/ProjectMappers/GenerateInfoPlistProjectMapperTests.swift:30-63 | `map(project:)`, which lifts `MapTarget` over the project's targets. On success the project keeps its name, its path and its number of targets. |
| GenerateInfoPlistMapper.GenerateInfoPlistFailsIffSerialisationFails | Tests/TuistGeneratorTests/ProjectMappers/GenerateInfoPlistProjectMapperTests.swift:16-37 | The mapping fails exactly when serialising the dictionary obtained for some target fails. |
| GenerateInfoPlistMapper.GenerateInfoPlistKeepsTargets | Tests/TuistGeneratorTests/ProjectMappers/GenerateInfoPlistProjectMapperTests.swift:16-41 | The number of targets is kept, and every mapped target keeps its name. A target for which no dictionary is obtained is unchanged. |
| GenerateInfoPlistMapper.GenerateInfoPlistDerivesEachTarget | Tests/TuistGeneratorTests/ProjectMappers/GenerateInfoPlistProjectMapperTests.swift:43-100 | For each target for which a dictionary is obtained, a file side effect at its derived path holds the serialisation of that dictionary. The mapped target's Info.plist refers to that path. |
| GenerateInfoPlistMapper.GenerateInfoPlistSideEffectCount | Tests/TuistGeneratorTests/ProjectMappers/GenerateInfoPlistProjectMapperTests.swift:16-40 | There is exactly one side effect per target for which a dictionary is obtained, and no other. |
| GenerateInfoPlistMapper.DictionaryTargetIsDerived | Tests/TuistGeneratorTests/ProjectMappers/GenerateInfoPlistProjectMapperTests.swift:67-101 | What the test's two assertion helpers check, for any target whose Info.plist is a dictionary: its derived file, holding the dictionary's serialisation, is among the side effects, and some mapped target refers to its path. |
| GenerateInfoPlistMapper.GenerateInfoPlistTwoDictionaryTargets | Tests/TuistGeneratorTests/ProjectMappers/GenerateInfoPlistProjectMapperTests.swift:30-101 | Targets A and B with dictionaries, in either dictionary order, give two side effects and two targets. The A and B derived files, holding their serialisations, are among the side effects, and some mapped target refers to each of them. |
| InitService.InitServiceError.Type | Sources/TuistKit/Services/InitService.swift:18-24 | Every init error aborts. |
| InitService.PlatformFromRawValue | Sources/TuistKit/Services/InitService.swift:257 | A platform is found only for its own raw value. Any string that is no raw value gives none. |
| InitService.PlatformArgument | Sources/TuistKit/Services/InitService.swift:255-265 | No argument gives iOS. A raw value gives its platform. Any other string fails with `invalidValue(argument: "platform", …)` and the fixed message. |
| InitService.PlatformArgumentRoundTrip | Sources/TuistKit/Services/InitService.swift:256-259 | Every platform is accepted under its raw value, and only under it. |
| InitService.ProjectName | Sources/TuistKit/Services/InitService.swift:237-245 | An explicit name is returned verbatim. Otherwise the name is the path's basename when the path has components. It fails with `ungettableProjectName(current path)` exactly when the path has none. |
| InitService.TemplateDirectory | Sources/TuistKit/Services/InitService.swift:230-234 | Succeeds iff some directory's basename is the template name, and returns the first such directory. Otherwise it fails with `templateNotFound(template)`. |
| InitService.DisallowedFiles | Sources/TuistKit/Services/InitService.swift:179-181 | The entries whose basename is neither `mise.toml` nor `.mise.toml`, and no others. |
| InitService.VerifyDirectoryIsEmpty | Sources/TuistKit/Services/InitService.swift:178-185 | Fails with `nonEmptyDirectory(path)` iff some entry's basename is not an allowed mise file. |
| InitService.PartitionAttributes | Sources/TuistKit/Services/InitService.swift:90-103 | The loop computes exactly the lists `RequiredOptions(attributes)` and `OptionalOptions(attributes)`, the prefix-recursive definitions the partition lemmas are about. |
| InitService.PartitionIsExact | Sources/TuistKit/Services/InitService.swift:91-103 | Every attribute lands in exactly one list: the two lists together are the attribute names, as a multiset. |
| InitService.PartitionIsSound | Sources/TuistKit/Services/InitService.swift:93-102 | A required option is the name of a `.required` attribute, never `name` or `platform`. An optional option is the name of an `.optional` attribute, or of one named `name` or `platform`. |
| InitService.PartitionPlacesEachAttribute | Sources/TuistKit/Services/InitService.swift:93-102 | An attribute named `name` or `platform`, or any `.optional` one, is in the optional list. Every other attribute is in the required list. |
| InitService.PartitionKeepsOrder | Sources/TuistKit/Services/InitService.swift:91-103 | Both lists keep template order: the partition of a concatenation is the concatenation of the partitions. |
| InitService.DefaultAttributes | Sources/TuistKit/Services/InitService.swift:198-204 | The defaults have exactly the keys name, platform, tuist_version, class_name and bundle_identifier. |
| InitService.ResolveAttribute | Sources/TuistKit/Services/InitService.swift:208-221 | One attribute fails iff it is `.required` and has no option. The error is then `attributeNotProvided(name)`. |
| InitService.ParseAttributes | Sources/TuistKit/Services/InitService.swift:190-223 | The loop, with its early throw, returns exactly `ParsedAttributes` of the defaults and the template's attributes, the prefix-recursive definition the parsing lemmas are about, including its failure. |
| InitService.ParseFailurePersists | Sources/TuistKit/Services/InitService.swift:205-211 | Once the pass has thrown, later attributes do not change the error. |
| InitService.ParsedAttributesKeepDefaults | Sources/TuistKit/Services/InitService.swift:205-206 | A template attribute never overrides a default. |
| InitService.ParsedAttributesKeys | Sources/TuistKit/Services/InitService.swift:205-222 | The result's keys are the defaults' keys and the attributes' names. |
| InitService.ParsedAttributesFailsIffMissingRequired | Sources/TuistKit/Services/InitService.swift:209-211 | The pass fails iff some non-default `.required` attribute has no option. It then fails with `attributeNotProvided` for the first such attribute. |
| InitService.ParsedAttributesLastOccurrenceWins | Sources/TuistKit/Services/InitService.swift:209-220 | A non-default name gets its value from its last occurrence. A required attribute gets `.string(option)`. An optional one gets `.string(value)` when given a non-nil value, and its default when the key is absent or nil. |
| InitService.ParseAttributesProvidesDefaults | Sources/TuistKit/Services/InitService.swift:198-206 | The result maps name, platform (its case value), tuist_version, class_name and bundle_identifier to their computed values. |
| GenerationOptions.Options | Sources/ProjectDescription/ConfigGenerationOptions.swift:53-74 | Every argument is copied into the field of the same name, and `enforceExplicitDependencies` is always false. |
| GenerationOptions.DeprecatedOptions | Sources/ProjectDescription/ConfigGenerationOptions.swift:81-101 | Copies its arguments, including `enforceExplicitDependencies`. `buildInsightsDisabled` and `disableSandbox` are forced to false. |
| GenerationOptions.DefaultOptions | Sources/ProjectDescription/ConfigGenerationOptions.swift:53-62 | `options()` has every flag false, no cloned-packages path, no default configuration, and the side-effects check on all targets. |
| GenerationOptions.DeprecatedOptionsAgreeWithOptions | Sources/ProjectDescription/ConfigGenerationOptions.swift:53-101 | The deprecated factory differs from the current one only in `enforceExplicitDependencies`. The two are equal iff that argument is false. |
| GenerationOptions.OnlyDeprecatedOptionsEnforceExplicitDependencies | Sources/ProjectDescription/ConfigGenerationOptions.swift:63-73 | No result of the current factory enforces explicit dependencies. |

## Left out

- Collaborators whose code is not part of this model are parameters or function-valued fields with no definition:
  - the digest behind `ContentHashing`, including reading file bytes for `hash(path:)`;
  - `PlatformConditionContentHasher`;
  - `PropertyListSerialization`;
  - `toValidSwiftIdentifier` and `toValidInBundleIdentifier`;
  - the template loaders, the template generator and the file-system glob.
- The values of `Constants.tuistGeneratedFileName`, `Constants.DerivedDirectory.name`, `Constants.DerivedDirectory.infoPlists` and `Constants.version` are parameters. The constants file is not part of this model.
- `Platform` is not part of this model. Its raw values (`ios`, `macos`, `tvos`, `watchos`, `visionos`) and case values (`iOS`, …) are written out from XcodeGraph's definition.
- The path library is not part of this model. A path is the list of components that library reports, so its parsing and normalisation and `AbsolutePath(validating:relativeTo:)` are left out. `InitService.path(_:)` is left out with them.
- `InitService.run` is left out, as are the loading half of `loadTemplateOptions`, git cloning, alerts and logging. These are I/O orchestration. Only the decisions they delegate to are modelled.
- `InitServiceError.description` and the other error texts are left out. Only the `invalidValue` message is kept, since it is part of the error value.
- The debug log line of `TuistWorkspaceIdentifierMapper` is left out.
- `async`/`await` in the mapper tests is left out. The pipeline is modelled sequentially.
- CopyFilesHashing.SortByPath: Swift's `sorted(by:)` is not stable, and the order it gives files that share a path is unspecified. The model picks one order. So permutation invariance is proved only when files sharing a path are identical.
- CopyFilesHashing.SubpathPresenceChangesActionHash: like the other hash-difference lemmas, it holds only under an explicitly assumed injective combiner. A real digest can collide.
- Mappers.TargetProjectMapper: a project's targets are a name-keyed dictionary. The model keeps them as a sequence in the dictionary's iteration order. It does not capture that renaming two targets to the same name would collapse them into one dictionary entry. Its order-dependent results are therefore stated as multisets, as the tests compare them.
- The file `GenerateInfoPlistProjectMapper.swift` is not part of this model. The mapper's behaviour is taken from its test and from the content provider that test injects:
  - a dictionary Info.plist is used as it is;
  - an Info.plist that extends the default is asked of `InfoPlistContentProvider.content(project:target:extendedWith:)`, a parameter whose own definition is not part of this model;
  - any other kind of Info.plist (a file, or one already generated) has nothing to generate.
- Paths.LessOrEqual: path strings are compared character by character. Swift's `String` comparison treats canonically equivalent spellings as equal, for example a precomposed `é` and an `e` followed by a combining accent. For paths that differ only in Unicode normalisation, the file order of `CopyFilesHashing.SortByPath` and the "same path" condition of the permutation lemmas can therefore differ from the program's.
