/** `GenerateInfoPlistProjectMapper`. For every target it obtains the
    Info.plist dictionary to generate: a target whose Info.plist is given as a
    dictionary uses that dictionary, a target whose Info.plist extends the
    default asks the injected `InfoPlistContentProvider`, and any other target
    has nothing to generate. When a dictionary is obtained, the target gets a
    derived `<name>-Info.plist` file under
    `<project>/<derivedDirectoryName>/<infoPlistsDirectoryName>/`, requested as
    a file side effect whose contents are the XML property-list serialisation
    of the dictionary, and the target is repointed at that file. The provider
    and the serialiser (`PropertyListSerialization`) are parameters. */
module GenerateInfoPlistMapper {
  import opened Wrappers
  import opened Paths
  import opened SideEffects
  import opened Graph
  import opened Mappers

  /** `InfoPlistContentProviding.content(project:target:extendedWith:)`: the
      default Info.plist for the target, extended with the given entries, or
      nothing when the provider has none for it. */
  type InfoPlistContentProvider = (Project, Target, map<string, PlistValue>) -> Option<map<string, PlistValue>>

  /** The mapper's configuration: its content provider and the two directory
      names it writes under. */
  datatype GenerateInfoPlistProjectMapper = GenerateInfoPlistProjectMapper(
    infoPlistContentProvider: InfoPlistContentProvider,
    derivedDirectoryName: string,
    infoPlistsDirectoryName: string)

  /** `PropertyListSerialization.data(fromPropertyList:format: .xml)`, which
      may throw. */
  type PlistSerializer = map<string, PlistValue> -> Result<Data, MapperError>

  /** The dictionary to generate for `target`, if any. */
  function GeneratedContent(mapper: GenerateInfoPlistProjectMapper, project: Project, target: Target)
    : (r: Option<map<string, PlistValue>>)
    ensures target.infoPlist.Some? && target.infoPlist.value.InfoPlistDictionary? ==>
              r == Some(target.infoPlist.value.content)
    ensures target.infoPlist.Some? && target.infoPlist.value.ExtendingDefault? ==>
              r == mapper.infoPlistContentProvider(project, target, target.infoPlist.value.extendedWith)
    ensures r.Some? ==> target.infoPlist.Some?
                        && (target.infoPlist.value.InfoPlistDictionary? || target.infoPlist.value.ExtendingDefault?)
  {
    match target.infoPlist
    case Some(InfoPlistDictionary(content)) => Some(content)
    case Some(ExtendingDefault(extendedWith)) => mapper.infoPlistContentProvider(project, target, extendedWith)
    case _ => None
  }

  /** Whether a dictionary is obtained for `target`. */
  predicate Generates(mapper: GenerateInfoPlistProjectMapper, project: Project, target: Target)
  {
    GeneratedContent(mapper, project, target).Some?
  }

  /** Where a target's derived Info.plist is written. */
  function DerivedInfoPlistPath(mapper: GenerateInfoPlistProjectMapper, project: Project, target: Target): (path: AbsolutePath)
    ensures path.components
         == project.path.components
            + [mapper.derivedDirectoryName, mapper.infoPlistsDirectoryName, target.name + "-Info.plist"]
  {
    Appending(Appending(Appending(project.path, mapper.derivedDirectoryName), mapper.infoPlistsDirectoryName),
              target.name + "-Info.plist")
  }

  /** The file side effect that writes a derived Info.plist. */
  function DerivedInfoPlistFile(path: AbsolutePath, data: Data): SideEffectDescriptor
  {
    File(FileDescriptor(path, Some(data), Present))
  }

  /** The mapping of one target of `project`: nothing to generate leaves the
      target alone with no side effect; otherwise the serialisation either
      throws or yields the one derived file the target is repointed at. */
  function MapTarget(mapper: GenerateInfoPlistProjectMapper, serialize: PlistSerializer, project: Project, target: Target)
    : (r: MapResult<Target>)
    ensures !Generates(mapper, project, target) ==> r == Success((target, []))
    ensures Generates(mapper, project, target) ==>
              var data := serialize(GeneratedContent(mapper, project, target).value);
              var path := DerivedInfoPlistPath(mapper, project, target);
              && (r.Success? <==> data.Success?)
              && (r.Success? ==>
                    && r.value.0.name == target.name
                    && r.value.0.infoPlist.Some?
                    && InfoPlistPath(r.value.0.infoPlist.value) == Some(path)
                    && r.value.1 == [DerivedInfoPlistFile(path, data.value)])
  {
    match GeneratedContent(mapper, project, target)
    case None => Success((target, []))
    case Some(content) =>
      var data :- serialize(content);
      var path := DerivedInfoPlistPath(mapper, project, target);
      Success((target.(infoPlist := Some(GeneratedFile(path, data))), [DerivedInfoPlistFile(path, data)]))
  }

  /** `map(project:)`: the project keeps its name and path and its number of
      targets. */
  function GenerateInfoPlist(mapper: GenerateInfoPlistProjectMapper, serialize: PlistSerializer, project: Project)
    : (r: MapResult<Project>)
    ensures r.Success? ==>
              && r.value.0.name == project.name
              && r.value.0.path == project.path
              && |r.value.0.targets| == |project.targets|
  {
    TargetProjectMapper((t: Target) => MapTarget(mapper, serialize, project, t), project)
  }

  /** The number of targets for which a dictionary is obtained. */
  function GeneratedTargetCount(mapper: GenerateInfoPlistProjectMapper, project: Project, targets: seq<Target>): nat
  {
    if targets == [] then 0
    else (if Generates(mapper, project, targets[0]) then 1 else 0) + GeneratedTargetCount(mapper, project, targets[1..])
  }

  // ---------------------------------------------------------------------------
  // Properties

  /** The mapping fails exactly when serialising the dictionary obtained for
      some target fails. */
  lemma GenerateInfoPlistFailsIffSerialisationFails(
    mapper: GenerateInfoPlistProjectMapper, serialize: PlistSerializer, project: Project)
    ensures GenerateInfoPlist(mapper, serialize, project).Failure?
        <==> exists i :: 0 <= i < |project.targets| && Generates(mapper, project, project.targets[i])
                         && serialize(GeneratedContent(mapper, project, project.targets[i]).value).Failure?
  {
    var f := (t: Target) => MapTarget(mapper, serialize, project, t);
    forall i | 0 <= i < |project.targets|
      ensures f(project.targets[i]).Failure?
          <==> Generates(mapper, project, project.targets[i])
               && serialize(GeneratedContent(mapper, project, project.targets[i]).value).Failure?
    {
    }
  }

  /** Every mapped target keeps its name; a target for which no dictionary is
      obtained is unchanged. */
  lemma GenerateInfoPlistKeepsTargets(mapper: GenerateInfoPlistProjectMapper, serialize: PlistSerializer, project: Project)
    requires GenerateInfoPlist(mapper, serialize, project).Success?
    ensures var mapped := GenerateInfoPlist(mapper, serialize, project).value.0;
            && |mapped.targets| == |project.targets|
            && (forall i :: 0 <= i < |project.targets| ==> mapped.targets[i].name == project.targets[i].name)
            && (forall i :: 0 <= i < |project.targets| && !Generates(mapper, project, project.targets[i]) ==>
                  mapped.targets[i] == project.targets[i])
  {
  }

  /** For each target for which a dictionary is obtained there is a file side
      effect at `<project>/<derived>/<infoPlists>/<name>-Info.plist` holding
      the dictionary's serialisation, and the mapped target's Info.plist is a
      reference to that path. */
  lemma GenerateInfoPlistDerivesEachTarget(
    mapper: GenerateInfoPlistProjectMapper, serialize: PlistSerializer, project: Project, i: nat)
    requires GenerateInfoPlist(mapper, serialize, project).Success?
    requires i < |project.targets| && Generates(mapper, project, project.targets[i])
    ensures var target := project.targets[i];
            var path := DerivedInfoPlistPath(mapper, project, target);
            var data := serialize(GeneratedContent(mapper, project, target).value);
            var (mapped, sideEffects) := GenerateInfoPlist(mapper, serialize, project).value;
            && data.Success?
            && DerivedInfoPlistFile(path, data.value) in sideEffects
            && mapped.targets[i].infoPlist.Some?
            && InfoPlistPath(mapped.targets[i].infoPlist.value) == Some(path)
  {
    var f := (t: Target) => MapTarget(mapper, serialize, project, t);
    var target := project.targets[i];
    var data := serialize(GeneratedContent(mapper, project, target).value);
    assert f(target).Success?;
    var file := DerivedInfoPlistFile(DerivedInfoPlistPath(mapper, project, target), data.value);
    assert TargetSideEffects(f, target) == [file];
    TargetSideEffectsIncluded(f, project.targets, i);
    assert file in multiset(GenerateInfoPlist(mapper, serialize, project).value.1);
  }

  /** One side effect per target for which a dictionary is obtained, and no
      other. */
  lemma GenerateInfoPlistSideEffectCount(mapper: GenerateInfoPlistProjectMapper, serialize: PlistSerializer, project: Project)
    requires GenerateInfoPlist(mapper, serialize, project).Success?
    ensures |GenerateInfoPlist(mapper, serialize, project).value.1| == GeneratedTargetCount(mapper, project, project.targets)
  {
    var f := (t: Target) => MapTarget(mapper, serialize, project, t);
    assert forall i :: 0 <= i < |project.targets| ==> f(project.targets[i]).Success?;
    SideEffectCount(mapper, serialize, project, project.targets);
    var sideEffects := GenerateInfoPlist(mapper, serialize, project).value.1;
    assert |multiset(sideEffects)| == |sideEffects|;
  }

  lemma {:induction false} SideEffectCount(
    mapper: GenerateInfoPlistProjectMapper, serialize: PlistSerializer, project: Project, targets: seq<Target>)
    requires forall i :: 0 <= i < |targets| ==> MapTarget(mapper, serialize, project, targets[i]).Success?
    ensures |SideEffectsOfTargets((t: Target) => MapTarget(mapper, serialize, project, t), targets)|
         == GeneratedTargetCount(mapper, project, targets)
  {
    if targets != [] {
      SideEffectCount(mapper, serialize, project, targets[1..]);
    }
  }

  lemma {:induction false} GeneratedTargetCountAll(mapper: GenerateInfoPlistProjectMapper, project: Project, targets: seq<Target>)
    requires forall i :: 0 <= i < |targets| ==> Generates(mapper, project, targets[i])
    ensures GeneratedTargetCount(mapper, project, targets) == |targets|
  {
    if targets != [] {
      assert Generates(mapper, project, targets[0]);
      GeneratedTargetCountAll(mapper, project, targets[1..]);
    }
  }

  /** A target of the project whose Info.plist is the dictionary `content`
      has its derived file among the side effects, and some mapped target
      refers to that file. */
  lemma DictionaryTargetIsDerived(
    mapper: GenerateInfoPlistProjectMapper, serialize: PlistSerializer, project: Project,
    target: Target, content: map<string, PlistValue>)
    requires GenerateInfoPlist(mapper, serialize, project).Success?
    requires target in project.targets && target.infoPlist == Some(InfoPlistDictionary(content))
    ensures serialize(content).Success?
    ensures var (mapped, sideEffects) := GenerateInfoPlist(mapper, serialize, project).value;
            var path := DerivedInfoPlistPath(mapper, project, target);
            && DerivedInfoPlistFile(path, serialize(content).value) in sideEffects
            && (exists t :: t in mapped.targets && t.infoPlist.Some? && InfoPlistPath(t.infoPlist.value) == Some(path))
  {
    var i :| 0 <= i < |project.targets| && project.targets[i] == target;
    assert GeneratedContent(mapper, project, target) == Some(content);
    GenerateInfoPlistDerivesEachTarget(mapper, serialize, project, i);
    var mapped := GenerateInfoPlist(mapper, serialize, project).value.0;
    assert mapped.targets[i] in mapped.targets;
  }

  /** The test scenario: targets "A" and "B" with dictionary Info.plists, in
      either dictionary order, give exactly two side effects and two targets;
      each derived file is among the side effects and some mapped target
      refers to it. */
  lemma GenerateInfoPlistTwoDictionaryTargets(
    mapper: GenerateInfoPlistProjectMapper, serialize: PlistSerializer, project: Project, a: Target, b: Target)
    requires a.name == "A" && a.infoPlist == Some(InfoPlistDictionary(map["A" := PlistString("A_VALUE")]))
    requires b.name == "B" && b.infoPlist == Some(InfoPlistDictionary(map["B" := PlistString("B_VALUE")]))
    requires multiset(project.targets) == multiset{a, b}
    requires serialize(map["A" := PlistString("A_VALUE")]).Success?
    requires serialize(map["B" := PlistString("B_VALUE")]).Success?
    ensures GenerateInfoPlist(mapper, serialize, project).Success?
    ensures var (mapped, sideEffects) := GenerateInfoPlist(mapper, serialize, project).value;
            var pathA := DerivedInfoPlistPath(mapper, project, a);
            var pathB := DerivedInfoPlistPath(mapper, project, b);
            && |sideEffects| == 2
            && |mapped.targets| == 2
            && DerivedInfoPlistFile(pathA, serialize(map["A" := PlistString("A_VALUE")]).value) in sideEffects
            && DerivedInfoPlistFile(pathB, serialize(map["B" := PlistString("B_VALUE")]).value) in sideEffects
            && (exists t :: t in mapped.targets && t.infoPlist.Some? && InfoPlistPath(t.infoPlist.value) == Some(pathA))
            && (exists t :: t in mapped.targets && t.infoPlist.Some? && InfoPlistPath(t.infoPlist.value) == Some(pathB))
  {
    var targets := project.targets;
    assert |targets| == 2 by {
      assert |multiset(targets)| == |multiset{a, b}|;
    }
    forall i | 0 <= i < |targets|
      ensures Generates(mapper, project, targets[i])
      ensures serialize(GeneratedContent(mapper, project, targets[i]).value).Success?
    {
      assert targets[i] in multiset(targets);
      assert targets[i] == a || targets[i] == b;
    }
    GenerateInfoPlistFailsIffSerialisationFails(mapper, serialize, project);
    GenerateInfoPlistSideEffectCount(mapper, serialize, project);
    GeneratedTargetCountAll(mapper, project, targets);
    assert a in multiset(targets) && b in multiset(targets);
    DictionaryTargetIsDerived(mapper, serialize, project, a, map["A" := PlistString("A_VALUE")]);
    DictionaryTargetIsDerived(mapper, serialize, project, b, map["B" := PlistString("B_VALUE")]);
  }
}
