/** The decision logic of `tuist init` (`InitService`): which template
    attributes the command asks for, how the attribute values handed to the
    template generator are assembled, how the template directory, the project
    name and the platform are chosen, and when the target directory counts as
    non-empty. Loading templates, cloning them, globbing the file system and
    generating files are the collaborators' business and are not modelled;
    what they would return is a parameter. */
module InitService {
  import opened Wrappers
  import opened Paths

  /** `ErrorType` of a `FatalError`. */
  datatype ErrorType = Abort | Bug | AbortSilent | BugSilent

  datatype InitServiceError =
    | UngettableProjectName(path: AbsolutePath)
    | NonEmptyDirectory(path: AbsolutePath)
    | TemplateNotFound(template: string)
    | TemplateNotProvided
    | AttributeNotProvided(name: string)
    | InvalidValue(argument: string, error: string)
  {
    /** `InitServiceError.type`: every init error aborts the command. */
    function Type(): (t: ErrorType)
      ensures t == Abort
    {
      match this
      case UngettableProjectName(_) => Abort
      case NonEmptyDirectory(_) => Abort
      case TemplateNotFound(_) => Abort
      case TemplateNotProvided => Abort
      case AttributeNotProvided(_) => Abort
      case InvalidValue(_, _) => Abort
    }
  }

  /** The error `parseAttributes` throws for a missing required option; it
      belongs to the scaffolding service, not to `InitServiceError`. */
  datatype ScaffoldServiceError = AttributeNotProvided(name: string)

  // ---------------------------------------------------------------------------
  // Platform

  datatype Platform = IOS | MacOS | TvOS | WatchOS | VisionOS

  /** `Platform.rawValue`, the spelling accepted on the command line. */
  function RawValue(p: Platform): string
  {
    match p
    case IOS => "ios"
    case MacOS => "macos"
    case TvOS => "tvos"
    case WatchOS => "watchos"
    case VisionOS => "visionos"
  }

  /** `Platform.caseValue`, the spelling handed to templates. */
  function CaseValue(p: Platform): string
  {
    match p
    case IOS => "iOS"
    case MacOS => "macOS"
    case TvOS => "tvOS"
    case WatchOS => "watchOS"
    case VisionOS => "visionOS"
  }

  /** `Platform(rawValue:)`. */
  function PlatformFromRawValue(s: string): (r: Option<Platform>)
    ensures r.Some? ==> RawValue(r.value) == s
    ensures r.None? ==> forall p :: RawValue(p) != s
  {
    if s == "ios" then Some(IOS)
    else if s == "macos" then Some(MacOS)
    else if s == "tvos" then Some(TvOS)
    else if s == "watchos" then Some(WatchOS)
    else if s == "visionos" then Some(VisionOS)
    else None
  }

  const InvalidPlatformMessage: string := "Platform should be either ios, tvos, or macos"

  /** `platform(_:)`: no argument means iOS; an argument must be the raw
      value of a platform. */
  function PlatformArgument(platform: Option<string>): (r: Result<Platform, InitServiceError>)
    ensures platform.None? ==> r == Success(IOS)
    ensures platform.Some? && r.Success? ==> RawValue(r.value) == platform.value
    ensures platform.Some? && r.Failure? ==> forall p :: RawValue(p) != platform.value
    ensures r.Failure? ==> r.error == InvalidValue("platform", InvalidPlatformMessage)
  {
    match platform
    case Some(platformString) =>
      (match PlatformFromRawValue(platformString)
       case Some(p) => Success(p)
       case None => Failure(InvalidValue("platform", InvalidPlatformMessage)))
    case None => Success(IOS)
  }

  /** Every platform is accepted under its raw value and only under it. */
  lemma PlatformArgumentRoundTrip(p: Platform, s: string)
    ensures PlatformArgument(Some(RawValue(p))) == Success(p)
    ensures PlatformArgument(Some(s)) == Success(p) ==> s == RawValue(p)
  {
    assert PlatformFromRawValue(RawValue(p)) == Some(p);
  }

  // ---------------------------------------------------------------------------
  // Project name, template directory, empty directory

  /** `name(_:path:)`: an explicit name wins; otherwise the last component of
      the target path; a path without components cannot name a project, and
      the error carries the current working directory. */
  function ProjectName(name: Option<string>, path: AbsolutePath, currentPath: AbsolutePath): (r: Result<string, InitServiceError>)
    ensures name.Some? ==> r == Success(name.value)
    ensures name.None? ==> (r.Success? <==> |path.components| > 0)
    ensures name.None? && r.Success? ==> r.value == Basename(path)
    ensures r.Failure? ==> r.error == UngettableProjectName(currentPath)
  {
    if name.Some? then Success(name.value)
    else if |path.components| > 0 then Success(path.components[|path.components| - 1])
    else Failure(UngettableProjectName(currentPath))
  }

  /** `templateDirectory(templateDirectories:template:)`: the first directory
      whose basename is the template's name. */
  function TemplateDirectory(templateDirectories: seq<AbsolutePath>, template: string): (r: Result<AbsolutePath, InitServiceError>)
    ensures r.Success? <==> exists i :: 0 <= i < |templateDirectories| && Basename(templateDirectories[i]) == template
    ensures r.Success? ==>
              exists i :: 0 <= i < |templateDirectories| && templateDirectories[i] == r.value
                          && Basename(templateDirectories[i]) == template
                          && forall j :: 0 <= j < i ==> Basename(templateDirectories[j]) != template
    ensures r.Failure? ==> r.error == TemplateNotFound(template)
  {
    if templateDirectories == [] then Failure(TemplateNotFound(template))
    else if Basename(templateDirectories[0]) == template then Success(templateDirectories[0])
    else
      var r := TemplateDirectory(templateDirectories[1..], template);
      assert forall i :: 1 <= i < |templateDirectories| ==> templateDirectories[i] == templateDirectories[1..][i - 1];
      if r.Success? then
        var k :| 0 <= k < |templateDirectories[1..]| && templateDirectories[1..][k] == r.value
                 && Basename(templateDirectories[1..][k]) == template
                 && forall j :: 0 <= j < k ==> Basename(templateDirectories[1..][j]) != template;
        assert templateDirectories[k + 1] == r.value;
        r
      else
        r
  }

  /** The basenames `tuist init` tolerates in the target directory. */
  const AllowedFiles: set<string> := {"mise.toml", ".mise.toml"}

  /** The directory entries that make the directory count as non-empty, in
      the order the glob lists them. */
  function DisallowedFiles(entries: seq<AbsolutePath>): (r: seq<AbsolutePath>)
    ensures |r| <= |entries|
    ensures forall e :: e in r <==> e in entries && Basename(e) !in AllowedFiles
  {
    if entries == [] then []
    else
      (if Basename(entries[0]) in AllowedFiles then [] else [entries[0]]) + DisallowedFiles(entries[1..])
  }

  /** `verifyDirectoryIsEmpty(path:)`, given the entries the glob `*` finds
      in `path`. */
  function VerifyDirectoryIsEmpty(path: AbsolutePath, entries: seq<AbsolutePath>): (r: Result<(), InitServiceError>)
    ensures r.Failure? <==> exists i :: 0 <= i < |entries| && Basename(entries[i]) !in AllowedFiles
    ensures r.Failure? ==> r.error == NonEmptyDirectory(path)
  {
    var disallowed := DisallowedFiles(entries);
    if disallowed != [] then
      assert disallowed[0] in entries;
      Failure(NonEmptyDirectory(path))
    else
      assert forall i :: 0 <= i < |entries| ==> entries[i] !in disallowed;
      Success(())
  }

  // ---------------------------------------------------------------------------
  // Template attributes

  /** `Template.Attribute.Value`. */
  datatype AttributeValue =
    | StringValue(s: string)
    | IntegerValue(i: int)
    | RealValue(x: real)
    | BooleanValue(b: bool)
    | DictionaryValue(entries: map<string, AttributeValue>)
    | ArrayValue(items: seq<AttributeValue>)

  /** `Template.Attribute`. */
  datatype Attribute =
    | Required(name: string)
    | Optional(name: string, defaultValue: AttributeValue)

  /** A template, reduced to what the init command reads of it. */
  datatype Template = Template(attributes: seq<Attribute>)

  /** Whether the command offers an attribute as an optional option: `name`
      and `platform` always are, since the command supplies them. */
  predicate IsOptionalOption(attribute: Attribute)
  {
    attribute.name == "name" || attribute.name == "platform" || attribute.Optional?
  }

  /** The required options of a template, in template order. */
  function RequiredOptions(attributes: seq<Attribute>): (names: seq<string>)
    ensures |names| <= |attributes|
  {
    if attributes == [] then []
    else
      var last := attributes[|attributes| - 1];
      var names := RequiredOptions(attributes[..|attributes| - 1]);
      names + (if IsOptionalOption(last) then [] else [last.name])
  }

  /** The optional options of a template, in template order. */
  function OptionalOptions(attributes: seq<Attribute>): (names: seq<string>)
    ensures |names| <= |attributes|
  {
    if attributes == [] then []
    else
      var last := attributes[|attributes| - 1];
      var names := OptionalOptions(attributes[..|attributes| - 1]);
      names + (if IsOptionalOption(last) then [last.name] else [])
  }

  /** The partition at the end of `loadTemplateOptions`: one pass over the
      attributes, appending each name to the required or the optional list. */
  method PartitionAttributes(attributes: seq<Attribute>) returns (required: seq<string>, optional: seq<string>)
    ensures required == RequiredOptions(attributes)
    ensures optional == OptionalOptions(attributes)
  {
    required, optional := [], [];
    var i := 0;
    while i < |attributes|
      invariant 0 <= i <= |attributes|
      invariant required == RequiredOptions(attributes[..i])
      invariant optional == OptionalOptions(attributes[..i])
    {
      var attribute := attributes[i];
      assert attributes[..i + 1][..i] == attributes[..i];
      if attribute.name == "name" || attribute.name == "platform" {
        optional := optional + [attribute.name];
      } else {
        match attribute
        case Optional(name, _) =>
          optional := optional + [name];
        case Required(name) =>
          required := required + [name];
      }
      i := i + 1;
    }
    assert attributes[..|attributes|] == attributes;
  }

  function Names(attributes: seq<Attribute>): (names: seq<string>)
    ensures |names| == |attributes|
  {
    seq(|attributes|, i requires 0 <= i < |attributes| => attributes[i].name)
  }

  /** Every attribute lands in exactly one of the two lists. */
  lemma {:induction false} PartitionIsExact(attributes: seq<Attribute>)
    ensures multiset(RequiredOptions(attributes)) + multiset(OptionalOptions(attributes)) == multiset(Names(attributes))
    ensures |RequiredOptions(attributes)| + |OptionalOptions(attributes)| == |attributes|
  {
    if attributes != [] {
      var init := attributes[..|attributes| - 1];
      var last := attributes[|attributes| - 1];
      PartitionIsExact(init);
      assert Names(attributes) == Names(init) + [last.name];
      assert multiset(Names(attributes)) == multiset(Names(init)) + multiset{last.name};
      if IsOptionalOption(last) {
        assert RequiredOptions(attributes) == RequiredOptions(init);
        assert OptionalOptions(attributes) == OptionalOptions(init) + [last.name];
      } else {
        assert RequiredOptions(attributes) == RequiredOptions(init) + [last.name];
        assert OptionalOptions(attributes) == OptionalOptions(init);
      }
    }
  }

  /** Nothing else lands in the lists: a required option is the name of a
      required attribute, never `name` or `platform`, and an optional option
      is the name of an attribute the command offers as optional. */
  lemma {:induction false} PartitionIsSound(attributes: seq<Attribute>)
    ensures forall n :: n in RequiredOptions(attributes) ==> n != "name" && n != "platform" && Required(n) in attributes
    ensures forall n :: n in OptionalOptions(attributes) ==>
              exists i :: 0 <= i < |attributes| && attributes[i].name == n && IsOptionalOption(attributes[i])
  {
    if attributes != [] {
      var init := attributes[..|attributes| - 1];
      PartitionIsSound(init);
      assert forall i :: 0 <= i < |init| ==> init[i] == attributes[i];
    }
  }

  /** An attribute the command offers as optional is in the optional list,
      any other in the required list. */
  lemma {:induction false} PartitionPlacesEachAttribute(attributes: seq<Attribute>, i: nat)
    requires i < |attributes|
    ensures IsOptionalOption(attributes[i]) ==> attributes[i].name in OptionalOptions(attributes)
    ensures !IsOptionalOption(attributes[i]) ==> attributes[i].name in RequiredOptions(attributes)
  {
    var init := attributes[..|attributes| - 1];
    if i < |attributes| - 1 {
      PartitionPlacesEachAttribute(init, i);
    }
  }

  /** Both lists keep template order: partitioning a concatenation
      concatenates the partitions. */
  lemma PartitionKeepsOrder(xs: seq<Attribute>, ys: seq<Attribute>)
    ensures RequiredOptions(xs + ys) == RequiredOptions(xs) + RequiredOptions(ys)
    ensures OptionalOptions(xs + ys) == OptionalOptions(xs) + OptionalOptions(ys)
  {
    RequiredOptionsAppend(xs, ys);
    OptionalOptionsAppend(xs, ys);
  }

  lemma {:induction false} RequiredOptionsAppend(xs: seq<Attribute>, ys: seq<Attribute>)
    ensures RequiredOptions(xs + ys) == RequiredOptions(xs) + RequiredOptions(ys)
  {
    if ys == [] {
      assert xs + ys == xs;
    } else {
      var init := ys[..|ys| - 1];
      var last := ys[|ys| - 1];
      RequiredOptionsAppend(xs, init);
      var zs := xs + ys;
      assert zs[..|zs| - 1] == xs + init;
      assert zs[|zs| - 1] == last;
      var tail := if IsOptionalOption(last) then [] else [last.name];
      var a, b := RequiredOptions(xs), RequiredOptions(init);
      assert RequiredOptions(zs) == (a + b) + tail;
      assert RequiredOptions(ys) == b + tail;
      assert (a + b) + tail == a + (b + tail);
    }
  }

  lemma {:induction false} OptionalOptionsAppend(xs: seq<Attribute>, ys: seq<Attribute>)
    ensures OptionalOptions(xs + ys) == OptionalOptions(xs) + OptionalOptions(ys)
  {
    if ys == [] {
      assert xs + ys == xs;
    } else {
      var init := ys[..|ys| - 1];
      var last := ys[|ys| - 1];
      OptionalOptionsAppend(xs, init);
      var zs := xs + ys;
      assert zs[..|zs| - 1] == xs + init;
      assert zs[|zs| - 1] == last;
      var tail := if IsOptionalOption(last) then [last.name] else [];
      assert OptionalOptions(zs) == OptionalOptions(xs + init) + tail;
      assert OptionalOptions(ys) == OptionalOptions(init) + tail;
    }
  }

  // ---------------------------------------------------------------------------
  // parseAttributes

  /** The string transformations the defaults use (`toValidSwiftIdentifier`,
      `toValidInBundleIdentifier`); their definitions are not part of this
      model. */
  datatype NameTransforms = NameTransforms(
    toValidSwiftIdentifier: string -> string,
    toValidInBundleIdentifier: string -> string)

  const DefaultAttributeNames: set<string> := {"name", "platform", "tuist_version", "class_name", "bundle_identifier"}

  /** The attributes every generated template receives. */
  function DefaultAttributes(name: string, platform: Platform, tuistVersion: string, transforms: NameTransforms)
    : (defaults: map<string, AttributeValue>)
    ensures defaults.Keys == DefaultAttributeNames
  {
    map[
      "name" := StringValue(name),
      "platform" := StringValue(CaseValue(platform)),
      "tuist_version" := StringValue(tuistVersion),
      "class_name" := StringValue(transforms.toValidSwiftIdentifier(name)),
      "bundle_identifier" := StringValue(transforms.toValidInBundleIdentifier(name))]
  }

  /** The value one attribute receives from the command-line options. */
  function ResolveAttribute(
    requiredTemplateOptions: map<string, string>,
    optionalTemplateOptions: map<string, Option<string>>,
    attribute: Attribute): (r: Result<AttributeValue, ScaffoldServiceError>)
    ensures r.Failure? <==> attribute.Required? && attribute.name !in requiredTemplateOptions
    ensures r.Failure? ==> r.error == ScaffoldServiceError.AttributeNotProvided(attribute.name)
  {
    match attribute
    case Required(name) =>
      if name in requiredTemplateOptions then Success(StringValue(requiredTemplateOptions[name]))
      else Failure(ScaffoldServiceError.AttributeNotProvided(name))
    case Optional(name, defaultValue) =>
      if name in optionalTemplateOptions && optionalTemplateOptions[name].Some? then
        Success(StringValue(optionalTemplateOptions[name].value))
      else
        Success(defaultValue)
  }

  /** The dictionary `parseAttributes` has built after the given attributes:
      the defaults, then each non-default attribute in turn, stopping at the
      first missing required option. */
  function ParsedAttributes(
    defaults: map<string, AttributeValue>,
    requiredTemplateOptions: map<string, string>,
    optionalTemplateOptions: map<string, Option<string>>,
    attributes: seq<Attribute>): Result<map<string, AttributeValue>, ScaffoldServiceError>
  {
    if attributes == [] then Success(defaults)
    else
      var parsed :- ParsedAttributes(defaults, requiredTemplateOptions, optionalTemplateOptions, attributes[..|attributes| - 1]);
      var attribute := attributes[|attributes| - 1];
      if attribute.name in defaults then Success(parsed)
      else
        var value :- ResolveAttribute(requiredTemplateOptions, optionalTemplateOptions, attribute);
        Success(parsed[attribute.name := value])
  }

  /** Once the parse has failed, later attributes do not change the error. */
  lemma {:induction false} ParseFailurePersists(
    defaults: map<string, AttributeValue>,
    requiredTemplateOptions: map<string, string>,
    optionalTemplateOptions: map<string, Option<string>>,
    attributes: seq<Attribute>,
    k: nat)
    requires k <= |attributes|
    requires ParsedAttributes(defaults, requiredTemplateOptions, optionalTemplateOptions, attributes[..k]).Failure?
    ensures ParsedAttributes(defaults, requiredTemplateOptions, optionalTemplateOptions, attributes)
         == ParsedAttributes(defaults, requiredTemplateOptions, optionalTemplateOptions, attributes[..k])
    decreases |attributes| - k
  {
    if k < |attributes| {
      var init := attributes[..|attributes| - 1];
      assert init[..k] == attributes[..k];
      ParseFailurePersists(defaults, requiredTemplateOptions, optionalTemplateOptions, init, k);
    } else {
      assert attributes[..k] == attributes;
    }
  }

  /** `parseAttributes(...)`: a pass over the template's attributes that
      fills a dictionary seeded with the defaults. */
  method ParseAttributes(
    name: string,
    platform: Platform,
    tuistVersion: string,
    requiredTemplateOptions: map<string, string>,
    optionalTemplateOptions: map<string, Option<string>>,
    template: Template,
    transforms: NameTransforms) returns (r: Result<map<string, AttributeValue>, ScaffoldServiceError>)
    ensures r == ParsedAttributes(DefaultAttributes(name, platform, tuistVersion, transforms),
                                  requiredTemplateOptions, optionalTemplateOptions, template.attributes)
  {
    var defaults := DefaultAttributes(name, platform, tuistVersion, transforms);
    var attributes := template.attributes;
    var parsed := defaults;
    var i := 0;
    while i < |attributes|
      invariant 0 <= i <= |attributes|
      invariant ParsedAttributes(defaults, requiredTemplateOptions, optionalTemplateOptions, attributes[..i]) == Success(parsed)
    {
      var attribute := attributes[i];
      assert attributes[..i + 1][..i] == attributes[..i];
      if attribute.name !in defaults {
        match attribute
        case Required(attributeName) =>
          if attributeName !in requiredTemplateOptions {
            r := Failure(ScaffoldServiceError.AttributeNotProvided(attributeName));
            ParseFailurePersists(defaults, requiredTemplateOptions, optionalTemplateOptions, attributes, i + 1);
            return;
          }
          parsed := parsed[attributeName := StringValue(requiredTemplateOptions[attributeName])];
        case Optional(attributeName, defaultValue) =>
          if attributeName in optionalTemplateOptions && optionalTemplateOptions[attributeName].Some? {
            parsed := parsed[attributeName := StringValue(optionalTemplateOptions[attributeName].value)];
          } else {
            parsed := parsed[attributeName := defaultValue];
          }
      }
      i := i + 1;
    }
    assert attributes[..|attributes|] == attributes;
    r := Success(parsed);
  }

  /** A template attribute never overrides a default. */
  lemma {:induction false} ParsedAttributesKeepDefaults(
    defaults: map<string, AttributeValue>,
    requiredTemplateOptions: map<string, string>,
    optionalTemplateOptions: map<string, Option<string>>,
    attributes: seq<Attribute>)
    requires ParsedAttributes(defaults, requiredTemplateOptions, optionalTemplateOptions, attributes).Success?
    ensures var parsed := ParsedAttributes(defaults, requiredTemplateOptions, optionalTemplateOptions, attributes).value;
            forall k :: k in defaults ==> k in parsed && parsed[k] == defaults[k]
  {
    if attributes != [] {
      ParsedAttributesKeepDefaults(defaults, requiredTemplateOptions, optionalTemplateOptions, attributes[..|attributes| - 1]);
    }
  }

  /** The keys of the result: the defaults and every attribute's name. */
  lemma {:induction false} ParsedAttributesKeys(
    defaults: map<string, AttributeValue>,
    requiredTemplateOptions: map<string, string>,
    optionalTemplateOptions: map<string, Option<string>>,
    attributes: seq<Attribute>)
    requires ParsedAttributes(defaults, requiredTemplateOptions, optionalTemplateOptions, attributes).Success?
    ensures var parsed := ParsedAttributes(defaults, requiredTemplateOptions, optionalTemplateOptions, attributes).value;
            forall k :: k in parsed <==> k in defaults || k in Names(attributes)
  {
    if attributes != [] {
      var init := attributes[..|attributes| - 1];
      ParsedAttributesKeys(defaults, requiredTemplateOptions, optionalTemplateOptions, init);
      assert Names(attributes) == Names(init) + [attributes[|attributes| - 1].name];
    }
  }

  /** A required attribute is missing when it is not a default and the
      command got no value for it. */
  predicate MissingRequired(defaults: map<string, AttributeValue>, requiredTemplateOptions: map<string, string>, attribute: Attribute)
  {
    attribute.Required? && attribute.name !in defaults && attribute.name !in requiredTemplateOptions
  }

  /** The parse fails exactly when some required attribute is missing, and
      then with `attributeNotProvided` for the first one. */
  lemma {:induction false} ParsedAttributesFailsIffMissingRequired(
    defaults: map<string, AttributeValue>,
    requiredTemplateOptions: map<string, string>,
    optionalTemplateOptions: map<string, Option<string>>,
    attributes: seq<Attribute>)
    ensures var r := ParsedAttributes(defaults, requiredTemplateOptions, optionalTemplateOptions, attributes);
            r.Failure? <==> exists i :: 0 <= i < |attributes| && MissingRequired(defaults, requiredTemplateOptions, attributes[i])
    ensures var r := ParsedAttributes(defaults, requiredTemplateOptions, optionalTemplateOptions, attributes);
            r.Failure? ==>
              exists i :: 0 <= i < |attributes| && MissingRequired(defaults, requiredTemplateOptions, attributes[i])
                          && r.error == ScaffoldServiceError.AttributeNotProvided(attributes[i].name)
                          && forall j :: 0 <= j < i ==> !MissingRequired(defaults, requiredTemplateOptions, attributes[j])
  {
    if attributes != [] {
      var init := attributes[..|attributes| - 1];
      ParsedAttributesFailsIffMissingRequired(defaults, requiredTemplateOptions, optionalTemplateOptions, init);
      assert forall i :: 0 <= i < |init| ==> init[i] == attributes[i];
    }
  }

  /** The value an attribute name ends up with is decided by its last
      occurrence: the given required option, the given optional value, or the
      default when the optional value is absent or nil. */
  lemma {:induction false} ParsedAttributesLastOccurrenceWins(
    defaults: map<string, AttributeValue>,
    requiredTemplateOptions: map<string, string>,
    optionalTemplateOptions: map<string, Option<string>>,
    attributes: seq<Attribute>,
    i: nat)
    requires ParsedAttributes(defaults, requiredTemplateOptions, optionalTemplateOptions, attributes).Success?
    requires i < |attributes| && attributes[i].name !in defaults
    requires forall j :: i < j < |attributes| ==> attributes[j].name != attributes[i].name
    ensures var parsed := ParsedAttributes(defaults, requiredTemplateOptions, optionalTemplateOptions, attributes).value;
            var name := attributes[i].name;
            && name in parsed
            && (attributes[i].Required? ==> name in requiredTemplateOptions && parsed[name] == StringValue(requiredTemplateOptions[name]))
            && (attributes[i].Optional? && name in optionalTemplateOptions && optionalTemplateOptions[name].Some? ==>
                  parsed[name] == StringValue(optionalTemplateOptions[name].value))
            && (attributes[i].Optional? && (name !in optionalTemplateOptions || optionalTemplateOptions[name].None?) ==>
                  parsed[name] == attributes[i].defaultValue)
  {
    var init := attributes[..|attributes| - 1];
    if i < |attributes| - 1 {
      ParsedAttributesLastOccurrenceWins(defaults, requiredTemplateOptions, optionalTemplateOptions, init, i);
    }
  }

  /** The defaults as `parseAttributes` computes them are always in its
      result: the name, the platform's case value, the version and the two
      identifiers derived from the name. */
  lemma ParseAttributesProvidesDefaults(
    name: string,
    platform: Platform,
    tuistVersion: string,
    requiredTemplateOptions: map<string, string>,
    optionalTemplateOptions: map<string, Option<string>>,
    template: Template,
    transforms: NameTransforms)
    requires ParsedAttributes(DefaultAttributes(name, platform, tuistVersion, transforms),
                              requiredTemplateOptions, optionalTemplateOptions, template.attributes).Success?
    ensures var parsed := ParsedAttributes(DefaultAttributes(name, platform, tuistVersion, transforms),
                                           requiredTemplateOptions, optionalTemplateOptions, template.attributes).value;
            && DefaultAttributeNames <= parsed.Keys
            && parsed["name"] == StringValue(name)
            && parsed["platform"] == StringValue(CaseValue(platform))
            && parsed["tuist_version"] == StringValue(tuistVersion)
            && parsed["class_name"] == StringValue(transforms.toValidSwiftIdentifier(name))
            && parsed["bundle_identifier"] == StringValue(transforms.toValidInBundleIdentifier(name))
  {
    ParsedAttributesKeepDefaults(DefaultAttributes(name, platform, tuistVersion, transforms),
                                 requiredTemplateOptions, optionalTemplateOptions, template.attributes);
  }
}
