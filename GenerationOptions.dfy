/** `Tuist.GenerationOptions`, the generation options of a `Config` manifest,
    and its two `options(...)` factories. Dafny has no overloading, so the
    deprecated factory that still takes `enforceExplicitDependencies` is
    `DeprecatedOptions`. Both keep the manifest's default argument values. */
module GenerationOptions {
  import opened Wrappers

  /** The targets the static side-effects check runs against. */
  datatype StaticSideEffectsWarningTargets =
    | All
    | None
    | Excluding(targets: seq<string>)

  /** A manifest path (`ProjectDescription.Path`), kept as written. */
  datatype ManifestPath = ManifestPath(pathString: string)

  datatype GenerationOptions = GenerationOptions(
    resolveDependenciesWithSystemScm: bool,
    disablePackageVersionLocking: bool,
    clonedSourcePackagesDirPath: Option<ManifestPath>,
    staticSideEffectsWarningTargets: StaticSideEffectsWarningTargets,
    enforceExplicitDependencies: bool,
    defaultConfiguration: Option<string>,
    optionalAuthentication: bool,
    buildInsightsDisabled: bool,
    disableSandbox: bool)

  /** `options(...)`: every argument lands in the field of the same name, and
      explicit dependencies are never enforced. */
  function Options(
    resolveDependenciesWithSystemScm: bool := false,
    disablePackageVersionLocking: bool := false,
    clonedSourcePackagesDirPath: Option<ManifestPath> := Option.None,
    staticSideEffectsWarningTargets: StaticSideEffectsWarningTargets := All,
    defaultConfiguration: Option<string> := Option.None,
    optionalAuthentication: bool := false,
    buildInsightsDisabled: bool := false,
    disableSandbox: bool := false): (o: GenerationOptions)
    ensures !o.enforceExplicitDependencies
    ensures o.resolveDependenciesWithSystemScm == resolveDependenciesWithSystemScm
    ensures o.disablePackageVersionLocking == disablePackageVersionLocking
    ensures o.clonedSourcePackagesDirPath == clonedSourcePackagesDirPath
    ensures o.staticSideEffectsWarningTargets == staticSideEffectsWarningTargets
    ensures o.defaultConfiguration == defaultConfiguration
    ensures o.optionalAuthentication == optionalAuthentication
    ensures o.buildInsightsDisabled == buildInsightsDisabled
    ensures o.disableSandbox == disableSandbox
  {
    GenerationOptions(
      resolveDependenciesWithSystemScm, disablePackageVersionLocking, clonedSourcePackagesDirPath,
      staticSideEffectsWarningTargets, false, defaultConfiguration, optionalAuthentication,
      buildInsightsDisabled, disableSandbox)
  }

  /** The deprecated `options(..., enforceExplicitDependencies:, ...)`: it
      copies its arguments, including `enforceExplicitDependencies`, and
      always leaves build insights enabled and the sandbox on. */
  function DeprecatedOptions(
    enforceExplicitDependencies: bool,
    resolveDependenciesWithSystemScm: bool := false,
    disablePackageVersionLocking: bool := false,
    clonedSourcePackagesDirPath: Option<ManifestPath> := Option.None,
    staticSideEffectsWarningTargets: StaticSideEffectsWarningTargets := All,
    defaultConfiguration: Option<string> := Option.None,
    optionalAuthentication: bool := false): (o: GenerationOptions)
    ensures o.enforceExplicitDependencies == enforceExplicitDependencies
    ensures !o.buildInsightsDisabled && !o.disableSandbox
    ensures o.resolveDependenciesWithSystemScm == resolveDependenciesWithSystemScm
    ensures o.disablePackageVersionLocking == disablePackageVersionLocking
    ensures o.clonedSourcePackagesDirPath == clonedSourcePackagesDirPath
    ensures o.staticSideEffectsWarningTargets == staticSideEffectsWarningTargets
    ensures o.defaultConfiguration == defaultConfiguration
    ensures o.optionalAuthentication == optionalAuthentication
  {
    GenerationOptions(
      resolveDependenciesWithSystemScm, disablePackageVersionLocking, clonedSourcePackagesDirPath,
      staticSideEffectsWarningTargets, enforceExplicitDependencies, defaultConfiguration,
      optionalAuthentication, false, false)
  }

  /** `options()` with every default: all flags off, no cloned-packages path,
      no default configuration, and the side-effects check on all targets. */
  lemma DefaultOptions()
    ensures var o := Options();
            && !o.resolveDependenciesWithSystemScm && !o.disablePackageVersionLocking
            && !o.enforceExplicitDependencies && !o.optionalAuthentication
            && !o.buildInsightsDisabled && !o.disableSandbox
            && o.clonedSourcePackagesDirPath.None? && o.defaultConfiguration.None?
            && o.staticSideEffectsWarningTargets == All
  {
  }

  /** The deprecated factory differs from the current one with build insights
      and the sandbox at their defaults only in `enforceExplicitDependencies`;
      passing `false` there makes them equal. */
  lemma DeprecatedOptionsAgreeWithOptions(
    enforceExplicitDependencies: bool,
    resolveDependenciesWithSystemScm: bool,
    disablePackageVersionLocking: bool,
    clonedSourcePackagesDirPath: Option<ManifestPath>,
    staticSideEffectsWarningTargets: StaticSideEffectsWarningTargets,
    defaultConfiguration: Option<string>,
    optionalAuthentication: bool)
    ensures var current := Options(
              resolveDependenciesWithSystemScm, disablePackageVersionLocking, clonedSourcePackagesDirPath,
              staticSideEffectsWarningTargets, defaultConfiguration, optionalAuthentication);
            var deprecated := DeprecatedOptions(
              enforceExplicitDependencies, resolveDependenciesWithSystemScm, disablePackageVersionLocking,
              clonedSourcePackagesDirPath, staticSideEffectsWarningTargets, defaultConfiguration,
              optionalAuthentication);
            && deprecated == current.(enforceExplicitDependencies := enforceExplicitDependencies)
            && (deprecated == current <==> !enforceExplicitDependencies)
  {
  }

  /** Only the deprecated factory can enforce explicit dependencies. */
  lemma OnlyDeprecatedOptionsEnforceExplicitDependencies(o: GenerationOptions)
    requires o.enforceExplicitDependencies
    ensures forall a: bool, b: bool, c: Option<ManifestPath>, d: StaticSideEffectsWarningTargets,
                   e: Option<string>, f: bool, g: bool, h: bool :: Options(a, b, c, d, e, f, g, h) != o
  {
  }
}
