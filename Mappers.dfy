/** The mapper pipeline. A mapper is a pure function from a graph entity to a
    new entity plus the side effects it wants performed; it may throw, which
    aborts the pipeline. `SequentialProjectMapper` (and its workspace
    counterpart) threads the entity through its mappers in order;
    `TargetProjectMapper` lifts a target mapper to a project mapper. */
module Mappers {
  import opened Wrappers
  import opened Paths
  import opened SideEffects
  import opened Graph

  /** An error thrown by a mapper. */
  datatype MapperError = MapperError(message: string)

  type MapResult<E> = Result<(E, seq<SideEffectDescriptor>), MapperError>

  /** `ProjectMapping` / `WorkspaceMapping` / `TargetMapping`: `map(entity)`. */
  type Mapper<!E> = E -> MapResult<E>

  // ---------------------------------------------------------------------------
  // Sequential composition

  /** `SequentialProjectMapper(mappers:).map`: each mapper's output entity is
      the next mapper's input; side effects are concatenated in mapper order;
      the first error thrown is propagated unchanged and discards the run. */
  function Sequential<E>(mappers: seq<Mapper<E>>, entity: E): (r: MapResult<E>)
    ensures mappers == [] ==> r.Success? && r.value.1 == []
    ensures |mappers| == 1 ==> r == mappers[0](entity)
  {
    if mappers == [] then Success((entity, []))
    else
      var first :- mappers[0](entity);
      var rest :- Sequential(mappers[1..], first.0);
      assert |mappers| == 1 ==> mappers[1..] == [] && rest == (first.0, []) && first.1 + rest.1 == first.1;
      Success((rest.0, first.1 + rest.1))
  }

  /** Runs `mappers` after an earlier result: the entity is threaded on and
      the earlier side effects come first. */
  function AndThen<E>(earlier: MapResult<E>, mappers: seq<Mapper<E>>): MapResult<E>
  {
    var first :- earlier;
    var rest :- Sequential(mappers, first.0);
    Success((rest.0, first.1 + rest.1))
  }

  /** Zero mappers are the identity: the entity back, no side effects. */
  lemma SequentialEmpty<E>(entity: E)
    ensures Sequential([], entity) == Success((entity, []))
  {
  }

  /** A pipeline of one mapper behaves as that mapper. */
  lemma SequentialSingleton<E>(mapper: Mapper<E>, entity: E)
    ensures Sequential([mapper], entity) == mapper(entity)
  {
    var r := mapper(entity);
    if r.Success? {
      assert Sequential([mapper][1..], r.value.0) == Success((r.value.0, []));
      assert r.value.1 + [] == r.value.1;
    }
  }

  /** Pipelines compose: running `ms1 + ms2` is running `ms1`, then `ms2` on
      its output, with the side effects of `ms1` first. */
  lemma {:induction false} SequentialAppend<E>(ms1: seq<Mapper<E>>, ms2: seq<Mapper<E>>, entity: E)
    ensures Sequential(ms1 + ms2, entity) == AndThen(Sequential(ms1, entity), ms2)
  {
    if ms1 == [] {
      assert ms1 + ms2 == ms2;
      var r := Sequential(ms2, entity);
      if r.Success? {
        assert [] + r.value.1 == r.value.1;
      }
    } else {
      assert (ms1 + ms2)[0] == ms1[0];
      assert (ms1 + ms2)[1..] == ms1[1..] + ms2;
      var first := ms1[0](entity);
      if first.Success? {
        SequentialAppend(ms1[1..], ms2, first.value.0);
        var mid := Sequential(ms1[1..], first.value.0);
        if mid.Success? {
          var last := Sequential(ms2, mid.value.0);
          if last.Success? {
            assert first.value.1 + (mid.value.1 + last.value.1) == (first.value.1 + mid.value.1) + last.value.1;
          }
        }
      }
    }
  }

  /** Fail-fast: when the pipeline fails, some mapper `k` threw exactly that
      error on the entity the first `k` mappers produced, and those `k`
      mappers all succeeded. */
  lemma {:induction false} SequentialFailsAtFirstFailingStage<E>(mappers: seq<Mapper<E>>, entity: E)
    requires Sequential(mappers, entity).Failure?
    ensures exists k :: 0 <= k < |mappers| && Sequential(mappers[..k], entity).Success?
              && mappers[k](Sequential(mappers[..k], entity).value.0) == Failure(Sequential(mappers, entity).error)
  {
    var err := Sequential(mappers, entity).error;
    assert mappers[..0] == [];
    var first := mappers[0](entity);
    if first.Success? {
      var tail := mappers[1..];
      SequentialFailsAtFirstFailingStage(tail, first.value.0);
      var k :| 0 <= k < |tail| && Sequential(tail[..k], first.value.0).Success?
               && tail[k](Sequential(tail[..k], first.value.0).value.0) == Failure(err);
      assert mappers[..k + 1] == [mappers[0]] + tail[..k];
      assert mappers[..k + 1][1..] == tail[..k];
      assert mappers[k + 1] == tail[k];
    }
  }

  /** When no mapper emits side effects, neither does the pipeline. */
  lemma {:induction false} SequentialWithoutSideEffects<E>(mappers: seq<Mapper<E>>, entity: E)
    requires forall i, e :: 0 <= i < |mappers| && mappers[i](e).Success? ==> mappers[i](e).value.1 == []
    requires Sequential(mappers, entity).Success?
    ensures Sequential(mappers, entity).value.1 == []
  {
    if mappers != [] {
      var first := mappers[0](entity);
      assert forall i :: 0 <= i < |mappers| - 1 ==> mappers[1..][i] == mappers[i + 1];
      SequentialWithoutSideEffects(mappers[1..], first.value.0);
    }
  }

  // ---------------------------------------------------------------------------
  // Per-target lifting

  function Concat<T>(parts: seq<seq<T>>): (r: seq<T>)
  {
    if parts == [] then [] else parts[0] + Concat(parts[1..])
  }

  /** `TargetProjectMapper(mapper:).map`: the target mapper is applied to every
      target in the target dictionary's iteration order; each target is
      replaced by its mapped value and the side effects of all targets are
      merged, target by target. The first error thrown, in that order, aborts
      the mapping and is the mapping's error. */
  function TargetProjectMapper(targetMapper: Mapper<Target>, project: Project): (r: MapResult<Project>)
    ensures r.Success? <==> forall i :: 0 <= i < |project.targets| ==> targetMapper(project.targets[i]).Success?
    ensures r.Failure? ==>
      exists k :: 0 <= k < |project.targets| && targetMapper(project.targets[k]) == Failure(r.error)
                  && forall i :: 0 <= i < k ==> targetMapper(project.targets[i]).Success?
    ensures r.Success? ==>
      && r.value.0 == project.(targets := r.value.0.targets)
      && |r.value.0.targets| == |project.targets|
      && (forall i :: 0 <= i < |project.targets| ==>
            targetMapper(project.targets[i]).value.0 == r.value.0.targets[i])
      && multiset(r.value.1) == SideEffectsOfTargets(targetMapper, project.targets)
  {
    var results :- MapAll(project.targets, targetMapper);
    var targets := seq(|results|, i requires 0 <= i < |results| => results[i].0);
    var sideEffects := seq(|results|, i requires 0 <= i < |results| => results[i].1);
    ConcatMultiset(targetMapper, project.targets, sideEffects);
    Success((project.(targets := targets), Concat(sideEffects)))
  }

  /** The side effects a target mapper emits for one target (none when it
      throws). */
  function TargetSideEffects(targetMapper: Mapper<Target>, target: Target): seq<SideEffectDescriptor>
  {
    if targetMapper(target).Success? then targetMapper(target).value.1 else []
  }

  /** The union, as a multiset, of the side effects of every target. */
  function SideEffectsOfTargets(targetMapper: Mapper<Target>, targets: seq<Target>): multiset<SideEffectDescriptor>
  {
    if targets == [] then multiset{}
    else multiset(TargetSideEffects(targetMapper, targets[0])) + SideEffectsOfTargets(targetMapper, targets[1..])
  }

  lemma {:induction false} ConcatMultiset(targetMapper: Mapper<Target>, targets: seq<Target>, parts: seq<seq<SideEffectDescriptor>>)
    requires |parts| == |targets|
    requires forall i :: 0 <= i < |targets| ==> parts[i] == TargetSideEffects(targetMapper, targets[i])
    ensures multiset(Concat(parts)) == SideEffectsOfTargets(targetMapper, targets)
  {
    if targets != [] {
      ConcatMultiset(targetMapper, targets[1..], parts[1..]);
    }
  }

  lemma {:induction false} SideEffectsOfTargetsAppend(targetMapper: Mapper<Target>, a: seq<Target>, b: seq<Target>)
    ensures SideEffectsOfTargets(targetMapper, a + b)
         == SideEffectsOfTargets(targetMapper, a) + SideEffectsOfTargets(targetMapper, b)
  {
    if a == [] {
      assert a + b == b;
    } else {
      assert (a + b)[1..] == a[1..] + b;
      SideEffectsOfTargetsAppend(targetMapper, a[1..], b);
    }
  }

  /** Every side effect a target's mapping emits is among the merged ones. */
  lemma {:induction false} TargetSideEffectsIncluded(targetMapper: Mapper<Target>, targets: seq<Target>, i: nat)
    requires i < |targets|
    ensures multiset(TargetSideEffects(targetMapper, targets[i])) <= SideEffectsOfTargets(targetMapper, targets)
  {
    if i > 0 {
      TargetSideEffectsIncluded(targetMapper, targets[1..], i - 1);
    }
  }

  /** The merged side effects do not depend on the order in which the target
      dictionary yields its targets. */
  lemma {:induction false} SideEffectsOfTargetsPermutation(targetMapper: Mapper<Target>, ts1: seq<Target>, ts2: seq<Target>)
    requires multiset(ts1) == multiset(ts2)
    ensures SideEffectsOfTargets(targetMapper, ts1) == SideEffectsOfTargets(targetMapper, ts2)
  {
    if ts1 == [] {
      assert |multiset(ts2)| == 0;
    } else {
      assert ts1[0] in multiset(ts2);
      var k :| 0 <= k < |ts2| && ts2[k] == ts1[0];
      var rest := ts2[..k] + ts2[k + 1..];
      RemoveMatching(ts1, ts2, k);
      assert ts2 == ts2[..k] + [ts2[k]] + ts2[k + 1..];
      SideEffectsOfTargetsPermutation(targetMapper, ts1[1..], rest);
      SideEffectsOfTargetsAppend(targetMapper, ts2[..k] + [ts2[k]], ts2[k + 1..]);
      SideEffectsOfTargetsAppend(targetMapper, ts2[..k], [ts2[k]]);
      SideEffectsOfTargetsAppend(targetMapper, ts2[..k], ts2[k + 1..]);
    }
  }

  /** The mapped targets, as a multiset, do not depend on the iteration order
      of the target dictionary either. */
  lemma {:induction false} MappedTargetsPermutation(targetMapper: Mapper<Target>, p1: Project, p2: Project)
    requires multiset(p1.targets) == multiset(p2.targets)
    requires TargetProjectMapper(targetMapper, p1).Success?
    ensures TargetProjectMapper(targetMapper, p2).Success?
    ensures multiset(TargetProjectMapper(targetMapper, p1).value.0.targets)
         == multiset(TargetProjectMapper(targetMapper, p2).value.0.targets)
    ensures multiset(TargetProjectMapper(targetMapper, p1).value.1)
         == multiset(TargetProjectMapper(targetMapper, p2).value.1)
  {
    forall i | 0 <= i < |p2.targets| ensures targetMapper(p2.targets[i]).Success? {
      assert p2.targets[i] in multiset(p1.targets);
    }
    var g := (t: Target) => if targetMapper(t).Success? then targetMapper(t).value.0 else t;
    MappedMultiset(g, p1.targets, TargetProjectMapper(targetMapper, p1).value.0.targets);
    MappedMultiset(g, p2.targets, TargetProjectMapper(targetMapper, p2).value.0.targets);
    MapPermutation(g, p1.targets, p2.targets);
    SideEffectsOfTargetsPermutation(targetMapper, p1.targets, p2.targets);
  }

  /** Removing the same element from two permutations of each other leaves
      permutations of each other. */
  lemma RemoveMatching<T>(xs: seq<T>, ys: seq<T>, k: nat)
    requires multiset(xs) == multiset(ys) && xs != [] && k < |ys| && ys[k] == xs[0]
    ensures multiset(xs[1..]) == multiset(ys[..k] + ys[k + 1..])
  {
    assert ys == ys[..k] + [ys[k]] + ys[k + 1..];
    assert xs == [xs[0]] + xs[1..];
    assert multiset(ys) == multiset(ys[..k]) + multiset{ys[k]} + multiset(ys[k + 1..]);
    assert multiset(xs) == multiset{xs[0]} + multiset(xs[1..]);
    assert multiset(ys[..k] + ys[k + 1..]) == multiset(ys[..k]) + multiset(ys[k + 1..]);
    assert multiset(xs[1..]) == multiset(xs) - multiset{xs[0]};
  }

  function MapSeq<T, U>(g: T -> U, xs: seq<T>): (r: seq<U>)
    ensures |r| == |xs| && forall i :: 0 <= i < |xs| ==> r[i] == g(xs[i])
  {
    if xs == [] then [] else [g(xs[0])] + MapSeq(g, xs[1..])
  }

  lemma MapSeqAppend<T, U>(g: T -> U, a: seq<T>, b: seq<T>)
    ensures MapSeq(g, a + b) == MapSeq(g, a) + MapSeq(g, b)
  {
  }

  lemma MappedMultiset<T, U>(g: T -> U, xs: seq<T>, ys: seq<U>)
    requires |ys| == |xs| && forall i :: 0 <= i < |xs| ==> ys[i] == g(xs[i])
    ensures multiset(ys) == multiset(MapSeq(g, xs))
  {
    assert ys == MapSeq(g, xs);
  }

  lemma {:induction false} MapPermutation<T, U>(g: T -> U, xs: seq<T>, ys: seq<T>)
    requires multiset(xs) == multiset(ys)
    ensures multiset(MapSeq(g, xs)) == multiset(MapSeq(g, ys))
  {
    if xs == [] {
      assert |multiset(ys)| == 0;
    } else {
      assert xs[0] in multiset(ys);
      var k :| 0 <= k < |ys| && ys[k] == xs[0];
      var rest := ys[..k] + ys[k + 1..];
      RemoveMatching(xs, ys, k);
      assert ys == ys[..k] + [ys[k]] + ys[k + 1..];
      MapPermutation(g, xs[1..], rest);
      MapSeqAppend(g, ys[..k] + [ys[k]], ys[k + 1..]);
      MapSeqAppend(g, ys[..k], [ys[k]]);
      MapSeqAppend(g, ys[..k], ys[k + 1..]);
    }
  }

  /** A target mapper that emits nothing makes the lifted mapper emit
      nothing. */
  lemma NoTargetSideEffectsNoProjectSideEffects(targetMapper: Mapper<Target>, project: Project)
    requires TargetProjectMapper(targetMapper, project).Success?
    requires forall t :: targetMapper(t).Success? ==> targetMapper(t).value.1 == []
    ensures TargetProjectMapper(targetMapper, project).value.1 == []
  {
    NoSideEffectsOfTargets(targetMapper, project.targets);
  }

  lemma {:induction false} NoSideEffectsOfTargets(targetMapper: Mapper<Target>, targets: seq<Target>)
    requires forall t :: targetMapper(t).Success? ==> targetMapper(t).value.1 == []
    ensures SideEffectsOfTargets(targetMapper, targets) == multiset{}
  {
    if targets != [] {
      NoSideEffectsOfTargets(targetMapper, targets[1..]);
    }
  }

  // ---------------------------------------------------------------------------
  // The behaviour the mapper tests pin

  /** The tests' `ProjectMapper { (Project.test(name: prefix + $0.name), effects) }`:
      a fresh test project (`fixture`) named after its input, and `effects`. */
  function RenamingProjectMapper(prefix: string, fixture: Project, effects: seq<SideEffectDescriptor>): Mapper<Project>
  {
    (p: Project) => Success((fixture.(name := prefix + p.name), effects))
  }

  /** A two-stage pipeline: the second mapper sees the first one's output,
      and the first one's side effects come first. */
  lemma SequentialTwo<E>(first: Mapper<E>, second: Mapper<E>, entity: E)
    requires first(entity).Success? && second(first(entity).value.0).Success?
    ensures Sequential([first, second], entity)
         == Success((second(first(entity).value.0).value.0,
                     first(entity).value.1 + second(first(entity).value.0).value.1))
  {
    assert [first, second][1..] == [second];
    SequentialSingleton(second, first(entity).value.0);
  }

  /** Each mapper's output project feeds the next: `[Update1_, Update2_]`
      turns "Project" into "Update2_Update1_Project", with no side effects. */
  lemma SequentialThreadsProject(fixture: Project)
    ensures Sequential([RenamingProjectMapper("Update1_", fixture, []), RenamingProjectMapper("Update2_", fixture, [])],
                       fixture.(name := "Project"))
         == Success((fixture.(name := "Update2_Update1_Project"), []))
  {
    var m1 := RenamingProjectMapper("Update1_", fixture, []);
    var m2 := RenamingProjectMapper("Update2_", fixture, []);
    var p0 := fixture.(name := "Project");
    assert "Update1_" + "Project" == "Update1_Project";
    assert "Update2_" + "Update1_Project" == "Update2_Update1_Project";
    assert m1(p0) == Success((fixture.(name := "Update1_Project"), []));
    assert m2(m1(p0).value.0) == Success((fixture.(name := "Update2_Update1_Project"), []));
    SequentialTwo(m1, m2, p0);
    var empty: seq<SideEffectDescriptor> := [];
    assert empty + empty == empty;
  }

  /** Side effects are concatenated in mapper order:
      `[command 1, command 2]`. */
  lemma SequentialConcatenatesSideEffects(fixture: Project)
    ensures var command1 := Command(CommandDescriptor(["command 1"]));
            var command2 := Command(CommandDescriptor(["command 2"]));
            var r := Sequential([RenamingProjectMapper("Update1_", fixture, [command1]),
                                 RenamingProjectMapper("Update2_", fixture, [command2])],
                                fixture.(name := "Project"));
            r.Success? && r.value.1 == [command1, command2]
  {
    var command1 := Command(CommandDescriptor(["command 1"]));
    var command2 := Command(CommandDescriptor(["command 2"]));
    SequentialTwo(RenamingProjectMapper("Update1_", fixture, [command1]),
                  RenamingProjectMapper("Update2_", fixture, [command2]),
                  fixture.(name := "Project"));
  }

  /** Order is a design parameter: with mappers prefixing "X_" and "Y_" and
      emitting `x` and `y`, `[A, B]` and `[B, A]` give different names and
      side effects in opposite orders. */
  lemma SequentialOrderMatters(fixture: Project, x: SideEffectDescriptor, y: SideEffectDescriptor)
    ensures var a := RenamingProjectMapper("X_", fixture, [x]);
            var b := RenamingProjectMapper("Y_", fixture, [y]);
            var ab := Sequential([a, b], fixture.(name := "T"));
            var ba := Sequential([b, a], fixture.(name := "T"));
            && ab == Success((fixture.(name := "Y_X_T"), [x, y]))
            && ba == Success((fixture.(name := "X_Y_T"), [y, x]))
            && ab.value.0.name != ba.value.0.name
  {
    var a := RenamingProjectMapper("X_", fixture, [x]);
    var b := RenamingProjectMapper("Y_", fixture, [y]);
    var t := fixture.(name := "T");
    assert "X_" + "T" == "X_T" && "Y_" + "X_T" == "Y_X_T";
    assert "Y_" + "T" == "Y_T" && "X_" + "Y_T" == "X_Y_T";
    assert a(t) == Success((fixture.(name := "X_T"), [x]));
    assert b(a(t).value.0) == Success((fixture.(name := "Y_X_T"), [y]));
    assert b(t) == Success((fixture.(name := "Y_T"), [y]));
    assert a(b(t).value.0) == Success((fixture.(name := "X_Y_T"), [x]));
    SequentialTwo(a, b, t);
    SequentialTwo(b, a, t);
    assert [x] + [y] == [x, y] && [y] + [x] == [y, x];
    assert "Y_X_T"[0] != "X_Y_T"[0];
  }

  /** The tests' `TargetMapper` renaming every target to `Updated_<name>`,
      emitting a file descriptor `/Targets/<name>.swift` when `withFile`. */
  function RenamingTargetMapper(withFile: bool): Mapper<Target>
  {
    (t: Target) =>
      Success((t.(name := "Updated_" + t.name),
               if withFile then [File(FileAt(AbsolutePath(["/", "Targets", t.name + ".swift"])))] else []))
  }

  lemma TargetNamesPermutation(ts1: seq<Target>, ts2: seq<Target>)
    requires multiset(ts1) == multiset(ts2)
    ensures multiset(TargetNames(ts1)) == multiset(TargetNames(ts2))
  {
    var names := (t: Target) => t.name;
    MappedMultiset(names, ts1, TargetNames(ts1));
    MappedMultiset(names, ts2, TargetNames(ts2));
    MapPermutation(names, ts1, ts2);
  }

  /** Targets "A" and "B", whatever order the target dictionary yields them
      in, are renamed "Updated_A" and "Updated_B"; two targets in, two out,
      and no side effects. */
  lemma TargetProjectMapperRenamesEveryTarget(project: Project, a: Target, b: Target)
    requires a.name == "A" && b.name == "B"
    requires multiset(project.targets) == multiset{a, b}
    ensures TargetProjectMapper(RenamingTargetMapper(false), project).Success?
    ensures var mapped := TargetProjectMapper(RenamingTargetMapper(false), project).value;
            && |mapped.0.targets| == 2
            && multiset(TargetNames(mapped.0.targets)) == multiset{"Updated_A", "Updated_B"}
            && mapped.1 == []
  {
    var m := RenamingTargetMapper(false);
    var reference := project.(targets := [a, b]);
    assert multiset(reference.targets) == multiset{a, b};
    assert |project.targets| == |multiset{a, b}|;
    MappedTargetsPermutation(m, reference, project);
    var refTargets := TargetProjectMapper(m, reference).value.0.targets;
    assert "Updated_" + "A" == "Updated_A" && "Updated_" + "B" == "Updated_B";
    assert refTargets[0] == m(a).value.0 && refTargets[1] == m(b).value.0;
    assert TargetNames(refTargets) == ["Updated_A", "Updated_B"];
    TargetNamesPermutation(refTargets, TargetProjectMapper(m, project).value.0.targets);
    NoTargetSideEffectsNoProjectSideEffects(m, project);
  }

  lemma RenamingTargetSideEffects(t: Target, name: string)
    requires t.name == name
    ensures TargetSideEffects(RenamingTargetMapper(true), t)
         == [File(FileAt(AbsolutePath(["/", "Targets", name + ".swift"])))]
  {
  }

  /** The per-target side effects, as a multiset, are `/Targets/A.swift` and
      `/Targets/B.swift`. */
  lemma TargetProjectMapperMergesSideEffects(project: Project, a: Target, b: Target)
    requires a.name == "A" && b.name == "B"
    requires multiset(project.targets) == multiset{a, b}
    ensures TargetProjectMapper(RenamingTargetMapper(true), project).Success?
    ensures multiset(TargetProjectMapper(RenamingTargetMapper(true), project).value.1)
         == multiset{File(FileAt(AbsolutePath(["/", "Targets", "A.swift"]))),
                     File(FileAt(AbsolutePath(["/", "Targets", "B.swift"])))}
  {
    var m := RenamingTargetMapper(true);
    var reference := project.(targets := [a, b]);
    assert multiset(reference.targets) == multiset{a, b};
    MappedTargetsPermutation(m, reference, project);
    RenamingSideEffectsOfTwoTargets(a, b);
  }

  lemma RenamingSideEffectsOfTwoTargets(a: Target, b: Target)
    requires a.name == "A" && b.name == "B"
    ensures SideEffectsOfTargets(RenamingTargetMapper(true), [a, b])
         == multiset{File(FileAt(AbsolutePath(["/", "Targets", "A.swift"]))),
                     File(FileAt(AbsolutePath(["/", "Targets", "B.swift"])))}
  {
    var m := RenamingTargetMapper(true);
    RenamingTargetSideEffects(a, "A");
    RenamingTargetSideEffects(b, "B");
    assert "A" + ".swift" == "A.swift" && "B" + ".swift" == "B.swift";
    assert [a, b][1..] == [b] && [b][1..] == [];
    var fileA := File(FileAt(AbsolutePath(["/", "Targets", "A.swift"])));
    var fileB := File(FileAt(AbsolutePath(["/", "Targets", "B.swift"])));
    assert SideEffectsOfTargets(m, [b]) == multiset{fileB} + SideEffectsOfTargets(m, []);
    assert SideEffectsOfTargets(m, [a, b]) == multiset{fileA} + SideEffectsOfTargets(m, [b]);
  }
}
