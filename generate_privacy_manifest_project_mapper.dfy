/**
 * The project pass that turns inline privacy-manifest content into a derived `PrivacyInfo.xcprivacy` file:
 * it returns the updated project and a file-write side effect per such target, and writes nothing itself.
 */
module GeneratePrivacyManifestProjectMapping {
  import opened Wrappers
  import opened Primitives
  import opened Paths
  import GraphPlist
  import opened ResourceFileElements
  import G = GraphModels
  import Constants

  /** The file name every generated privacy manifest gets. */
  const PrivacyManifestFileName: string := "PrivacyInfo.xcprivacy"

  /** The XML property-list serialiser, which may fail with an error of type `E`; its bytes are opaque here. */
  type Serializer<!E> = map<string, GraphPlist.Value> -> Result<Data, E>

  /** `privacyManifestDictionary(privacyManifest:)`: the content to serialise, present only for inline content. */
  function PrivacyManifestDictionary(privacyManifest: G.PrivacyManifest): (r: Option<map<string, GraphPlist.Value>>)
    ensures r.Some? <==> privacyManifest.Dictionary?
    ensures r.Some? ==> r.value == privacyManifest.content
  {
    match privacyManifest
    case Dictionary(content) => Some(content)
    case _ => None
  }

  /** The targets the pass rewrites: those whose privacy manifest is inline content. */
  predicate SynthesizesPrivacyManifest(target: G.Target)
  {
    target.privacyManifest.Some? && target.privacyManifest.value.Dictionary?
  }

  /** A target whose inline privacy-manifest content the serialiser rejects. */
  predicate SerializationFails<E>(serialize: Serializer<E>, target: G.Target)
  {
    SynthesizesPrivacyManifest(target) && serialize(target.privacyManifest.value.content).Failure?
  }

  /**
   * Where a target's manifest is generated: the project's directory, the derived directory, the fixed
   * privacy-manifest subdirectory from `Constants` (not the mapper's own configured name), the target's
   * name, and the fixed file name.
   */
  function PrivacyManifestPath(derivedDirectoryName: string, project: G.Project, target: G.Target): (r: AbsolutePath)
    ensures r.components == project.path.components +
      [derivedDirectoryName, Constants.DerivedDirectoryPrivacyManifest, target.name, PrivacyManifestFileName]
  {
    Appending(
      Appending(
        Appending(Appending(project.path, derivedDirectoryName), Constants.DerivedDirectoryPrivacyManifest),
        target.name),
      PrivacyManifestFileName)
  }

  /**
   * `map(target:project:)`. A target without inline content comes back as it was, with no side effect.
   * Otherwise either the serialiser's error, or the target with one plain file resource at the generated
   * path appended (nothing else changes) and one file write of the serialised bytes to that same path.
   */
  function MapTarget<E>(derivedDirectoryName: string, project: G.Project, target: G.Target, serialize: Serializer<E>)
    : (r: Result<(G.Target, seq<G.SideEffectDescriptor>), E>)
    ensures !SynthesizesPrivacyManifest(target) ==> r == Success((target, []))
    ensures r.Failure? <==> SerializationFails(serialize, target)
    ensures r.Failure? ==> r.error == serialize(target.privacyManifest.value.content).error
    ensures r.Success? && SynthesizesPrivacyManifest(target) ==>
      var path := PrivacyManifestPath(derivedDirectoryName, project, target);
      var (updated, sideEffects) := r.value;
      && updated == target.(resources := updated.resources)
      && |updated.resources| == |target.resources| + 1
      && updated.resources[..|target.resources|] == target.resources
      && updated.resources[|target.resources|] == FromPath(path)
      && sideEffects == [G.SideEffectDescriptor.File(G.FileDescriptor(path, serialize(target.privacyManifest.value.content).value))]
  {
    match target.privacyManifest
    case None => Success((target, []))
    case Some(privacyManifest) =>
      match PrivacyManifestDictionary(privacyManifest)
      case None => Success((target, []))
      case Some(dictionary) =>
        match serialize(dictionary)
        case Failure(e) => Failure(e)
        case Success(data) =>
          var path := PrivacyManifestPath(derivedDirectoryName, project, target);
          Success((target.(resources := target.resources + [FromPath(path)]), [G.SideEffectDescriptor.File(G.FileDescriptor(path, data))]))
  }

  /**
   * The `reduce(into:)` over the targets, as a left fold: the targets mapped so far in order, and their side
   * effects concatenated in order; the first serialisation failure aborts the whole fold.
   */
  function MapTargets<E>(derivedDirectoryName: string, project: G.Project, targets: seq<G.Target>, serialize: Serializer<E>)
    : (r: Result<(seq<G.Target>, seq<G.SideEffectDescriptor>), E>)
    ensures r.Success? ==> |r.value.0| == |targets|
  {
    if targets == [] then Success(([], []))
    else
      match MapTargets(derivedDirectoryName, project, targets[..|targets| - 1], serialize)
      case Failure(e) => Failure(e)
      case Success((done, sideEffects)) =>
        match MapTarget(derivedDirectoryName, project, targets[|targets| - 1], serialize)
        case Failure(e) => Failure(e)
        case Success((updated, targetSideEffects)) => Success((done + [updated], sideEffects + targetSideEffects))
  }

  /** The targets with inline privacy-manifest content, in project order. */
  function SynthesizingTargets(targets: seq<G.Target>): (r: seq<G.Target>)
    ensures |r| <= |targets|
    ensures forall j :: 0 <= j < |r| ==> SynthesizesPrivacyManifest(r[j])
  {
    if targets == [] then []
    else
      var last := targets[|targets| - 1];
      SynthesizingTargets(targets[..|targets| - 1]) + if SynthesizesPrivacyManifest(last) then [last] else []
  }

  /** Once a prefix of the targets fails, the whole fold fails with the same error. */
  lemma {:induction false} MapTargetsFailurePersists<E>(
    derivedDirectoryName: string, project: G.Project, targets: seq<G.Target>, n: nat, serialize: Serializer<E>)
    requires n <= |targets|
    requires MapTargets(derivedDirectoryName, project, targets[..n], serialize).Failure?
    ensures MapTargets(derivedDirectoryName, project, targets, serialize)
         == MapTargets(derivedDirectoryName, project, targets[..n], serialize)
  {
    if n < |targets| {
      var init := targets[..|targets| - 1];
      assert init[..n] == targets[..n];
      MapTargetsFailurePersists(derivedDirectoryName, project, init, n, serialize);
    } else {
      assert targets[..n] == targets;
    }
  }

  /**
   * The fold fails exactly when some target's serialisation fails, and then with the error of the first
   * such target.
   */
  lemma {:induction false} MapTargetsFailure<E>(
    derivedDirectoryName: string, project: G.Project, targets: seq<G.Target>, serialize: Serializer<E>)
    ensures var r := MapTargets(derivedDirectoryName, project, targets, serialize);
      r.Failure? <==> exists i :: 0 <= i < |targets| && SerializationFails(serialize, targets[i])
    ensures var r := MapTargets(derivedDirectoryName, project, targets, serialize);
      r.Failure? ==> exists i ::
        && 0 <= i < |targets|
        && SerializationFails(serialize, targets[i])
        && (forall j :: 0 <= j < i ==> !SerializationFails(serialize, targets[j]))
        && r.error == serialize(targets[i].privacyManifest.value.content).error
  {
    if targets != [] {
      var n := |targets| - 1;
      var init := targets[..n];
      MapTargetsFailure(derivedDirectoryName, project, init, serialize);
      forall i | 0 <= i < n ensures init[i] == targets[i] { }
      if MapTargets(derivedDirectoryName, project, init, serialize).Failure? {
        var i :| 0 <= i < n && SerializationFails(serialize, init[i])
          && (forall j :: 0 <= j < i ==> !SerializationFails(serialize, init[j]))
          && MapTargets(derivedDirectoryName, project, init, serialize).error
             == serialize(init[i].privacyManifest.value.content).error;
        assert SerializationFails(serialize, targets[i]);
      } else {
        assert forall j :: 0 <= j < n ==> !SerializationFails(serialize, targets[j]);
      }
    }
  }

  /**
   * On success, the i-th output target is the i-th input target mapped on its own: there are as many
   * targets as before, in the same order.
   */
  lemma {:induction false} MapTargetsPointwise<E>(
    derivedDirectoryName: string, project: G.Project, targets: seq<G.Target>, serialize: Serializer<E>)
    requires MapTargets(derivedDirectoryName, project, targets, serialize).Success?
    ensures var mapped := MapTargets(derivedDirectoryName, project, targets, serialize).value.0;
      && |mapped| == |targets|
      && forall i :: 0 <= i < |targets| ==>
           && MapTarget(derivedDirectoryName, project, targets[i], serialize).Success?
           && mapped[i] == MapTarget(derivedDirectoryName, project, targets[i], serialize).value.0
  {
    if targets != [] {
      var n := |targets| - 1;
      var init := targets[..n];
      MapTargetsPointwise(derivedDirectoryName, project, init, serialize);
      forall i | 0 <= i < n ensures init[i] == targets[i] { }
    }
  }

  /**
   * On success, the side effects are one file write per target with inline content, in target order,
   * each to that target's generated path with its serialised content.
   */
  lemma {:induction false} MapTargetsSideEffects<E>(
    derivedDirectoryName: string, project: G.Project, targets: seq<G.Target>, serialize: Serializer<E>)
    requires MapTargets(derivedDirectoryName, project, targets, serialize).Success?
    ensures var sideEffects := MapTargets(derivedDirectoryName, project, targets, serialize).value.1;
      var synthesizing := SynthesizingTargets(targets);
      && |sideEffects| == |synthesizing|
      && forall j :: 0 <= j < |synthesizing| ==>
           && serialize(synthesizing[j].privacyManifest.value.content).Success?
           && sideEffects[j] == G.SideEffectDescriptor.File(G.FileDescriptor(
                PrivacyManifestPath(derivedDirectoryName, project, synthesizing[j]),
                serialize(synthesizing[j].privacyManifest.value.content).value))
  {
    if targets != [] {
      var n := |targets| - 1;
      MapTargetsSideEffects(derivedDirectoryName, project, targets[..n], serialize);
    }
  }

  /**
   * `map(project:)` as a function: either the first serialisation error, or the project with only its
   * targets replaced by the mapped targets, and the side effects of the fold.
   */
  function MapProject<E>(derivedDirectoryName: string, project: G.Project, serialize: Serializer<E>)
    : (r: Result<(G.Project, seq<G.SideEffectDescriptor>), E>)
    ensures r.Success? ==> r.value.0 == project.(targets := r.value.0.targets)
    ensures r.Failure? <==> exists i :: 0 <= i < |project.targets| && SerializationFails(serialize, project.targets[i])
  {
    MapTargetsFailure(derivedDirectoryName, project, project.targets, serialize);
    match MapTargets(derivedDirectoryName, project, project.targets, serialize)
    case Failure(e) => Failure(e)
    case Success((targets, sideEffects)) => Success((project.(targets := targets), sideEffects))
  }

  /**
   * The whole contract of a successful `map(project:)`: targets keep their number and order; a target
   * without inline content is returned unchanged; a target with it gains exactly the resource at its
   * generated path; and the side effects are the file writes of those targets, in order.
   */
  lemma MapProjectSucceeds<E>(derivedDirectoryName: string, project: G.Project, serialize: Serializer<E>)
    requires MapProject(derivedDirectoryName, project, serialize).Success?
    ensures var (mapped, sideEffects) := MapProject(derivedDirectoryName, project, serialize).value;
      && |mapped.targets| == |project.targets|
      && (forall i :: 0 <= i < |project.targets| && !SynthesizesPrivacyManifest(project.targets[i]) ==>
            mapped.targets[i] == project.targets[i])
      && (forall i :: 0 <= i < |project.targets| && SynthesizesPrivacyManifest(project.targets[i]) ==>
            mapped.targets[i] == project.targets[i].(resources := project.targets[i].resources +
              [FromPath(PrivacyManifestPath(derivedDirectoryName, project, project.targets[i]))]))
      && |sideEffects| == |SynthesizingTargets(project.targets)|
      && forall j :: 0 <= j < |sideEffects| ==>
           sideEffects[j].file.path == PrivacyManifestPath(derivedDirectoryName, project, SynthesizingTargets(project.targets)[j])
  {
    MapTargetsPointwise(derivedDirectoryName, project, project.targets, serialize);
    MapTargetsSideEffects(derivedDirectoryName, project, project.targets, serialize);
  }

  /** `GeneratePrivacyManifestProjectMapper`: a project mapper configured with two directory names. */
  class GeneratePrivacyManifestProjectMapper {
    const derivedDirectoryName: string
    /** Configured, but never read: generated paths use `Constants.DerivedDirectoryPrivacyManifest`. */
    const privacyManifestDirectoryName: string

    constructor (derivedDirectoryName: string, privacyManifestDirectoryName: string)
      ensures this.derivedDirectoryName == derivedDirectoryName
      ensures this.privacyManifestDirectoryName == privacyManifestDirectoryName
    {
      this.derivedDirectoryName := derivedDirectoryName;
      this.privacyManifestDirectoryName := privacyManifestDirectoryName;
    }

    /** `init()` with its default arguments. */
    constructor Default()
      ensures derivedDirectoryName == Constants.DerivedDirectoryName
      ensures privacyManifestDirectoryName == Constants.DerivedDirectoryPrivacyManifest
    {
      derivedDirectoryName := Constants.DerivedDirectoryName;
      privacyManifestDirectoryName := Constants.DerivedDirectoryPrivacyManifest;
    }

    /** `map(target:project:)`: copies the resource list, appends to the copy and stores it in a copy of the target. */
    method MapSingleTarget<E>(target: G.Target, project: G.Project, serialize: Serializer<E>)
      returns (r: Result<(G.Target, seq<G.SideEffectDescriptor>), E>)
      ensures r == MapTarget(derivedDirectoryName, project, target, serialize)
    {
      if target.privacyManifest.None? {
        return Success((target, []));
      }
      var dictionary := PrivacyManifestDictionary(target.privacyManifest.value);
      if dictionary.None? {
        return Success((target, []));
      }
      var data := serialize(dictionary.value);
      if data.Failure? {
        return Failure(data.error);
      }
      var privacyManifestPath := PrivacyManifestPath(derivedDirectoryName, project, target);
      var sideEffect := G.SideEffectDescriptor.File(G.FileDescriptor(privacyManifestPath, data.value));
      var resources := target.resources;
      resources := resources + [FromPath(privacyManifestPath)];
      var newTarget := target.(resources := resources);
      return Success((newTarget, [sideEffect]));
    }

    /**
     * `map(project:)`: accumulates the mapped targets and their side effects target by target, and stops
     * at the first serialisation error.
     */
    method Map<E>(project: G.Project, serialize: Serializer<E>)
      returns (r: Result<(G.Project, seq<G.SideEffectDescriptor>), E>)
      ensures r == MapProject(derivedDirectoryName, project, serialize)
    {
      var targets: seq<G.Target> := [];
      var sideEffects: seq<G.SideEffectDescriptor> := [];
      var i := 0;
      while i < |project.targets|
        invariant 0 <= i <= |project.targets|
        invariant MapTargets(derivedDirectoryName, project, project.targets[..i], serialize) == Success((targets, sideEffects))
      {
        var result := MapSingleTarget(project.targets[i], project, serialize);
        assert project.targets[..i + 1][..i] == project.targets[..i];
        if result.Failure? {
          MapTargetsFailurePersists(derivedDirectoryName, project, project.targets, i + 1, serialize);
          return Failure(result.error);
        }
        var (updatedTarget, targetSideEffects) := result.value;
        targets := targets + [updatedTarget];
        sideEffects := sideEffects + targetSideEffects;
        i := i + 1;
      }
      assert project.targets[..i] == project.targets;
      return Success((project.(targets := targets), sideEffects));
    }
  }
}
