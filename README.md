# Privacy-manifest synthesis and manifest mappers, in Dafny

This project models part of Tuist's mapping layer. That layer turns the values a user writes in a
manifest (the `ProjectDescription` types) into the internal graph (the `TuistGraph` types). The model
also covers the one project pass that derives a file from them.

- **Plist value mapper** (`Plist.Value.from`). A total structural fold over the six-way plist value tree
  (string, boolean, integer, real, array, dictionary). Scalars are copied as they are. Arrays and
  dictionaries are mapped element by element.
- **Manifest mappers** (`InfoPlist.from`, `Entitlements.from`, `PrivacyManifest.from`). A missing
  declaration stays missing. A file declaration is resolved through the path resolver, which may fail.
  Inline dictionaries (and Info.plist's "extending default" dictionaries) are mapped with the value
  mapper and never fail.
- **Resource file elements**. These are a target's resource entries: a file, a folder reference or inline
  privacy content. The model covers their `path`, `isReference`, `tags` and `inclusionCondition`
  accessors, `init(path:)`, and `remove(path:)`, which deletes the first plain file entry at a path.
- **User-facing `PrivacyManifest`**. The model covers its `path` accessor and its string-literal
  initialiser.
- **`GeneratePrivacyManifestProjectMapper`**. This pass handles every target whose privacy manifest is an
  inline dictionary. For each one, it serialises the dictionary and computes the path
  `<project>/<derived directory>/PrivacyManifests/<target name>/PrivacyInfo.xcprivacy`. It then emits one
  file-write side effect and appends a file resource at that path to a copy of the target's resources.
  All other targets pass through unchanged. The first serialisation failure aborts the whole pass. The
  pass writes nothing itself: its whole result is the new project plus the list of side effects.

The path resolver (`GeneratorPaths.resolve`) and the property-list serialiser
(`PropertyListSerialization.data`) are foreign code. Each appears as a function-typed parameter that
returns a `Result`, and the error type is generic.

The generated path uses the fixed constant `Constants.DerivedDirectory.privacyManifest`. It does not use
the mapper's configured `privacyManifestDirectoryName`, which is stored and never read
(`Sources/TuistGenerator/Mappers/GeneratePrivacyManifestProjectMapper.swift:11`, `:18` and `:59`). The
model does the same: `PrivacyManifestPath`, `MapTarget` and `MapProject` never receive that field. The
initialiser takes a `privacyManifestDirectoryName`, so the subdirectory looks configurable, but the code
never reads it, and neither does the model.

Files, one module each: `wrappers.dfy` (Option, Result), `primitives.dfy` (Int64, Double bits, Data),
`paths.dfy` (absolute paths as component sequences), `project_description.dfy` (manifest types),
`graph_plist.dfy` and `graph_models.dfy` (graph types), `resource_file_element.dfy`,
`info_plist_manifest_mapper.dfy`, `privacy_manifest_manifest_mapper.dfy`, `constants.dfy` and
`generate_privacy_manifest_project_mapper.dfy`.

## Model

| member | source | states |
|---|---|---|
| `ProjectDescription.PrivacyManifest.FilePath` | Sources/ProjectDescription/PrivacyManifest.swift:20-27 | `path` is non-nil exactly for the `.file` variant, and then it is the stored path; `.dictionary` gives nil |
| `ProjectDescription.PrivacyManifestFromStringLiteral` | Sources/ProjectDescription/PrivacyManifest.swift:33-35 | a string literal builds the `.file` variant whose `path` is `.path(literal)` |
| `ProjectDescription.FilePathDeterminesFile` | Sources/ProjectDescription/PrivacyManifest.swift:20-27 | two manifests with the same non-nil `path` are equal |
| `ProjectDescription.StringLiteralIsFileBijection` | Sources/ProjectDescription/PrivacyManifest.swift:33-35 | distinct literals give distinct manifests; every `.file` manifest is the literal of its own path string, which holds because the model reduces `Path` to its string (see "## Left out") |
| `ResourceFileElements.ResourceFileElement.Path` | Sources/TuistGraph/Models/ResourceFileElement.swift:19-28 | the stored path for `.file` and `.folderReference`, the empty path for `.privacyManifest` |
| `ResourceFileElements.ResourceFileElement.IsReference` | Sources/TuistGraph/Models/ResourceFileElement.swift:30-39 | true exactly for `.folderReference` |
| `ResourceFileElements.ResourceFileElement.Tags` | Sources/TuistGraph/Models/ResourceFileElement.swift:41-50 | the stored tags for files and folder references, none for `.privacyManifest` |
| `ResourceFileElements.ResourceFileElement.InclusionCondition` | Sources/TuistGraph/Models/ResourceFileElement.swift:52-61 | the stored condition for files and folder references, nil for `.privacyManifest` |
| `ResourceFileElements.FromPath` | Sources/TuistGraph/Models/ResourceFileElement.swift:63-65 | `init(path:)` gives a `.file` whose `path` is the argument, not a reference, with no tags and no condition |
| `ResourceFileElements.AccessorsRebuildElement` | Sources/TuistGraph/Models/ResourceFileElement.swift:19-61 | for files and folder references the four accessors determine the element completely |
| `ResourceFileElements.IsFromPathIff` | Sources/TuistGraph/Models/ResourceFileElement.swift:63-70 | an element equals `init(path:)` iff it is a file at that path with no tags and no condition, which is what `remove(path:)` matches |
| `ResourceFileElements.FirstIndex` | Sources/TuistGraph/Models/ResourceFileElement.swift:70 | `firstIndex(of:)` returns nil iff the element is absent; otherwise the index of an equal element with no equal element before it |
| `ResourceFileElements.Remove` | Sources/TuistGraph/Models/ResourceFileElement.swift:69-72 | `remove(path:)` deletes the first `.file(path, [], nil)`: no-op when there is none; otherwise the length drops by one and exactly one copy leaves the multiset |
| `ResourceFileElements.RemovingFirstAbsent` | Sources/TuistGraph/Models/ResourceFileElement.swift:70 | with no matching element, removal leaves the list unchanged |
| `ResourceFileElements.RemovingFirstSplit` | Sources/TuistGraph/Models/ResourceFileElement.swift:69-72 | with the first match at k, the result is the elements before k followed by those after k, in their order |
| `ResourceFileElements.RemovingFirstCounts` | Sources/TuistGraph/Models/ResourceFileElement.swift:69-72 | removal takes exactly one copy of the match from the multiset when there is one; the length drops by one exactly then |
| `ResourceFileElements.RemoveKeepsOtherEntries` | Sources/TuistGraph/Models/ResourceFileElement.swift:70 | any entry other than `.file(path, [], nil)`, such as a folder reference or a tagged file at the same path, survives `remove(path:)` |
| `InfoPlistManifestMapper.ValueFrom` | Sources/TuistLoader/Models+ManifestMappers/InfoPlist+ManifestMapper.swift:55-70 | `Plist.Value.from` is total and mirrors its input: the same variant, scalars copied verbatim, arrays of the same length mapped element by element, dictionaries with the same keys mapped value by value |
| `InfoPlistManifestMapper.MirrorsOnlyValueFrom` | Sources/TuistLoader/Models+ManifestMappers/InfoPlist+ManifestMapper.swift:55-70 | the mirroring relation has exactly one image per input, namely the result of `from` |
| `InfoPlistManifestMapper.ValueRoundTrip` | Sources/TuistLoader/Models+ManifestMappers/InfoPlist+ManifestMapper.swift:55-70 | mapping a manifest value and mapping it back gives the original tree |
| `InfoPlistManifestMapper.ValueRoundTripBack` | Sources/TuistLoader/Models+ManifestMappers/InfoPlist+ManifestMapper.swift:55-70 | every graph value is the image of some manifest value, so the two value trees are isomorphic |
| `InfoPlistManifestMapper.ValueFromInjective` | Sources/TuistLoader/Models+ManifestMappers/InfoPlist+ManifestMapper.swift:55-70 | different manifest values never map to the same graph value |
| `InfoPlistManifestMapper.DictionaryFrom` | Sources/TuistLoader/Models+ManifestMappers/InfoPlist+ManifestMapper.swift:16-24 | `mapValues` with `from` keeps the key set and mirrors every value |
| `InfoPlistManifestMapper.DictionaryFromInjective` | Sources/TuistLoader/Models+ManifestMappers/InfoPlist+ManifestMapper.swift:16-24 | two inline dictionaries with the same mapped dictionary are equal |
| `InfoPlistManifestMapper.InfoPlistFrom` | Sources/TuistLoader/Models+ManifestMappers/InfoPlist+ManifestMapper.swift:12-28 | nil maps to nil; `.file(p)` maps to `.file(resolve(p))`; it fails iff the declaration is a file and the resolver fails, and then with the resolver's error; `.dictionary` and `.extendingDefault` keep their variant, map their values and never fail |
| `InfoPlistManifestMapper.InfoPlistFromKeepsVariant` | Sources/TuistLoader/Models+ManifestMappers/InfoPlist+ManifestMapper.swift:13-27 | each of the three variants maps to the same variant; distinct inline declarations stay distinct |
| `InfoPlistManifestMapper.EntitlementsFrom` | Sources/TuistLoader/Models+ManifestMappers/InfoPlist+ManifestMapper.swift:36-47 | nil maps to nil; `.file(p)` maps to `.file(resolve(p))`; it fails iff the declaration is a file and the resolver fails, with that error; `.dictionary` maps its values and never fails |
| `InfoPlistManifestMapper.EntitlementsFromKeepsVariant` | Sources/TuistLoader/Models+ManifestMappers/InfoPlist+ManifestMapper.swift:37-46 | files stay files and dictionaries stay dictionaries; distinct inline declarations stay distinct |
| `PrivacyManifestManifestMapper.PrivacyManifestFrom` | Sources/TuistLoader/Models+ManifestMappers/PrivacyManifest+ManifestMapper.swift:12-25 | nil maps to nil; `.file(p)` maps to `.file(resolve(p))`; it fails iff the declaration is a file and the resolver fails, with that error; `.dictionary` maps its values and never fails; the output variant always matches the input variant |
| `PrivacyManifestManifestMapper.PrivacyManifestDictionaryRoundTrip` | Sources/TuistLoader/Models+ManifestMappers/PrivacyManifest+ManifestMapper.swift:18-21 | an inline dictionary's result does not depend on the resolver, and the manifest dictionary can be recovered from it |
| `Paths.Appending` | Sources/TuistGenerator/Mappers/GeneratePrivacyManifestProjectMapper.swift:57-61 | `appending(component:)` adds one component at the end and keeps the others |
| `GeneratePrivacyManifestProjectMapping.PrivacyManifestDictionary` | Sources/TuistGenerator/Mappers/GeneratePrivacyManifestProjectMapper.swift:73-82 | there is content to serialise iff the privacy manifest is `.dictionary`, and then it is that dictionary's content |
| `GeneratePrivacyManifestProjectMapping.PrivacyManifestPath` | Sources/TuistGenerator/Mappers/GeneratePrivacyManifestProjectMapper.swift:57-61 | the path is the project path followed by the derived directory name, the constant privacy-manifest directory, the target name and `PrivacyInfo.xcprivacy` |
| `GeneratePrivacyManifestProjectMapping.MapTarget` | Sources/TuistGenerator/Mappers/GeneratePrivacyManifestProjectMapper.swift:38-71 | a target without a privacy manifest or with a `.file` one comes back unchanged with no side effect; only `.dictionary` fails, iff its serialisation fails and with that error; on success only `resources` changes, growing by exactly one plain file at the generated path after an unchanged prefix, and exactly one file write of the serialised bytes goes to that same path |
| `GeneratePrivacyManifestProjectMapping.MapTargets` | Sources/TuistGenerator/Mappers/GeneratePrivacyManifestProjectMapper.swift:26-31 | the `reduce(into:)` over the targets as a left fold that stops at the first thrown error; on success it yields one output target per input target; its other properties are the four `MapTargets*` lemmas below |
| `GeneratePrivacyManifestProjectMapping.MapTargetsFailurePersists` | Sources/TuistGenerator/Mappers/GeneratePrivacyManifestProjectMapper.swift:26-31 | once the targets up to some point fail, the whole fold fails with the same error |
| `GeneratePrivacyManifestProjectMapping.MapTargetsFailure` | Sources/TuistGenerator/Mappers/GeneratePrivacyManifestProjectMapper.swift:26-31 | the fold fails iff some target's serialisation fails, and then with the error of the first such target |
| `GeneratePrivacyManifestProjectMapping.MapTargetsPointwise` | Sources/TuistGenerator/Mappers/GeneratePrivacyManifestProjectMapper.swift:26-31 | on success there are as many output targets as input targets, and the i-th output is the i-th input mapped on its own |
| `GeneratePrivacyManifestProjectMapping.MapTargetsSideEffects` | Sources/TuistGenerator/Mappers/GeneratePrivacyManifestProjectMapper.swift:27-31 | on success there is one side effect per `.dictionary` target, in target order, each writing that target's serialised content to that target's generated path |
| `GeneratePrivacyManifestProjectMapping.MapProject` | Sources/TuistGenerator/Mappers/GeneratePrivacyManifestProjectMapper.swift:23-34 | it fails iff some target's serialisation fails; on success only the project's `targets` is replaced |
| `GeneratePrivacyManifestProjectMapping.MapProjectSucceeds` | Sources/TuistGenerator/Mappers/GeneratePrivacyManifestProjectMapper.swift:23-34 | on success the target count and order are kept; targets without inline content are returned unchanged; each `.dictionary` target gains exactly the resource at its generated path; the side effects' paths are those targets' paths, in order |
| `GeneratePrivacyManifestProjectMapping.GeneratePrivacyManifestProjectMapper.constructor` | Sources/TuistGenerator/Mappers/GeneratePrivacyManifestProjectMapper.swift:13-19 | stores both configured directory names |
| `GeneratePrivacyManifestProjectMapping.GeneratePrivacyManifestProjectMapper.Default` | Sources/TuistGenerator/Mappers/GeneratePrivacyManifestProjectMapper.swift:13-19 | the default arguments are the two `Constants.DerivedDirectory` names |
| `GeneratePrivacyManifestProjectMapping.GeneratePrivacyManifestProjectMapper.MapSingleTarget` | Sources/TuistGenerator/Mappers/GeneratePrivacyManifestProjectMapper.swift:38-71 | copying the resources, appending to the copy and storing it in a copy of the target computes `MapTarget` |
| `GeneratePrivacyManifestProjectMapping.GeneratePrivacyManifestProjectMapper.Map` | Sources/TuistGenerator/Mappers/GeneratePrivacyManifestProjectMapper.swift:23-34 | the accumulating loop, which stops at the first thrown error, computes `MapProject` with the configured derived directory name and never the configured privacy-manifest directory name |

## Left out

- `logger.debug` in `map(project:)` is logging only, so it is not modelled.
- `PropertyListSerialization.data` is a foreign codec. It is a parameter from the graph's dictionary to
  bytes or an error. The `Plist.Value.value` bridge to `Any` is treated as part of that serialiser. The
  XML format argument and the bytes are opaque.
- `GeneratorPaths.resolve` is foreign path resolution. It is a parameter from a manifest path to an
  absolute path or an error.
- `AbsolutePath` internals: a path is a sequence of components and `appending(component:)` appends one.
  The string literal `""` used as an absolute path is a fixed sentinel with no components, which in this
  encoding is the same value as the root `/`. The parsing that Swift does for that literal is not modelled.
- `Paths.Appending` always adds the component as it is. TSCBasic's `appending(component:)` treats some
  components specially: `""` and `"."` leave the path unchanged, `".."` goes to the parent, and a component
  containing `/` fails an assertion. So for a target name or derived directory name of that form,
  `PrivacyManifestPath` states a different path from the one the tool computes.
- Strings, including path components, resource tags and dictionary keys, are compared by code units. Swift
  compares `String` values by canonical equivalence. So `remove(path:)` in Swift also removes a file entry
  whose path spells an accented letter in decomposed form when the argument uses the composed form, while
  `Remove` and `FirstIndex` leave it in place. Likewise a Swift dictionary cannot hold two canonically
  equivalent keys, while a Dafny map can.
- `ProjectDescription.Path` internals: `.path(s)` is modelled as a path holding the string `s`. The path
  kinds (relative to the manifest, to the root and so on) are not modelled.
- `Constants` is not part of this model. Its two directory names are taken as `"Derived"` and
  `"PrivacyManifests"`, and no proved property depends on those literal values.
- `Target` and `Project` keep only some of their fields: the ones this pass reads or writes, plus a few it
  must leave alone. `MapTarget` and `MapProject` state that everything except `resources` (respectively
  `targets`) is unchanged, so any further field would be carried along as well.
- `SideEffectDescriptor` keeps only its `.file` variant, which is the only one this pass produces.
  `FileDescriptor` keeps only its path and contents; the present/absent state is not modelled.
- `TuistGraph.InfoPlist` keeps only the three variants that `InfoPlist.from` produces.
- `PlatformCondition` is an opaque value that is only stored and compared.
- Swift dictionaries are modelled as Dafny maps. Swift dictionaries have no order that a program can rely
  on, and `mapValues` keeps keys as they are, so only the key set and the values are modelled.
- `.real` payloads are carried as their 64-bit IEEE pattern. They are only copied, never computed with.
  Integer payloads are limited to Swift's 64-bit `Int` range.
- Swift `Codable`/`Hashable` conformances and `PrivacyManifest.CodingError` are left out because they
  carry no mapping logic.
- Errors carry no target or project name. The code propagates the serialiser's or resolver's error as it
  is, and the model does the same.
- `UserInputReader` (interactive terminal input) and Core Data model mapping are outside this core.
