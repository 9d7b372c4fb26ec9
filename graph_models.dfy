/** The internal graph models the mappers produce: manifests, targets, projects and deferred side effects. */
module GraphModels {
  import opened Wrappers
  import opened Primitives
  import opened Paths
  import GraphPlist
  import opened ResourceFileElements

  /** `TuistGraph.InfoPlist`: a resolved file, a dictionary, or keys that extend the default Info.plist. */
  datatype InfoPlist =
    | File(path: AbsolutePath)
    | Dictionary(content: map<string, GraphPlist.Value>)
    | ExtendingDefault(content: map<string, GraphPlist.Value>)

  /** `TuistGraph.Entitlements`: a resolved file or a dictionary. */
  datatype Entitlements =
    | File(path: AbsolutePath)
    | Dictionary(content: map<string, GraphPlist.Value>)

  /** `TuistGraph.PrivacyManifest`: a resolved `.xcprivacy` file or inline content to generate a file from. */
  datatype PrivacyManifest =
    | File(path: AbsolutePath)
    | Dictionary(content: map<string, GraphPlist.Value>)

  /** A target, with the fields the privacy-manifest pass reads or writes and a few it must leave alone. */
  datatype Target = Target(
    name: string,
    sources: seq<AbsolutePath>,
    resources: seq<ResourceFileElement>,
    infoPlist: Option<InfoPlist>,
    entitlements: Option<Entitlements>,
    privacyManifest: Option<PrivacyManifest>)

  /** A project: its name, its directory and its targets in declaration order. */
  datatype Project = Project(
    name: string,
    path: AbsolutePath,
    sourceRootPath: AbsolutePath,
    targets: seq<Target>)

  /** A file to write later: where, and which bytes. */
  datatype FileDescriptor = FileDescriptor(path: AbsolutePath, contents: Data)

  /** A deferred action that a later stage performs; this pass only produces file writes. */
  datatype SideEffectDescriptor = File(file: FileDescriptor)
}
