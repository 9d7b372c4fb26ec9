/** The user-facing manifest types (the `ProjectDescription` framework that manifests are written against). */
module ProjectDescription {
  import opened Wrappers
  import opened Primitives

  /** A manifest path as the user wrote it, before it is resolved against the manifest's directory. */
  datatype Path = Path(pathString: string)

  /** `ProjectDescription.Plist.Value`: the plist value tree a manifest writes inline. */
  datatype PlistValue =
    | String(stringValue: string)
    | Boolean(boolValue: bool)
    | Integer(intValue: Int64)
    | Real(realValue: Double)
    | Array(items: seq<PlistValue>)
    | Dictionary(entries: map<string, PlistValue>)

  /** `ProjectDescription.InfoPlist`: an existing file, an inline dictionary, or keys added to the defaults. */
  datatype InfoPlist =
    | File(path: Path)
    | Dictionary(content: map<string, PlistValue>)
    | ExtendingDefault(content: map<string, PlistValue>)

  /** `ProjectDescription.Entitlements`: an existing file or an inline dictionary. */
  datatype Entitlements =
    | File(path: Path)
    | Dictionary(content: map<string, PlistValue>)

  /** `ProjectDescription.PrivacyManifest`: an existing `.xcprivacy` file, or inline content that is generated later. */
  datatype PrivacyManifest =
    | File(path: Path)
    | Dictionary(content: map<string, PlistValue>)
  {
    /** The `path` accessor: the file's path, or `nil` for inline content. */
    function FilePath(): (r: Option<Path>)
      ensures r.Some? <==> File?
      ensures File? ==> r == Some(path)
    {
      match this
      case File(p) => Some(p)
      case _ => None
    }
  }

  /** `PrivacyManifest.init(stringLiteral:)`: a string literal names an existing file. */
  function PrivacyManifestFromStringLiteral(value: string): (r: PrivacyManifest)
    ensures r.File? && r.FilePath() == Some(Path(value))
  {
    PrivacyManifest.File(Path(value))
  }

  /** Two privacy manifests with the same non-nil `path` are the same manifest: `path` loses nothing on files. */
  lemma FilePathDeterminesFile(a: PrivacyManifest, b: PrivacyManifest)
    requires a.FilePath().Some? && a.FilePath() == b.FilePath()
    ensures a == b
  {
  }

  /** Distinct literals give distinct manifests, and every file manifest is some literal's. */
  lemma StringLiteralIsFileBijection(s: string, t: string, m: PrivacyManifest)
    ensures PrivacyManifestFromStringLiteral(s) == PrivacyManifestFromStringLiteral(t) <==> s == t
    ensures m.File? ==> PrivacyManifestFromStringLiteral(m.path.pathString) == m
  {
  }
}
