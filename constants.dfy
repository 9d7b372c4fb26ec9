/** The tool's fixed directory names for derived files. */
module Constants {

  /** `Constants.DerivedDirectory.name`: the project-relative directory for generated files. */
  const DerivedDirectoryName: string := "Derived"

  /** `Constants.DerivedDirectory.privacyManifest`: the subdirectory for generated privacy manifests. */
  const DerivedDirectoryPrivacyManifest: string := "PrivacyManifests"
}
