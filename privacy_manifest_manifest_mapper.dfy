/** Mapping of a manifest's privacy-manifest declaration into the graph (`PrivacyManifest.from`). */
module PrivacyManifestManifestMapper {
  import opened Wrappers
  import PD = ProjectDescription
  import G = GraphModels
  import opened InfoPlistManifestMapper

  /** `PrivacyManifest.from(manifest:generatorPaths:)`. */
  function PrivacyManifestFrom<E>(manifest: Option<PD.PrivacyManifest>, resolve: Resolver<E>): (r: Result<Option<G.PrivacyManifest>, E>)
    ensures manifest.None? ==> r == Success(None)
    ensures r.Failure? <==> manifest.Some? && manifest.value.File? && resolve(manifest.value.path).Failure?
    ensures r.Failure? ==> r.error == resolve(manifest.value.path).error
    ensures r.Success? && manifest.Some? ==> r.value.Some? && (r.value.value.File? <==> manifest.value.File?)
    ensures r.Success? && manifest.Some? && manifest.value.File? ==>
      r.value.value == G.PrivacyManifest.File(resolve(manifest.value.path).value)
    ensures manifest.Some? && manifest.value.Dictionary? ==>
      r == Success(Some(G.PrivacyManifest.Dictionary(DictionaryFrom(manifest.value.content))))
  {
    match manifest
    case None => Success(None)
    case Some(m) =>
      match m
      case File(p) =>
        (match resolve(p)
         case Success(path) => Success(Some(G.PrivacyManifest.File(path)))
         case Failure(e) => Failure(e))
      case Dictionary(d) => Success(Some(G.PrivacyManifest.Dictionary(DictionaryFrom(d))))
  }

  /**
   * Inline privacy content never consults the resolver, and its mapping loses nothing: the manifest's
   * dictionary can be read back from the graph's.
   */
  lemma PrivacyManifestDictionaryRoundTrip<E>(d: map<string, PD.PlistValue>, resolve: Resolver<E>, other: Resolver<E>)
    ensures PrivacyManifestFrom(Some(PD.PrivacyManifest.Dictionary(d)), resolve)
         == PrivacyManifestFrom(Some(PD.PrivacyManifest.Dictionary(d)), other)
    ensures var g := PrivacyManifestFrom(Some(PD.PrivacyManifest.Dictionary(d)), resolve).value.value.content;
      (map k | k in g :: ValueToManifest(g[k])) == d
  {
    var g := DictionaryFrom(d);
    forall k | k in d ensures ValueToManifest(g[k]) == d[k] {
      ValueRoundTrip(d[k]);
    }
  }
}
