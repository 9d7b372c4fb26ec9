/**
 * Mapping of manifest plist values, Info.plist declarations and entitlements declarations
 * into their graph counterparts (`Plist.Value.from`, `InfoPlist.from`, `Entitlements.from`).
 */
module InfoPlistManifestMapper {
  import opened Wrappers
  import opened Paths
  import PD = ProjectDescription
  import G = GraphModels
  import GraphPlist

  /** A resolver of manifest paths against the manifest's directory; it may fail with an error of type `E`. */
  type Resolver<!E> = PD.Path -> Result<AbsolutePath, E>

  /**
   * Reference relation, shape by shape: `g` carries the same scalar payload in the same variant as `v`,
   * or the same number of array elements, or the same dictionary keys, each mirrored in turn.
   */
  predicate Mirrors(v: PD.PlistValue, g: GraphPlist.Value)
  {
    match v
    case String(s) => g == GraphPlist.String(s)
    case Boolean(b) => g == GraphPlist.Boolean(b)
    case Integer(n) => g == GraphPlist.Integer(n)
    case Real(x) => g == GraphPlist.Real(x)
    case Array(xs) =>
      g.Array? && |g.items| == |xs| && forall i :: 0 <= i < |xs| ==> Mirrors(xs[i], g.items[i])
    case Dictionary(m) =>
      g.Dictionary? && g.entries.Keys == m.Keys && forall k :: k in m ==> Mirrors(m[k], g.entries[k])
  }

  /** `Plist.Value.from(manifest:)`: total, and the result mirrors the input shape by shape. */
  function ValueFrom(v: PD.PlistValue): (r: GraphPlist.Value)
    ensures Mirrors(v, r)
  {
    match v
    case String(s) => GraphPlist.String(s)
    case Boolean(b) => GraphPlist.Boolean(b)
    case Integer(n) => GraphPlist.Integer(n)
    case Real(x) => GraphPlist.Real(x)
    case Array(xs) => GraphPlist.Array(seq(|xs|, i requires 0 <= i < |xs| => ValueFrom(xs[i])))
    case Dictionary(m) => GraphPlist.Dictionary(map k | k in m :: ValueFrom(m[k]))
  }

  /** The inverse direction, from the graph's value tree back to the manifest's. */
  function ValueToManifest(g: GraphPlist.Value): (r: PD.PlistValue)
  {
    match g
    case String(s) => PD.PlistValue.String(s)
    case Boolean(b) => PD.PlistValue.Boolean(b)
    case Integer(n) => PD.PlistValue.Integer(n)
    case Real(x) => PD.PlistValue.Real(x)
    case Array(xs) => PD.PlistValue.Array(seq(|xs|, i requires 0 <= i < |xs| => ValueToManifest(xs[i])))
    case Dictionary(m) => PD.PlistValue.Dictionary(map k | k in m :: ValueToManifest(m[k]))
  }

  /** `Mirrors` admits exactly one image: it is the graph of `ValueFrom`. */
  lemma {:induction false} MirrorsOnlyValueFrom(v: PD.PlistValue, g: GraphPlist.Value)
    requires Mirrors(v, g)
    ensures g == ValueFrom(v)
  {
    match v
    case String(_) =>
    case Boolean(_) =>
    case Integer(_) =>
    case Real(_) =>
    case Array(xs) =>
      forall i | 0 <= i < |xs| ensures g.items[i] == ValueFrom(v).items[i] {
        MirrorsOnlyValueFrom(xs[i], g.items[i]);
      }
    case Dictionary(m) =>
      forall k | k in m ensures g.entries[k] == ValueFrom(v).entries[k] {
        MirrorsOnlyValueFrom(m[k], g.entries[k]);
      }
  }

  /** Mapping a manifest value and mapping it back gives the original tree: nothing is lost or reordered. */
  lemma {:induction false} ValueRoundTrip(v: PD.PlistValue)
    ensures ValueToManifest(ValueFrom(v)) == v
  {
    match v
    case String(_) =>
    case Boolean(_) =>
    case Integer(_) =>
    case Real(_) =>
    case Array(xs) =>
      forall i | 0 <= i < |xs| ensures ValueToManifest(ValueFrom(v)).items[i] == xs[i] {
        ValueRoundTrip(xs[i]);
      }
    case Dictionary(m) =>
      forall k | k in m ensures ValueToManifest(ValueFrom(v)).entries[k] == m[k] {
        ValueRoundTrip(m[k]);
      }
  }

  /** Every graph value is the image of a manifest value: the two value trees are isomorphic. */
  lemma {:induction false} ValueRoundTripBack(g: GraphPlist.Value)
    ensures ValueFrom(ValueToManifest(g)) == g
  {
    match g
    case String(_) =>
    case Boolean(_) =>
    case Integer(_) =>
    case Real(_) =>
    case Array(xs) =>
      forall i | 0 <= i < |xs| ensures ValueFrom(ValueToManifest(g)).items[i] == xs[i] {
        ValueRoundTripBack(xs[i]);
      }
    case Dictionary(m) =>
      forall k | k in m ensures ValueFrom(ValueToManifest(g)).entries[k] == m[k] {
        ValueRoundTripBack(m[k]);
      }
  }

  /** Structurally different manifest values map to different graph values. */
  lemma ValueFromInjective(v: PD.PlistValue, w: PD.PlistValue)
    requires ValueFrom(v) == ValueFrom(w)
    ensures v == w
  {
    ValueRoundTrip(v);
    ValueRoundTrip(w);
  }

  /** `dictionary.mapValues { Plist.Value.from(manifest: $0) }`: same keys, each value mapped. */
  function DictionaryFrom(d: map<string, PD.PlistValue>): (r: map<string, GraphPlist.Value>)
    ensures r.Keys == d.Keys
    ensures forall k :: k in d ==> Mirrors(d[k], r[k])
  {
    map k | k in d :: ValueFrom(d[k])
  }

  /** Two inline dictionaries that map to the same graph dictionary were the same dictionary. */
  lemma DictionaryFromInjective(d: map<string, PD.PlistValue>, e: map<string, PD.PlistValue>)
    requires DictionaryFrom(d) == DictionaryFrom(e)
    ensures d == e
  {
    forall k | k in d ensures d[k] == e[k] {
      assert DictionaryFrom(d)[k] == DictionaryFrom(e)[k];
      ValueFromInjective(d[k], e[k]);
    }
  }

  /** `InfoPlist.from(manifest:generatorPaths:)`. */
  function InfoPlistFrom<E>(manifest: Option<PD.InfoPlist>, resolve: Resolver<E>): (r: Result<Option<G.InfoPlist>, E>)
    ensures manifest.None? ==> r == Success(None)
    ensures r.Failure? <==> manifest.Some? && manifest.value.File? && resolve(manifest.value.path).Failure?
    ensures r.Failure? ==> r.error == resolve(manifest.value.path).error
    ensures r.Success? && manifest.Some? ==> r.value.Some?
    ensures r.Success? && manifest.Some? && manifest.value.File? ==>
      r.value.value == G.InfoPlist.File(resolve(manifest.value.path).value)
    ensures manifest.Some? && manifest.value.Dictionary? ==>
      r == Success(Some(G.InfoPlist.Dictionary(DictionaryFrom(manifest.value.content))))
    ensures manifest.Some? && manifest.value.ExtendingDefault? ==>
      r == Success(Some(G.InfoPlist.ExtendingDefault(DictionaryFrom(manifest.value.content))))
  {
    match manifest
    case None => Success(None)
    case Some(m) =>
      match m
      case File(p) =>
        (match resolve(p)
         case Success(path) => Success(Some(G.InfoPlist.File(path)))
         case Failure(e) => Failure(e))
      case Dictionary(d) => Success(Some(G.InfoPlist.Dictionary(DictionaryFrom(d))))
      case ExtendingDefault(d) => Success(Some(G.InfoPlist.ExtendingDefault(DictionaryFrom(d))))
  }

  /** The variant of an Info.plist declaration survives mapping, and distinct inline contents stay distinct. */
  lemma InfoPlistFromKeepsVariant<E>(a: PD.InfoPlist, b: PD.InfoPlist, resolve: Resolver<E>)
    requires InfoPlistFrom(Some(a), resolve).Success? && InfoPlistFrom(Some(b), resolve).Success?
    ensures var ra := InfoPlistFrom(Some(a), resolve).value.value;
      (a.File? <==> ra.File?) && (a.Dictionary? <==> ra.Dictionary?) && (a.ExtendingDefault? <==> ra.ExtendingDefault?)
    ensures !a.File? && InfoPlistFrom(Some(a), resolve) == InfoPlistFrom(Some(b), resolve) ==> a == b
  {
    if !a.File? && InfoPlistFrom(Some(a), resolve) == InfoPlistFrom(Some(b), resolve) {
      DictionaryFromInjective(a.content, b.content);
    }
  }

  /** `Entitlements.from(manifest:generatorPaths:)`. */
  function EntitlementsFrom<E>(manifest: Option<PD.Entitlements>, resolve: Resolver<E>): (r: Result<Option<G.Entitlements>, E>)
    ensures manifest.None? ==> r == Success(None)
    ensures r.Failure? <==> manifest.Some? && manifest.value.File? && resolve(manifest.value.path).Failure?
    ensures r.Failure? ==> r.error == resolve(manifest.value.path).error
    ensures r.Success? && manifest.Some? ==> r.value.Some?
    ensures r.Success? && manifest.Some? && manifest.value.File? ==>
      r.value.value == G.Entitlements.File(resolve(manifest.value.path).value)
    ensures manifest.Some? && manifest.value.Dictionary? ==>
      r == Success(Some(G.Entitlements.Dictionary(DictionaryFrom(manifest.value.content))))
  {
    match manifest
    case None => Success(None)
    case Some(m) =>
      match m
      case File(p) =>
        (match resolve(p)
         case Success(path) => Success(Some(G.Entitlements.File(path)))
         case Failure(e) => Failure(e))
      case Dictionary(d) => Success(Some(G.Entitlements.Dictionary(DictionaryFrom(d))))
  }

  /** The variant of an entitlements declaration survives mapping, and distinct inline contents stay distinct. */
  lemma EntitlementsFromKeepsVariant<E>(a: PD.Entitlements, b: PD.Entitlements, resolve: Resolver<E>)
    requires EntitlementsFrom(Some(a), resolve).Success? && EntitlementsFrom(Some(b), resolve).Success?
    ensures (a.File? <==> EntitlementsFrom(Some(a), resolve).value.value.File?)
    ensures a.Dictionary? && EntitlementsFrom(Some(a), resolve) == EntitlementsFrom(Some(b), resolve) ==> a == b
  {
    if a.Dictionary? && EntitlementsFrom(Some(a), resolve) == EntitlementsFrom(Some(b), resolve) {
      DictionaryFromInjective(a.content, b.content);
    }
  }
}
