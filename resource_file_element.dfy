/** `ResourceFileElement`: one entry of a target's resource list, and removal of a plain file entry by path. */
module ResourceFileElements {
  import opened Wrappers
  import opened Paths
  import GraphPlist

  /** A platform inclusion condition, kept opaque: it is only stored, copied and compared. */
  datatype PlatformCondition = PlatformCondition(platformFilters: set<string>)

  datatype ResourceFileElement =
      /** A file (or glob) with its on-demand-resource tags and inclusion condition. */
    | File(path: AbsolutePath, tags: seq<string>, inclusionCondition: Option<PlatformCondition>)
      /** A directory added as a folder reference, with tags and condition. */
    | FolderReference(path: AbsolutePath, tags: seq<string>, inclusionCondition: Option<PlatformCondition>)
      /** Privacy-manifest content that has no file of its own yet. */
    | PrivacyManifest(
        tracking: bool,
        trackingDomains: seq<string>,
        collectedDataTypes: seq<map<string, GraphPlist.Value>>,
        accessedAPITypes: seq<map<string, GraphPlist.Value>>)
  {
    /** The `path` accessor: the stored path, or the empty path for privacy-manifest content. */
    function Path(): (r: AbsolutePath)
      ensures !PrivacyManifest? ==> r == path
      ensures PrivacyManifest? ==> r == EmptyPath
    {
      match this
      case File(p, _, _) => p
      case FolderReference(p, _, _) => p
      case PrivacyManifest(_, _, _, _) => EmptyPath
    }

    /** The `isReference` accessor: true exactly for folder references. */
    function IsReference(): (r: bool)
      ensures r <==> FolderReference?
    {
      match this
      case File(_, _, _) => false
      case FolderReference(_, _, _) => true
      case PrivacyManifest(_, _, _, _) => false
    }

    /** The `tags` accessor: the stored tags, none for privacy-manifest content. */
    function Tags(): (r: seq<string>)
      ensures !PrivacyManifest? ==> r == tags
      ensures PrivacyManifest? ==> r == []
    {
      match this
      case File(_, t, _) => t
      case FolderReference(_, t, _) => t
      case PrivacyManifest(_, _, _, _) => []
    }

    /** The `inclusionCondition` accessor: the stored condition, `nil` for privacy-manifest content. */
    function InclusionCondition(): (r: Option<PlatformCondition>)
      ensures !PrivacyManifest? ==> r == inclusionCondition
      ensures PrivacyManifest? ==> r == None
    {
      match this
      case File(_, _, c) => c
      case FolderReference(_, _, c) => c
      case PrivacyManifest(_, _, _, _) => None
    }
  }

  /** `init(path:)`: a plain file entry, with no tags and no condition. */
  function FromPath(path: AbsolutePath): (r: ResourceFileElement)
    ensures r.File? && !r.IsReference()
    ensures r.Path() == path && r.Tags() == [] && r.InclusionCondition() == None
  {
    File(path, [], None)
  }

  /** The four accessors lose nothing on file and folder entries: they rebuild the element. */
  lemma AccessorsRebuildElement(e: ResourceFileElement)
    requires !e.PrivacyManifest?
    ensures e == if e.IsReference() then FolderReference(e.Path(), e.Tags(), e.InclusionCondition())
                 else File(e.Path(), e.Tags(), e.InclusionCondition())
  {
  }

  /** An element is the one `init(path:)` builds exactly when it is an untagged, unconditional file at that path. */
  lemma IsFromPathIff(e: ResourceFileElement, path: AbsolutePath)
    ensures e == FromPath(path) <==>
      e.File? && e.Path() == path && e.Tags() == [] && e.InclusionCondition() == None
  {
  }

  /** Reference definition of `remove(path:)`'s effect: the first occurrence of `x` is deleted. */
  function RemovingFirst(elements: seq<ResourceFileElement>, x: ResourceFileElement): seq<ResourceFileElement>
  {
    if elements == [] then []
    else if elements[0] == x then elements[1..]
    else [elements[0]] + RemovingFirst(elements[1..], x)
  }

  /** Without an occurrence of `x` nothing is removed. */
  lemma {:induction false} RemovingFirstAbsent(elements: seq<ResourceFileElement>, x: ResourceFileElement)
    requires x !in elements
    ensures RemovingFirst(elements, x) == elements
  {
    if elements != [] {
      RemovingFirstAbsent(elements[1..], x);
    }
  }

  /** With the first occurrence of `x` at `k`, exactly the element at `k` goes and the rest keep their order. */
  lemma {:induction false} RemovingFirstSplit(elements: seq<ResourceFileElement>, x: ResourceFileElement, k: nat)
    requires k < |elements| && elements[k] == x && x !in elements[..k]
    ensures RemovingFirst(elements, x) == elements[..k] + elements[k + 1..]
  {
    if k > 0 {
      assert elements[0] in elements[..k];
      assert elements[1..][..k - 1] == elements[1..k];
      RemovingFirstSplit(elements[1..], x, k - 1);
      assert elements[..k] == [elements[0]] + elements[1..][..k - 1];
      assert elements[k + 1..] == elements[1..][k..];
    }
  }

  /** Removal takes exactly one copy of `x` when there is one, and nothing else. */
  lemma {:induction false} RemovingFirstCounts(elements: seq<ResourceFileElement>, x: ResourceFileElement)
    ensures multiset(RemovingFirst(elements, x)) == multiset(elements) - multiset{x}
    ensures |RemovingFirst(elements, x)| == if x in elements then |elements| - 1 else |elements|
  {
    if elements != [] {
      RemovingFirstCounts(elements[1..], x);
      assert elements == [elements[0]] + elements[1..];
      if elements[0] != x {
        assert x in elements <==> x in elements[1..];
      }
    }
  }

  /** `Array<ResourceFileElement>.firstIndex(of:)`: the index of the first element equal to `x`, if any. */
  method FirstIndex(elements: seq<ResourceFileElement>, x: ResourceFileElement) returns (index: Option<nat>)
    ensures index.None? <==> x !in elements
    ensures index.Some? ==> index.value < |elements| && elements[index.value] == x && x !in elements[..index.value]
  {
    var i := 0;
    while i < |elements|
      invariant 0 <= i <= |elements|
      invariant x !in elements[..i]
    {
      if elements[i] == x {
        return Some(i);
      }
      assert elements[..i + 1] == elements[..i] + [elements[i]];
      i := i + 1;
    }
    assert elements[..i] == elements;
    return None;
  }

  /**
   * `Array<ResourceFileElement>.remove(path:)`: delete the first entry equal to `init(path:)`.
   * Folder references and files that carry tags or a condition are never matched.
   */
  method Remove(elements: seq<ResourceFileElement>, path: AbsolutePath) returns (updated: seq<ResourceFileElement>)
    ensures updated == RemovingFirst(elements, FromPath(path))
    ensures FromPath(path) !in elements ==> updated == elements
    ensures FromPath(path) in elements ==> |updated| == |elements| - 1
    ensures multiset(updated) == multiset(elements) - multiset{FromPath(path)}
  {
    RemovingFirstCounts(elements, FromPath(path));
    var index := FirstIndex(elements, FromPath(path));
    if index.None? {
      RemovingFirstAbsent(elements, FromPath(path));
      return elements;
    }
    RemovingFirstSplit(elements, FromPath(path), index.value);
    updated := elements[..index.value] + elements[index.value + 1..];
  }

  /** Every entry other than `init(path:)` survives `remove(path:)`, e.g. a folder reference or a tagged file at `path`. */
  lemma RemoveKeepsOtherEntries(elements: seq<ResourceFileElement>, path: AbsolutePath, e: ResourceFileElement)
    requires e in elements && e != FromPath(path)
    ensures e in RemovingFirst(elements, FromPath(path))
  {
    RemovingFirstCounts(elements, FromPath(path));
    assert e in multiset(elements);
  }
}
