/**
 * The Visual Studio Code marketplace search: extension ids, the result count of
 * a gallery query, the installed check, the list icon and the query gate.
 *
 * The marketplace request itself is not part of this model; its answer is an
 * input. `toLocaleLowerCase` is modelled on ASCII letters.
 */
module VSCodeGallery {
  import opened Wrappers
  import opened Strings

  datatype Publisher = Publisher(publisherName: string, displayName: string)
  datatype File = File(assetType: string, source: string)
  datatype Version = Version(version: string, files: seq<File>)
  datatype GalleryExtension = GalleryExtension(publisher: Publisher, extensionName: string, versions: Option<seq<Version>>)
  datatype MetadataItem = MetadataItem(name: string, count: int)
  datatype ResultMetadatum = ResultMetadatum(metadataType: string, metadataItems: seq<MetadataItem>)
  datatype QueryResult = QueryResult(extensions: seq<GalleryExtension>, resultMetadata: Option<seq<ResultMetadatum>>)
  datatype GalleryQueryResult = GalleryQueryResult(results: Option<seq<QueryResult>>)

  const DefaultIconAsset: string := "Microsoft.VisualStudio.Services.Icons.Default"

  /** `k` is the position of the first element of `s` that satisfies `p`. */
  predicate FirstAt<T>(s: seq<T>, p: T -> bool, k: int)
  {
    0 <= k < |s| && p(s[k]) && forall j :: 0 <= j < k ==> !p(s[j])
  }

  /** `Array.prototype.find` */
  function Find<T(==)>(s: seq<T>, p: T -> bool): (r: Option<T>)
    ensures r.None? <==> forall i :: 0 <= i < |s| ==> !p(s[i])
    ensures r.Some? ==> exists k :: FirstAt(s, p, k) && s[k] == r.value
    decreases |s|
  {
    if |s| == 0 then None
    else if p(s[0]) then
      assert FirstAt(s, p, 0);
      Some(s[0])
    else
      var r := Find(s[1..], p);
      if r.Some? then
        var k :| FirstAt(s[1..], p, k) && s[1..][k] == r.value;
        assert FirstAt(s, p, k + 1);
        r
      else r
  }

  /** `getFullExtensionID`: publisher name, a dot, extension name. */
  function FullExtensionID(e: GalleryExtension): (id: string)
    ensures |id| == |e.publisher.publisherName| + 1 + |e.extensionName|
    ensures StartsWith(id, e.publisher.publisherName)
    ensures id[|e.publisher.publisherName|] == '.' && id[|e.publisher.publisherName| + 1..] == e.extensionName
  {
    e.publisher.publisherName + "." + e.extensionName
  }

  /** A publisher name without a dot is recovered as the text before the id's first dot. */
  lemma FullExtensionIDSplits(e: GalleryExtension)
    requires forall i :: 0 <= i < |e.publisher.publisherName| ==> e.publisher.publisherName[i] != '.'
    ensures var id := FullExtensionID(e);
      IndexOf(id, ".") == |e.publisher.publisherName| &&
      id[..IndexOf(id, ".")] == e.publisher.publisherName && id[IndexOf(id, ".") + 1..] == e.extensionName
  {
    var id := FullExtensionID(e);
    var n := |e.publisher.publisherName|;
    assert OccursAt(id, ".", n);
    forall i | 0 <= i < n
      ensures !OccursAt(id, ".", i)
    {
      assert id[i] == e.publisher.publisherName[i];
      assert id[i..i + 1] == [id[i]];
    }
  }

  predicate IsResultCount(m: ResultMetadatum)
  {
    m.metadataType == "ResultCount"
  }

  predicate IsTotalCount(item: MetadataItem)
  {
    item.name == "TotalCount"
  }

  /** The metadata list of the first result, when the answer has one. */
  function FirstMetadata(data: Option<GalleryQueryResult>): Option<seq<ResultMetadatum>>
  {
    if data.None? || data.value.results.None? || |data.value.results.value| == 0 then None
    else data.value.results.value[0].resultMetadata
  }

  /**
   * `getTotalResultCount`: the count of the first "TotalCount" item of the first
   * "ResultCount" metadata of the first result; nothing when any of them is missing.
   */
  function TotalResultCount(data: Option<GalleryQueryResult>): (r: Option<int>)
    ensures data.None? || data.value.results.None? || |data.value.results.value| == 0 ==> r.None?
    ensures r.Some? <==> (FirstMetadata(data).Some? &&
                          exists k :: FirstAt(FirstMetadata(data).value, IsResultCount, k) &&
                                      exists i :: 0 <= i < |FirstMetadata(data).value[k].metadataItems| &&
                                                  IsTotalCount(FirstMetadata(data).value[k].metadataItems[i]))
    ensures r.Some? ==>
              exists k, i :: FirstAt(FirstMetadata(data).value, IsResultCount, k) &&
                             FirstAt(FirstMetadata(data).value[k].metadataItems, IsTotalCount, i) &&
                             r.value == FirstMetadata(data).value[k].metadataItems[i].count
  {
    match FirstMetadata(data)
    case None => None
    case Some(metadata) =>
      match Find(metadata, IsResultCount)
      case None => None
      case Some(resultCount) =>
        FirstAtUnique(metadata, IsResultCount);
        match Find(resultCount.metadataItems, IsTotalCount)
        case None => None
        case Some(totalCount) => Some(totalCount.count)
  }

  /** There is at most one first position. */
  lemma FirstAtUnique<T>(s: seq<T>, p: T -> bool)
    ensures forall k, l :: FirstAt(s, p, k) && FirstAt(s, p, l) ==> k == l
  {
  }

  /** Only the first result is consulted: later results never change the count. */
  lemma TotalCountOnlyFirstResult(first: QueryResult, rest: seq<QueryResult>)
    ensures TotalResultCount(Some(GalleryQueryResult(Some([first] + rest)))) ==
            TotalResultCount(Some(GalleryQueryResult(Some([first]))))
  {
  }

  /** The installed ids, lower-cased; none when the local list is missing. */
  function InstalledIDs(installed: Option<seq<string>>): (ids: seq<string>)
    ensures installed.None? ==> ids == []
    ensures installed.Some? ==> |ids| == |installed.value| &&
                                forall i :: 0 <= i < |ids| ==> ids[i] == ToLower(installed.value[i])
  {
    if installed.None? then []
    else seq(|installed.value|, i requires 0 <= i < |installed.value| => ToLower(installed.value[i]))
  }

  /** `alreadyInstalled`: some local id equals the full extension id, ignoring case. */
  function AlreadyInstalled(e: GalleryExtension, installed: Option<seq<string>>): (r: bool)
    ensures r <==> (installed.Some? &&
                    exists i :: 0 <= i < |installed.value| && ToLower(installed.value[i]) == ToLower(FullExtensionID(e)))
  {
    var ids := InstalledIDs(installed);
    assert ToLower(FullExtensionID(e)) in ids <==> exists i :: 0 <= i < |ids| && ids[i] == ToLower(FullExtensionID(e));
    ToLower(FullExtensionID(e)) in ids
  }

  /** Extensions whose ids differ only in ASCII case are installed or not together. */
  lemma AlreadyInstalledIgnoresCase(e: GalleryExtension, f: GalleryExtension, installed: Option<seq<string>>)
    requires ToLower(FullExtensionID(e)) == ToLower(FullExtensionID(f))
    ensures AlreadyInstalled(e, installed) == AlreadyInstalled(f, installed)
  {
  }

  predicate IsDefaultIcon(f: File)
  {
    f.assetType == DefaultIconAsset
  }

  /** `iconURI`: the source of the first default-icon file of the newest version. */
  function IconURI(e: GalleryExtension): (r: Option<string>)
    ensures e.versions.None? || |e.versions.value| == 0 ==> r.None?
    ensures e.versions.Some? && |e.versions.value| > 0 ==>
      (r.None? <==> forall i :: 0 <= i < |e.versions.value[0].files| ==> !IsDefaultIcon(e.versions.value[0].files[i]))
    ensures r.Some? ==> exists k :: FirstAt(e.versions.value[0].files, IsDefaultIcon, k) &&
                                    r.value == e.versions.value[0].files[k].source
  {
    if e.versions.None? || |e.versions.value| <= 0 then None
    else
      match Find(e.versions.value[0].files, IsDefaultIcon)
      case None => None
      case Some(file) => Some(file.source)
  }

  /** The list icon: `iconURI() || "icon.png"`, so an empty source also falls back. */
  function ListIcon(e: GalleryExtension): (icon: string)
    ensures icon != ""
    ensures IconURI(e).Some? && IconURI(e).value != "" ==> icon == IconURI(e).value
    ensures IconURI(e).None? || IconURI(e).value == "" ==> icon == "icon.png"
  {
    if IconURI(e).Some? && IconURI(e).value != "" then IconURI(e).value else "icon.png"
  }

  /** What `useGalleryQuery` decides from the search text and the fetch hook's own loading flag. */
  datatype QueryGate = QueryGate(execute: bool, isLoading: bool)

  function GalleryQueryGate(searchText: string, fetchLoading: bool): (g: QueryGate)
    ensures g.execute <==> |searchText| > 0
    ensures g.isLoading <==> g.execute && fetchLoading
  {
    var execute := |searchText| > 0;
    QueryGate(execute, if execute then fetchLoading else false)
  }
}
