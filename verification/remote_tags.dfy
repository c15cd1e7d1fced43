/**
 * Tag listing through the registry API, shared by the GCP provider
 * (pkg/registry/gcp.go) and the Docker Hub provider (pkg/registry/dockerhub.go):
 * both list a repository's tags, look up the creation time of the first fifty
 * concurrently, and fall back to an alphabetical, undated listing when no
 * lookup succeeds. The two files differ only in the credentials they use.
 */
module RemoteTags {
  import opened Base
  import opened Strings
  import opened Tags

  /** Creation times are looked up for at most this many tags. */
  const MaxLookups: nat := 50

  /** Why a creation-time lookup failed: the three error sites of the worker. */
  datatype LookupFailure = TagParseFailed | ImageFetchFailed | ConfigFetchFailed

  /** What the registry answers for one tag: the `Created` time of its config file, or a failure. */
  datatype Lookup = Created(at: Time) | LookupFailed(failure: LookupFailure)

  /** What a worker sends back: a record on `results`, or a warning on `errors`. */
  datatype TagOutcome = Record(info: TagInfo) | Warning(tag: string, failure: LookupFailure)

  /**
   * The worker goroutine for one tag. A zero creation time is replaced by the
   * Unix epoch, so a record never carries the zero time.
   */
  function Worker(tag: string, lookup: string -> Lookup): (o: TagOutcome)
    ensures o.Record? <==> lookup(tag).Created?
    ensures o.Record? ==> o.info.tag == tag && o.info.createdAt != ZeroTime
    ensures o.Record? && lookup(tag).at != ZeroTime ==> o.info.createdAt == lookup(tag).at
    ensures o.Record? && lookup(tag).at == ZeroTime ==> o.info.createdAt == Epoch
    ensures o.Warning? ==> o.tag == tag
  {
    match lookup(tag)
    case Created(at) => Record(TagInfo(tag, if at == ZeroTime then Epoch else at))
    case LookupFailed(failure) => Warning(tag, failure)
  }

  /** The outcome of every worker, in the order the workers were started. */
  function Outcomes(tags: seq<string>, lookup: string -> Lookup): (outs: seq<TagOutcome>)
    ensures |outs| == |tags|
    ensures forall i :: 0 <= i < |tags| ==> outs[i] == Worker(tags[i], lookup)
  {
    if tags == [] then []
    else
      var n := |tags| - 1;
      var front := Outcomes(tags[..n], lookup);
      assert forall i :: 0 <= i < n ==> tags[..n][i] == tags[i];
      front + [Worker(tags[n], lookup)]
  }

  /** The records among `outs`, in order; warnings are dropped. */
  function Records(outs: seq<TagOutcome>): seq<TagInfo>
  {
    if outs == [] then []
    else
      var o := outs[|outs| - 1];
      Records(outs[..|outs| - 1]) + (if o.Record? then [o.info] else [])
  }

  /** The records the workers for `tags` produce. */
  function Dated(tags: seq<string>, lookup: string -> Lookup): seq<TagInfo>
  {
    Records(Outcomes(tags, lookup))
  }

  lemma {:induction false} RecordsCount(outs: seq<TagOutcome>, x: TagInfo)
    ensures multiset(Records(outs))[x] == multiset(outs)[Record(x)]
  {
    if outs != [] {
      var n := |outs| - 1;
      RecordsCount(outs[..n], x);
      assert outs == outs[..n] + [outs[n]];
    }
  }

  /** The records do not depend on the order in which the outcomes arrive. */
  lemma RecordsPermutation(a: seq<TagOutcome>, b: seq<TagOutcome>)
    requires multiset(a) == multiset(b)
    ensures multiset(Records(a)) == multiset(Records(b))
  {
    forall x: TagInfo
      ensures multiset(Records(a))[x] == multiset(Records(b))[x]
    {
      RecordsCount(a, x);
      RecordsCount(b, x);
    }
  }

  /** A record is produced exactly for a tag whose lookup succeeded. */
  lemma DatedMembers(tags: seq<string>, lookup: string -> Lookup, x: TagInfo)
    ensures x in Dated(tags, lookup) <==> exists i :: 0 <= i < |tags| && Worker(tags[i], lookup) == Record(x)
  {
    var outs := Outcomes(tags, lookup);
    RecordsCount(outs, x);
    assert x in Records(outs) <==> Record(x) in multiset(outs);
    assert Record(x) in multiset(outs) <==> Record(x) in outs;
  }

  /** No record at all exactly when every lookup failed. */
  lemma {:induction false} DatedEmpty(tags: seq<string>, lookup: string -> Lookup)
    ensures Dated(tags, lookup) == [] <==> forall i :: 0 <= i < |tags| ==> lookup(tags[i]).LookupFailed?
  {
    if tags != [] {
      var n := |tags| - 1;
      DatedEmpty(tags[..n], lookup);
      assert forall i :: 0 <= i < n ==> tags[..n][i] == tags[i];
    }
  }

  /**
   * `getTagsWithCreationTime`: start a worker per tag among the first fifty and
   * collect one outcome per worker, in whatever order they arrive
   * (`arrivals`), keeping the records; fail when there is none.
   */
  method GetTagsWithCreationTime(tags: seq<string>, lookup: string -> Lookup, arrivals: seq<TagOutcome>)
    returns (r: Result<seq<TagInfo>, RegistryError>)
    requires multiset(arrivals) == multiset(Outcomes(Truncate(tags, MaxLookups), lookup))
    ensures r.Err? <==> Dated(Truncate(tags, MaxLookups), lookup) == []
    ensures r.Err? ==> r.error == NoCreationTimes
    ensures r.Ok? ==> multiset(r.value) == multiset(Dated(Truncate(tags, MaxLookups), lookup))
  {
    var toProcess := Truncate(tags, MaxLookups);
    assert |arrivals| == |multiset(arrivals)| == |toProcess|;
    var tagInfos: seq<TagInfo> := [];
    for i := 0 to |toProcess|
      invariant tagInfos == Records(arrivals[..i])
    {
      assert arrivals[..i + 1][..i] == arrivals[..i];
      match arrivals[i]
      case Record(info) =>
        tagInfos := tagInfos + [info];
      case Warning(_, _) =>
    }
    assert arrivals[..|toProcess|] == arrivals;
    RecordsPermutation(arrivals, Outcomes(toProcess, lookup));
    if |tagInfos| == 0 {
      return Err(NoCreationTimes);
    }
    return Ok(tagInfos);
  }

  /**
   * What `ListTagsWithInfo` may return for `image`. `asRepository` and
   * `asReference` are the repository `image` names when read as a repository
   * and as a full reference (`None` when that parse fails); `listing` is the
   * registry's tag list (`None` when listing fails); `lookup` answers the
   * creation-time lookups.
   */
  ghost predicate Listed(image: string, asRepository: Option<string>, asReference: Option<string>,
                         listing: Option<seq<string>>, lookup: string -> Lookup,
                         r: Result<seq<TagInfo>, RegistryError>)
  {
    if asRepository.None? && asReference.None? then r == Err(ParseReferenceFailed(image))
    else
      var repository := if asRepository.Some? then asRepository.value else asReference.value;
      if listing.None? then r == Err(ListTagsFailed(repository))
      else if listing.value == [] then r == Err(NoTagsFound(repository))
      else
        var pool := Dated(Truncate(listing.value, MaxLookups), lookup);
        if pool == [] then r.Ok? && AlphabeticalOf(r.value, listing.value)
        else r.Ok? && NewestFirstOf(r.value, pool)
  }

  /** The fallback branch: all listed tags sorted in place, each with the zero time. */
  method UndatedListing(tags: seq<string>) returns (infos: seq<TagInfo>)
    ensures AlphabeticalOf(Truncate(infos, MaxListed), tags)
  {
    var a := ToArray(tags);
    SortStrings(a);
    infos := Undated(a[..]);
  }

  /** `GCPProvider.ListTagsWithInfo`, and line for line `DockerHubProvider.ListTagsWithInfo`. */
  method ListTagsWithInfo(image: string, asRepository: Option<string>, asReference: Option<string>,
                          listing: Option<seq<string>>, lookup: string -> Lookup, arrivals: seq<TagOutcome>)
    returns (r: Result<seq<TagInfo>, RegistryError>)
    requires listing.Some? ==> multiset(arrivals) == multiset(Outcomes(Truncate(listing.value, MaxLookups), lookup))
    ensures Listed(image, asRepository, asReference, listing, lookup, r)
  {
    var repository;
    if asRepository.Some? {
      repository := asRepository.value;
    } else if asReference.Some? {
      repository := asReference.value;
    } else {
      return Err(ParseReferenceFailed(image));
    }
    if listing.None? {
      return Err(ListTagsFailed(repository));
    }
    var tags := listing.value;
    if |tags| == 0 {
      return Err(NoTagsFound(repository));
    }
    var timed := GetTagsWithCreationTime(tags, lookup, arrivals);
    var tagInfos;
    if timed.Err? {
      tagInfos := UndatedListing(tags);
    } else {
      var a := ToArray(timed.value);
      SortNewestFirst(a);
      tagInfos := a[..];
      assert NewestFirstOf(Truncate(tagInfos, MaxListed), Dated(Truncate(tags, MaxLookups), lookup));
    }
    r := Ok(Truncate(tagInfos, MaxListed));
  }

  /** `ListTags` of both providers: the names of the listing, in its order. */
  method ListTags(image: string, asRepository: Option<string>, asReference: Option<string>,
                  listing: Option<seq<string>>, lookup: string -> Lookup, arrivals: seq<TagOutcome>)
    returns (r: Result<seq<string>, RegistryError>)
    requires listing.Some? ==> multiset(arrivals) == multiset(Outcomes(Truncate(listing.value, MaxLookups), lookup))
    ensures exists infos :: Listed(image, asRepository, asReference, listing, lookup, infos) && ProjectsTo(infos, r)
  {
    var infos := ListTagsWithInfo(image, asRepository, asReference, listing, lookup, arrivals);
    if infos.Err? {
      return Err(infos.error);
    }
    var tags := TagNames(infos.value);
    r := Ok(tags);
  }

  /**
   * When some lookup succeeds, every listed record belongs to one of the first
   * fifty tags, to one whose lookup succeeded, and carries a real time: tags
   * whose lookup failed, and tags past the fiftieth, are never listed.
   */
  lemma TimedListing(image: string, asRepository: Option<string>, asReference: Option<string>,
                     listing: seq<string>, lookup: string -> Lookup, r: Result<seq<TagInfo>, RegistryError>)
    requires Listed(image, asRepository, asReference, Some(listing), lookup, r)
    requires asRepository.Some? || asReference.Some?
    requires Dated(Truncate(listing, MaxLookups), lookup) != []
    ensures r.Ok? && |r.value| == Min(|Dated(Truncate(listing, MaxLookups), lookup)|, MaxListed)
    ensures NewestFirst(r.value)
    ensures forall x :: x in r.value ==>
      && lookup(x.tag).Created?
      && x.createdAt != ZeroTime
      && exists i :: 0 <= i < Min(|listing|, MaxLookups) && listing[i] == x.tag
  {
    var first := Truncate(listing, MaxLookups);
    var pool := Dated(first, lookup);
    NewestFirstOfFacts(r.value, pool);
    forall x | x in r.value
      ensures lookup(x.tag).Created? && x.createdAt != ZeroTime
      ensures exists i :: 0 <= i < Min(|listing|, MaxLookups) && listing[i] == x.tag
    {
      assert x in multiset(r.value);
      DatedMembers(first, lookup, x);
      var i :| 0 <= i < |first| && Worker(first[i], lookup) == Record(x);
      assert listing[i] == first[i];
    }
  }

  /**
   * When every lookup fails, all listed tags (not only the first fifty) are
   * listed alphabetically, up to twenty, without times.
   */
  lemma FallbackListing(image: string, asRepository: Option<string>, asReference: Option<string>,
                        listing: seq<string>, lookup: string -> Lookup, r: Result<seq<TagInfo>, RegistryError>)
    requires Listed(image, asRepository, asReference, Some(listing), lookup, r)
    requires asRepository.Some? || asReference.Some?
    requires listing != []
    requires forall i :: 0 <= i < |listing| && i < MaxLookups ==> lookup(listing[i]).LookupFailed?
    ensures r.Ok? && AlphabeticalOf(r.value, listing)
    ensures |r.value| == Min(|listing|, MaxListed)
    ensures forall i :: 0 <= i < |r.value| ==> r.value[i].createdAt == ZeroTime
    ensures forall i, j :: 0 <= i < j < |r.value| ==> LexLe(r.value[i].tag, r.value[j].tag)
    ensures forall i :: 0 <= i < |r.value| ==> r.value[i].tag in listing
    ensures forall t :: t in listing ==>
              (exists i :: 0 <= i < |r.value| && r.value[i].tag == t) || LexLe(r.value[|r.value| - 1].tag, t)
  {
    var first := Truncate(listing, MaxLookups);
    DatedEmpty(first, lookup);
    AlphabeticalOfFacts(r.value, r.value, listing);
    AlphabeticalSmallest(r.value, listing);
  }
}
