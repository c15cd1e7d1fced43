/**
 * The Amazon ECR provider (pkg/registry/aws.go): which references it claims, how
 * it takes an ECR image URL apart, and how it turns the paged `DescribeImages`
 * answer into a newest-first list of at most twenty tags.
 */
module Ecr {
  import opened Base
  import opened Strings
  import opened Tags

  const Name: string := "AWS ECR"

  const DkrEcr: string := ".dkr.ecr."
  const AmazonawsCom: string := ".amazonaws.com"
  const AmazonawsComSlash: string := ".amazonaws.com/"

  /** The ECR provider claims any reference that mentions both ECR host fragments. */
  predicate SupportsImage(image: string)
  {
    Contains(image, DkrEcr) && Contains(image, AmazonawsCom)
  }

  // ---------------------------------------------------------------------------
  // Parsing `<account>.dkr.ecr.<region>.amazonaws.com/<repository>[:<tag>]`

  /** The pieces of an ECR image URL (the capture groups of the ECR pattern). */
  datatype EcrImage = EcrImage(account: string, region: string, repository: string, tag: Option<string>)

  /** `\d` of Go's regular expressions: an ASCII digit. */
  predicate IsDigit(c: char)
  {
    '0' <= c <= '9'
  }

  /**
   * The strings each capture group of `^(\d+)\.dkr\.ecr\.([^.]+)\.amazonaws\.com\/([^:]+)(?::(.+))?$`
   * accepts: digits; a region without '.'; a repository without ':'; and, if
   * present, a tag without a newline (Go's `.` does not match one). Every group
   * is non-empty.
   */
  ghost predicate WellFormed(e: EcrImage)
  {
    && |e.account| > 0 && (forall i :: 0 <= i < |e.account| ==> IsDigit(e.account[i]))
    && |e.region| > 0 && '.' !in e.region
    && |e.repository| > 0 && ':' !in e.repository
    && (e.tag.Some? ==> |e.tag.value| > 0 && '\n' !in e.tag.value)
  }

  /** The optional `:<tag>` suffix. */
  function TagSuffix(tag: Option<string>): string
  {
    if tag.Some? then ":" + tag.value else ""
  }

  /** The URL the pieces spell. */
  function Format(e: EcrImage): string
  {
    e.account + (DkrEcr + (e.region + (AmazonawsComSlash + (e.repository + TagSuffix(e.tag)))))
  }

  /** Length of the run of digits that starts `s`. */
  function LeadingDigits(s: string): (n: nat)
    ensures n <= |s|
    ensures forall i :: 0 <= i < n ==> IsDigit(s[i])
    ensures n < |s| ==> !IsDigit(s[n])
  {
    if s != [] && IsDigit(s[0]) then 1 + LeadingDigits(s[1..]) else 0
  }

  /** The `([^:]+)(?::(.+))?$` end of the pattern: repository and optional tag. */
  function MatchPath(path: string): (m: Option<(string, Option<string>)>)
    ensures m.Some? ==> var (repository, tag) := m.value;
      && |repository| > 0 && ':' !in repository
      && (tag.Some? ==> |tag.value| > 0 && '\n' !in tag.value)
      && path == repository + TagSuffix(tag)
  {
    var p := IndexOrEnd(path, ':');
    if p == 0 then None
    else if p == |path| then
      assert path[..p] == path;
      Some((path, None))
    else
      var tag := path[p + 1..];
      if tag == [] || '\n' in tag then None
      else
        assert path == path[..p] + (":" + tag);
        Some((path[..p], Some(tag)))
  }

  /** The `([^.]+)\.amazonaws\.com\/` middle of the pattern: region and the path after it. */
  function MatchHost(s: string): (m: Option<(string, string)>)
    ensures m.Some? ==> var (region, path) := m.value;
      |region| > 0 && '.' !in region && s == region + (AmazonawsComSlash + path)
  {
    var r := IndexOrEnd(s, '.');
    if r == 0 || !IsPrefix(AmazonawsComSlash, s[r..]) then None
    else
      var path := s[r..][|AmazonawsComSlash|..];
      assert s[r..] == AmazonawsComSlash + path;
      assert s == s[..r] + s[r..];
      Some((s[..r], path))
  }

  /**
   * The match of the ECR pattern against the whole of `image`. Each group is
   * followed by a character it cannot contain, so the match is found left to
   * right without backtracking.
   */
  function MatchEcr(image: string): (m: Option<EcrImage>)
    ensures m.Some? ==> WellFormed(m.value) && Format(m.value) == image
  {
    var n := LeadingDigits(image);
    if n == 0 || !IsPrefix(DkrEcr, image[n..]) then None
    else
      var afterDkr := image[n..][|DkrEcr|..];
      assert image == image[..n] + (DkrEcr + afterDkr) by {
        assert image == image[..n] + image[n..];
        assert image[n..] == DkrEcr + afterDkr;
      }
      match MatchHost(afterDkr)
      case None => None
      case Some((region, path)) =>
        match MatchPath(path)
        case None => None
        case Some((repository, tag)) => Some(EcrImage(image[..n], region, repository, tag))
  }

  lemma SplitConcat(a: string, b: string)
    ensures (a + b)[..|a|] == a && (a + b)[|a|..] == b
  {
  }

  lemma {:induction false} LeadingDigitsOf(a: string, b: string)
    requires forall i :: 0 <= i < |a| ==> IsDigit(a[i])
    requires b != [] ==> !IsDigit(b[0])
    ensures LeadingDigits(a + b) == |a|
  {
    if a != [] {
      assert (a + b)[1..] == a[1..] + b;
      LeadingDigitsOf(a[1..], b);
    }
  }

  lemma MatchPathFormat(repository: string, tag: Option<string>)
    requires |repository| > 0 && ':' !in repository
    requires tag.Some? ==> |tag.value| > 0 && '\n' !in tag.value
    ensures MatchPath(repository + TagSuffix(tag)) == Some((repository, tag))
  {
    var path := repository + TagSuffix(tag);
    IndexOrEndOf(repository, ':', TagSuffix(tag));
    SplitConcat(repository, TagSuffix(tag));
    if tag.Some? {
      assert path[|repository| + 1..] == tag.value;
    }
  }

  lemma MatchHostFormat(region: string, path: string)
    requires |region| > 0 && '.' !in region
    ensures MatchHost(region + (AmazonawsComSlash + path)) == Some((region, path))
  {
    IndexOrEndOf(region, '.', AmazonawsComSlash + path);
    SplitConcat(region, AmazonawsComSlash + path);
    SplitConcat(AmazonawsComSlash, path);
  }

  /** Every URL spelled from well-formed pieces matches, giving back those pieces. */
  lemma MatchFormat(e: EcrImage)
    requires WellFormed(e)
    ensures MatchEcr(Format(e)) == Some(e)
  {
    var path := e.repository + TagSuffix(e.tag);
    var afterDkr := e.region + (AmazonawsComSlash + path);
    LeadingDigitsOf(e.account, DkrEcr + afterDkr);
    SplitConcat(e.account, DkrEcr + afterDkr);
    SplitConcat(DkrEcr, afterDkr);
    MatchHostFormat(e.region, path);
    MatchPathFormat(e.repository, e.tag);
  }

  /**
   * `parseECRImage`: the region and repository of an ECR image URL. The check
   * for an empty region or repository after a successful match is kept from
   * the source; it never fires, as the ensures clause says.
   */
  function ParseEcrImage(image: string): (r: Result<(string, string), RegistryError>)
    ensures r.Ok? ==> r.value.0 != "" && r.value.1 != ""
    ensures r.Err? ==> r == Err(InvalidEcrImage(image))
  {
    match MatchEcr(image)
    case None => Err(InvalidEcrImage(image))
    case Some(e) =>
      if e.region == "" || e.repository == "" then Err(EcrPartsMissing(image))
      else Ok((e.region, e.repository))
  }

  /** The parser accepts exactly the URLs the ECR pattern describes. */
  lemma ParseAcceptsExactly(image: string)
    ensures ParseEcrImage(image).Ok? <==> exists e :: WellFormed(e) && Format(e) == image
  {
    if exists e :: WellFormed(e) && Format(e) == image {
      var e :| WellFormed(e) && Format(e) == image;
      MatchFormat(e);
    }
  }

  /** Round trip: a well-formed URL parses to its own region and repository. */
  lemma ParseRoundTrip(e: EcrImage)
    requires WellFormed(e)
    ensures ParseEcrImage(Format(e)) == Ok((e.region, e.repository))
  {
    MatchFormat(e);
  }

  /** A URL the parser accepts is one the ECR provider claims. */
  lemma ParsedIsSupported(image: string)
    requires ParseEcrImage(image).Ok?
    ensures SupportsImage(image)
  {
    FormattedIsSupported(MatchEcr(image).value);
  }

  /** Both markers the ECR provider looks for occur in every formatted URL. */
  lemma FormattedIsSupported(e: EcrImage)
    ensures SupportsImage(Format(e))
  {
    var rest := e.repository + TagSuffix(e.tag);
    ContainsAfter(e.account, DkrEcr, e.region + (AmazonawsComSlash + rest));
    var host := e.account + (DkrEcr + e.region);
    var after := "/" + rest;
    assert AmazonawsComSlash + rest == AmazonawsCom + after by {
      assert AmazonawsComSlash == AmazonawsCom + "/";
    }
    assert Format(e) == host + (AmazonawsCom + after) by {
      assert e.region + (AmazonawsCom + after) == (e.region) + AmazonawsCom + after;
      assert DkrEcr + (e.region + (AmazonawsCom + after)) == (DkrEcr + e.region) + (AmazonawsCom + after);
    }
    ContainsAfter(host, AmazonawsCom, after);
  }

  /** The example reference of `SupportedButNotParsed`: an ECR host and nothing after it. */
  const BareHost: string := "1.dkr.ecr.x.amazonaws.com"

  lemma BareHostSupported()
    ensures SupportsImage(BareHost)
  {
    assert BareHost == "1" + (DkrEcr + "x.amazonaws.com");
    ContainsAfter("1", DkrEcr, "x.amazonaws.com");
    assert BareHost == "1.dkr.ecr.x" + (AmazonawsCom + "");
    ContainsAfter("1.dkr.ecr.x", AmazonawsCom, "");
  }

  lemma BareHostNoPath()
    ensures MatchHost("x" + AmazonawsCom) == None
  {
    IndexOrEndOf("x", '.', AmazonawsCom);
    SplitConcat("x", AmazonawsCom);
    assert !IsPrefix(AmazonawsComSlash, AmazonawsCom);
  }

  /** The ECR pattern does not match a bare host. */
  lemma BareHostUnmatched()
    ensures MatchEcr(BareHost) == None
  {
    var tail := "x" + AmazonawsCom;
    assert BareHost == "1" + (DkrEcr + tail);
    LeadingDigitsOf("1", DkrEcr + tail);
    SplitConcat("1", DkrEcr + tail);
    SplitConcat(DkrEcr, tail);
    BareHostNoPath();
  }

  /** Claiming does not need a parse: a host without a repository is claimed and then rejected. */
  lemma SupportedButNotParsed()
    ensures SupportsImage(BareHost)
    ensures ParseEcrImage(BareHost) == Err(InvalidEcrImage(BareHost))
  {
    BareHostSupported();
    BareHostUnmatched();
  }
  // ---------------------------------------------------------------------------
  // Listing: DescribeImages pages, flattened to tag records, sorted, truncated

  /** One `types.ImageDetail`: the tags of one image and when it was pushed, if known. */
  datatype ImageDetail = ImageDetail(tags: seq<string>, pushedAt: Option<Time>)

  /** One answer of the `DescribeImages` paginator: a page of details, or an error. */
  datatype Page = Page(details: seq<ImageDetail>) | PageFailed

  /** The paginator stops asking once this many image details have been collected. */
  const EnoughDetails: nat := 100

  /** The image details of the healthy pages of `pages`, in order. */
  function Details(pages: seq<Page>): seq<ImageDetail>
  {
    if pages == [] then []
    else
      var last := pages[|pages| - 1];
      Details(pages[..|pages| - 1]) + (if last.Page? then last.details else [])
  }

  /**
   * Reading stops after the first `k` pages, none of them failing: either they
   * are all the pages there are, or the first `k` together reach
   * `EnoughDetails` while no shorter prefix did.
   */
  ghost predicate StopsAfter(pages: seq<Page>, k: nat)
  {
    && k <= |pages|
    && (forall j :: 0 <= j < k ==> pages[j].Page?)
    && (forall j :: 0 < j < k ==> |Details(pages[..j])| < EnoughDetails)
    && (k == |pages| || (k > 0 && |Details(pages[..k])| >= EnoughDetails))
  }

  /** Page `k` is read and fails: every page before it was healthy and none reached the limit. */
  ghost predicate FailsAt(pages: seq<Page>, k: nat)
  {
    && k < |pages|
    && pages[k].PageFailed?
    && (forall j :: 0 <= j < k ==> pages[j].Page?)
    && (forall j :: 0 < j <= k ==> |Details(pages[..j])| < EnoughDetails)
  }

  /**
   * The pagination loop of `ListTagsWithInfo`: read pages until there are no
   * more, one fails, or `EnoughDetails` details have been collected. The
   * paginator always fetches a first page; an empty `pages` cannot come from
   * it and gives the same result as one empty page.
   */
  method DescribeImages(pages: seq<Page>, repository: string) returns (r: Result<seq<ImageDetail>, RegistryError>)
    ensures r.Ok? ==> exists k: nat :: StopsAfter(pages, k) && r.value == Details(pages[..k])
    ensures r.Err? ==> r.error == DescribeImagesFailed(repository) && exists k: nat :: FailsAt(pages, k)
  {
    var all: seq<ImageDetail> := [];
    var i := 0;
    while i < |pages|
      invariant 0 <= i <= |pages|
      invariant forall j :: 0 <= j < i ==> pages[j].Page?
      invariant forall j :: 0 < j <= i ==> |Details(pages[..j])| < EnoughDetails
      invariant all == Details(pages[..i])
    {
      if pages[i].PageFailed? {
        assert FailsAt(pages, i);
        return Err(DescribeImagesFailed(repository));
      }
      all := all + pages[i].details;
      i := i + 1;
      assert pages[..i][..i - 1] == pages[..i - 1];
      if |all| >= EnoughDetails {
        assert StopsAfter(pages, i);
        return Ok(all);
      }
    }
    assert pages[..i] == pages;
    assert StopsAfter(pages, i);
    return Ok(all);
  }

  /**
   * Pagination ends in exactly one way: once the pages allow a stop, no page
   * is read and fails, and no other stop is possible.
   */
  lemma PaginationOutcome(pages: seq<Page>, k: nat)
    requires StopsAfter(pages, k)
    ensures forall k2: nat :: !FailsAt(pages, k2)
    ensures forall k2: nat :: StopsAfter(pages, k2) ==> k2 == k
  {
  }

  /**
   * The limit is checked after a whole page is appended, so the collection can
   * exceed `EnoughDetails`, but by less than one page.
   */
  lemma {:induction false} DetailsBound(pages: seq<Page>, k: nat)
    requires StopsAfter(pages, k) && k > 0
    ensures |Details(pages[..k])| < EnoughDetails + |pages[k - 1].details|
  {
    assert pages[..k][..k - 1] == pages[..k - 1];
    if k > 1 {
      assert |Details(pages[..k - 1])| < EnoughDetails;
    } else {
      assert pages[..k - 1] == [];
    }
  }

  /** `ImagePushedAt`, or the current time when the service gives none. */
  function PushedAt(d: ImageDetail, now: Time): Time
  {
    if d.pushedAt.Some? then d.pushedAt.value else now
  }

  /** The records of one image: one per non-empty tag, all stamped `at`. */
  function Records(tags: seq<string>, at: Time): seq<TagInfo>
  {
    if tags == [] then []
    else
      var t := tags[|tags| - 1];
      Records(tags[..|tags| - 1], at) + (if t == "" then [] else [TagInfo(t, at)])
  }

  /** The records of all images, in order. */
  function Flatten(details: seq<ImageDetail>, now: Time): seq<TagInfo>
  {
    if details == [] then []
    else
      var d := details[|details| - 1];
      Flatten(details[..|details| - 1], now) + Records(d.tags, PushedAt(d, now))
  }

  /** An image gives one record per non-empty tag: a tag listed k times gives k records. */
  lemma {:induction false} RecordsCount(tags: seq<string>, at: Time, t: string)
    requires t != ""
    ensures multiset(Records(tags, at))[TagInfo(t, at)] == multiset(tags)[t]
  {
    if tags != [] {
      var n := |tags| - 1;
      RecordsCount(tags[..n], at, t);
      assert tags == tags[..n] + [tags[n]];
    }
  }

  /** An image gives as many records as it has non-empty tags. */
  lemma {:induction false} RecordsLength(tags: seq<string>, at: Time)
    ensures |Records(tags, at)| == |tags| - multiset(tags)[""]
  {
    if tags != [] {
      var n := |tags| - 1;
      RecordsLength(tags[..n], at);
      assert tags == tags[..n] + [tags[n]];
    }
  }

  /** How many non-empty tags the images carry in all. */
  ghost function TaggedCount(details: seq<ImageDetail>): nat
  {
    if details == [] then 0
    else
      var d := details[|details| - 1];
      TaggedCount(details[..|details| - 1]) + (|d.tags| - multiset(d.tags)[""])
  }

  /** How often the images stamped with `x`'s time carry `x`'s tag, added up. */
  ghost function Carrying(details: seq<ImageDetail>, now: Time, x: TagInfo): nat
  {
    if details == [] then 0
    else
      var d := details[|details| - 1];
      Carrying(details[..|details| - 1], now, x) + (if PushedAt(d, now) == x.createdAt then multiset(d.tags)[x.tag] else 0)
  }

  /** The listing has one record per non-empty tag of every image. */
  lemma {:induction false} FlattenLength(details: seq<ImageDetail>, now: Time)
    ensures |Flatten(details, now)| == TaggedCount(details)
  {
    if details != [] {
      var n := |details| - 1;
      FlattenLength(details[..n], now);
      RecordsLength(details[n].tags, PushedAt(details[n], now));
    }
  }

  /** A record occurs once for every image, stamped with its time, that carries its tag. */
  lemma {:induction false} FlattenCount(details: seq<ImageDetail>, now: Time, x: TagInfo)
    requires x.tag != ""
    ensures multiset(Flatten(details, now))[x] == Carrying(details, now, x)
  {
    if details != [] {
      var n := |details| - 1;
      var d := details[n];
      var at := PushedAt(d, now);
      FlattenCount(details[..n], now, x);
      assert multiset(Flatten(details, now)) == multiset(Flatten(details[..n], now)) + multiset(Records(d.tags, at));
      if at == x.createdAt {
        RecordsCount(d.tags, at, x.tag);
        assert x == TagInfo(x.tag, at);
      } else {
        RecordsMembers(d.tags, at, x);
        assert x !in multiset(Records(d.tags, at));
      }
    }
  }

  lemma {:induction false} RecordsMembers(tags: seq<string>, at: Time, x: TagInfo)
    ensures x in Records(tags, at) <==> exists j :: 0 <= j < |tags| && tags[j] != "" && x == TagInfo(tags[j], at)
  {
    if tags != [] {
      var n := |tags| - 1;
      RecordsMembers(tags[..n], at, x);
      if exists j :: 0 <= j < |tags| && tags[j] != "" && x == TagInfo(tags[j], at) {
        var j :| 0 <= j < |tags| && tags[j] != "" && x == TagInfo(tags[j], at);
        if j < n {
          assert tags[..n][j] == tags[j];
        }
      }
      if x in Records(tags[..n], at) {
        var j :| 0 <= j < n && tags[..n][j] != "" && x == TagInfo(tags[..n][j], at);
        assert tags[j] == tags[..n][j];
      }
    }
  }

  /** A record is listed exactly when it is among the records of one of the images. */
  lemma {:induction false} FlattenImages(details: seq<ImageDetail>, now: Time, x: TagInfo)
    ensures x in Flatten(details, now) <==>
      exists i :: 0 <= i < |details| && x in Records(details[i].tags, PushedAt(details[i], now))
  {
    if details != [] {
      var n := |details| - 1;
      FlattenImages(details[..n], now, x);
      assert forall i :: 0 <= i < n ==> details[..n][i] == details[i];
    }
  }

  /**
   * A record is listed exactly when some image carries its tag (non-empty)
   * and its creation time is that image's push time, or `now` without one.
   */
  lemma FlattenMembers(details: seq<ImageDetail>, now: Time, x: TagInfo)
    ensures x in Flatten(details, now) <==>
      exists i, j :: 0 <= i < |details| && 0 <= j < |details[i].tags| && details[i].tags[j] != ""
                     && x == TagInfo(details[i].tags[j], PushedAt(details[i], now))
  {
    FlattenImages(details, now, x);
    forall i | 0 <= i < |details|
      ensures x in Records(details[i].tags, PushedAt(details[i], now)) <==>
                exists j :: 0 <= j < |details[i].tags| && details[i].tags[j] != ""
                            && x == TagInfo(details[i].tags[j], PushedAt(details[i], now))
    {
      RecordsMembers(details[i].tags, PushedAt(details[i], now), x);
    }
  }

  /** The nested loops of `ListTagsWithInfo` that turn image details into tag records. */
  method FlattenTags(details: seq<ImageDetail>, now: Time) returns (tagInfos: seq<TagInfo>)
    ensures tagInfos == Flatten(details, now)
  {
    tagInfos := [];
    for i := 0 to |details|
      invariant tagInfos == Flatten(details[..i], now)
    {
      assert details[..i + 1][..i] == details[..i];
      var d := details[i];
      if |d.tags| == 0 {
        continue;
      }
      var at := PushedAt(d, now);
      for j := 0 to |d.tags|
        invariant tagInfos == Flatten(details[..i], now) + Records(d.tags[..j], at)
      {
        assert d.tags[..j + 1][..j] == d.tags[..j];
        if d.tags[j] == "" {
          continue;
        }
        tagInfos := tagInfos + [TagInfo(d.tags[j], at)];
      }
      assert d.tags[..|d.tags|] == d.tags;
    }
    assert details[..|details|] == details;
  }

  /**
   * What `ListTagsWithInfo` may return for `image` when loading the AWS
   * configuration succeeds exactly when `configLoads`, the paginator answers
   * `pages`, and the clock reads `now`.
   */
  ghost predicate Listed(image: string, configLoads: bool, pages: seq<Page>, now: Time,
                         r: Result<seq<TagInfo>, RegistryError>)
  {
    match ParseEcrImage(image)
    case Err(e) => r == Err(e)
    case Ok((_, repository)) =>
      if !configLoads then r == Err(AwsConfigFailed)
      else if exists k: nat :: FailsAt(pages, k) then r == Err(DescribeImagesFailed(repository))
      else exists k: nat :: StopsAfter(pages, k) && ListedFrom(repository, Flatten(Details(pages[..k]), now), r)
  }

  /** The listing of the records `pool` of `repository`: an error when there are none. */
  ghost predicate ListedFrom(repository: string, pool: seq<TagInfo>, r: Result<seq<TagInfo>, RegistryError>)
  {
    if pool == [] then r == Err(NoTaggedImages(repository))
    else r.Ok? && NewestFirstOf(r.value, pool)
  }

  /** `AWSProvider.ListTagsWithInfo`. */
  method ListTagsWithInfo(image: string, configLoads: bool, pages: seq<Page>, now: Time)
    returns (r: Result<seq<TagInfo>, RegistryError>)
    ensures Listed(image, configLoads, pages, now, r)
  {
    var parsed := ParseEcrImage(image);
    if parsed.Err? {
      return Err(parsed.error);
    }
    var repository := parsed.value.1;
    if !configLoads {
      return Err(AwsConfigFailed);
    }
    var described := DescribeImages(pages, repository);
    if described.Err? {
      return Err(described.error);
    }
    ghost var k: nat :| StopsAfter(pages, k) && described.value == Details(pages[..k]);
    PaginationOutcome(pages, k);
    var tagInfos := FlattenTags(described.value, now);
    if |tagInfos| == 0 {
      r := Err(NoTaggedImages(repository));
    } else {
      var a := ToArray(tagInfos);
      SortNewestFirst(a);
      r := Ok(Truncate(a[..], MaxListed));
      assert NewestFirst(a[..]) && multiset(a[..]) == multiset(tagInfos);
    }
    assert ListedFrom(repository, tagInfos, r);
  }

  /** `AWSProvider.ListTags`: the names of the listing, in its order. */
  method ListTags(image: string, configLoads: bool, pages: seq<Page>, now: Time)
    returns (r: Result<seq<string>, RegistryError>)
    ensures exists infos :: Listed(image, configLoads, pages, now, infos) && ProjectsTo(infos, r)
  {
    var infos := ListTagsWithInfo(image, configLoads, pages, now);
    if infos.Err? {
      return Err(infos.error);
    }
    var tags := TagNames(infos.value);
    r := Ok(tags);
  }
}
