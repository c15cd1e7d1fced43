/**
 * Tag records shared by every registry provider (`TagInfo` of pkg/registry), the
 * registry errors, and the two in-place sorts the providers apply before they
 * truncate a listing to twenty entries.
 */
module Tags {
  import opened Base
  import opened Strings

  /** An instant, as nanoseconds since the Unix epoch. */
  type Time = int

  /** Go's zero `time.Time{}`: January 1 of year 1, 00:00:00 UTC. */
  const ZeroTime: Time := -62135596800 * 1_000_000_000

  /** `time.Unix(0, 0)`. */
  const Epoch: Time := 0

  /** `registry.TagInfo`: a tag name and the instant its image was created. */
  datatype TagInfo = TagInfo(tag: string, createdAt: Time)

  /** Every provider hands back at most this many tags. */
  const MaxListed: nat := 20

  /** The errors the registry layer reports, one per `fmt.Errorf` site. */
  datatype RegistryError =
    | NoProviderFound(image: string)
    | InvalidEcrImage(image: string)
    | EcrPartsMissing(image: string)
    | AwsConfigFailed
    | DescribeImagesFailed(repository: string)
    | NoTaggedImages(repository: string)
    | ParseReferenceFailed(image: string)
    | ListTagsFailed(repository: string)
    | NoTagsFound(repository: string)
    | NoCreationTimes
    | ProviderFailed(reason: string)

  /** Sorted by creation time, newest first (ties in any order). */
  ghost predicate NewestFirst(s: seq<TagInfo>)
  {
    forall i, j :: 0 <= i < j < |s| ==> s[i].createdAt >= s[j].createdAt
  }

  /** The Go idiom `if len(s) > n { s = s[:n] }`. */
  function Truncate<T>(s: seq<T>, n: nat): seq<T>
  {
    if |s| > n then s[..n] else s
  }

  /**
   * `r` is what "sort `pool` newest first, then keep twenty" can produce: some
   * newest-first permutation of `pool`, cut to `MaxListed`.
   */
  ghost predicate NewestFirstOf(r: seq<TagInfo>, pool: seq<TagInfo>)
  {
    exists full :: NewestFirst(full) && multiset(full) == multiset(pool) && r == Truncate(full, MaxListed)
  }

  /** In a newest-first list, nothing after position `m - 1` is newer than it. */
  lemma {:induction false} DroppedNoNewer(full: seq<TagInfo>, m: nat)
    requires NewestFirst(full) && 0 < m <= |full|
    ensures forall x :: x in multiset(full[m..]) ==> x.createdAt <= full[m - 1].createdAt
  {
    var dropped := full[m..];
    forall x: TagInfo | x in multiset(dropped)
      ensures x.createdAt <= full[m - 1].createdAt
    {
      assert x in dropped;
      var p :| 0 <= p < |dropped| && dropped[p] == x;
      assert full[m + p] == x;
    }
  }

  /** Cutting a newest-first list keeps its newest records, in order. */
  lemma {:induction false} TruncateNewestFirst(full: seq<TagInfo>, r: seq<TagInfo>)
    requires NewestFirst(full) && r == Truncate(full, MaxListed)
    ensures |r| == Min(|full|, MaxListed)
    ensures NewestFirst(r)
    ensures multiset(r) <= multiset(full)
    ensures |r| > 0 ==> forall x :: x in multiset(full) - multiset(r) ==> x.createdAt <= r[|r| - 1].createdAt
  {
    var m := |r|;
    assert full == r + full[m..];
    assert multiset(full) - multiset(r) == multiset(full[m..]);
    if m > 0 {
      DroppedNoNewer(full, m);
    }
  }

  /**
   * What a newest-first listing guarantees its caller: at most twenty records,
   * newest first, all drawn from the pool, and none left out is newer than the
   * last one kept.
   */
  lemma {:induction false} NewestFirstOfFacts(r: seq<TagInfo>, pool: seq<TagInfo>)
    requires NewestFirstOf(r, pool)
    ensures |r| == Min(|pool|, MaxListed)
    ensures NewestFirst(r)
    ensures multiset(r) <= multiset(pool)
    ensures |r| > 0 ==> forall x :: x in multiset(pool) - multiset(r) ==> x.createdAt <= r[|r| - 1].createdAt
  {
    var full :| NewestFirst(full) && multiset(full) == multiset(pool) && r == Truncate(full, MaxListed);
    assert |full| == |multiset(full)| == |pool|;
    TruncateNewestFirst(full, r);
  }

  /** Sorted as `sort.Strings` leaves a slice: ascending byte order. */
  ghost predicate LexSorted(s: seq<string>)
  {
    forall i, j :: 0 <= i < j < |s| ==> LexLe(s[i], s[j])
  }

  /** Two ascending permutations of the same strings start with the same string. */
  lemma SameLeast(a: seq<string>, b: seq<string>)
    requires LexSorted(a) && LexSorted(b) && multiset(a) == multiset(b) && a != []
    ensures b != [] && a[0] == b[0]
  {
    assert a[0] in multiset(b);
    var q :| 0 <= q < |b| && b[q] == a[0];
    assert LexLe(b[0], a[0]) by {
      if q == 0 { LexTotal(b[0], b[0]); }
    }
    assert b[0] in multiset(a);
    var p :| 0 <= p < |a| && a[p] == b[0];
    assert LexLe(a[0], b[0]) by {
      if p == 0 { LexTotal(a[0], a[0]); }
    }
    LexAntisymmetric(a[0], b[0]);
  }

  /** Removing the same first element from two permutations leaves permutations. */
  lemma SameRest<T>(a: seq<T>, b: seq<T>)
    requires multiset(a) == multiset(b) && a != [] && b != [] && a[0] == b[0]
    ensures multiset(a[1..]) == multiset(b[1..])
  {
    assert a == [a[0]] + a[1..];
    assert b == [b[0]] + b[1..];
    assert multiset(a) == multiset{a[0]} + multiset(a[1..]);
    assert multiset(b) == multiset{b[0]} + multiset(b[1..]);
    assert multiset(a[1..]) == multiset(a) - multiset{a[0]};
    assert multiset(b[1..]) == multiset(b) - multiset{b[0]};
  }

  /** Two ascending permutations of the same strings are the same sequence. */
  lemma {:induction false} LexSortedUnique(a: seq<string>, b: seq<string>)
    requires LexSorted(a) && LexSorted(b) && multiset(a) == multiset(b)
    ensures a == b
    decreases |a|
  {
    assert |a| == |multiset(a)| == |b|;
    if a != [] {
      SameLeast(a, b);
      SameRest(a, b);
      LexSortedUnique(a[1..], b[1..]);
      assert a == [a[0]] + a[1..] && b == [b[0]] + b[1..];
    }
  }

  /** The records of the fallback path: every tag with the zero time. */
  function Undated(tags: seq<string>): seq<TagInfo>
  {
    seq(|tags|, i requires 0 <= i < |tags| => TagInfo(tags[i], ZeroTime))
  }

  /**
   * `r` is the fallback listing of `tags`: all of them sorted ascending, each
   * with the zero time, cut to `MaxListed`.
   */
  ghost predicate AlphabeticalOf(r: seq<TagInfo>, tags: seq<string>)
  {
    exists sorted :: LexSorted(sorted) && multiset(sorted) == multiset(tags) && r == Truncate(Undated(sorted), MaxListed)
  }

  /**
   * The fallback listing is fully determined by the listed tags (unlike the
   * newest-first listing, whose ties may come out in any order), holds at most
   * twenty tags and carries no timestamps.
   */
  lemma {:induction false} AlphabeticalOfFacts(r1: seq<TagInfo>, r2: seq<TagInfo>, tags: seq<string>)
    requires AlphabeticalOf(r1, tags) && AlphabeticalOf(r2, tags)
    ensures r1 == r2
    ensures |r1| == Min(|tags|, MaxListed)
    ensures forall i :: 0 <= i < |r1| ==> r1[i].createdAt == ZeroTime
    ensures forall i, j :: 0 <= i < j < |r1| ==> LexLe(r1[i].tag, r1[j].tag)
  {
    var s1 :| LexSorted(s1) && multiset(s1) == multiset(tags) && r1 == Truncate(Undated(s1), MaxListed);
    var s2 :| LexSorted(s2) && multiset(s2) == multiset(tags) && r2 == Truncate(Undated(s2), MaxListed);
    LexSortedUnique(s1, s2);
    assert |s1| == |multiset(s1)| == |tags|;
  }

  /**
   * The fallback listing shows listed tags only, and the smallest of them:
   * every listed tag that is not shown sorts after the last one shown.
   */
  lemma AlphabeticalSmallest(r: seq<TagInfo>, tags: seq<string>)
    requires AlphabeticalOf(r, tags)
    ensures forall i :: 0 <= i < |r| ==> r[i].tag in tags
    ensures forall t :: t in tags ==>
              (exists i :: 0 <= i < |r| && r[i].tag == t) || (|r| > 0 && LexLe(r[|r| - 1].tag, t))
  {
    var s :| LexSorted(s) && multiset(s) == multiset(tags) && r == Truncate(Undated(s), MaxListed);
    forall i | 0 <= i < |r|
      ensures r[i].tag in tags
    {
      assert r[i].tag == s[i];
      assert s[i] in multiset(s);
    }
    forall t | t in tags
      ensures (exists i :: 0 <= i < |r| && r[i].tag == t) || (|r| > 0 && LexLe(r[|r| - 1].tag, t))
    {
      assert t in multiset(s);
      var k :| 0 <= k < |s| && s[k] == t;
      if k < |r| {
        assert r[k].tag == t;
      } else {
        assert |r| == MaxListed && r[|r| - 1].tag == s[|r| - 1];
      }
    }
  }

  /** Two records with the same creation time may be listed in either order. */
  lemma TiesInEitherOrder(x: TagInfo, y: TagInfo)
    requires x.createdAt == y.createdAt
    ensures NewestFirstOf([x, y], [x, y]) && NewestFirstOf([y, x], [x, y])
  {
    assert multiset([y, x]) == multiset([x, y]);
    assert Truncate([x, y], MaxListed) == [x, y];
    assert Truncate([y, x], MaxListed) == [y, x];
  }

  /** Copies a sequence into a fresh array. */
  method ToArray<T>(s: seq<T>) returns (a: array<T>)
    ensures fresh(a) && a[..] == s
  {
    a := new T[|s|](i requires 0 <= i < |s| => s[i]);
  }

  /** Exchanges two elements of an array. */
  method Swap<T>(a: array<T>, i: int, j: int)
    requires 0 <= i < a.Length && 0 <= j < a.Length
    modifies a
    ensures a[i] == old(a[j]) && a[j] == old(a[i])
    ensures forall k :: 0 <= k < a.Length && k != i && k != j ==> a[k] == old(a[k])
    ensures multiset(a[..]) == multiset(old(a[..]))
  {
    a[i], a[j] := a[j], a[i];
    assert a[..] == old(a[..])[i := old(a[j])][j := old(a[i])];
  }

  /** `sort.Slice(tagInfos, After)`: newest first, in place; ties in no fixed order. */
  method SortNewestFirst(a: array<TagInfo>)
    modifies a
    ensures NewestFirst(a[..])
    ensures multiset(a[..]) == multiset(old(a[..]))
  {
    var i := 0;
    while i < a.Length
      invariant 0 <= i <= a.Length
      invariant forall p, q :: 0 <= p < q < i ==> a[p].createdAt >= a[q].createdAt
      invariant forall p, q :: 0 <= p < i <= q < a.Length ==> a[p].createdAt >= a[q].createdAt
      invariant multiset(a[..]) == multiset(old(a[..]))
    {
      var m := i;
      var j := i + 1;
      while j < a.Length
        invariant i <= m < j <= a.Length
        invariant forall q :: i <= q < j ==> a[m].createdAt >= a[q].createdAt
      {
        if a[j].createdAt > a[m].createdAt {
          m := j;
        }
        j := j + 1;
      }
      Swap(a, i, m);
      i := i + 1;
    }
  }

  /** Index of a least string of `a[from..]`. */
  method IndexOfLeast(a: array<string>, from: nat) returns (m: nat)
    requires from < a.Length
    ensures from <= m < a.Length
    ensures forall q :: from <= q < a.Length ==> LexLe(a[m], a[q])
  {
    m := from;
    LexTotal(a[from], a[from]);
    for j := from + 1 to a.Length
      invariant from <= m < j
      invariant forall q :: from <= q < j ==> LexLe(a[m], a[q])
    {
      LexTotal(a[j], a[m]);
      if !LexLe(a[m], a[j]) {
        forall q | from <= q < j
          ensures LexLe(a[j], a[q])
        {
          LexTransitive(a[j], a[m], a[q]);
        }
        LexTotal(a[j], a[j]);
        m := j;
      }
    }
  }

  /** `sort.Strings(tags)`: ascending, in place. */
  method SortStrings(a: array<string>)
    modifies a
    ensures LexSorted(a[..])
    ensures multiset(a[..]) == multiset(old(a[..]))
  {
    var i := 0;
    while i < a.Length
      invariant 0 <= i <= a.Length
      invariant forall p, q :: 0 <= p < q < i ==> LexLe(a[p], a[q])
      invariant forall p, q :: 0 <= p < i <= q < a.Length ==> LexLe(a[p], a[q])
      invariant multiset(a[..]) == multiset(old(a[..]))
    {
      var m := IndexOfLeast(a, i);
      Swap(a, i, m);
      i := i + 1;
    }
  }

  /**
   * The loop that every provider's `ListTags` runs over its `ListTagsWithInfo`
   * result: the tag names, in the same order.
   */
  method TagNames(infos: seq<TagInfo>) returns (tags: seq<string>)
    ensures |tags| == |infos|
    ensures forall i :: 0 <= i < |tags| ==> tags[i] == infos[i].tag
  {
    var a := new string[|infos|];
    for i := 0 to |infos|
      invariant forall k :: 0 <= k < i ==> a[k] == infos[k].tag
    {
      a[i] := infos[i].tag;
    }
    tags := a[..];
  }

  /** `names` is `infos` projected to its tags: same error, or same length and order. */
  ghost predicate ProjectsTo(infos: Result<seq<TagInfo>, RegistryError>, names: Result<seq<string>, RegistryError>)
  {
    && (infos.Err? ==> names == Err(infos.error))
    && (infos.Ok? ==> names.Ok? && |names.value| == |infos.value|
                       && forall i :: 0 <= i < |names.value| ==> names.value[i] == infos.value[i].tag)
  }
}
