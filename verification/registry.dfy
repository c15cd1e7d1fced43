/**
 * The registry client of pkg/registry/registry.go: an ordered list of
 * providers, the first of which that claims an image answers for it.
 */
module Registry {
  import opened Base
  import opened Tags
  import Ecr
  import Gcp
  import DockerHub

  /** A `Provider`: the three built in, or one added with `AddProvider`. */
  datatype Provider =
    | AwsEcr
    | GcpRegistry
    | DockerHubRegistry
    | Custom(name: string, claims: string -> bool)

  /** `Provider.Name()`. */
  function Name(p: Provider): string
  {
    match p
    case AwsEcr => Ecr.Name
    case GcpRegistry => Gcp.Name
    case DockerHubRegistry => DockerHub.Name
    case Custom(name, _) => name
  }

  /**
   * `Provider.SupportsImage(image)`. `host` is the registry host of `image`
   * read as a reference (`None` when that parse fails), which the GCP and
   * Docker Hub tests consult.
   */
  predicate Claims(p: Provider, image: string, host: Option<string>)
  {
    match p
    case AwsEcr => Ecr.SupportsImage(image)
    case GcpRegistry => Gcp.SupportsImage(host)
    case DockerHubRegistry => DockerHub.SupportsImage(image, host)
    case Custom(_, claims) => claims(image)
  }

  /** `providers[i]` claims the image and no provider before it does. */
  ghost predicate FirstClaimant(providers: seq<Provider>, i: int, image: string, host: Option<string>)
  {
    && 0 <= i < |providers|
    && Claims(providers[i], image, host)
    && forall j :: 0 <= j < i ==> !Claims(providers[j], image, host)
  }

  /** No provider claims the image. */
  ghost predicate Unclaimed(providers: seq<Provider>, image: string, host: Option<string>)
  {
    forall i :: 0 <= i < |providers| ==> !Claims(providers[i], image, host)
  }

  /** The answer for `image` of the first provider in `providers` that claims it. */
  function Dispatched<T>(providers: seq<Provider>, image: string, host: Option<string>,
                         answer: Provider -> Result<T, RegistryError>): Result<T, RegistryError>
  {
    if providers == [] then Err(NoProviderFound(image))
    else if Claims(providers[0], image, host) then answer(providers[0])
    else Dispatched(providers[1..], image, host, answer)
  }

  /** `Dispatched` answers through the first claimant, and reports "no provider" when there is none. */
  lemma {:induction false} DispatchedSpec<T>(providers: seq<Provider>, image: string, host: Option<string>,
                                             answer: Provider -> Result<T, RegistryError>)
    ensures Unclaimed(providers, image, host) ==> Dispatched(providers, image, host, answer) == Err(NoProviderFound(image))
    ensures forall i :: FirstClaimant(providers, i, image, host) ==> Dispatched(providers, image, host, answer) == answer(providers[i])
  {
    if providers != [] {
      DispatchedSpec(providers[1..], image, host, answer);
      assert forall i :: 1 <= i < |providers| ==> providers[1..][i - 1] == providers[i];
      forall i | FirstClaimant(providers, i, image, host) && i > 0
        ensures FirstClaimant(providers[1..], i - 1, image, host)
      {
      }
    }
  }

  /** The built-in order: ECR first (most specific), Docker Hub last (most generic). */
  function Defaults(): (ps: seq<Provider>)
    ensures |ps| == 3 && ps[0] == AwsEcr && ps[1] == GcpRegistry && ps[2] == DockerHubRegistry
  {
    [AwsEcr, GcpRegistry, DockerHubRegistry]
  }

  /** `registry.Client`. */
  class Client {
    var providers: seq<Provider>

    /** `NewClient`. */
    constructor ()
      ensures providers == Defaults()
    {
      providers := Defaults();
    }

    /** `AddProvider`: consulted after every provider already present. */
    method AddProvider(provider: Provider)
      modifies this
      ensures providers == old(providers) + [provider]
    {
      providers := providers + [provider];
    }

    /** `findProvider`: the first provider that claims the image, if any. */
    method FindProvider(image: string, host: Option<string>) returns (found: Option<Provider>)
      ensures found.None? <==> Unclaimed(providers, image, host)
      ensures found.Some? ==> exists i :: FirstClaimant(providers, i, image, host) && providers[i] == found.value
    {
      for i := 0 to |providers|
        invariant forall j :: 0 <= j < i ==> !Claims(providers[j], image, host)
      {
        if Claims(providers[i], image, host) {
          assert FirstClaimant(providers, i, image, host);
          return Some(providers[i]);
        }
      }
      return None;
    }

    /**
     * `Client.ListTagsWithInfo`: the answer of the first claiming provider,
     * where `answer(p)` is what `p.ListTagsWithInfo(image)` returns.
     */
    method ListTagsWithInfo(image: string, host: Option<string>, answer: Provider -> Result<seq<TagInfo>, RegistryError>)
      returns (r: Result<seq<TagInfo>, RegistryError>)
      ensures Unclaimed(providers, image, host) ==> r == Err(NoProviderFound(image))
      ensures forall i :: FirstClaimant(providers, i, image, host) ==> r == answer(providers[i])
      ensures r == Dispatched(providers, image, host, answer)
    {
      var provider := FindProvider(image, host);
      if provider.None? {
        DispatchedSpec(providers, image, host, answer);
        return Err(NoProviderFound(image));
      }
      DispatchedSpec(providers, image, host, answer);
      r := answer(provider.value);
    }

    /** `Client.ListTags`, dispatched the same way to `p.ListTags(image)`, given as `answer(p)`. */
    method ListTags(image: string, host: Option<string>, answer: Provider -> Result<seq<string>, RegistryError>)
      returns (r: Result<seq<string>, RegistryError>)
      ensures Unclaimed(providers, image, host) ==> r == Err(NoProviderFound(image))
      ensures forall i :: FirstClaimant(providers, i, image, host) ==> r == answer(providers[i])
      ensures r == Dispatched(providers, image, host, answer)
    {
      var provider := FindProvider(image, host);
      if provider.None? {
        DispatchedSpec(providers, image, host, answer);
        return Err(NoProviderFound(image));
      }
      DispatchedSpec(providers, image, host, answer);
      r := answer(provider.value);
    }

    /** `GetSupportedProviders`: the provider names, in consultation order. */
    method GetSupportedProviders() returns (names: seq<string>)
      ensures |names| == |providers|
      ensures forall i :: 0 <= i < |names| ==> names[i] == Name(providers[i])
    {
      names := [];
      for i := 0 to |providers|
        invariant |names| == i
        invariant forall k :: 0 <= k < i ==> names[k] == Name(providers[k])
      {
        names := names + [Name(providers[i])];
      }
    }
  }

  /** At most one provider is the first to claim an image, and some is unless none claims it. */
  lemma FirstClaimantUnique(providers: seq<Provider>, image: string, host: Option<string>)
    ensures forall i, j :: FirstClaimant(providers, i, image, host) && FirstClaimant(providers, j, image, host) ==> i == j
    ensures Unclaimed(providers, image, host) || exists i :: FirstClaimant(providers, i, image, host)
  {
    if !Unclaimed(providers, image, host) {
      var i :| 0 <= i < |providers| && Claims(providers[i], image, host);
      var k := 0;
      while !Claims(providers[k], image, host)
        invariant 0 <= k <= i
        invariant forall j :: 0 <= j < k ==> !Claims(providers[j], image, host)
        decreases i - k
      {
        k := k + 1;
      }
      assert FirstClaimant(providers, k, image, host);
    }
  }

  /**
   * With the built-in providers the order decides: an image ECR claims goes to
   * ECR; otherwise a Google host goes to GCP; otherwise Docker Hub's test
   * decides; otherwise no provider is found.
   */
  lemma DefaultDispatch(image: string, host: Option<string>)
    ensures Ecr.SupportsImage(image) ==> FirstClaimant(Defaults(), 0, image, host)
    ensures !Ecr.SupportsImage(image) && Gcp.SupportsImage(host) ==> FirstClaimant(Defaults(), 1, image, host)
    ensures (!Ecr.SupportsImage(image) && !Gcp.SupportsImage(host) && DockerHub.SupportsImage(image, host))
              ==> FirstClaimant(Defaults(), 2, image, host)
    ensures Unclaimed(Defaults(), image, host) <==>
              (!Ecr.SupportsImage(image) && !Gcp.SupportsImage(host) && !DockerHub.SupportsImage(image, host))
  {
    var ps := Defaults();
    assert ps == [AwsEcr, GcpRegistry, DockerHubRegistry];
  }

  /**
   * An added provider never takes an image from a provider before it: it
   * answers exactly the images none of those claims.
   */
  lemma AddedProviderLast(providers: seq<Provider>, p: Provider, image: string, host: Option<string>)
    ensures forall i :: FirstClaimant(providers, i, image, host) ==> FirstClaimant(providers + [p], i, image, host)
    ensures FirstClaimant(providers + [p], |providers|, image, host) <==>
              (Unclaimed(providers, image, host) && Claims(p, image, host))
  {
    var ps := providers + [p];
    forall i | FirstClaimant(providers, i, image, host)
      ensures FirstClaimant(ps, i, image, host)
    {
      assert forall j :: 0 <= j <= i ==> ps[j] == providers[j];
    }
    assert forall j :: 0 <= j < |providers| ==> ps[j] == providers[j];
  }
}
