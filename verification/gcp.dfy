/** Which references the GCP provider (pkg/registry/gcp.go) claims. */
module Gcp {
  import opened Base
  import opened Strings

  const Name: string := "GCP (GCR/Artifact Registry)"

  /**
   * `GCPProvider.SupportsImage`. `host` is the registry host of the image read
   * as a reference, or `None` when the reference does not parse. Container
   * Registry hosts contain "gcr.io" and Artifact Registry hosts "pkg.dev".
   */
  predicate SupportsImage(host: Option<string>)
  {
    host.Some? && (Contains(host.value, "gcr.io") || Contains(host.value, "pkg.dev"))
  }

  /** Every Container Registry host (`gcr.io`, `eu.gcr.io`, ...) and every Artifact Registry host is claimed. */
  lemma GoogleHostsSupported(region: string)
    ensures SupportsImage(Some(region + "gcr.io"))
    ensures SupportsImage(Some(region + "-docker.pkg.dev"))
  {
    ContainsAfter(region, "gcr.io", "");
    assert region + "gcr.io" == region + ("gcr.io" + "");
    ContainsAfter(region + "-docker.", "pkg.dev", "");
    assert region + "-docker.pkg.dev" == (region + "-docker.") + ("pkg.dev" + "");
  }

  /** The test is a substring test: any host that merely contains "gcr.io" is claimed too. */
  lemma AnyHostContainingGcrClaimed(before: string, after: string)
    ensures SupportsImage(Some(before + ("gcr.io" + after)))
  {
    ContainsAfter(before, "gcr.io", after);
  }
}
