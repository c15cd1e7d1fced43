/** Which references the Docker Hub provider (pkg/registry/dockerhub.go) claims. */
module DockerHub {
  import opened Base
  import opened Strings

  const Name: string := "Docker Hub"

  /** `name.DefaultRegistry` of go-containerregistry. */
  const DefaultRegistry: string := "index.docker.io"

  /**
   * `DockerHubProvider.SupportsImage`. `host` is the registry host of `image`
   * read as a reference (`None` when it does not parse). Besides Docker Hub's
   * own hosts, any parsable reference without a '/' is claimed, and any with
   * exactly one '/' and no '.' anywhere in the whole reference.
   */
  predicate SupportsImage(image: string, host: Option<string>)
  {
    && host.Some?
    && (|| host.value == "index.docker.io"
        || host.value == "docker.io"
        || host.value == DefaultRegistry
        || '/' !in image
        || (Count(image, '/') == 1 && '.' !in image))
  }

  /**
   * On a host other than Docker Hub's, the reference is claimed exactly when it
   * has at most one path separator and, if it has one, no '.' at all.
   */
  lemma OtherHosts(image: string, host: string)
    requires host != DefaultRegistry && host != "docker.io"
    ensures SupportsImage(image, Some(host)) <==> Count(image, '/') == 0 || (Count(image, '/') == 1 && '.' !in image)
  {
    assert '/' !in image <==> Count(image, '/') == 0;
  }

  /** A private registry on a host without a dot, with one path separator. */
  const PrivateHost: string := "registry:5000"

  /** A reference `host/path` with no further `/` has exactly one path separator. */
  lemma OneSeparator(host: string, rest: string)
    requires '/' !in host && rest != [] && rest[0] == '/' && '/' !in rest[1..]
    ensures Count(host + rest, '/') == 1
  {
    assert rest == [rest[0]] + rest[1..];
    CountAbsent(host, '/');
    CountAbsent(rest[1..], '/');
    CountConcat([rest[0]], rest[1..], '/');
    CountConcat(host, rest, '/');
  }

  lemma PrivateRegistryClaimed()
    ensures SupportsImage(PrivateHost + "/app:v1", Some(PrivateHost))
  {
    assert '.' !in PrivateHost + "/app:v1" by {
      assert '.' !in "/app:v1" && '.' !in PrivateHost;
    }
    OneSeparator(PrivateHost, "/app:v1");
  }

  /**
   * The '.' test looks at the whole reference, tag included: the reference of
   * `PrivateRegistryClaimed` with a dotted tag is not claimed.
   */
  lemma DotInTagMatters()
    ensures !SupportsImage(PrivateHost + "/app:v1.2", Some(PrivateHost))
  {
    var b := PrivateHost + "/app:v1.2";
    assert b[20] == '.';
  }
}
