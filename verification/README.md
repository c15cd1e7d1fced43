# kubectl-setimg in Dafny

A model of the core of `kubectl-setimg`, a kubectl plugin that changes the
image of one container of a Deployment. It covers:

- the **registry client** (`pkg/registry`): an ordered list of providers
  (AWS ECR, GCP, Docker Hub, plus any added later); the first provider that
  claims an image reference lists its tags. Tags come with creation times,
  newest first, at most twenty. ECR reads them from paginated image
  details. GCP and Docker Hub list the tags and look up a creation time for
  each of the first fifty concurrently. When no lookup succeeds they fall
  back to an alphabetical list with no times.
- the **Kubernetes side** (`pkg/k8s`): the container list of a
  Deployment's pod template, the current image of a container, the
  strategic-merge image patch, the readiness check, and the watch loop that
  runs the check on every tick until it settles or the timeout fires.
- the **command** (`cmd/root.go`): the choice between direct, list and
  interactive mode, the interactive selection (deployment, container, tag or
  typed image), and the update. In watch mode a failed watch leads to a
  rollback to the recorded previous image, after a confirmation.
- the **version banner** (`cmd/version.go`): linker variables, then the
  module version, then the VCS build settings.

The cluster is a `K8s.Client` object. It holds the template containers of
each Deployment by name, and its image patch changes that map in place. The
registry client and the command options are classes too. Their methods
update fields the way the Go methods do.

What the program gets from outside becomes a parameter:
- what each provider answers (`answer`), for the registry client;
- the pages returned by `DescribeImages`, for ECR;
- the tag list and the per-tag lookups, for GCP and Docker Hub;
- the order in which worker results arrive (any permutation);
- the events the watch sees;
- the user's answers to the prompts;
- whether the API server accepts a patch.

Times are integers (nanoseconds since the Unix epoch). Go's zero
`time.Time` is `Tags.ZeroTime`.

Files: `base.dfy` (Option, Result), `strings.dfy` (Go string helpers),
`tags.dfy` (tag records, sorting and truncation), `ecr.dfy`,
`remote_tags.dfy` (shared by GCP and Docker Hub), `gcp.dfy`,
`dockerhub.dfy`, `registry.dfy`, `k8s.dfy`, `root.dfy` (module `Cmd`),
`version.dfy`.

Three behaviours of the code are worth stating outright:
- The tags are sorted with `sort.Slice`, which is not stable, so tags with
  equal creation times may come out in either order (`Tags.TiesInEitherOrder`).
- The rollback asks for confirmation whenever deployment, container and new
  image are all non-empty. That includes direct mode (`Cmd.DirectModeConfirms`).
- A rollback that goes through returns no error, so the command then
  succeeds (`Cmd.PatchOutcome`, `Cmd.RollbackRestores`).

## Model

| member | source | states |
|---|---|---|
| Strings.Split | cmd/root.go:67 | `strings.Split` on one character: one more piece than separators, no piece contains the separator, and joining the pieces gives back the input |
| Tags.TruncateNewestFirst | pkg/registry/aws.go:121-129 | cutting a newest-first list to 20 keeps it newest first, keeps `min(n, 20)` of its records, and every record dropped is no newer than the last one kept |
| Tags.NewestFirstOfFacts | pkg/registry/gcp.go:93-102 | a listing sorted newest first and cut to 20 has `min(n, 20)` records taken from the pool, in order, and no record left out is newer than the last one listed |
| Tags.LexSortedUnique | pkg/registry/gcp.go:84 | two ascending orderings of the same strings are equal, so `sort.Strings` has exactly one possible result |
| Tags.AlphabeticalOfFacts | pkg/registry/gcp.go:81-92 | the fallback listing is unique: `min(n, 20)` tags in ascending order, each with the zero time |
| Tags.AlphabeticalSmallest | pkg/registry/gcp.go:81-92 | the fallback listing shows only listed tags, and the smallest of them: every listed tag that is not shown sorts after the last one shown |
| Tags.TiesInEitherOrder | pkg/registry/aws.go:121-124 | `sort.Slice` is not stable: two records with the same time are newest first in either order |
| Tags.SortNewestFirst | pkg/registry/aws.go:121-124 | sorting in place by `After` leaves the array newest first and a permutation of what it was |
| Tags.SortStrings | pkg/registry/gcp.go:84 | sorting strings in place leaves them in ascending byte order and a permutation of what they were |
| Tags.TagNames | pkg/registry/aws.go:37-50 | `ListTags` keeps the names of the records, one per record, in order |
| Ecr.MatchEcr | pkg/registry/aws.go:140-153 | a reference the ECR pattern matches is well formed and is the formatting of the parts it yields |
| Ecr.MatchFormat | pkg/registry/aws.go:140-153 | round trip: the pattern matches every well-formed formatted URL and returns exactly its account, region, repository and tag |
| Ecr.ParseEcrImage | pkg/registry/aws.go:135-161 | a parse that succeeds gives a non-empty region and repository; every failure is "invalid ECR image format" |
| Ecr.ParseAcceptsExactly | pkg/registry/aws.go:135-161 | the parser accepts exactly the references of the form `<digits>.dkr.ecr.<region>.amazonaws.com/<repository>[:<tag>]` |
| Ecr.ParseRoundTrip | pkg/registry/aws.go:135-161 | parsing a formatted URL gives back its region and repository |
| Ecr.ParsedIsSupported | pkg/registry/aws.go:31-34 | every reference the parser accepts is one the ECR provider claims |
| Ecr.SupportsImage | pkg/registry/aws.go:31-34 | ECR claims a reference containing both `.dkr.ecr.` and `.amazonaws.com`, anywhere. `Ecr.FormattedIsSupported` and `Ecr.ParsedIsSupported` show that every well-formed ECR URL is claimed; `Ecr.SupportedButNotParsed` shows a claimed reference the parser rejects |
| Ecr.FormattedIsSupported | pkg/registry/aws.go:31-34 | both markers the ECR provider looks for occur in every formatted URL |
| Ecr.SupportedButNotParsed | pkg/registry/aws.go:31-34 | the converse fails: `1.dkr.ecr.x.amazonaws.com` is claimed, but parsing it fails because there is no repository |
| Ecr.DescribeImages | pkg/registry/aws.go:76-90 | the paginator reads pages until it has 100 image details or the pages run out, and returns the details of the pages it read; an error page it reaches fails the listing |
| Ecr.PaginationOutcome | pkg/registry/aws.go:76-90 | the stopping page is unique, and a paginator that stops never failed before |
| Ecr.DetailsBound | pkg/registry/aws.go:76-90 | the paginator overshoots 100 by less than the size of the last page it read |
| Ecr.RecordsMembers | pkg/registry/aws.go:93-114 | which records one image gives: a record for each of its non-empty tags, stamped with its push time, and no other |
| Ecr.RecordsCount | pkg/registry/aws.go:93-114 | one record per non-empty tag: a non-empty tag the image lists k times gives exactly k records |
| Ecr.RecordsLength | pkg/registry/aws.go:93-114 | an image gives as many records as it has non-empty tags |
| Ecr.FlattenMembers | pkg/registry/aws.go:92-115 | a record is listed exactly when some image carries its tag (non-empty) and its time is that image's push time, or the current time when there is none |
| Ecr.Flatten | pkg/registry/aws.go:92-115 | the tag records of the image details, image by image and tag by tag. `Ecr.FlattenMembers` states which records appear, `Ecr.FlattenCount` how often and `Ecr.FlattenLength` how many in all |
| Ecr.FlattenCount | pkg/registry/aws.go:92-115 | a record occurs once for every time an image stamped with its time carries its tag, so no record is lost or duplicated |
| Ecr.FlattenLength | pkg/registry/aws.go:92-115 | the listing has exactly as many records as the images have non-empty tags |
| Ecr.FlattenTags | pkg/registry/aws.go:92-115 | the nested loops produce the records of every image, image by image, tag by tag |
| Ecr.ListTagsWithInfo | pkg/registry/aws.go:52-132 | parse error, then configuration error, then paginator error; otherwise "no tagged images" when there are no records, else the records newest first, cut to 20 |
| Ecr.ListTags | pkg/registry/aws.go:37-50 | the names of the `ListTagsWithInfo` listing in its order, or its error |
| Gcp.GoogleHostsSupported | pkg/registry/gcp.go:32-41 | GCP claims every `*gcr.io` host and every `*-docker.pkg.dev` host |
| Gcp.AnyHostContainingGcrClaimed | pkg/registry/gcp.go:32-41 | the test is a substring test: any host containing `gcr.io` anywhere is claimed |
| Gcp.SupportsImage | pkg/registry/gcp.go:32-41 | GCP claims a reference whose registry host contains `gcr.io` or `pkg.dev`. An unparsable reference (`None` host) is never claimed, so dispatch goes on to the next provider. `Gcp.GoogleHostsSupported` gives the hosts it claims |
| DockerHub.OtherHosts | pkg/registry/dockerhub.go:29-43 | for a host that is not Docker Hub's, the image is claimed exactly when it has no `/`, or one `/` and no `.` |
| DockerHub.SupportsImage | pkg/registry/dockerhub.go:29-43 | Docker Hub claims a parsable reference whose host is Docker Hub's, or whose text has no `/`, or one `/` and no `.`. `DockerHub.OtherHosts` states the non-Docker-Hub case as an equivalence |
| DockerHub.PrivateRegistryClaimed | pkg/registry/dockerhub.go:41-42 | `registry:5000/app:v1` is claimed by Docker Hub even though its host is a private registry |
| DockerHub.DotInTagMatters | pkg/registry/dockerhub.go:42 | the `.` test looks at the whole reference: a dot in the tag (`registry:5000/app:v1.2`) changes the answer |
| RemoteTags.Worker | pkg/registry/gcp.go:149-185 | a worker sends a record exactly when its lookup succeeds. The record has the tag and the looked-up time, except that a zero time becomes the Unix epoch |
| RemoteTags.RecordsPermutation | pkg/registry/gcp.go:187-195 | the records collected do not depend on the order in which workers finish |
| RemoteTags.DatedMembers | pkg/registry/gcp.go:149-195 | a record is collected exactly for a tag whose lookup succeeded |
| RemoteTags.DatedEmpty | pkg/registry/gcp.go:197-199 | no record is collected exactly when every lookup failed |
| RemoteTags.GetTagsWithCreationTime | pkg/registry/gcp.go:131-202 | only the first 50 tags are looked up; the result fails with "no creation times" exactly when no lookup succeeded, and otherwise holds exactly the successful records, whatever the order of arrival |
| RemoteTags.UndatedListing | pkg/registry/gcp.go:81-92 | the fallback sorts all the tags in place and gives each the zero time; cut to 20 it is the alphabetical listing |
| RemoteTags.ListTagsWithInfo | pkg/registry/gcp.go:59-105 | parse error, list error, "no tags", then the dated listing newest first or the alphabetical fallback, cut to 20 |
| RemoteTags.ListTags | pkg/registry/gcp.go:44-56 | the names of the `ListTagsWithInfo` listing in its order, or its error |
| RemoteTags.TimedListing | pkg/registry/gcp.go:81-102 | when some lookup succeeds, the listing is newest first with `min(n, 20)` records, and each one belongs to a tag among the first 50 whose lookup succeeded, with a time that is not zero |
| RemoteTags.FallbackListing | pkg/registry/dockerhub.go:83-104 | when every lookup fails, the result is the alphabetical listing of all the listed tags, not only the first 50. It shows at most 20, in ascending order, without times. Every tag shown is a listed tag, and every listed tag not shown sorts after the last one shown |
| Registry.DispatchedSpec | pkg/registry/registry.go:53-80 | dispatching answers through the first provider that claims the image, and reports "no provider found" when none does |
| Registry.Defaults | pkg/registry/registry.go:35-45 | the built-in order is ECR, then GCP, then Docker Hub |
| Registry.Name | pkg/registry/registry.go:25-26 | each built-in provider reports its own name; an added provider reports the name it was given |
| Registry.Claims | pkg/registry/registry.go:22-23 | a provider claims an image by its own `SupportsImage` test. `Registry.DefaultDispatch` states the order in which the built-in tests decide |
| Registry.Client.constructor | pkg/registry/registry.go:35-45 | a new client holds the built-in providers in order |
| Registry.Client.AddProvider | pkg/registry/registry.go:48-50 | an added provider is consulted after every provider already present |
| Registry.Client.FindProvider | pkg/registry/registry.go:73-80 | `None` exactly when no provider claims the image, otherwise the first provider that claims it |
| Registry.Client.ListTagsWithInfo | pkg/registry/registry.go:63-70 | "no provider found" when none claims the image, otherwise the answer of the first provider that does |
| Registry.Client.ListTags | pkg/registry/registry.go:53-60 | the same dispatch, to `ListTags` |
| Registry.Client.GetSupportedProviders | pkg/registry/registry.go:83-89 | the provider names, one per provider, in the order they are consulted |
| Registry.FirstClaimantUnique | pkg/registry/registry.go:73-80 | at most one provider is the first to claim an image, and there is one unless none claims it |
| Registry.DefaultDispatch | pkg/registry/registry.go:35-45 | with the built-in providers: ECR wins when it claims; else GCP when the host is Google's; else Docker Hub's test; no provider exactly when all three decline |
| Registry.AddedProviderLast | pkg/registry/registry.go:48-50 | an added provider never takes an image from an earlier one: it answers exactly the images none of them claims |
| K8s.FirstImage | pkg/k8s/k8s.go:82-97 | the image of the first container with that name; `None` exactly when no container has the name |
| K8s.PatchedImage | pkg/k8s/k8s.go:100-132 | after the patch, the named container has the new image |
| K8s.Patched | pkg/k8s/k8s.go:100-132 | the strategic merge patch sets the named container's image, or appends the container when there is none. `K8s.PatchedImage`, `K8s.PatchedOthers` and `K8s.PatchBackRestores` state what it does |
| K8s.PatchedOthers | pkg/k8s/k8s.go:100-132 | the patch changes no other container's image |
| K8s.PatchBackRestores | pkg/k8s/k8s.go:100-132 | with unique container names, patching in a new image and then the previous one gives back the original template |
| K8s.Client.constructor | pkg/k8s/k8s.go:27-48 | the client sees the given deployment templates |
| K8s.Client.GetContainers | pkg/k8s/k8s.go:61-79 | "deployment not found" for an unknown deployment, otherwise every container of the template in order, with its name, image and position |
| K8s.Client.GetCurrentImage | pkg/k8s/k8s.go:82-97 | an unknown deployment fails first; otherwise the image of the first container with that name, or "container not found" when there is none |
| K8s.Client.UpdateContainerImage | pkg/k8s/k8s.go:100-132 | a patch that is accepted replaces that deployment's template with the patched one; a failed patch changes nothing |
| K8s.StatusProblem | pkg/k8s/k8s.go:164-175 | a container status is fine exactly when it has restarted at most 3 times and is not waiting in a failure state |
| K8s.FirstStatusProblemNone | pkg/k8s/k8s.go:164-175 | a pod has no problem exactly when none of its container statuses has one |
| K8s.FirstPodProblemSpec | pkg/k8s/k8s.go:158-176 | no pod problem exactly when every pod is healthy; otherwise the problem of the first unhealthy pod is reported |
| K8s.PodProblem | pkg/k8s/k8s.go:158-176 | a `Failed` pod is reported as failed. Otherwise the problem, if any, comes from one of its container statuses (`K8s.StatusProblem`): too many restarts or a bad waiting reason |
| K8s.FirstPodProblem | pkg/k8s/k8s.go:158-176 | the pods are scanned in order and the first problem is reported, always a pod failure, a restart or a waiting problem. `K8s.FirstPodProblemSpec` states which pod it comes from |
| K8s.CheckDeploymentReadiness | pkg/k8s/k8s.go:135-179 | ready exactly when the Deployment can be read and ready and updated replicas both equal the desired count. An error is an API failure or a pod problem, never a timeout |
| K8s.ReadinessSpec | pkg/k8s/k8s.go:135-179 | all counts equal: ready; otherwise not ready while every pod is healthy, and the first unhealthy pod's problem is the error |
| K8s.StatusThresholds | pkg/k8s/k8s.go:165-174 | 3 restarts pass and 4 fail; a waiting container fails exactly for `ImagePullBackOff`, `CrashLoopBackOff` or `ErrImagePull` |
| K8s.FirstSettlingDecides | pkg/k8s/k8s.go:182-203 | the outcome of a watch is the verdict of the first event that settles it |
| K8s.WatchDeployment | pkg/k8s/k8s.go:182-203 | the loop stops at the first tick whose check is ready or fails, or at the timeout; the result is that event's verdict |
| K8s.WatchOutcomes | pkg/k8s/k8s.go:182-203 | a watch succeeds only through a tick whose check found the Deployment ready. It times out exactly when the timer fires first. Every earlier tick was "not ready yet" |
| K8s.LaterEventsIrrelevant | pkg/k8s/k8s.go:182-203 | events after the settling one never change the outcome |
| Cmd.InteractiveIff | cmd/root.go:54-72 | direct mode is chosen exactly when the second argument is `container=image`, both sides non-empty and free of `=` |
| Cmd.ShouldUseInteractive | cmd/root.go:54-72 | interactive mode is used when there are fewer than two arguments, or when the second does not split on `=` into two non-empty parts. `Cmd.InteractiveIff` states the equivalence |
| Cmd.SplitPair | cmd/root.go:108-114 | `c=i` splits into exactly `c` and `i` |
| Cmd.Selection | cmd/root.go:147-184 | the container chosen is one of the deployment's template. A named container is found exactly when the template has a container of that name, and its image is the first under that name. A picked position is found exactly when it lies inside the listing |
| Cmd.RollbackRestores | cmd/root.go:233-304 | when the watch fails and the rollback goes through, the Deployment's template is exactly what it was before, and the command returns no error |
| Cmd.DirectModeConfirms | cmd/root.go:281-293 | direct mode always sets a non-empty container and image, so the rollback asks for confirmation whenever the deployment name is non-empty |
| Cmd.AsksConfirmation | cmd/root.go:285 | the rollback asks for confirmation exactly when deployment, container and new image are all non-empty, in either mode. `Cmd.DirectModeConfirms` covers direct mode |
| Cmd.SetImageOptions.constructor | cmd/root.go:36-42 | new options: built-in registries, a five-minute timeout, no flags, no names |
| Cmd.SetImageOptions.BindFlags | cmd/root.go:346-350 | `--list` and `--watch` are stored as given; `--timeout` defaults to five minutes |
| Cmd.SetImageOptions.Complete | cmd/root.go:44-117 | client failure first; list mode needs and takes the deployment; direct mode takes the deployment and splits `container=image` into two non-empty parts; otherwise the interactive outcome, starting from the names given |
| Cmd.SetImageOptions.ListContainers | cmd/root.go:119-133 | the rows shown are the template's containers with name, image and position; an unknown deployment is an error |
| Cmd.SetImageOptions.RunInteractiveMode | cmd/root.go:135-225 | asks only for what is missing. A failed prompt or lookup stops it with that error. The container's current image is the one the registries are asked about, with the registry host read from that image. A listing error falls back to typing the image |
| Cmd.SetImageOptions.SelectContainerStep | cmd/root.go:147-184 | the container is set to the one `Cmd.Selection` chooses, and left alone when there is none. `current` is that container's image. The error tells a failed pick apart from a named container that is missing |
| Cmd.SetImageOptions.SelectImageStep | cmd/root.go:186-215 | the image is the one typed or picked, and "" when that prompt fails; the error says which prompt failed |
| Cmd.SetImageOptions.SavePreviousImage | cmd/root.go:227-231 | records the container's current image, or "" with the lookup error |
| Cmd.SetImageOptions.RunWithPatch | cmd/root.go:233-254 | if the previous image cannot be recorded, nothing is patched. A patch failure changes nothing. Without watch mode, or after a watch that succeeds, the template is patched. A failed watch leads to the rollback |
| Cmd.SetImageOptions.Run | cmd/root.go:256-266 | list mode changes nothing and only fails for an unknown deployment; otherwise it is `RunWithPatch` |
| Cmd.SetImageOptions.WatchPodsAndRollbackIfNeeded | cmd/root.go:268-279 | a successful watch changes nothing and returns no error; a failed one hands over to the rollback |
| Cmd.SetImageOptions.RollbackDeployment | cmd/root.go:281-304 | no saved image: an error and no patch. A declined confirmation: "cancelled" and no patch. Otherwise the container is patched back to the saved image, and a refused patch is "rollback failed" |
| Version.RevisionVersion | cmd/version.go:34-39 | `dev-` followed by the first seven characters of the revision, or all of it when shorter |
| Version.SettingsVersion | cmd/version.go:32-45 | the settings loop ends with the version the settings give, one after another, or panics on a short `vcs.time` |
| Version.ApplySettings | cmd/version.go:32-45 | the build settings are applied in order. A short `vcs.time` gives `None`, standing for the panic. `Version.SettingsResultShape`, `Version.DevPrefixKept`, `Version.LastRevisionWins` and `Version.SettingOrder` state its properties |
| Version.GetVersionInfo | cmd/version.go:17-51 | the version is the git tag if set, else the git commit, else `Version`, else the module version unless empty or `(devel)`, else what the VCS settings give |
| Version.BannerDeterminesVersion | cmd/version.go:50 | two banners for the same Go version are equal only for the same version |
| Version.SettingsResultShape | cmd/version.go:32-45 | the loop ends with the version it started from or a `dev-` version |
| Version.DevPrefixKept | cmd/version.go:32-45 | once the version starts with `dev-`, it keeps that prefix |
| Version.LongTimesNeverPanic | cmd/version.go:40-43 | without a `vcs.time` value shorter than ten characters, the loop never panics |
| Version.LastRevisionWins | cmd/version.go:32-45 | when `Version` does not start with `dev-`, the last `vcs.revision` decides the version |
| Version.RevisionStays | cmd/version.go:40-43 | a `dev-` version other than `Version` survives settings without a revision |
| Version.SettingOrder | cmd/version.go:32-45 | time then revision, and revision then time, both give the revision; a time alone gives the date; a short time alone panics |

## Left out

- The terminal UI (`pkg/tui`) is not part of this model. Each prompt is one answer in `Cmd.Prompts`: `None` when the prompt fails or is cancelled. The confirmation is a boolean, false when the dialog fails. The container picker's answer is the position of the container picked in the listing; the picker's lookup by name is equivalent as long as names are unique, which Kubernetes enforces. The tag picker's answer is the image it returns; which items it offers (the current image, then `name:tag` per listed tag) is not modelled. The typed image is taken only when it is not empty, as the text input returns an error otherwise. Listing the deployments for the deployment prompt is not modelled.
- Network and SDK calls become parameters. These are the AWS configuration load, the `DescribeImages` pages, `remote.List`, the image and config fetches, whether the Kubernetes API accepts a patch, and the Deployment and pod reads of the watch. Authentication and keychains are left out.
- K8s.Client.GetContainers and K8s.Client.GetCurrentImage read the deployment templates held by the client. They fail only for a deployment that is not there. An API error while reading an existing deployment is not modelled. In the code that failure gives the same `failed to get deployment` error, and nothing is patched, just as for an unknown deployment.
- go-containerregistry's reference parsing is not modelled. Its results (the registry host, the repository when read as a repository and as a full reference, `None` when parsing fails) are parameters.
- The ten-way limit on concurrent lookups in `getTagsWithCreationTime` is left out. It limits how many run at once, not what they produce. The goroutines become one outcome per tag, arriving in any order.
- Ecr.ListTagsWithInfo: `time.Now()` is read once per tag without a push time. The model uses one reading, `now`, for the whole listing.
- K8s.WatchDeployment: the ticker, the timer and the pod listing by label selector are not modelled. Each tick is an event carrying the Deployment read and the pod list read.
- K8s.Client.UpdateContainerImage: the patch text is built with `fmt.Sprintf` at pkg/k8s/k8s.go:104-117, and the container name and image are not JSON-escaped. The model assumes names and images free of `"` and `\`. With such characters the text can address another container, or fail to parse. An example is the direct-mode argument `web=nginx","name":"sidecar`, which patches `sidecar` and not `web`. Neither case is modelled: the model always gives the named container the image text verbatim.
- K8s.Client.UpdateContainerImage: the strategic merge patch is modelled by its effect on the containers list, merged by name. Whether the API server accepts the patch is a parameter. Resource versions and conflicts are left out.
- `NewClient` of `pkg/k8s` (kubeconfig loading) is not modelled. `Cmd.SetImageOptions.Complete` receives the resulting client, or `null` when loading fails.
- Output (`fmt.Print*`), `os.Exit` and cobra's wiring are left out. So is the `--version` branch of the command, which prints `Version.GetVersionInfo`. Strings are sequences of characters, not UTF-8 bytes. `runtime.Version()` is a parameter.
- Cmd.SetImageOptions.RunInteractiveMode: when the deployment prompt fails, the deployment field becomes "". The model states the error and the field values, but not the messages.
