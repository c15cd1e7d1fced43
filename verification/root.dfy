/**
 * The command of cmd/root.go: how the arguments choose between direct,
 * list and interactive mode, the interactive selection, and the update
 * with its optional watch and rollback. The cluster, the registries and
 * the terminal prompts are given as data: a `K8s.Client` holding the
 * deployment templates, an `answer` per registry provider, the user's
 * answers to the prompts, and the events the watch sees.
 */
module Cmd {
  import opened Base
  import opened Strings
  import opened Tags
  import K8s
  import Registry

  /** The errors the command returns. */
  datatype CmdError =
    | KubeConfigFailed
    | ListNeedsDeployment
    | DeploymentRequired
    | PairRequired
    | PairFormatRequired
    | SelectDeploymentFailed
    | SelectContainerFailed
    | SpecifiedContainerMissing(container: string, deployment: string, cause: K8s.K8sError)
    | InputImageFailed
    | SelectTagFailed
    | Kubernetes(cause: K8s.K8sError)
    | NoPreviousImage
    | RollbackCancelled
    | RollbackFailed(cause: K8s.K8sError)

  /** `5 * time.Minute`, in nanoseconds: the default watch timeout. */
  const FiveMinutes: int := 300_000_000_000

  function OrEmpty(s: Option<string>): string
  {
    if s.Some? then s.value else ""
  }

  // ---------------------------------------------------------------------------
  // Choosing the mode

  /**
   * Outside list mode, interactive mode is used unless there is a second
   * argument that splits on `=` into exactly two non-empty pieces.
   */
  predicate ShouldUseInteractive(args: seq<string>)
  {
    if |args| < 2 then true
    else
      var parts := Split(args[1], '=');
      |parts| != 2 || parts[0] == "" || parts[1] == ""
  }

  /** `arg` reads `container=image` with both sides non-empty and free of `=`. */
  ghost predicate IsPair(arg: string)
  {
    exists c: string, i: string :: c != "" && i != "" && '=' !in c && '=' !in i && arg == c + "=" + i
  }

  /** `a=b` splits into `a` and `b` when neither holds the separator. */
  lemma SplitPair(a: string, b: string, sep: char)
    requires sep !in a && sep !in b
    ensures Split(a + [sep] + b, sep) == [a, b]
  {
    var s := a + [sep] + b;
    assert s == a + ([sep] + b);
    IndexOrEndOf(a, sep, [sep] + b);
    assert s[..|a|] == a;
    assert s[|a| + 1..] == b;
    SplitWhole(b, sep);
  }

  /** Direct mode is chosen exactly when the second argument is a `container=image` pair. */
  lemma InteractiveIff(args: seq<string>)
    ensures !ShouldUseInteractive(args) <==> |args| >= 2 && IsPair(args[1])
  {
    if |args| >= 2 {
      var parts := Split(args[1], '=');
      if !ShouldUseInteractive(args) {
        assert Join(parts, '=') == parts[0] + ['='] + Join(parts[1..], '=');
        assert parts[1..] == [parts[1]];
        assert args[1] == parts[0] + "=" + parts[1];
      }
      if IsPair(args[1]) {
        var c: string, i: string :| c != "" && i != "" && '=' !in c && '=' !in i && args[1] == c + "=" + i;
        SplitPair(c, i, '=');
      }
    }
  }

  // ---------------------------------------------------------------------------
  // The prompts

  /**
   * The user's answers to the terminal prompts (`None`: the prompt failed or
   * was cancelled): the deployment picked, the position in the listing of
   * the container picked, the image the tag picker returns, and the image
   * typed when the tags could not be listed.
   */
  datatype Prompts = Prompts(deployment: Option<string>, container: Option<nat>,
                             image: Option<string>, manual: Option<string>)

  /**
   * The container `runInteractiveMode` goes on with in deployment `d`: the
   * first one named `c0` when a container was given, otherwise the one at
   * the position picked from the listing.
   */
  function Selection(templates: map<string, seq<K8s.Container>>, d: string, c0: string, choice: Option<nat>)
    : (sel: Option<K8s.Container>)
    ensures sel.Some? ==> d in templates && sel.value in templates[d]
    ensures c0 != "" ==> (sel.Some? <==> d in templates && exists i :: 0 <= i < |templates[d]| && templates[d][i].name == c0)
    ensures c0 != "" && sel.Some? ==> sel.value.name == c0 && K8s.FirstImage(templates[d], c0) == Some(sel.value.image)
    ensures c0 == "" ==> (sel.Some? <==> d in templates && choice.Some? && choice.value < |templates[d]|)
  {
    if d !in templates then None
    else if c0 != "" then
      var img := K8s.FirstImage(templates[d], c0);
      if img.None? then None
      else
        var i :| 0 <= i < |templates[d]| && templates[d][i].name == c0 && templates[d][i].image == img.value
                 && forall k :: 0 <= k < i ==> templates[d][k].name != c0;
        assert templates[d][i] == K8s.Container(c0, img.value);
        Some(K8s.Container(c0, img.value))
    else if choice.Some? && choice.value < |templates[d]| then Some(templates[d][choice.value])
    else None
  }

  /**
   * The image the interactive mode settles on: typed by hand (and not
   * empty) when the tags could not be listed, picked otherwise.
   */
  function Picked(listing: Result<seq<TagInfo>, RegistryError>, p: Prompts): Option<string>
  {
    if listing.Err? then (if p.manual.Some? && p.manual.value != "" then p.manual else None)
    else p.image
  }

  /**
   * What `runInteractiveMode` leaves behind, starting from deployment `d0`,
   * container `c0` and image `img0` (an empty name means "ask"). The
   * deployment prompt's answer is stored even when it fails (as ""); the
   * container is set only once it is found; the image is set (possibly to
   * "") only once the container is found, and the registries are asked
   * about that container's current image; a failure to list tags falls back
   * to typing the image.
   */
  ghost predicate InteractiveOutcome(d0: string, c0: string, img0: string,
                                     templates: map<string, seq<K8s.Container>>, providers: seq<Registry.Provider>,
                                     p: Prompts, hostOf: string -> Option<string>,
                                     answer: Registry.Provider -> Result<seq<TagInfo>, RegistryError>,
                                     deployment: string, container: string, image: string, err: Option<CmdError>)
  {
    var d := if d0 != "" then d0 else OrEmpty(p.deployment);
    var named := d0 != "" || p.deployment.Some?;
    var sel := if named then Selection(templates, d, c0, p.container) else None;
    && deployment == d
    && container == (if sel.Some? then sel.value.name else c0)
    && (!named ==> err == Some(SelectDeploymentFailed) && image == img0)
    && (named && c0 == "" && d !in templates ==> err == Some(Kubernetes(K8s.GetDeploymentFailed(d))) && image == img0)
    && (named && c0 == "" && d in templates && sel.None? ==> err == Some(SelectContainerFailed) && image == img0)
    && (named && c0 != "" && sel.None? ==>
          && err == Some(SpecifiedContainerMissing(c0, d, if d in templates then K8s.ContainerNotFound(c0, d)
                                                           else K8s.GetDeploymentFailed(d)))
          && image == img0)
    && (sel.Some? ==>
          var listing := Registry.Dispatched(providers, sel.value.image, hostOf(sel.value.image), answer);
          var picked := Picked(listing, p);
          && image == OrEmpty(picked)
          && err == (if picked.Some? then None else if listing.Err? then Some(InputImageFailed) else Some(SelectTagFailed)))
  }

  // ---------------------------------------------------------------------------
  // The update, the watch and the rollback

  /** The rollback asks for confirmation when deployment, container and new image are all set. */
  predicate AsksConfirmation(deployment: string, container: string, image: string)
  {
    deployment != "" && container != "" && image != ""
  }

  /**
   * What `rollbackDeployment` does to the templates `before`: nothing
   * without a saved image or when the user declines; otherwise it patches
   * the container back to `previous`, which the API server may refuse.
   */
  ghost predicate RollbackOutcome(before: map<string, seq<K8s.Container>>, d: string, c: string, img: string,
                                  previous: string, accepted: bool, confirm: bool,
                                  after: map<string, seq<K8s.Container>>, err: Option<CmdError>)
  {
    && (previous == "" ==> err == Some(NoPreviousImage) && after == before)
    && (previous != "" && AsksConfirmation(d, c, img) && !confirm ==> err == Some(RollbackCancelled) && after == before)
    && (previous != "" && (!AsksConfirmation(d, c, img) || confirm) ==>
          if d in before && accepted then err.None? && after == before[d := K8s.Patched(before[d], c, previous)]
          else err == Some(RollbackFailed(K8s.PatchFailed)) && after == before)
  }

  /**
   * What `RunWithPatch` does to the templates `before`: it records the
   * container's current image (failing, with nothing changed, when there is
   * none), patches in the new image, and in watch mode rolls back when the
   * watch fails. A rollback that goes through reports success.
   */
  ghost predicate PatchOutcome(before: map<string, seq<K8s.Container>>, d: string, c: string, img: string,
                               watch: bool, timeout: int, events: seq<K8s.Event>,
                               patchAccepted: bool, rollbackAccepted: bool, confirm: bool,
                               previous: string, after: map<string, seq<K8s.Container>>, err: Option<CmdError>)
  {
    var found := d in before && K8s.FirstImage(before[d], c).Some?;
    && previous == (if found then K8s.FirstImage(before[d], c).value else "")
    && (!found ==>
          && err == Some(Kubernetes(if d in before then K8s.ContainerNotFound(c, d) else K8s.GetDeploymentFailed(d)))
          && after == before)
    && (found && !patchAccepted ==> err == Some(Kubernetes(K8s.PatchFailed)) && after == before)
    && (found && patchAccepted && (!watch || K8s.WatchResult(events, timeout).None?) ==>
          err.None? && after == before[d := K8s.Patched(before[d], c, img)])
    && (found && patchAccepted && watch && K8s.WatchResult(events, timeout).Some? ==>
          RollbackOutcome(before[d := K8s.Patched(before[d], c, img)], d, c, img, previous, rollbackAccepted, confirm, after, err))
  }

  /**
   * When the watch fails and the rollback goes through, the deployment's
   * template is exactly what it was before the command (container names
   * being unique, as Kubernetes keeps them), and the command succeeds.
   */
  lemma RollbackRestores(before: map<string, seq<K8s.Container>>, d: string, c: string, img: string,
                         timeout: int, events: seq<K8s.Event>, confirm: bool,
                         previous: string, after: map<string, seq<K8s.Container>>, err: Option<CmdError>)
    requires PatchOutcome(before, d, c, img, true, timeout, events, true, true, confirm, previous, after, err)
    requires d in before && K8s.UniqueNames(before[d]) && K8s.FirstImage(before[d], c).Some?
    requires K8s.WatchResult(events, timeout).Some?
    requires previous != "" && (confirm || !AsksConfirmation(d, c, img))
    ensures err.None? && after == before
  {
    var cs := before[d];
    K8s.PatchBackRestores(cs, c, img, previous);
    var patched := before[d := K8s.Patched(cs, c, img)];
    assert after == patched[d := K8s.Patched(K8s.Patched(cs, c, img), c, previous)];
    assert after == before[d := cs];
  }

  /**
   * Direct mode always sets a non-empty container and image, so its rollback
   * asks for confirmation whenever the deployment name is non-empty.
   */
  lemma DirectModeConfirms(args: seq<string>, container: string, image: string)
    requires !ShouldUseInteractive(args)
    requires args[1] == container + "=" + image && '=' !in container && '=' !in image
    ensures container != "" && image != ""
    ensures AsksConfirmation(args[0], container, image) <==> args[0] != ""
  {
    SplitPair(container, image, '=');
  }

  // ---------------------------------------------------------------------------
  // The command state

  /** `SetImageOptions`. */
  class SetImageOptions {
    var k8s: K8s.Client?
    var registry: Registry.Client
    var deployment: string
    var container: string
    var image: string
    var listOnly: bool
    var watchMode: bool
    var watchTimeout: int
    var previousImage: string

    /** `NewSetImageOptions`: the built-in registries, a five-minute watch and no client yet. */
    constructor ()
      ensures k8s == null && fresh(registry) && registry.providers == Registry.Defaults()
      ensures deployment == "" && container == "" && image == "" && previousImage == ""
      ensures !listOnly && !watchMode && watchTimeout == FiveMinutes
    {
      k8s := null;
      registry := new Registry.Client();
      deployment := "";
      container := "";
      image := "";
      listOnly := false;
      watchMode := false;
      watchTimeout := FiveMinutes;
      previousImage := "";
    }

    /** The `--list`, `--watch` and `--timeout` flags; the timeout defaults to five minutes. */
    method BindFlags(list: bool, watch: bool, timeout: Option<int>)
      modifies this`listOnly, this`watchMode, this`watchTimeout
      ensures listOnly == list && watchMode == watch
      ensures watchTimeout == (if timeout.Some? then timeout.value else FiveMinutes)
    {
      listOnly := list;
      watchMode := watch;
      watchTimeout := if timeout.Some? then timeout.value else FiveMinutes;
    }

    /**
     * `Complete`. `cluster` is the client built from the kubeconfig (`null`
     * when that fails); `p`, `hostOf` (the registry host of an image read as
     * a reference) and `answer` serve the interactive mode.
     */
    method Complete(args: seq<string>, cluster: K8s.Client?, p: Prompts, hostOf: string -> Option<string>,
                    answer: Registry.Provider -> Result<seq<TagInfo>, RegistryError>)
      returns (err: Option<CmdError>)
      modifies this`k8s, this`deployment, this`container, this`image
      ensures k8s == cluster
      ensures cluster == null ==>
                err == Some(KubeConfigFailed) && deployment == old(deployment) && container == old(container) && image == old(image)
      ensures cluster != null && listOnly ==> container == old(container) && image == old(image)
      ensures cluster != null && listOnly && |args| == 0 ==> err == Some(ListNeedsDeployment) && deployment == old(deployment)
      ensures cluster != null && listOnly && |args| > 0 ==> err.None? && deployment == args[0]
      ensures cluster != null && !listOnly && !ShouldUseInteractive(args) ==>
                && err.None? && deployment == args[0]
                && args[1] == container + "=" + image && '=' !in container && '=' !in image
                && container != "" && image != ""
      ensures cluster != null && !listOnly && ShouldUseInteractive(args) ==>
                InteractiveOutcome(if |args| >= 1 then args[0] else old(deployment),
                                   if |args| >= 2 then args[1] else old(container), old(image),
                                   cluster.templates, registry.providers, p, hostOf, answer,
                                   deployment, container, image, err)
    {
      k8s := cluster;
      if cluster == null {
        return Some(KubeConfigFailed);
      }
      if !listOnly {
        if ShouldUseInteractive(args) {
          if |args| >= 1 {
            deployment := args[0];
          }
          if |args| >= 2 {
            container := args[1];
          }
          err := RunInteractiveMode(p, hostOf, answer);
          return;
        }
      }
      if listOnly {
        if |args| < 1 {
          return Some(ListNeedsDeployment);
        }
        deployment := args[0];
        return None;
      }
      if |args| < 1 {
        assert false;
        return Some(DeploymentRequired);
      }
      deployment := args[0];
      if |args| < 2 {
        assert false;
        return Some(PairRequired);
      }
      var parts := Split(args[1], '=');
      if |parts| != 2 {
        assert false;
        return Some(PairFormatRequired);
      }
      container := parts[0];
      image := parts[1];
      assert Join(parts[1..], '=') == parts[1];
      return None;
    }

    /** `listContainers`: the rows it shows, or why the deployment could not be read. */
    method ListContainers() returns (err: Option<CmdError>, shown: seq<K8s.ContainerInfo>)
      requires k8s != null
      ensures deployment !in k8s.templates ==> err == Some(Kubernetes(K8s.GetDeploymentFailed(deployment))) && shown == []
      ensures deployment in k8s.templates ==> err.None? && |shown| == |k8s.templates[deployment]|
      ensures forall i :: 0 <= i < |shown| ==>
                shown[i] == K8s.ContainerInfo(k8s.templates[deployment][i].name, k8s.templates[deployment][i].image, i)
    {
      var containers := k8s.GetContainers(deployment);
      if containers.Err? {
        return Some(Kubernetes(containers.error)), [];
      }
      return None, containers.value;
    }

    /** `runInteractiveMode`: ask for whatever of deployment, container and image is missing. */
    method RunInteractiveMode(p: Prompts, hostOf: string -> Option<string>,
                              answer: Registry.Provider -> Result<seq<TagInfo>, RegistryError>)
      returns (err: Option<CmdError>)
      requires k8s != null
      modifies this`deployment, this`container, this`image
      ensures InteractiveOutcome(old(deployment), old(container), old(image), k8s.templates, registry.providers,
                                 p, hostOf, answer, deployment, container, image, err)
    {
      if deployment == "" {
        if p.deployment.None? {
          deployment := "";
          return Some(SelectDeploymentFailed);
        }
        deployment := p.deployment.value;
      }
      var current;
      err, current := SelectContainerStep(p);
      if err.Some? {
        return;
      }
      err := SelectImageStep(current, p, hostOf, answer);
    }

    /**
     * Step 2 of `runInteractiveMode`: pick a container of the deployment, or
     * look up the one named; either way `current` is its image in the
     * template.
     */
    method SelectContainerStep(p: Prompts) returns (err: Option<CmdError>, current: string)
      requires k8s != null
      modifies this`container
      ensures var sel := Selection(k8s.templates, deployment, old(container), p.container);
              && container == (if sel.Some? then sel.value.name else old(container))
              && (sel.Some? ==> err.None? && current == sel.value.image)
              && (sel.None? && old(container) == "" ==>
                    err == Some(if deployment in k8s.templates then SelectContainerFailed
                                else Kubernetes(K8s.GetDeploymentFailed(deployment))))
              && (sel.None? && old(container) != "" ==>
                    err == Some(SpecifiedContainerMissing(container, deployment,
                                  if deployment in k8s.templates then K8s.ContainerNotFound(container, deployment)
                                  else K8s.GetDeploymentFailed(deployment))))
    {
      current := "";
      if container == "" {
        var containers := k8s.GetContainers(deployment);
        if containers.Err? {
          return Some(Kubernetes(containers.error)), current;
        }
        if p.container.None? || p.container.value >= |containers.value| {
          return Some(SelectContainerFailed), current;
        }
        var selected := containers.value[p.container.value];
        container := selected.name;
        current := selected.image;
      } else {
        var currentImage := k8s.GetCurrentImage(deployment, container);
        if currentImage.Err? {
          return Some(SpecifiedContainerMissing(container, deployment, currentImage.error)), current;
        }
        current := currentImage.value;
      }
      return None, current;
    }

    /**
     * Step 3 of `runInteractiveMode`: list the tags of the current image
     * through the registry client and pick one, or type an image when the
     * listing fails.
     */
    method SelectImageStep(current: string, p: Prompts, hostOf: string -> Option<string>,
                           answer: Registry.Provider -> Result<seq<TagInfo>, RegistryError>)
      returns (err: Option<CmdError>)
      modifies this`image
      ensures var listing := Registry.Dispatched(registry.providers, current, hostOf(current), answer);
              var picked := Picked(listing, p);
              && image == OrEmpty(picked)
              && err == (if picked.Some? then None else if listing.Err? then Some(InputImageFailed) else Some(SelectTagFailed))
    {
      var tagInfos := registry.ListTagsWithInfo(current, hostOf(current), answer);
      if tagInfos.Err? {
        if p.manual.None? || p.manual.value == "" {
          image := "";
          return Some(InputImageFailed);
        }
        image := p.manual.value;
      } else {
        if p.image.None? {
          image := "";
          return Some(SelectTagFailed);
        }
        image := p.image.value;
      }
      return None;
    }

    /** `savePreviousImage`: remember the container's image before the update ("" when it is not found). */
    method SavePreviousImage() returns (err: Option<CmdError>)
      requires k8s != null
      modifies this`previousImage
      ensures var cur := k8s.GetCurrentImage(deployment, container);
              && previousImage == (if cur.Ok? then cur.value else "")
              && (err.None? <==> cur.Ok?)
              && (cur.Err? ==> err == Some(Kubernetes(cur.error)))
    {
      var cur := k8s.GetCurrentImage(deployment, container);
      if cur.Err? {
        previousImage := "";
        return Some(Kubernetes(cur.error));
      }
      previousImage := cur.value;
      return None;
    }

    /**
     * `RunWithPatch`. `patchAccepted` and `rollbackAccepted` say whether the
     * API server takes the update and the rollback; `confirm` is the answer
     * to the rollback prompt. The watch's timer always fires in the end, so
     * in watch mode one of `events` is the timeout.
     */
    method RunWithPatch(events: seq<K8s.Event>, patchAccepted: bool, rollbackAccepted: bool, confirm: bool)
      returns (err: Option<CmdError>)
      requires k8s != null
      requires watchMode ==> exists i :: 0 <= i < |events| && events[i].TimedOut?
      modifies this`previousImage, k8s
      ensures PatchOutcome(old(k8s.templates), deployment, container, image, watchMode, watchTimeout, events,
                           patchAccepted, rollbackAccepted, confirm, previousImage, k8s.templates, err)
    {
      err := SavePreviousImage();
      if err.Some? {
        return;
      }
      var patchErr := k8s.UpdateContainerImage(deployment, container, image, patchAccepted);
      if patchErr.Some? {
        return Some(Kubernetes(patchErr.value));
      }
      if watchMode {
        err := WatchPodsAndRollbackIfNeeded(events, rollbackAccepted, confirm);
        return;
      }
      return None;
    }

    /** `Run`: list the containers in list mode, update the image otherwise. */
    method Run(events: seq<K8s.Event>, patchAccepted: bool, rollbackAccepted: bool, confirm: bool)
      returns (err: Option<CmdError>)
      requires k8s != null
      requires !listOnly && watchMode ==> exists i :: 0 <= i < |events| && events[i].TimedOut?
      modifies this`previousImage, k8s
      ensures listOnly ==> k8s.templates == old(k8s.templates) && previousImage == old(previousImage)
      ensures listOnly ==> (err.None? <==> deployment in k8s.templates)
      ensures listOnly && err.Some? ==> err == Some(Kubernetes(K8s.GetDeploymentFailed(deployment)))
      ensures !listOnly ==>
                PatchOutcome(old(k8s.templates), deployment, container, image, watchMode, watchTimeout, events,
                             patchAccepted, rollbackAccepted, confirm, previousImage, k8s.templates, err)
    {
      if listOnly {
        var shown;
        err, shown := ListContainers();
        return;
      }
      err := RunWithPatch(events, patchAccepted, rollbackAccepted, confirm);
    }

    /** `watchPodsAndRollbackIfNeeded`: roll back when the watch ends in an error. */
    method WatchPodsAndRollbackIfNeeded(events: seq<K8s.Event>, rollbackAccepted: bool, confirm: bool)
      returns (err: Option<CmdError>)
      requires k8s != null
      requires exists i :: 0 <= i < |events| && events[i].TimedOut?
      modifies k8s
      ensures K8s.WatchResult(events, watchTimeout).None? ==> err.None? && k8s.templates == old(k8s.templates)
      ensures K8s.WatchResult(events, watchTimeout).Some? ==>
                RollbackOutcome(old(k8s.templates), deployment, container, image, previousImage,
                                rollbackAccepted, confirm, k8s.templates, err)
    {
      var watchErr := K8s.WatchDeployment(watchTimeout, events);
      if watchErr.Some? {
        err := RollbackDeployment(rollbackAccepted, confirm);
        return;
      }
      return None;
    }

    /** `rollbackDeployment`: put the saved image back, after confirmation when one is asked for. */
    method RollbackDeployment(accepted: bool, confirm: bool) returns (err: Option<CmdError>)
      requires k8s != null
      modifies k8s
      ensures RollbackOutcome(old(k8s.templates), deployment, container, image, previousImage,
                              accepted, confirm, k8s.templates, err)
    {
      if previousImage == "" {
        return Some(NoPreviousImage);
      }
      if AsksConfirmation(deployment, container, image) {
        if !confirm {
          return Some(RollbackCancelled);
        }
      }
      var patchErr := k8s.UpdateContainerImage(deployment, container, previousImage, accepted);
      if patchErr.Some? {
        return Some(RollbackFailed(patchErr.value));
      }
      return None;
    }
  }
}
