/**
 * The Kubernetes side of pkg/k8s/k8s.go: container lookups in a deployment's
 * pod template, the image patch, the readiness decision and the watch loop.
 * The cluster is represented by the container lists of its deployments'
 * templates; replica counts and pods are handed to each readiness check.
 */
module K8s {
  import opened Base

  /** A container of a pod template. */
  datatype Container = Container(name: string, image: string)

  /** `k8s.ContainerInfo`: a container and its position in the template. */
  datatype ContainerInfo = ContainerInfo(name: string, image: string, index: nat)

  /** The replica counts `CheckDeploymentReadiness` compares. */
  datatype ReplicaCounts = ReplicaCounts(desired: int, ready: int, updated: int)

  /** A container status: restarts so far and, when waiting, the reason. */
  datatype ContainerStatus = ContainerStatus(name: string, restartCount: int, waiting: Option<string>)

  /** A pod of the deployment (the pods labelled `app=<deployment>`). */
  datatype Pod = Pod(name: string, phase: string, statuses: seq<ContainerStatus>)

  /** The errors of the Kubernetes layer. */
  datatype K8sError =
    | GetDeploymentFailed(deployment: string)
    | ContainerNotFound(container: string, deployment: string)
    | PatchFailed
    | ApiFailed(reason: string)
    | PodFailed(pod: string)
    | RestartingTooOften(container: string, pod: string)
    | ContainerProblem(container: string, pod: string, reason: string)
    | WatchTimedOut(timeout: int)

  // ---------------------------------------------------------------------------
  // Template lookups and the image patch

  /** The image of the first container named `name`, if any. */
  function FirstImage(cs: seq<Container>, name: string): (img: Option<string>)
    ensures img.None? <==> forall i :: 0 <= i < |cs| ==> cs[i].name != name
    ensures img.Some? ==> exists i :: 0 <= i < |cs| && cs[i].name == name && cs[i].image == img.value
                                      && forall k :: 0 <= k < i ==> cs[k].name != name
  {
    if cs == [] then None
    else if cs[0].name == name then Some(cs[0].image)
    else
      var rest := FirstImage(cs[1..], name);
      assert forall i :: 1 <= i < |cs| ==> cs[i] == cs[1..][i - 1];
      rest
  }

  /**
   * The template after the strategic merge patch `{name, image}` on the
   * containers list, whose merge key is the name: every container called
   * `name` gets `image`; when there is none, the container is added.
   */
  function Patched(cs: seq<Container>, name: string, image: string): (ps: seq<Container>)
  {
    if forall i :: 0 <= i < |cs| ==> cs[i].name != name then cs + [Container(name, image)]
    else seq(|cs|, i requires 0 <= i < |cs| => if cs[i].name == name then Container(name, image) else cs[i])
  }

  /** Kubernetes keeps container names unique within a template. */
  ghost predicate UniqueNames(cs: seq<Container>)
  {
    forall i, j :: 0 <= i < j < |cs| ==> cs[i].name != cs[j].name
  }

  /** After a patch, the container's image is the patched one. */
  lemma PatchedImage(cs: seq<Container>, name: string, image: string)
    ensures FirstImage(Patched(cs, name, image), name) == Some(image)
  {
    var ps := Patched(cs, name, image);
    if FirstImage(cs, name).Some? {
      var i :| 0 <= i < |cs| && cs[i].name == name && cs[i].image == FirstImage(cs, name).value
               && forall k :: 0 <= k < i ==> cs[k].name != name;
      FirstImageAt(ps, name, i);
    } else {
      FirstImageAt(ps, name, |cs|);
    }
  }

  /** A patch leaves every other container as it was. */
  lemma PatchedOthers(cs: seq<Container>, name: string, image: string, other: string)
    requires other != name
    ensures FirstImage(Patched(cs, name, image), other) == FirstImage(cs, other)
  {
    var ps := Patched(cs, name, image);
    assert forall k :: 0 <= k < |cs| ==> (ps[k].name == other <==> cs[k].name == other);
    if FirstImage(cs, other).Some? {
      var i :| 0 <= i < |cs| && cs[i].name == other && cs[i].image == FirstImage(cs, other).value
               && forall k :: 0 <= k < i ==> cs[k].name != other;
      assert ps[i] == cs[i];
      FirstImageAt(ps, other, i);
    }
  }

  /** The first container named `name` sits at `i`. */
  lemma FirstImageAt(cs: seq<Container>, name: string, i: nat)
    requires i < |cs| && cs[i].name == name && forall k :: 0 <= k < i ==> cs[k].name != name
    ensures FirstImage(cs, name) == Some(cs[i].image)
  {
    var img := FirstImage(cs, name);
    var j :| 0 <= j < |cs| && cs[j].name == name && cs[j].image == img.value && forall k :: 0 <= k < j ==> cs[k].name != name;
    assert j == i;
  }

  /**
   * Rolling back: patching a container back to the image it had restores the
   * template, whatever image was patched in between.
   */
  lemma PatchBackRestores(cs: seq<Container>, name: string, image: string, previous: string)
    requires UniqueNames(cs)
    requires FirstImage(cs, name) == Some(previous)
    ensures Patched(Patched(cs, name, image), name, previous) == cs
  {
    var i :| 0 <= i < |cs| && cs[i].name == name && cs[i].image == previous && forall k :: 0 <= k < i ==> cs[k].name != name;
    var ps := Patched(cs, name, image);
    assert ps[i].name == name;
    var back := Patched(ps, name, previous);
    assert |back| == |cs|;
    forall k | 0 <= k < |cs|
      ensures back[k] == cs[k]
    {
      if cs[k].name == name {
        assert k == i;
      }
    }
  }

  /** `k8s.Client`: the deployments it can see, by name, with their template containers. */
  class Client {
    var templates: map<string, seq<Container>>

    constructor (templates: map<string, seq<Container>>)
      ensures this.templates == templates
    {
      this.templates := templates;
    }

    /** `GetContainers`: every container of the template with its position. */
    method GetContainers(deployment: string) returns (r: Result<seq<ContainerInfo>, K8sError>)
      ensures deployment !in templates ==> r == Err(GetDeploymentFailed(deployment))
      ensures deployment in templates ==> r.Ok? && |r.value| == |templates[deployment]|
      ensures r.Ok? ==> forall i :: 0 <= i < |r.value| ==>
                r.value[i] == ContainerInfo(templates[deployment][i].name, templates[deployment][i].image, i)
    {
      if deployment !in templates {
        return Err(GetDeploymentFailed(deployment));
      }
      var cs := templates[deployment];
      var containers: seq<ContainerInfo> := [];
      for i := 0 to |cs|
        invariant |containers| == i
        invariant forall k :: 0 <= k < i ==> containers[k] == ContainerInfo(cs[k].name, cs[k].image, k)
      {
        containers := containers + [ContainerInfo(cs[i].name, cs[i].image, i)];
      }
      return Ok(containers);
    }

    /** `GetCurrentImage`: the image of the first container with that name. */
    function GetCurrentImage(deployment: string, container: string): (r: Result<string, K8sError>)
      reads this
      ensures deployment !in templates ==> r == Err(GetDeploymentFailed(deployment))
      ensures deployment in templates ==>
        (r.Ok? <==> exists i :: 0 <= i < |templates[deployment]| && templates[deployment][i].name == container)
      ensures deployment in templates && r.Err? ==> r.error == ContainerNotFound(container, deployment)
      ensures r.Ok? ==> FirstImage(templates[deployment], container) == Some(r.value)
    {
      if deployment !in templates then Err(GetDeploymentFailed(deployment))
      else match FirstImage(templates[deployment], container)
        case Some(image) => Ok(image)
        case None => Err(ContainerNotFound(container, deployment))
    }

    /**
     * `UpdateContainerImage`. `accepted` says whether the API server accepts
     * the patch; a deployment it does not know always fails.
     */
    method UpdateContainerImage(deployment: string, container: string, image: string, accepted: bool)
      returns (err: Option<K8sError>)
      modifies this
      ensures err.None? <==> deployment in old(templates) && accepted
      ensures err.Some? ==> err.value == PatchFailed && templates == old(templates)
      ensures err.None? ==> templates == old(templates)[deployment := Patched(old(templates)[deployment], container, image)]
    {
      if deployment !in templates || !accepted {
        return Some(PatchFailed);
      }
      templates := templates[deployment := Patched(templates[deployment], container, image)];
      return None;
    }
  }

  // ---------------------------------------------------------------------------
  // Readiness

  /** The waiting reasons that count as a failure. */
  predicate BadWaitingReason(reason: string)
  {
    reason == "ImagePullBackOff" || reason == "CrashLoopBackOff" || reason == "ErrImagePull"
  }

  /** The failure signal of one container status, if any: restarts are checked first. */
  function StatusProblem(pod: string, s: ContainerStatus): (e: Option<K8sError>)
    ensures e.None? <==> s.restartCount <= 3 && (s.waiting.Some? ==> !BadWaitingReason(s.waiting.value))
  {
    if s.restartCount > 3 then Some(RestartingTooOften(s.name, pod))
    else if s.waiting.Some? && BadWaitingReason(s.waiting.value) then Some(ContainerProblem(s.name, pod, s.waiting.value))
    else None
  }

  /** The failure signal of a pod: its phase, then its container statuses in order. */
  function PodProblem(p: Pod): (e: Option<K8sError>)
    ensures e.Some? ==> e.value.PodFailed? || e.value.RestartingTooOften? || e.value.ContainerProblem?
    ensures p.phase == "Failed" ==> e == Some(PodFailed(p.name))
  {
    if p.phase == "Failed" then Some(PodFailed(p.name)) else FirstStatusProblem(p.name, p.statuses)
  }

  function FirstStatusProblem(pod: string, ss: seq<ContainerStatus>): (e: Option<K8sError>)
    ensures e.Some? ==> e.value.RestartingTooOften? || e.value.ContainerProblem?
  {
    if ss == [] then None
    else if StatusProblem(pod, ss[0]).Some? then StatusProblem(pod, ss[0])
    else FirstStatusProblem(pod, ss[1..])
  }

  /** The first failure signal among `pods`, scanning pods and their statuses in order. */
  function FirstPodProblem(pods: seq<Pod>): (e: Option<K8sError>)
    ensures e.Some? ==> e.value.PodFailed? || e.value.RestartingTooOften? || e.value.ContainerProblem?
  {
    if pods == [] then None
    else if PodProblem(pods[0]).Some? then PodProblem(pods[0])
    else FirstPodProblem(pods[1..])
  }

  /** A pod without any failure signal. */
  ghost predicate Healthy(p: Pod)
  {
    p.phase != "Failed" && forall j :: 0 <= j < |p.statuses| ==> StatusProblem(p.name, p.statuses[j]).None?
  }

  lemma {:induction false} FirstStatusProblemNone(pod: string, ss: seq<ContainerStatus>)
    ensures FirstStatusProblem(pod, ss).None? <==> forall j :: 0 <= j < |ss| ==> StatusProblem(pod, ss[j]).None?
  {
    if ss != [] {
      FirstStatusProblemNone(pod, ss[1..]);
      assert forall j :: 1 <= j < |ss| ==> ss[j] == ss[1..][j - 1];
    }
  }

  /**
   * The scan reports the signal of the first unhealthy pod, whatever the pods
   * after it show; it reports nothing exactly when every pod is healthy.
   */
  lemma {:induction false} FirstPodProblemSpec(pods: seq<Pod>)
    ensures FirstPodProblem(pods).None? <==> forall i :: 0 <= i < |pods| ==> Healthy(pods[i])
    ensures forall i :: 0 <= i < |pods| && !Healthy(pods[i]) && (forall k :: 0 <= k < i ==> Healthy(pods[k])) ==>
              FirstPodProblem(pods) == PodProblem(pods[i])
  {
    if pods != [] {
      FirstPodProblemSpec(pods[1..]);
      FirstStatusProblemNone(pods[0].name, pods[0].statuses);
      assert forall i :: 1 <= i < |pods| ==> pods[i] == pods[1..][i - 1];
    }
  }

  /**
   * `CheckDeploymentReadiness`, given what the API server returns for the
   * deployment and for the pod list (`Err` carries the API error).
   */
  function CheckDeploymentReadiness(deployment: Result<ReplicaCounts, string>, pods: Result<seq<Pod>, string>)
    : (r: Result<bool, K8sError>)
    ensures r == Ok(true) <==> deployment.Ok? && deployment.value.ready == deployment.value.desired
                                 && deployment.value.updated == deployment.value.desired
    ensures r.Err? ==> r.error.ApiFailed? || r.error.PodFailed? || r.error.RestartingTooOften? || r.error.ContainerProblem?
  {
    if deployment.Err? then Err(ApiFailed(deployment.error))
    else
      var d := deployment.value;
      if d.ready == d.desired && d.updated == d.desired then Ok(true)
      else if pods.Err? then Err(ApiFailed(pods.error))
      else match FirstPodProblem(pods.value)
        case Some(e) => Err(e)
        case None => Ok(false)
  }

  /**
   * The pods only matter while the rollout is incomplete: ready means ready
   * whatever the pods show; otherwise the check reports the first unhealthy
   * pod's signal, or "not ready yet" when every pod is healthy.
   */
  lemma ReadinessSpec(d: ReplicaCounts, pods: seq<Pod>, listFailure: string)
    ensures d.ready == d.desired && d.updated == d.desired ==>
              CheckDeploymentReadiness(Ok(d), Ok(pods)) == Ok(true)
              && CheckDeploymentReadiness(Ok(d), Err(listFailure)) == Ok(true)
    ensures (d.ready != d.desired || d.updated != d.desired) && (forall i :: 0 <= i < |pods| ==> Healthy(pods[i])) ==>
              CheckDeploymentReadiness(Ok(d), Ok(pods)) == Ok(false)
    ensures forall i :: (d.ready != d.desired || d.updated != d.desired) && 0 <= i < |pods| && !Healthy(pods[i])
                        && (forall k :: 0 <= k < i ==> Healthy(pods[k])) ==>
              PodProblem(pods[i]).Some? && CheckDeploymentReadiness(Ok(d), Ok(pods)) == Err(PodProblem(pods[i]).value)
  {
    FirstPodProblemSpec(pods);
    forall i | 0 <= i < |pods| && !Healthy(pods[i])
      ensures PodProblem(pods[i]).Some?
    {
      FirstStatusProblemNone(pods[i].name, pods[i].statuses);
    }
  }

  /** The thresholds: three restarts are tolerated, four are not; only three waiting reasons fail. */
  lemma StatusThresholds(pod: string, name: string, reason: string)
    ensures StatusProblem(pod, ContainerStatus(name, 3, None)).None?
    ensures StatusProblem(pod, ContainerStatus(name, 4, None)) == Some(RestartingTooOften(name, pod))
    ensures StatusProblem(pod, ContainerStatus(name, 0, Some(reason))).Some? <==>
              reason in {"ImagePullBackOff", "CrashLoopBackOff", "ErrImagePull"}
  {
  }

  // ---------------------------------------------------------------------------
  // The watch loop

  /**
   * What happens next while watching: the ticker fires and the check sees
   * these API answers, or the timeout fires.
   */
  datatype Event = Tick(deployment: Result<ReplicaCounts, string>, pods: Result<seq<Pod>, string>) | TimedOut

  /** An event that ends the watch: the timeout, or a check that is not "not ready yet". */
  predicate Settles(e: Event)
  {
    e.TimedOut? || CheckDeploymentReadiness(e.deployment, e.pods) != Ok(false)
  }

  /** The result of the watch when `e` ends it (`None` is success). */
  function Verdict(e: Event, timeout: int): Option<K8sError>
  {
    if e.TimedOut? then Some(WatchTimedOut(timeout))
    else match CheckDeploymentReadiness(e.deployment, e.pods)
      case Ok(_) => None
      case Err(err) => Some(err)
  }

  /**
   * The outcome of watching through `events`: the verdict of the first event
   * that settles. A stream that ends without one counts as the timeout.
   */
  function WatchResult(events: seq<Event>, timeout: int): Option<K8sError>
  {
    if events == [] then Some(WatchTimedOut(timeout))
    else if Settles(events[0]) then Verdict(events[0], timeout)
    else WatchResult(events[1..], timeout)
  }

  /** `WatchResult` is the verdict of the first settling event. */
  lemma {:induction false} FirstSettlingDecides(events: seq<Event>, timeout: int, i: nat)
    requires i < |events| && Settles(events[i]) && forall k :: 0 <= k < i ==> !Settles(events[k])
    ensures WatchResult(events, timeout) == Verdict(events[i], timeout)
  {
    if i > 0 {
      assert !Settles(events[0]);
      assert forall k :: 0 <= k < i - 1 ==> events[1..][k] == events[k + 1];
      FirstSettlingDecides(events[1..], timeout, i - 1);
    }
  }

  /**
   * `WatchDeployment`: handle events in order until one settles. The timer
   * always fires eventually, so some event is the timeout.
   */
  method WatchDeployment(timeout: int, events: seq<Event>) returns (err: Option<K8sError>)
    requires exists i :: 0 <= i < |events| && events[i].TimedOut?
    ensures exists i :: 0 <= i < |events| && Settles(events[i]) && (forall k :: 0 <= k < i ==> !Settles(events[k]))
                        && err == Verdict(events[i], timeout)
    ensures err == WatchResult(events, timeout)
  {
    ghost var t :| 0 <= t < |events| && events[t].TimedOut?;
    var i := 0;
    while true
      invariant 0 <= i <= t
      invariant forall k :: 0 <= k < i ==> !Settles(events[k])
      decreases t - i
    {
      match events[i]
      case TimedOut =>
        FirstSettlingDecides(events, timeout, i);
        return Some(WatchTimedOut(timeout));
      case Tick(deployment, pods) =>
        var ready := CheckDeploymentReadiness(deployment, pods);
        if ready.Err? {
          FirstSettlingDecides(events, timeout, i);
          return Some(ready.error);
        }
        if ready.value {
          FirstSettlingDecides(events, timeout, i);
          return None;
        }
      i := i + 1;
    }
  }

  /**
   * The watch succeeds only through a tick whose check found the deployment
   * ready, and fails with the timeout only when no earlier tick settled.
   */
  lemma WatchOutcomes(events: seq<Event>, timeout: int, i: nat)
    requires i < |events| && Settles(events[i]) && forall k :: 0 <= k < i ==> !Settles(events[k])
    ensures Verdict(events[i], timeout).None? <==>
              events[i].Tick? && CheckDeploymentReadiness(events[i].deployment, events[i].pods) == Ok(true)
    ensures Verdict(events[i], timeout) == Some(WatchTimedOut(timeout)) <==> events[i].TimedOut?
    ensures forall k :: 0 <= k < i ==> events[k].Tick? && CheckDeploymentReadiness(events[k].deployment, events[k].pods) == Ok(false)
  {
  }

  /** Events after the settling one are never looked at. */
  lemma LaterEventsIrrelevant(events: seq<Event>, later: seq<Event>, i: nat, j: nat)
    requires i < |events| && Settles(events[i]) && forall k :: 0 <= k < i ==> !Settles(events[k])
    requires j < |events + later| && Settles((events + later)[j]) && forall k :: 0 <= k < j ==> !Settles((events + later)[k])
    ensures i == j
  {
    assert forall k :: 0 <= k < |events| ==> (events + later)[k] == events[k];
  }
}
