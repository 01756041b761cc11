/**
 * Endpoint discovery of pkg/client/client.go as pure functions: which pods
 * are representatives, and which (pod, port) pairs are forwarded for each.
 * The loops of the Go code that compute the same thing are the methods of
 * module KubeClient, each proved equal to the function here.
 */
module Discovery {

  /** The sentinel namespace name that means "every namespace". */
  const AllNamespaces: string := "All Namespaces"

  datatype Owner = Owner(kind: string, name: string)
  datatype Container = Container(name: string, ports: seq<int>)

  /** The fields of a v1.Pod that discovery reads; `deleting` is DeletionTimestamp != nil. */
  datatype Pod = Pod(name: string, namespace: string, phase: string, deleting: bool,
                     labels: map<string, string>, owners: seq<Owner>, containers: seq<Container>)

  /** A v1.Service: its selector and the integer value of each port's target port. */
  datatype Service = Service(name: string, namespace: string, selector: map<string, string>, targetPorts: seq<int>)

  datatype Kind = FromService | FromContainer

  /** A forwardable pair: pod, target port, and the resource that declared the port. */
  datatype Pair = Pair(pod: Pod, port: int, resource: string, kind: Kind)

  // ---------------------------------------------------------------------
  // Pod filter and representatives
  // ---------------------------------------------------------------------

  predicate Running(p: Pod) {
    p.phase == "Running" && !p.deleting
  }

  /** Under the sentinel, a pod of an individually active namespace is left to that namespace. */
  predicate SkippedByScope(namespace: string, active: seq<string>, p: Pod) {
    namespace == AllNamespaces && exists n :: n in active && n != namespace && n == p.namespace
  }

  predicate IsReplicaOwner(o: Owner) {
    o.kind == "StatefulSet" || o.kind == "ReplicaSet" || o.kind == "DaemonSet"
  }

  /**
   * The owner loop of one pod: claims the name of each replica owner in turn
   * and reports `true` (skip the pod) at the first name already claimed.
   * Names claimed before that point stay claimed.
   */
  function ClaimOwners(owners: seq<Owner>, claimed: seq<string>): (bool, seq<string>)
    decreases |owners|
  {
    if owners == [] then (false, claimed)
    else if IsReplicaOwner(owners[0]) then
      if owners[0].name in claimed then (true, claimed)
      else ClaimOwners(owners[1..], claimed + [owners[0].name])
    else ClaimOwners(owners[1..], claimed)
  }

  /** The names of the replica owners of a pod. */
  predicate OwnedBy(p: Pod, name: string) {
    exists o :: o in p.owners && IsReplicaOwner(o) && o.name == name
  }

  /** The pods the pod loop keeps, in list order, given the controller names already claimed. */
  function Representatives(pods: seq<Pod>, namespace: string, active: seq<string>, claimed: seq<string>): seq<Pod>
    decreases |pods|
  {
    if pods == [] then []
    else
      var p := pods[0];
      if SkippedByScope(namespace, active, p) || !Running(p) then
        Representatives(pods[1..], namespace, active, claimed)
      else
        var (skip, claimed') := ClaimOwners(p.owners, claimed);
        (if skip then [] else [p]) + Representatives(pods[1..], namespace, active, claimed')
  }

  /** What the pod loop makes of one pod: the representatives it adds (none or the pod) and the owners claimed after it. */
  function PodStep(p: Pod, namespace: string, active: seq<string>, claimed: seq<string>): (r: (seq<Pod>, seq<string>))
    ensures r.0 == [] || r.0 == [p]
  {
    if SkippedByScope(namespace, active, p) || !Running(p) then ([], claimed)
    else
      var (skip, claimed') := ClaimOwners(p.owners, claimed);
      (if skip then [] else [p], claimed')
  }

  lemma RepresentativesStep(pods: seq<Pod>, namespace: string, active: seq<string>, claimed: seq<string>)
    requires pods != []
    ensures var step := PodStep(pods[0], namespace, active, claimed);
      Representatives(pods, namespace, active, claimed) == step.0 + Representatives(pods[1..], namespace, active, step.1)
  {
  }

  lemma {:induction false} ClaimOwnersGrows(owners: seq<Owner>, claimed: seq<string>)
    ensures forall n :: n in claimed ==> n in ClaimOwners(owners, claimed).1
    ensures !ClaimOwners(owners, claimed).0 ==>
      forall o :: o in owners && IsReplicaOwner(o) ==> o.name !in claimed && o.name in ClaimOwners(owners, claimed).1
    decreases |owners|
  {
    if owners != [] {
      ClaimOwnersGrows(owners[1..], if IsReplicaOwner(owners[0]) then claimed + [owners[0].name] else claimed);
      assert forall o :: o in owners ==> o == owners[0] || o in owners[1..];
    }
  }

  /** Every representative is a running, in-scope pod of the list. */
  lemma {:induction false} RepresentativesAreEligible(pods: seq<Pod>, namespace: string, active: seq<string>, claimed: seq<string>)
    ensures forall p :: p in Representatives(pods, namespace, active, claimed) ==>
      p in pods && Running(p) && !SkippedByScope(namespace, active, p)
    decreases |pods|
  {
    if pods != [] {
      var p := pods[0];
      if SkippedByScope(namespace, active, p) || !Running(p) {
        RepresentativesAreEligible(pods[1..], namespace, active, claimed);
      } else {
        RepresentativesAreEligible(pods[1..], namespace, active, ClaimOwners(p.owners, claimed).1);
      }
    }
  }

  /** No representative is owned by a controller whose name was already claimed. */
  lemma {:induction false} RepresentativesAvoidClaimed(pods: seq<Pod>, namespace: string, active: seq<string>, claimed: seq<string>)
    ensures forall p, n :: p in Representatives(pods, namespace, active, claimed) && OwnedBy(p, n) ==> n !in claimed
    decreases |pods|
  {
    if pods != [] {
      var p := pods[0];
      if SkippedByScope(namespace, active, p) || !Running(p) {
        RepresentativesAvoidClaimed(pods[1..], namespace, active, claimed);
      } else {
        ClaimOwnersGrows(p.owners, claimed);
        RepresentativesAvoidClaimed(pods[1..], namespace, active, ClaimOwners(p.owners, claimed).1);
      }
    }
  }

  /** No two positions of `reps` share a replica owner name. */
  ghost predicate ControllersDistinct(reps: seq<Pod>) {
    forall i, j, n :: 0 <= i < j < |reps| && OwnedBy(reps[i], n) ==> !OwnedBy(reps[j], n)
  }

  /**
   * One pod per controller: two different positions of the representatives
   * never share a StatefulSet, ReplicaSet or DaemonSet owner name.
   */
  lemma {:induction false} OnePodPerController(pods: seq<Pod>, namespace: string, active: seq<string>, claimed: seq<string>)
    ensures ControllersDistinct(Representatives(pods, namespace, active, claimed))
    decreases |pods|
  {
    if pods != [] {
      var p := pods[0];
      var reps := Representatives(pods, namespace, active, claimed);
      if SkippedByScope(namespace, active, p) || !Running(p) {
        OnePodPerController(pods[1..], namespace, active, claimed);
        assert reps == Representatives(pods[1..], namespace, active, claimed);
      } else {
        var claimed' := ClaimOwners(p.owners, claimed).1;
        var rest := Representatives(pods[1..], namespace, active, claimed');
        OnePodPerController(pods[1..], namespace, active, claimed');
        if ClaimOwners(p.owners, claimed).0 {
          assert reps == rest;
        } else {
          assert reps == [p] + rest;
          ClaimOwnersGrows(p.owners, claimed);
          RepresentativesAvoidClaimed(pods[1..], namespace, active, claimed');
          forall i, j, n | 0 <= i < j < |reps| && OwnedBy(reps[i], n) ensures !OwnedBy(reps[j], n) {
            assert reps[j] == rest[j - 1];
            if i == 0 {
              var o :| o in p.owners && IsReplicaOwner(o) && o.name == n;
              assert n in claimed';
              assert rest[j - 1] in rest;
            } else {
              assert reps[i] == rest[i - 1];
              assert OwnedBy(rest[i - 1], n);
            }
          }
        }
      }
    }
  }

  /** A running, in-scope pod without a replica owner is always a representative. */
  lemma {:induction false} UnownedPodsKept(pods: seq<Pod>, namespace: string, active: seq<string>, claimed: seq<string>)
    ensures forall p ::
      (p in pods && Running(p) && !SkippedByScope(namespace, active, p) && forall o :: o in p.owners ==> !IsReplicaOwner(o))
      ==> p in Representatives(pods, namespace, active, claimed)
    decreases |pods|
  {
    if pods != [] {
      var p := pods[0];
      var claimed' := if SkippedByScope(namespace, active, p) || !Running(p) then claimed else ClaimOwners(p.owners, claimed).1;
      UnownedPodsKept(pods[1..], namespace, active, claimed');
      if Running(p) && !SkippedByScope(namespace, active, p) && (forall o :: o in p.owners ==> !IsReplicaOwner(o)) {
        NoReplicaOwnerNoSkip(p.owners, claimed);
      }
      assert forall q :: q in pods ==> q == p || q in pods[1..];
    }
  }

  lemma {:induction false} NoReplicaOwnerNoSkip(owners: seq<Owner>, claimed: seq<string>)
    requires forall o :: o in owners ==> !IsReplicaOwner(o)
    ensures !ClaimOwners(owners, claimed).0
    decreases |owners|
  {
    if owners != [] {
      NoReplicaOwnerNoSkip(owners[1..], claimed);
    }
  }

  /** The controller names claimed once the pod loop has gone through `pods`. */
  function ClaimedAfter(pods: seq<Pod>, namespace: string, active: seq<string>, claimed: seq<string>): seq<string>
    decreases |pods|
  {
    if pods == [] then claimed
    else ClaimedAfter(pods[1..], namespace, active, PodStep(pods[0], namespace, active, claimed).1)
  }

  /** No two replica owners of the list carry the same name. */
  predicate ReplicaNamesDistinct(owners: seq<Owner>) {
    forall j, k :: 0 <= j < k < |owners| && IsReplicaOwner(owners[j]) && IsReplicaOwner(owners[k]) ==>
      owners[j].name != owners[k].name
  }

  /** The owner loop does not skip a pod none of whose replica owner names is claimed yet. */
  lemma {:induction false} ClaimOwnersNoSkip(owners: seq<Owner>, claimed: seq<string>)
    requires forall o :: o in owners && IsReplicaOwner(o) ==> o.name !in claimed
    requires ReplicaNamesDistinct(owners)
    ensures !ClaimOwners(owners, claimed).0
    decreases |owners|
  {
    if owners != [] {
      var claimed' := if IsReplicaOwner(owners[0]) then claimed + [owners[0].name] else claimed;
      forall o | o in owners[1..] && IsReplicaOwner(o) ensures o.name !in claimed' {
        var k :| 0 <= k < |owners[1..]| && owners[1..][k] == o;
        assert owners[k + 1] == o;
      }
      ClaimOwnersNoSkip(owners[1..], claimed');
    }
  }

  /**
   * The converse of RepresentativesAvoidClaimed: a running, in-scope pod
   * none of whose replica owner names was claimed before its turn (and
   * which does not name one controller twice) is a representative.
   */
  lemma {:induction false} FirstOfControllerKept(pods: seq<Pod>, namespace: string, active: seq<string>, claimed: seq<string>, i: int)
    requires 0 <= i < |pods| && Running(pods[i]) && !SkippedByScope(namespace, active, pods[i])
    requires forall n :: OwnedBy(pods[i], n) ==> n !in ClaimedAfter(pods[..i], namespace, active, claimed)
    requires ReplicaNamesDistinct(pods[i].owners)
    ensures pods[i] in Representatives(pods, namespace, active, claimed)
    decreases i
  {
    var step := PodStep(pods[0], namespace, active, claimed);
    RepresentativesStep(pods, namespace, active, claimed);
    if i == 0 {
      var p := pods[0];
      forall o | o in p.owners && IsReplicaOwner(o) ensures o.name !in claimed {
        assert OwnedBy(p, o.name);
      }
      ClaimOwnersNoSkip(p.owners, claimed);
    } else {
      assert pods[..i][1..] == pods[1..][..i - 1];
      assert pods[1..][i - 1] == pods[i];
      FirstOfControllerKept(pods[1..], namespace, active, step.1, i - 1);
    }
  }

  /** Three replicas of one ReplicaSet give one representative: the first. */
  lemma ThreeReplicasOneRepresentative(a: Pod, b: Pod, c: Pod)
    requires Running(a) && Running(b) && Running(c)
    requires a.owners == b.owners == c.owners == [Owner("ReplicaSet", "web-5d8f")]
    ensures Representatives([a, b, c], "default", [], []) == [a]
  {
    assert [a, b, c][1..] == [b, c] && [b, c][1..] == [c] && [c][1..] == [];
    var rs := Owner("ReplicaSet", "web-5d8f");
    assert IsReplicaOwner(rs);
    assert [rs][1..] == [];
    assert [] + [rs.name] == ["web-5d8f"];
    assert ClaimOwners([rs], []) == ClaimOwners([], ["web-5d8f"]) == (false, ["web-5d8f"]);
    assert ClaimOwners([rs], ["web-5d8f"]) == (true, ["web-5d8f"]);
    assert Representatives([c], "default", [], ["web-5d8f"]) == [];
    assert Representatives([b, c], "default", [], ["web-5d8f"]) == [];
  }

  // ---------------------------------------------------------------------
  // Selector matching
  // ---------------------------------------------------------------------

  /** pod.Labels[k]: a missing label reads as "". */
  function Label(p: Pod, k: string): string {
    if k in p.labels then p.labels[k] else []
  }

  /** A service selects a pod iff every selector pair matches its labels (an empty selector selects every pod). */
  predicate Selects(svc: Service, p: Pod) {
    forall k :: k in svc.selector ==> Label(p, k) == svc.selector[k]
  }

  /**
   * The label count of zero equals the size of an empty selector, so a
   * service without a selector selects every pod; and a selector value ""
   * is met by a pod that lacks the label.
   */
  lemma EmptySelectorSelectsAll(svc: Service, p: Pod, k: string)
    ensures svc.selector == map[] ==> Selects(svc, p)
    ensures svc.selector == map[k := ""] && k !in p.labels ==> Selects(svc, p)
  {
  }

  // ---------------------------------------------------------------------
  // Ports of one pod
  // ---------------------------------------------------------------------

  function PortsOf(pairs: seq<Pair>): seq<int> {
    seq(|pairs|, i requires 0 <= i < |pairs| => pairs[i].port)
  }

  /** The port loop of one service: emits each target port not yet handled. */
  function PortPairs(svc: Service, p: Pod, ports: seq<int>, acc: seq<Pair>): seq<Pair>
    decreases |ports|
  {
    if ports == [] then acc
    else
      var acc' := if ports[0] in PortsOf(acc) then acc else acc + [Pair(p, ports[0], svc.name, FromService)];
      PortPairs(svc, p, ports[1..], acc')
  }

  /** handleServicesInPod from `acc` on: the selecting services, in order, emit their unhandled target ports. */
  function ServicePairsFrom(services: seq<Service>, p: Pod, acc: seq<Pair>): seq<Pair>
    decreases |services|
  {
    if services == [] then acc
    else
      var acc' := if Selects(services[0], p) then PortPairs(services[0], p, services[0].targetPorts, acc) else acc;
      ServicePairsFrom(services[1..], p, acc')
  }

  function ServicePairs(services: seq<Service>, p: Pod): seq<Pair> {
    ServicePairsFrom(services, p, [])
  }

  /** handleContainerPortsInPod: every container port not in `handled`, duplicates included. */
  function ContainerPairs(containers: seq<Container>, p: Pod, handled: seq<int>): seq<Pair>
    decreases |containers|
  {
    if containers == [] then []
    else ContainerPortPairs(containers[0], p, containers[0].ports, handled)
         + ContainerPairs(containers[1..], p, handled)
  }

  function ContainerPortPairs(c: Container, p: Pod, ports: seq<int>, handled: seq<int>): seq<Pair>
    decreases |ports|
  {
    if ports == [] then []
    else (if ports[0] in handled then [] else [Pair(p, ports[0], c.name, FromContainer)])
         + ContainerPortPairs(c, p, ports[1..], handled)
  }

  /** Every pair emitted for one pod: service ports first, then the container ports they leave. */
  function PodPairs(services: seq<Service>, p: Pod): seq<Pair> {
    var sp := ServicePairs(services, p);
    sp + ContainerPairs(p.containers, p, PortsOf(sp))
  }

  /** Discovery: the pairs of every representative, in pod order. */
  function Discover(pods: seq<Pod>, services: seq<Service>, namespace: string, active: seq<string>): seq<Pair> {
    PairsOfPods(Representatives(pods, namespace, active, []), services)
  }

  function PairsOfPods(reps: seq<Pod>, services: seq<Service>): seq<Pair>
    decreases |reps|
  {
    if reps == [] then [] else PodPairs(services, reps[0]) + PairsOfPods(reps[1..], services)
  }

  /** The pairs of a pod loop turn (none or one representative) come before those of the later turns. */
  lemma PairsOfPodsTurn(turn: seq<Pod>, rest: seq<Pod>, services: seq<Service>)
    requires |turn| <= 1
    ensures PairsOfPods(turn + rest, services) == PairsOfPods(turn, services) + PairsOfPods(rest, services)
  {
    if turn == [] {
      assert turn + rest == rest;
    } else {
      assert (turn + rest)[1..] == rest && turn[1..] == [];
    }
  }

  // ---------------------------------------------------------------------
  // Properties of the port selection
  // ---------------------------------------------------------------------

  ghost predicate DistinctPorts(pairs: seq<Pair>) {
    forall i, j :: 0 <= i < j < |pairs| ==> pairs[i].port != pairs[j].port
  }

  lemma PortsOfAppend(acc: seq<Pair>, q: Pair)
    ensures PortsOf(acc + [q]) == PortsOf(acc) + [q.port]
  {
  }

  /** A port of a prefix is a port of the whole. */
  lemma PortOfPrefix(a: seq<Pair>, r: seq<Pair>, x: int)
    requires |a| <= |r| && r[..|a|] == a && x in PortsOf(a)
    ensures x in PortsOf(r)
  {
    var k :| 0 <= k < |a| && PortsOf(a)[k] == x;
    assert r[..|a|][k] == a[k];
    assert PortsOf(r)[k] == x;
  }

  /** Appending a pair whose port is new keeps the ports distinct. */
  lemma DistinctAppend(acc: seq<Pair>, q: Pair)
    requires DistinctPorts(acc) && q.port !in PortsOf(acc)
    ensures DistinctPorts(acc + [q])
  {
    PortsOfAppend(acc, q);
    var acc' := acc + [q];
    forall i, j | 0 <= i < j < |acc'| ensures acc'[i].port != acc'[j].port {
      if j == |acc| {
        assert acc'[i].port == PortsOf(acc)[i];
      }
    }
  }

  lemma PortsOfConcat(a: seq<Pair>, b: seq<Pair>)
    ensures PortsOf(a + b) == PortsOf(a) + PortsOf(b)
  {
  }

  /** A service's port loop: keeps `acc`, adds only unhandled ports, and handles every port of the service. */
  lemma {:induction false} PortPairsSpec(svc: Service, p: Pod, ports: seq<int>, acc: seq<Pair>)
    ensures var r := PortPairs(svc, p, ports, acc);
      && |acc| <= |r| && r[..|acc|] == acc
      && (DistinctPorts(acc) ==> DistinctPorts(r))
      && (forall x :: x in ports ==> x in PortsOf(r))
      && (forall i :: |acc| <= i < |r| ==> r[i] == Pair(p, r[i].port, svc.name, FromService) && r[i].port in ports)
    decreases |ports|
  {
    if ports != [] {
      var x := ports[0];
      var acc' := if x in PortsOf(acc) then acc else acc + [Pair(p, x, svc.name, FromService)];
      PortPairsSpec(svc, p, ports[1..], acc');
      var r := PortPairs(svc, p, ports, acc);
      assert r == PortPairs(svc, p, ports[1..], acc');
      if x !in PortsOf(acc) {
        PortsOfAppend(acc, Pair(p, x, svc.name, FromService));
        if DistinctPorts(acc) {
          DistinctAppend(acc, Pair(p, x, svc.name, FromService));
        }
      }
      assert x in PortsOf(acc') by {
        if x !in PortsOf(acc) {
          assert PortsOf(acc')[|acc|] == x;
        }
      }
      PortOfPrefix(acc', r, x);
      assert forall y :: y in ports ==> y == x || y in ports[1..];
      assert r[..|acc'|][..|acc|] == r[..|acc|];
    }
  }

  /**
   * handleServicesInPod: the ports emitted are distinct, every target port of
   * every selecting service is emitted, and each emitted pair names a
   * selecting service that declares its port.
   */
  lemma {:induction false} ServicePairsFromSpec(services: seq<Service>, p: Pod, acc: seq<Pair>)
    ensures var r := ServicePairsFrom(services, p, acc);
      && |acc| <= |r| && r[..|acc|] == acc
      && (DistinctPorts(acc) ==> DistinctPorts(r))
      && (forall svc, x :: svc in services && Selects(svc, p) && x in svc.targetPorts ==> x in PortsOf(r))
      && (forall i :: |acc| <= i < |r| ==>
            (r[i].pod == p && r[i].kind == FromService
             && exists svc :: svc in services && Selects(svc, p) && svc.name == r[i].resource && r[i].port in svc.targetPorts))
    decreases |services|
  {
    if services != [] {
      var svc := services[0];
      var acc' := if Selects(svc, p) then PortPairs(svc, p, svc.targetPorts, acc) else acc;
      if Selects(svc, p) {
        PortPairsSpec(svc, p, svc.targetPorts, acc);
      }
      ServicePairsFromSpec(services[1..], p, acc');
      var r := ServicePairsFrom(services, p, acc);
      assert r == ServicePairsFrom(services[1..], p, acc');
      assert r[..|acc'|][..|acc|] == r[..|acc|];
      forall s2, x | s2 in services && Selects(s2, p) && x in s2.targetPorts ensures x in PortsOf(r) {
        if s2 == svc && s2 !in services[1..] {
          PortOfPrefix(acc', r, x);
        } else {
          assert s2 in services[1..];
        }
      }
      forall i | |acc| <= i < |r|
        ensures r[i].pod == p && r[i].kind == FromService
          && exists s2 :: s2 in services && Selects(s2, p) && s2.name == r[i].resource && r[i].port in s2.targetPorts
      {
        if i < |acc'| {
          assert r[..|acc'|][i] == acc'[i];
          assert svc in services;
        } else {
          var s2 :| s2 in services[1..] && Selects(s2, p) && s2.name == r[i].resource && r[i].port in s2.targetPorts;
          assert s2 in services;
        }
      }
    }
  }

  lemma ServicePairsSpec(services: seq<Service>, p: Pod)
    ensures DistinctPorts(ServicePairs(services, p))
    ensures forall svc, x :: svc in services && Selects(svc, p) && x in svc.targetPorts ==> x in PortsOf(ServicePairs(services, p))
    ensures forall i :: 0 <= i < |ServicePairs(services, p)| ==>
              (ServicePairs(services, p)[i].pod == p && ServicePairs(services, p)[i].kind == FromService
               && exists svc :: svc in services && Selects(svc, p) && svc.name == ServicePairs(services, p)[i].resource
                                && ServicePairs(services, p)[i].port in svc.targetPorts)
  {
    var none: seq<Pair> := [];
    ServicePairsFromSpec(services, p, none);
    var r := ServicePairs(services, p);
    assert r == ServicePairsFrom(services, p, none);
    assert DistinctPorts(none);
    forall i | 0 <= i < |r|
      ensures r[i].pod == p && r[i].kind == FromService
        && exists svc :: svc in services && Selects(svc, p) && svc.name == r[i].resource && r[i].port in svc.targetPorts
    {
      assert |none| <= i < |r|;
    }
  }

  /** The container ports of `containers`, in order, that are not in `handled`, duplicates included. */
  function UnhandledPorts(containers: seq<Container>, handled: seq<int>): seq<int>
    decreases |containers|
  {
    if containers == [] then [] else Unhandled(containers[0].ports, handled) + UnhandledPorts(containers[1..], handled)
  }

  function Unhandled(ports: seq<int>, handled: seq<int>): seq<int>
    decreases |ports|
  {
    if ports == [] then [] else (if ports[0] in handled then [] else [ports[0]]) + Unhandled(ports[1..], handled)
  }

  lemma {:induction false} ContainerPortPairsSpec(c: Container, p: Pod, ports: seq<int>, handled: seq<int>)
    ensures PortsOf(ContainerPortPairs(c, p, ports, handled)) == Unhandled(ports, handled)
    ensures forall q :: q in ContainerPortPairs(c, p, ports, handled) ==> q == Pair(p, q.port, c.name, FromContainer)
    decreases |ports|
  {
    if ports != [] {
      ContainerPortPairsSpec(c, p, ports[1..], handled);
      var head := if ports[0] in handled then [] else [Pair(p, ports[0], c.name, FromContainer)];
      PortsOfConcat(head, ContainerPortPairs(c, p, ports[1..], handled));
    }
  }

  /**
   * handleContainerPortsInPod: exactly the container ports not handled by a
   * service, in order and with their duplicates, each attributed to its container.
   */
  lemma {:induction false} ContainerPairsSpec(containers: seq<Container>, p: Pod, handled: seq<int>)
    ensures PortsOf(ContainerPairs(containers, p, handled)) == UnhandledPorts(containers, handled)
    ensures forall q :: q in ContainerPairs(containers, p, handled) ==>
      q.pod == p && q.kind == FromContainer && q.port !in handled
      && exists c :: c in containers && c.name == q.resource && q.port in c.ports
    decreases |containers|
  {
    if containers != [] {
      var c := containers[0];
      ContainerPortPairsSpec(c, p, c.ports, handled);
      ContainerPairsSpec(containers[1..], p, handled);
      PortsOfConcat(ContainerPortPairs(c, p, c.ports, handled), ContainerPairs(containers[1..], p, handled));
      forall q | q in ContainerPairs(containers, p, handled)
        ensures q.pod == p && q.kind == FromContainer && q.port !in handled
          && exists c' :: c' in containers && c'.name == q.resource && q.port in c'.ports
      {
        if q in ContainerPortPairs(c, p, c.ports, handled) {
          UnhandledMembers(c.ports, handled);
          var k :| 0 <= k < |ContainerPortPairs(c, p, c.ports, handled)| && ContainerPortPairs(c, p, c.ports, handled)[k] == q;
          assert PortsOf(ContainerPortPairs(c, p, c.ports, handled))[k] == q.port;
          assert q.port in Unhandled(c.ports, handled);
          assert c in containers;
        } else {
          var c' :| c' in containers[1..] && c'.name == q.resource && q.port in c'.ports;
          assert c' in containers;
        }
      }
    }
  }

  lemma {:induction false} UnhandledMembers(ports: seq<int>, handled: seq<int>)
    ensures forall x :: x in Unhandled(ports, handled) <==> x in ports && x !in handled
    decreases |ports|
  {
    if ports != [] {
      UnhandledMembers(ports[1..], handled);
      assert forall x :: x in ports <==> x == ports[0] || x in ports[1..];
    }
  }

  /** A container that lists the same port twice is forwarded twice: container ports are not deduplicated. */
  lemma ContainerDuplicatesKept(p: Pod)
    requires p.containers == [Container("app", [8080, 8080])]
    ensures PortsOf(ContainerPairs(p.containers, p, [])) == [8080, 8080]
  {
    ContainerPairsSpec(p.containers, p, []);
    var ports := [8080, 8080];
    assert ports[1..] == [8080] && ports[1..][1..] == [];
    assert Unhandled(ports, []) == [8080, 8080];
    assert p.containers[1..] == [];
  }

  /**
   * Service ports take priority: a port declared by a selecting service is
   * emitted exactly once for the pod, and that once from the service.
   */
  lemma ServicePortWins(services: seq<Service>, p: Pod, port: int)
    requires exists svc :: svc in services && Selects(svc, p) && port in svc.targetPorts
    ensures var pp := PodPairs(services, p);
      exists i :: 0 <= i < |pp| && pp[i].port == port && pp[i].kind == FromService
        && forall j :: 0 <= j < |pp| && j != i ==> pp[j].port != port
  {
    var sp := ServicePairs(services, p);
    var cp := ContainerPairs(p.containers, p, PortsOf(sp));
    var pp := PodPairs(services, p);
    ServicePairsSpec(services, p);
    ContainerPairsSpec(p.containers, p, PortsOf(sp));
    assert port in PortsOf(sp);
    var i :| 0 <= i < |sp| && PortsOf(sp)[i] == port;
    assert pp == sp + cp;
    assert pp[i] == sp[i];
    assert pp[i].port == port && pp[i].kind == FromService;
    forall j | 0 <= j < |pp| && j != i ensures pp[j].port != port {
      if j < |sp| {
        assert pp[j] == sp[j];
      } else {
        assert pp[j] == cp[j - |sp|];
        assert cp[j - |sp|] in cp;
      }
    }
  }

  /**
   * The scenario of pod "web-0" labelled app=web, service "web-svc" selecting
   * app=web on port 8080, and a container declaring 9090: two pairs, 8080
   * from the service and 9090 from the container.
   */
  lemma WebScenario(p: Pod, svc: Service)
    requires p.labels == map["app" := "web"] && p.containers == [Container("web-0", [9090])]
    requires svc == Service("web-svc", p.namespace, map["app" := "web"], [8080])
    ensures PodPairs([svc], p) == [Pair(p, 8080, "web-svc", FromService), Pair(p, 9090, "web-0", FromContainer)]
  {
    assert Selects(svc, p);
    var q := Pair(p, 8080, "web-svc", FromService);
    assert [svc][1..] == [] && [8080][1..] == [];
    assert PortPairs(svc, p, [8080], []) == PortPairs(svc, p, [], [q]) == [q];
    assert ServicePairsFrom([svc], p, []) == ServicePairsFrom([], p, [q]) == [q];
    assert PortsOf([q]) == [8080];
    assert [9090][1..] == [] && p.containers[1..] == [];
    assert ContainerPairs(p.containers, p, [8080]) == [Pair(p, 9090, "web-0", FromContainer)];
  }

  /** Every discovered pair belongs to a representative pod and is one of its pod pairs. */
  lemma {:induction false} DiscoveredPairs(reps: seq<Pod>, services: seq<Service>)
    ensures forall q :: q in PairsOfPods(reps, services) <==> exists r :: r in reps && q in PodPairs(services, r)
    decreases |reps|
  {
    if reps != [] {
      DiscoveredPairs(reps[1..], services);
      assert forall r :: r in reps <==> r == reps[0] || r in reps[1..];
    }
  }

  /** Every discovered pair is for a running, in-scope pod of the listing. */
  lemma DiscoverEligible(pods: seq<Pod>, services: seq<Service>, namespace: string, active: seq<string>)
    ensures forall q :: q in Discover(pods, services, namespace, active) ==>
      q.pod in pods && Running(q.pod) && !SkippedByScope(namespace, active, q.pod)
  {
    var reps := Representatives(pods, namespace, active, []);
    DiscoveredPairs(reps, services);
    RepresentativesAreEligible(pods, namespace, active, []);
    forall q | q in Discover(pods, services, namespace, active)
      ensures q.pod in pods && Running(q.pod) && !SkippedByScope(namespace, active, q.pod)
    {
      var r :| r in reps && q in PodPairs(services, r);
      var sp := ServicePairs(services, r);
      ServicePairsSpec(services, r);
      ContainerPairsSpec(r.containers, r, PortsOf(sp));
      assert q in sp || q in ContainerPairs(r.containers, r, PortsOf(sp));
      if q in sp {
        var k :| 0 <= k < |sp| && sp[k] == q;
      }
    }
  }
}
