/** Compose services turned into plans the engine can create: names, labels and
    replica counts (internal/compose/convert.go), and the configuration hash
    (internal/service/stack.go). */
module Compose {
  import opened Text
  import opened Sorting

  const LABEL_STACK := "com.iskele.stack"
  const LABEL_SERVICE := "com.iskele.service"
  const LABEL_REPLICA := "com.iskele.replica"
  const LABEL_MANAGED := "com.iskele.managed"
  const LABEL_PROJECT := "com.docker.compose.project"
  const LABEL_COMPOSE_SERVICE := "com.docker.compose.service"
  const LABEL_NUMBER := "com.docker.compose.container-number"
  const LABEL_HASH := "com.docker.compose.config-hash"

  type Labels = map<string, string>

  /** A container definition. `body` stands for the fields deploying does not read. */
  datatype Spec = Spec(name: string, image: string, labels: Labels, body: string)

  datatype ServicePlan =
    ServicePlan(name: string, replicas: int, spec: Spec, networks: seq<string>, dependsOn: set<string>)

  /** A parsed compose service. `buildImage` is the tag of a service that builds and
      `volumeTypes` lists the types of its volumes. */
  datatype ServiceConfig =
    ServiceConfig(name: string, image: string, buildImage: Option<string>, labels: Labels,
                  containerName: string, deployReplicas: Option<int>, scale: Option<int>,
                  networks: seq<string>, dependsOn: set<string>, volumeTypes: seq<string>, body: string)

  datatype Project = Project(name: string, services: map<string, ServiceConfig>)

  function ReplicasOf(s: ServiceConfig): int {
    if s.deployReplicas.Some? && s.deployReplicas.value > 0 then s.deployReplicas.value
    else if s.scale.Some? && s.scale.value > 0 then s.scale.value
    else 1
  }

  /** The service's own labels, then the ones that make it part of the stack. */
  function ConvertLabels(project: string, s: ServiceConfig): Labels {
    s.labels[LABEL_STACK := project]
            [LABEL_SERVICE := s.name]
            [LABEL_MANAGED := "true"]
            [LABEL_PROJECT := project]
            [LABEL_COMPOSE_SERVICE := s.name]
  }

  /** The volume types the engine is asked for; any other is an error. */
  predicate Supported(volumeType: string) {
    volumeType == "bind" || volumeType == "volume" || volumeType == "tmpfs"
  }

  function ConvertService(project: string, s: ServiceConfig): Option<ServicePlan> {
    var image := if s.image == "" && s.buildImage.Some? then s.buildImage.value else s.image;
    if image == "" || exists v | v in s.volumeTypes :: !Supported(v) then None
    else Some(ServicePlan(s.name, ReplicasOf(s),
                          Spec(s.containerName, image, ConvertLabels(project, s), s.body),
                          s.networks, s.dependsOn))
  }

  /** What one replica of a service is called. */
  function ContainerName(project: string, service: string, replica: nat): string {
    project + "-" + service + "-" + Itoa(replica)
  }

  predicate Pinned(p: ServicePlan) {
    p.spec.name != ""
  }

  function ReplicaName(stack: string, p: ServicePlan, replica: nat): string {
    if Pinned(p) then p.spec.name else ContainerName(stack, p.name, replica)
  }

  function WithoutHashLabels(labels: Labels): Labels {
    map k | k in labels && k != LABEL_HASH && k != LABEL_REPLICA && k != LABEL_NUMBER :: labels[k]
  }

  /** The hash is a digest of the definition without its name and derived labels.
      The digest itself (JSON, then SHA-256) is a parameter. */
  function ConfigHash(digest: Spec -> string, spec: Spec): string {
    digest(spec.(name := "", labels := WithoutHashLabels(spec.labels)))
  }

  function ReplicaLabels(labels: Labels, replica: nat, hash: string): Labels {
    labels[LABEL_REPLICA := Itoa(replica)][LABEL_NUMBER := Itoa(replica)][LABEL_HASH := hash]
  }

  predicate Derived(key: string) {
    key == LABEL_HASH || key == LABEL_REPLICA || key == LABEL_NUMBER
  }

  /** The same definition: everything but the name and the labels that tell one
      replica, or one deploy, from another. */
  ghost predicate SameDefinition(a: Spec, b: Spec) {
    && a.image == b.image && a.body == b.body
    && (forall k | !Derived(k) :: k in a.labels <==> k in b.labels)
    && (forall k | k in a.labels && k in b.labels && !Derived(k) :: a.labels[k] == b.labels[k])
  }

  ghost predicate Injective(digest: Spec -> string) {
    forall a, b | digest(a) == digest(b) :: a == b
  }

  /** Two definitions have the same hash if they are the same, and, unless the digest
      collides, only then. */
  lemma HashSees(digest: Spec -> string, a: Spec, b: Spec)
    ensures SameDefinition(a, b) ==> ConfigHash(digest, a) == ConfigHash(digest, b)
    ensures Injective(digest) && ConfigHash(digest, a) == ConfigHash(digest, b) ==> SameDefinition(a, b)
  {
    var x := a.(name := "", labels := WithoutHashLabels(a.labels));
    var y := b.(name := "", labels := WithoutHashLabels(b.labels));
    if SameDefinition(a, b) {
      assert x.labels == y.labels;
    }
    if x == y {
      forall k | !Derived(k) ensures k in a.labels <==> k in b.labels {
        assert k in x.labels <==> k in y.labels;
      }
      forall k | k in a.labels && k in b.labels && !Derived(k) ensures a.labels[k] == b.labels[k] {
        assert x.labels[k] == y.labels[k];
      }
    }
  }

  /** The hash of what createReplica creates is the hash of the plan it came from,
      whatever name, number and earlier hash the container carries. */
  lemma HashIgnoresReplica(digest: Spec -> string, spec: Spec, name: string, replica: nat, hash: string)
    ensures ConfigHash(digest, spec.(name := name, labels := ReplicaLabels(spec.labels, replica, hash)))
         == ConfigHash(digest, spec)
  {
    assert WithoutHashLabels(ReplicaLabels(spec.labels, replica, hash)) == WithoutHashLabels(spec.labels);
  }

  function StripDigits(s: string): string {
    if s != "" && IsDigit(s[|s| - 1]) then StripDigits(s[..|s| - 1]) else s
  }

  lemma {:induction false} StripsToDash(a: string, d: string)
    requires forall c | c in d :: IsDigit(c)
    ensures StripDigits(a + "-" + d) == a + "-"
  {
    if d != "" {
      var n := |d| - 1;
      assert IsDigit(d[n]);
      assert (a + "-" + d)[..|a| + 1 + n] == a + "-" + d[..n];
      StripsToDash(a, d[..n]);
    } else {
      assert a + "-" + d == a + "-";
    }
  }

  /** Text that ends in a dash and digits splits at its last dash only. */
  lemma LastDash(a: string, d: string, b: string, e: string)
    requires forall c | c in d :: IsDigit(c)
    requires forall c | c in e :: IsDigit(c)
    requires a + "-" + d == b + "-" + e
    ensures a == b && d == e
  {
    StripsToDash(a, d);
    StripsToDash(b, e);
    assert a == (a + "-")[..|a|] && b == (b + "-")[..|b|];
    assert d == (a + "-" + d)[|a| + 1..] && e == (b + "-" + e)[|b| + 1..];
  }

  /** Within one stack a container name determines its service and replica. */
  lemma ContainerNameInjective(project: string, s1: string, r1: nat, s2: string, r2: nat)
    requires ContainerName(project, s1, r1) == ContainerName(project, s2, r2)
    ensures s1 == s2 && r1 == r2
  {
    ItoaDigits(r1);
    ItoaDigits(r2);
    LastDash(project + "-" + s1, Itoa(r1), project + "-" + s2, Itoa(r2));
    assert s1 == (project + "-" + s1)[|project| + 1..];
    assert s2 == (project + "-" + s2)[|project| + 1..];
    ItoaInjective(r1, r2);
  }

  /** What deploying relies on: distinct service names, stack labels in place, and
      pinned names that no other replica of the stack uses. */
  ghost predicate PlanOk(stack: string, plans: seq<ServicePlan>) {
    && DistinctNames(plans)
    && (forall p | p in plans :: Labelled(stack, p))
    && PinnedApart(stack, plans)
  }

  predicate DistinctNames(plans: seq<ServicePlan>) {
    forall i, j | 0 <= i < j < |plans| :: plans[i].name != plans[j].name
  }

  ghost predicate PinnedApart(stack: string, plans: seq<ServicePlan>) {
    forall p, q, j: nat | p in plans && q in plans && p.name != q.name && Pinned(p) ::
      p.spec.name != ReplicaName(stack, q, j)
  }

  predicate Labelled(stack: string, p: ServicePlan) {
    && LABEL_PROJECT in p.spec.labels && p.spec.labels[LABEL_PROJECT] == stack
    && LABEL_SERVICE in p.spec.labels && p.spec.labels[LABEL_SERVICE] == p.name
  }

  /** Two services of a stack never claim the same container name. */
  lemma NamesApart(stack: string, plans: seq<ServicePlan>, p: ServicePlan, q: ServicePlan, i: nat, j: nat)
    requires PlanOk(stack, plans) && p in plans && q in plans && p.name != q.name
    ensures ReplicaName(stack, p, i) != ReplicaName(stack, q, j)
  {
    if !Pinned(p) && !Pinned(q) && ReplicaName(stack, p, i) == ReplicaName(stack, q, j) {
      ContainerNameInjective(stack, p.name, i, q.name, j);
    }
  }

  /** What compose-go's loader guarantees about a project. */
  predicate ProjectOk(project: Project) {
    && (forall k | k in project.services :: project.services[k].name == k)
    && (forall k | k in project.services ::
          project.services[k].containerName != "" ==> ReplicasOf(project.services[k]) == 1)
  }

  predicate Distinct<T(==)>(s: seq<T>) {
    forall i, j | 0 <= i < j < |s| :: s[i] != s[j]
  }

  function NamesOf(plans: seq<ServicePlan>): seq<string> {
    seq(|plans|, i requires 0 <= i < |plans| => plans[i].name)
  }

  /** A sub-sequence of `order` that keeps only declared services. */
  function Declared(project: Project, order: seq<string>): seq<string> {
    if order == [] then []
    else
      var n := |order| - 1;
      Declared(project, order[..n]) + (if order[n] in project.services then [order[n]] else [])
  }

  function TextOrder(): (string, string) -> bool {
    (a: string, b: string) => Less(a, b)
  }

  /** Every service of the project once, in the order of their names. */
  ghost predicate IsSortedNames(project: Project, names: seq<string>) {
    && (forall i, j | 0 <= i < j < |names| :: Less(names[i], names[j]))
    && (forall k :: k in names <==> k in project.services)
  }

  method SortedServiceNames(project: Project) returns (names: seq<string>)
    ensures IsSortedNames(project, names)
  {
    var out: seq<string> := [];
    var todo := project.services.Keys;
    while todo != {}
      invariant todo <= project.services.Keys && Distinct(out)
      invariant forall k :: k in out <==> k in project.services && k !in todo
      decreases todo
    {
      var k :| k in todo;
      todo := todo - {k};
      out := out + [k];
    }
    forall a: string, b: string ensures TextOrder()(a, b) ==> !TextOrder()(b, a) { LessWeak(a, b, a); }
    forall a: string, b: string, c: string ensures TextOrder()(a, c) ==> TextOrder()(a, b) || TextOrder()(b, c) {
      LessWeak(a, b, c);
    }
    names := SortBy(TextOrder(), out);
    SortSorts(TextOrder(), out);
    SameElements(names, out);
    forall i, j | 0 <= i < j < |names| ensures Less(names[i], names[j]) {
      if names[i] == names[j] {
        Twice(names, i, j);
        Once(out, names[i]);
      }
      LessTotal(names[i], names[j]);
    }
  }

  /** The walk of Convert: a plan per declared service in the given order, or in the
      order of names when none is given; nothing when some service has neither an
      image nor a build, or mounts a volume of a type that is not supported. */
  method Convert(project: Project, order: seq<string>) returns (r: Option<seq<ServicePlan>>)
    requires ProjectOk(project)
    ensures r.Some? <==> forall k | k in project.services && (order == [] || k in order) ::
                           ConvertService(project.name, project.services[k]).Some?
    ensures r.Some? ==>
              && (if order == [] then IsSortedNames(project, NamesOf(r.value))
                  else NamesOf(r.value) == Declared(project, order))
              && forall p | p in r.value ::
                   && p.name in project.services
                   && Some(p) == ConvertService(project.name, project.services[p.name])
  {
    if order != [] {
      r := ConvertAll(project, order);
      return;
    }
    var names := SortedServiceNames(project);
    DeclaredAll(project, names);
    r := ConvertAll(project, names);
  }

  lemma {:induction false} DeclaredAll(project: Project, names: seq<string>)
    requires forall k | k in names :: k in project.services
    ensures Declared(project, names) == names
    decreases |names|
  {
    if names != [] {
      var n := |names| - 1;
      DeclaredAll(project, names[..n]);
      assert names == names[..n] + [names[n]];
    }
  }

  method ConvertAll(project: Project, order: seq<string>) returns (r: Option<seq<ServicePlan>>)
    requires ProjectOk(project)
    ensures r.Some? <==> forall k | k in order && k in project.services ::
                           ConvertService(project.name, project.services[k]).Some?
    ensures r.Some? ==>
              && NamesOf(r.value) == Declared(project, order)
              && forall p | p in r.value ::
                   && p.name in project.services
                   && Some(p) == ConvertService(project.name, project.services[p.name])
  {
    var out: seq<ServicePlan> := [];
    for i := 0 to |order|
      invariant NamesOf(out) == Declared(project, order[..i])
      invariant forall k | k in order[..i] && k in project.services ::
          ConvertService(project.name, project.services[k]).Some?
      invariant forall p | p in out ::
          && p.name in project.services
          && Some(p) == ConvertService(project.name, project.services[p.name])
    {
      assert order[..i + 1][..i] == order[..i];
      if order[i] in project.services {
        var plan := ConvertService(project.name, project.services[order[i]]);
        if plan.None? { return None; }
        assert NamesOf(out + [plan.value]) == NamesOf(out) + [order[i]];
        out := out + [plan.value];
      }
    }
    assert order[..|order|] == order;
    r := Some(out);
  }

  /** Every dependency of a listed service is listed before it. */
  predicate DependenciesFirst(project: Project, order: seq<string>) {
    forall i, j | 0 <= i < |order| && 0 <= j < |order| ::
      order[j] in project.services && order[i] in project.services[order[j]].dependsOn ==> i < j
  }

  /** The walk keeps what compose-go's dependency order guarantees. */
  lemma {:induction false} WalkKeepsOrder(project: Project, order: seq<string>)
    requires Distinct(order) && DependenciesFirst(project, order)
    ensures var d := Declared(project, order);
            && Distinct(d) && DependenciesFirst(project, d)
            && forall k :: k in d <==> k in order && k in project.services
    decreases |order|
  {
    if order != [] {
      var n := |order| - 1;
      WalkKeepsOrder(project, order[..n]);
      var before := Declared(project, order[..n]);
      assert order == order[..n] + [order[n]];
      if order[n] in project.services {
        forall i | 0 <= i < |before|
          ensures before[i] != order[n] && order[n] !in project.services[before[i]].dependsOn
        {
          var a :| 0 <= a < n && order[a] == before[i];
        }
        assert order[n] !in project.services[order[n]].dependsOn;
      }
    }
  }

  predicate StackLabel(key: string) {
    key in {LABEL_STACK, LABEL_SERVICE, LABEL_MANAGED, LABEL_PROJECT, LABEL_COMPOSE_SERVICE}
  }

  /** What the file says about a service is what its plan says: the deploy section wins
      over the older scale, an image over the tag of a build, and the stack's labels
      over those of the file. */
  ghost predicate Follows(project: string, s: ServiceConfig, p: ServicePlan) {
    && p.name == s.name && p.spec.name == s.containerName && p.spec.body == s.body
    && p.networks == s.networks && p.dependsOn == s.dependsOn
    && p.replicas >= 1
    && (forall n | s.deployReplicas == Some(n) && n > 0 :: p.replicas == n)
    && (forall n | s.scale == Some(n) && n > 0 :: p.replicas == n || s.deployReplicas == Some(p.replicas))
    && (p.replicas == 1 || s.deployReplicas == Some(p.replicas) || s.scale == Some(p.replicas))
    && p.spec.image != "" && (p.spec.image == s.image || (s.image == "" && s.buildImage == Some(p.spec.image)))
    && (forall k | !StackLabel(k) :: k in p.spec.labels <==> k in s.labels)
    && (forall k | k in p.spec.labels && k in s.labels && !StackLabel(k) :: p.spec.labels[k] == s.labels[k])
    && (forall k | StackLabel(k) :: k in p.spec.labels && p.spec.labels[k] ==
          if k == LABEL_MANAGED then "true"
          else if k == LABEL_SERVICE || k == LABEL_COMPOSE_SERVICE then s.name else project)
  }

  /** A service has a plan exactly when it has an image or a build and only mounts what
      is supported. */
  lemma ConvertedService(project: string, s: ServiceConfig)
    ensures ConvertService(project, s).Some? <==>
              && (s.image != "" || exists tag :: s.buildImage == Some(tag) && tag != "")
              && forall v | v in s.volumeTypes :: v in {"bind", "volume", "tmpfs"}
    ensures ConvertService(project, s).Some? ==>
              var p := ConvertService(project, s).value;
              Follows(project, s, p) && Labelled(project, p) && (Pinned(p) <==> s.containerName != "")
  {
    assert |LABEL_SERVICE| != |LABEL_PROJECT| && |LABEL_SERVICE| != |LABEL_COMPOSE_SERVICE|;
    assert |LABEL_SERVICE| != |LABEL_STACK| && LABEL_SERVICE[11] != LABEL_MANAGED[11];
    assert LABEL_PROJECT[19] != LABEL_COMPOSE_SERVICE[19];
    assert |LABEL_MANAGED| != |LABEL_STACK| && |LABEL_MANAGED| != |LABEL_PROJECT|;
    assert |LABEL_MANAGED| != |LABEL_COMPOSE_SERVICE|;
  }

  /** Every dependency is planned before its dependents. */
  predicate PlannedInOrder(plans: seq<ServicePlan>) {
    forall i, j | 0 <= i < |plans| && 0 <= j < |plans| && plans[i].name in plans[j].dependsOn :: i < j
  }

  /** A converted project is deployable: labels are in place, service names
      distinct, dependencies first and pinned services single. */
  lemma ConvertedOk(project: Project, order: seq<string>, plans: seq<ServicePlan>)
    requires ProjectOk(project) && Distinct(order) && DependenciesFirst(project, order)
    requires NamesOf(plans) == Declared(project, order)
    requires forall p | p in plans :: p.name in project.services
                && Some(p) == ConvertService(project.name, project.services[p.name])
    requires PinnedApart(project.name, plans)
    ensures PlanOk(project.name, plans)
    ensures forall p | p in plans :: p.replicas >= 1 && (Pinned(p) ==> p.replicas == 1)
    ensures PlannedInOrder(plans)
  {
    WalkKeepsOrder(project, order);
    var names := NamesOf(plans);
    assert forall i | 0 <= i < |plans| :: names[i] == plans[i].name;
    forall p | p in plans
      ensures Labelled(project.name, p) && p.replicas >= 1 && (Pinned(p) ==> p.replicas == 1)
    {
      ConvertedService(project.name, project.services[p.name]);
    }
    forall i, j | 0 <= i < |plans| && 0 <= j < |plans| && plans[i].name in plans[j].dependsOn
      ensures i < j
    {
      assert plans[j] in plans && names[i] in project.services[names[j]].dependsOn;
    }
  }
}
