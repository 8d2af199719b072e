/**
  What the RBAC model answers for concrete requests, rules and stores, stated
  and proved: the documented examples of the engine's behaviour, and its edge cases.
 */
module RbacScenarios {
  import opened StringUtil
  import opened Rbac

  /** A rule granting `verbs` on `resources` of the core API group. */
  function CoreRule(verbs: seq<string>, resources: seq<string>): PolicyRule {
    PolicyRule(verbs, [""], resources, [], [])
  }

  /** A rule granting `verbs` on the non-resource URL patterns `urls`. */
  function PathRule(verbs: seq<string>, urls: seq<string>): PolicyRule {
    PolicyRule(verbs, [], [], [], urls)
  }

  /** A namespaced resource request in the core API group. */
  function PodRequest(user: UserInfo, verb: string, namespace: string): Attributes {
    Attributes(user, verb, true, "/api/v1/namespaces/" + namespace + "/pods",
               namespace, "", "pods", "", "")
  }

  /** Verb matching is exact membership: "get" does not grant "list". */
  lemma GetDoesNotGrantList(resources: seq<string>)
    ensures !RuleMatchesRequest(CoreRule(["get"], resources), "", "", "pods", "", "", "list")
  {
  }

  // "pods/*" grants every subresource of pods, bare "pods" too, and nothing of deployments.
  lemma PodsSubresourceWildcard()
    ensures SpecifierMatches("pods/*", "pods", "log")
    ensures SpecifierMatches("pods/*", "pods", "status")
    ensures SpecifierMatches("pods/*", "pods", "")
    ensures !SpecifierMatches("pods/*", "deployments", "log")
  {
    assert "pods/*" == "pods" + "/*";
    ResourceWildcardSpecifier("pods", "pods", "log");
    ResourceWildcardSpecifier("pods", "pods", "status");
    ResourceWildcardSpecifier("pods", "pods", "");
    ResourceWildcardSpecifier("pods", "deployments", "log");
    assert CombinedResource("deployments", "log") == "deployments/log";
    assert "deployments/log"[0] != "pods/*"[0];
  }

  // "*/scale" grants the scale subresource of any resource and nothing else.
  lemma ScaleOfAnyResource()
    ensures SpecifierMatches("*/scale", "deployments", "scale")
    ensures SpecifierMatches("*/scale", "pods", "scale")
    ensures !SpecifierMatches("*/scale", "deployments", "log")
  {
    assert "*/scale" == "*/" + "scale";
    SubresourceWildcardSpecifier("scale", "deployments", "scale");
    SubresourceWildcardSpecifier("scale", "pods", "scale");
    SubresourceWildcardSpecifier("scale", "deployments", "log");
    assert CombinedResource("deployments", "log") == "deployments/log";
    assert "deployments/log"[0] != "*/scale"[0];
  }

  // The cut-set trim lets "*//scale" stand for "*/scale".
  lemma DoubledSeparatorStillMatches()
    ensures SpecifierMatches("*//scale", "deployments", "scale")
  {
    assert "*//scale" == "*" + "//" + "scale";
    SubresourceWildcardCutSet("//", "scale", "deployments");
  }

  /** A resource-name list ["foo"] admits "foo" and rejects "bar"; an empty list admits both. */
  lemma ResourceNameRestriction()
    ensures RuleMatchesResources(PolicyRule(["get"], [""], ["pods"], ["foo"], []), "", "pods", "", "foo")
    ensures !RuleMatchesResources(PolicyRule(["get"], [""], ["pods"], ["foo"], []), "", "pods", "", "bar")
    ensures RuleMatchesResources(PolicyRule(["get"], [""], ["pods"], [], []), "", "pods", "", "bar")
  {
    assert SpecifierMatches(["pods"][0], "pods", "");
  }

  // "/api/*" grants paths under "/api/"; "/healthz" grants only "/healthz".
  lemma NonResourcePatterns()
    ensures PathMatches("/api/v1/pods", "/api/*")
    ensures PathMatches("/healthz", "/healthz")
    ensures !PathMatches("/healthz/ready", "/healthz")
  {
    assert "/api/*" == "/api/" + "*";
    TrailingWildcardPath("/api/", "*", "/api/v1/pods");
    assert "/api/v1/pods"[..5] == "/api/";
    ExactPath("/healthz/ready", "/healthz");
  }

  /** A ClusterRoleBinding to group "admins" grants a member of that group
      whatever the user's own name is. */
  lemma GroupBindingGrants(userName: string)
    ensures var store := Store(Listed([Binding([Subject(GroupKind, "admins")], "admin")]),
                               map["admin" := [CoreRule([VerbAll], [ResourceAll])]], map[]);
            PermissionValidate(store, PodRequest(UserInfo(userName, ["admins"]), "delete", "ns1")) == Permitted
  {
    var store := Store(Listed([Binding([Subject(GroupKind, "admins")], "admin")]),
                       map["admin" := [CoreRule([VerbAll], [ResourceAll])]], map[]);
    var attrs := PodRequest(UserInfo(userName, ["admins"]), "delete", "ns1");
    var b := store.clusterRoleBindings.bindings[0];
    assert SubjectApplies(b.subjects[0], attrs.user);
    assert SpecifierMatches(ResourceAll, "pods", "");
    assert RuleGrants(store.clusterRoles["admin"][0], ClusterArgs(attrs));
    FirstDecisiveBindingWins(store.clusterRoleBindings.bindings, attrs.user, store.clusterRoles, ClusterArgs(attrs), 0);
  }

  /** The store of the end-to-end example: no cluster binding applies to alice,
      and namespace ns1 binds group "dev" to role "pod-reader". */
  function AliceStore(): Store {
    Store(Listed([Binding([Subject(UserKind, "bob")], "cluster-admin")]),
          map["cluster-admin" := [CoreRule([VerbAll], [ResourceAll])]],
          map["ns1" := NamespaceSnapshot(Listed([Binding([Subject(GroupKind, "dev")], "pod-reader")]),
                                         map["pod-reader" := [CoreRule(["get"], ["pods"])]])])
  }

  function Alice(): UserInfo {
    UserInfo("alice", ["dev"])
  }

  /** Alice may get pods in ns1 through her group's namespaced role. */
  lemma AliceMayGetPods()
    ensures PermissionValidate(AliceStore(), PodRequest(Alice(), "get", "ns1")) == Permitted
  {
    var store, attrs := AliceStore(), PodRequest(Alice(), "get", "ns1");
    assert !SubjectApplies(Subject(UserKind, "bob"), attrs.user);
    assert ClusterRoleValidate(store, attrs) == NotPermitted;
    var ns := NamespaceOf(store, "ns1");
    assert SubjectApplies(ns.roleBindings.bindings[0].subjects[0], attrs.user);
    assert SpecifierMatches("pods", "pods", "");
    assert RuleGrants(ns.roles["pod-reader"][0], NamespaceArgs(attrs));
    FirstDecisiveBindingWins(ns.roleBindings.bindings, attrs.user, ns.roles, NamespaceArgs(attrs), 0);
  }

  /** Alice may not delete them, and that is an answer, not an error. */
  lemma AliceMayNotDeletePods()
    ensures PermissionValidate(AliceStore(), PodRequest(Alice(), "delete", "ns1")) == NotPermitted
  {
    var store, attrs := AliceStore(), PodRequest(Alice(), "delete", "ns1");
    assert !SubjectApplies(Subject(UserKind, "bob"), attrs.user);
    assert ClusterRoleValidate(store, attrs) == NotPermitted;
    var ns := NamespaceOf(store, "ns1");
    assert !RuleGrants(ns.roles["pod-reader"][0], NamespaceArgs(attrs));
    assert RoleOutcome("pod-reader", ns.roles, NamespaceArgs(attrs)) == NotPermitted;
  }

  /** An applicable binding to a missing role is an error, even though a later
      binding would grant the request. */
  lemma DanglingRoleBeatsLaterGrant()
    ensures var store := Store(Listed([Binding([Subject(UserKind, "alice")], "gone"),
                                       Binding([Subject(UserKind, "alice")], "admin")]),
                               map["admin" := [CoreRule([VerbAll], [ResourceAll])]], map[]);
            PermissionValidate(store, PodRequest(Alice(), "get", "ns1")) == Failed(NotFound("gone"))
  {
    var store := Store(Listed([Binding([Subject(UserKind, "alice")], "gone"),
                               Binding([Subject(UserKind, "alice")], "admin")]),
                       map["admin" := [CoreRule([VerbAll], [ResourceAll])]], map[]);
    var attrs := PodRequest(Alice(), "get", "ns1");
    assert SubjectApplies(store.clusterRoleBindings.bindings[0].subjects[0], attrs.user);
    FirstDecisiveBindingWins(store.clusterRoleBindings.bindings, attrs.user, store.clusterRoles, ClusterArgs(attrs), 0);
  }

  /** A non-resource request is matched by its path at cluster scope. */
  lemma HealthzThroughClusterRole(user: UserInfo)
    ensures var store := Store(Listed([Binding([Subject(UserKind, user.name)], "probe")]),
                               map["probe" := [PathRule(["get"], ["/healthz"])]], map[]);
            PermissionValidate(store, Attributes(user, "get", false, "/healthz", "", "", "", "", "")) == Permitted
  {
    var store := Store(Listed([Binding([Subject(UserKind, user.name)], "probe")]),
                       map["probe" := [PathRule(["get"], ["/healthz"])]], map[]);
    var attrs := Attributes(user, "get", false, "/healthz", "", "", "", "", "");
    assert SubjectApplies(store.clusterRoleBindings.bindings[0].subjects[0], attrs.user);
    assert PathMatches("/healthz", ["/healthz"][0]);
    assert RuleGrants(store.clusterRoles["probe"][0], ClusterArgs(attrs));
    FirstDecisiveBindingWins(store.clusterRoleBindings.bindings, attrs.user, store.clusterRoles, ClusterArgs(attrs), 0);
  }

  /** A failing binding list is an error, never a denial. */
  lemma ListFailureIsAnError(attrs: Attributes, reason: string)
    ensures PermissionValidate(Store(ListFailed(ListFailure(reason)), map[], map[]), attrs) == Failed(ListFailure(reason))
  {
  }
}
