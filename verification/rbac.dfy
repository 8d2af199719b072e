/**
  The RBAC authorization engine of the API gateway's authentication plugin:
  a pattern matcher for single policy rules, a binding resolver that finds
  the roles bound to a user at cluster scope or in one namespace, and the
  evaluator that consults the cluster scope first and the namespace second.

  The informer caches the engine reads are replaced by a `Store` snapshot,
  and the `(bool, error)` pair it returns by a three-way `Decision`.
 */
module Rbac {
  import opened StringUtil

  /** v1.ResourceAll (also the API-group wildcard) and v1.VerbAll. */
  const ResourceAll := "*"
  const VerbAll := "*"
  /** v1.UserKind and v1.GroupKind, the two subject kinds the engine honours. */
  const UserKind := "User"
  const GroupKind := "Group"

  /** The fields of an RBAC v1.PolicyRule that the engine reads. */
  datatype PolicyRule = PolicyRule(
    verbs: seq<string>,
    apiGroups: seq<string>,
    resources: seq<string>,
    resourceNames: seq<string>,
    nonResourceURLs: seq<string>)

  /** A subject of a binding: its kind ("User", "Group", "ServiceAccount", ...) and name. */
  datatype Subject = Subject(kind: string, name: string)

  /** A RoleBinding or ClusterRoleBinding: its subjects and the name in its RoleRef. */
  datatype Binding = Binding(subjects: seq<Subject>, roleRef: string)

  /** The authenticated requester. */
  datatype UserInfo = UserInfo(name: string, groups: seq<string>)

  /** The authorizer attributes of one request. */
  datatype Attributes = Attributes(
    user: UserInfo,
    verb: string,
    isResourceRequest: bool,
    path: string,
    namespace: string,
    apiGroup: string,
    resource: string,
    subresource: string,
    name: string)

  /** A failed list of bindings, or a role reference that the role lister cannot find. */
  datatype Error = ListFailure(reason: string) | NotFound(roleName: string)

  /** What a binding lister answers. */
  datatype BindingList = Listed(bindings: seq<Binding>) | ListFailed(err: Error)

  /** The RoleBindings of one namespace and its Roles by name. */
  datatype NamespaceSnapshot = NamespaceSnapshot(roleBindings: BindingList, roles: map<string, seq<PolicyRule>>)

  /** A read-only view of the RBAC caches. */
  datatype Store = Store(
    clusterRoleBindings: BindingList,
    clusterRoles: map<string, seq<PolicyRule>>,
    namespaces: map<string, NamespaceSnapshot>)

  /** `permissionValidate`'s `(true, nil)`, `(false, nil)` and `(false, err)`. */
  datatype Decision = Permitted | NotPermitted | Failed(err: Error)

  // ---------------------------------------------------------------------
  // Pattern matcher
  // ---------------------------------------------------------------------

  /** The specifier a request names: `resource`, or `resource/subresource`. */
  function CombinedResource(resource: string, subresource: string): string {
    if subresource != "" then resource + "/" + subresource else resource
  }

  // One entry of `rule.Resources` against the requested resource: the wildcard,
  // the exact combined name, the "*/sub" form or the "res/*" form, the last two
  // compared after trimming with the cut sets "*/" and "/*".
  predicate SpecifierMatches(res: string, resource: string, subresource: string) {
    || res == ResourceAll
    || res == CombinedResource(resource, subresource)
    || (|subresource| > 0 && HasPrefix(res, "*/") && subresource == TrimLeft(res, "*/"))
    || (HasSuffix(res, "/*") && resource == TrimRight(res, "/*"))
  }

  /** The scan over `rule.Resources`, stopping at the first specifier that matches. */
  function AnySpecifierMatches(specs: seq<string>, resource: string, subresource: string): (r: bool)
    ensures r <==> exists i :: 0 <= i < |specs| && SpecifierMatches(specs[i], resource, subresource)
  {
    if specs == [] then false
    else if SpecifierMatches(specs[0], resource, subresource) then true
    else AnySpecifierMatches(specs[1..], resource, subresource)
  }

  /** `ruleMatchesResources`. */
  function RuleMatchesResources(rule: PolicyRule, apiGroup: string, resource: string,
                                subresource: string, resourceName: string): (r: bool)
    ensures r <==>
      && resource != ""
      && (apiGroup in rule.apiGroups || ResourceAll in rule.apiGroups)
      && (rule.resourceNames == [] || resourceName in rule.resourceNames)
      && exists i :: 0 <= i < |rule.resources| && SpecifierMatches(rule.resources[i], resource, subresource)
  {
    if resource == "" then false
    else if apiGroup !in rule.apiGroups && ResourceAll !in rule.apiGroups then false
    else if |rule.resourceNames| > 0 && resourceName !in rule.resourceNames then false
    else AnySpecifierMatches(rule.resources, resource, subresource)
  }

  /** `pathMatches`: the wildcard, the exact path, or a pattern ending in '*' whose
      text before its trailing stars is a prefix of the path. */
  predicate PathMatches(path: string, spec: string) {
    if spec == "*" then true
    else if spec == path then true
    else HasSuffix(spec, "*") && HasPrefix(path, TrimRight(spec, "*"))
  }

  /** The scan over `rule.NonResourceURLs`, stopping at the first pattern that matches. */
  function AnyPathMatches(specs: seq<string>, path: string): (r: bool)
    ensures r <==> exists i :: 0 <= i < |specs| && PathMatches(path, specs[i])
  {
    if specs == [] then false
    else if PathMatches(path, specs[0]) then true
    else AnyPathMatches(specs[1..], path)
  }

  /** `ruleMatchesNonResource`. */
  function RuleMatchesNonResource(rule: PolicyRule, nonResourceURL: string): (r: bool)
    ensures r <==> nonResourceURL != "" &&
                   exists i :: 0 <= i < |rule.nonResourceURLs| && PathMatches(nonResourceURL, rule.nonResourceURLs[i])
  {
    if nonResourceURL == "" then false
    else AnyPathMatches(rule.nonResourceURLs, nonResourceURL)
  }

  /** `ruleMatchesRequest`: the verb gate, then exactly one of the two matchers. */
  function RuleMatchesRequest(rule: PolicyRule, apiGroup: string, nonResourceURL: string, resource: string,
                              subresource: string, resourceName: string, verb: string): (r: bool)
    ensures verb !in rule.verbs && VerbAll !in rule.verbs ==> !r
    ensures nonResourceURL == "" ==>
      (r <==> (verb in rule.verbs || VerbAll in rule.verbs) &&
              RuleMatchesResources(rule, apiGroup, resource, subresource, resourceName))
    ensures nonResourceURL != "" ==>
      (r <==> (verb in rule.verbs || VerbAll in rule.verbs) && RuleMatchesNonResource(rule, nonResourceURL))
  {
    if verb !in rule.verbs && VerbAll !in rule.verbs then false
    else if nonResourceURL == "" then RuleMatchesResources(rule, apiGroup, resource, subresource, resourceName)
    else RuleMatchesNonResource(rule, nonResourceURL)
  }

  // ---------------------------------------------------------------------
  // Properties of the pattern matcher
  // ---------------------------------------------------------------------

  /** A rule whose verbs contain the wildcard passes the verb gate for every verb:
      the result is that of the matcher the request shape selects. */
  lemma WildcardVerbPassesGate(rule: PolicyRule, apiGroup: string, nonResourceURL: string, resource: string,
                               subresource: string, resourceName: string, verb: string)
    requires VerbAll in rule.verbs
    ensures RuleMatchesRequest(rule, apiGroup, nonResourceURL, resource, subresource, resourceName, verb) ==
            if nonResourceURL == "" then RuleMatchesResources(rule, apiGroup, resource, subresource, resourceName)
            else RuleMatchesNonResource(rule, nonResourceURL)
  {
  }

  /** A specifier with no '*' in it is compared as an exact string. */
  lemma PlainSpecifier(res: string, resource: string, subresource: string)
    requires '*' !in res
    ensures SpecifierMatches(res, resource, subresource) <==> res == CombinedResource(resource, subresource)
  {
  }

  // "x/*" grants resource x with any subresource, and also x with none at all;
  // besides that it matches only a request naming "x/*" literally.
  lemma ResourceWildcardSpecifier(x: string, resource: string, subresource: string)
    requires x != [] && x[0] != '*' && x[|x| - 1] !in "/*"
    ensures SpecifierMatches(x + "/*", resource, subresource) <==>
            resource == x || CombinedResource(resource, subresource) == x + "/*"
  {
    var res := x + "/*";
    TrimRightUnique(x, "/*", "/*");
    assert HasSuffix(res, "/*");
    assert !HasPrefix(res, "*/") by {
      assert res[0] == x[0];
    }
  }

  // "*/y" grants subresource y of every resource; besides that it matches only
  // a request naming "*/y" literally.
  lemma SubresourceWildcardSpecifier(y: string, resource: string, subresource: string)
    requires y != [] && y[0] !in "*/" && y[|y| - 1] != '*'
    ensures SpecifierMatches("*/" + y, resource, subresource) <==>
            subresource == y || CombinedResource(resource, subresource) == "*/" + y
  {
    var res := "*/" + y;
    TrimLeftUnique("*/", y, "*/");
    assert HasPrefix(res, "*/");
    assert !HasSuffix(res, "/*") by {
      assert res[|res| - 1] == y[|y| - 1];
    }
  }

  // Extra separators and stars after the leading "*" are absorbed by the cut-set
  // trim: "*" followed by any run of '*' and '/' that starts with "/" behaves like "*/".
  lemma SubresourceWildcardCutSet(run: string, y: string, resource: string)
    requires run != [] && run[0] == '/' && forall i :: 0 <= i < |run| ==> run[i] in "*/"
    requires y != [] && y[0] !in "*/"
    ensures SpecifierMatches("*" + run + y, resource, y)
  {
    var res := "*" + run + y;
    assert res == ("*" + run) + y;
    TrimLeftUnique("*" + run, y, "*/");
    assert res[..2] == "*/";
  }

  // A pattern ending in one or more '*' matches exactly the paths that start
  // with its text before the stars ("/api/*" and "/api/**" alike).
  lemma TrailingWildcardPath(prefix: string, stars: string, path: string)
    requires prefix == [] || prefix[|prefix| - 1] != '*'
    requires stars != [] && forall i :: 0 <= i < |stars| ==> stars[i] == '*'
    ensures PathMatches(path, prefix + stars) <==> HasPrefix(path, prefix)
  {
    var spec := prefix + stars;
    TrimRightUnique(prefix, stars, "*");
    if spec == "*" {
      assert |prefix| == 0;
    }
    assert HasSuffix(spec, "*") by {
      assert spec[|spec| - 1..] == [stars[|stars| - 1]];
    }
    if spec == path {
      assert path[..|prefix|] == prefix;
    }
  }

  /** A pattern with no '*' matches only the identical path. */
  lemma ExactPath(path: string, spec: string)
    requires '*' !in spec
    ensures PathMatches(path, spec) <==> path == spec
  {
  }

  // ---------------------------------------------------------------------
  // Binding resolver
  // ---------------------------------------------------------------------

  /** The arguments `ruleMatchesRequest` is called with, apart from the rule. */
  datatype MatchArgs = MatchArgs(
    apiGroup: string, nonResourceURL: string, resource: string,
    subresource: string, resourceName: string, verb: string)

  predicate RuleGrants(rule: PolicyRule, a: MatchArgs) {
    RuleMatchesRequest(rule, a.apiGroup, a.nonResourceURL, a.resource, a.subresource, a.resourceName, a.verb)
  }

  /** The loop over a role's rules, stopping at the first rule that grants. */
  function AnyRuleGrants(rules: seq<PolicyRule>, a: MatchArgs): (r: bool)
    ensures r <==> exists i :: 0 <= i < |rules| && RuleGrants(rules[i], a)
  {
    if rules == [] then false
    else if RuleGrants(rules[0], a) then true
    else AnyRuleGrants(rules[1..], a)
  }

  /** The subject names the user directly, or a group the user belongs to. Both
      scopes use this one membership test. */
  predicate SubjectApplies(subject: Subject, user: UserInfo) {
    || (subject.kind == UserKind && subject.name == user.name)
    || (subject.kind == GroupKind && subject.name in user.groups)
  }

  predicate BindingApplies(b: Binding, user: UserInfo) {
    exists i :: 0 <= i < |b.subjects| && SubjectApplies(b.subjects[i], user)
  }

  /** Fetching the referenced role and scanning its rules, done once a subject applies. */
  function RoleOutcome(roleRef: string, roles: map<string, seq<PolicyRule>>, a: MatchArgs): Decision {
    if roleRef !in roles then Failed(NotFound(roleRef))
    else if AnyRuleGrants(roles[roleRef], a) then Permitted
    else NotPermitted
  }

  /** The loop over one binding's subjects. The role is looked up again for each
      applicable subject, which always gives the same outcome, so the binding
      contributes its role's outcome if any subject applies and nothing otherwise. */
  function WalkSubjects(subjects: seq<Subject>, roleRef: string, user: UserInfo,
                        roles: map<string, seq<PolicyRule>>, a: MatchArgs): (d: Decision)
    ensures d == if exists i :: 0 <= i < |subjects| && SubjectApplies(subjects[i], user)
                 then RoleOutcome(roleRef, roles, a) else NotPermitted
  {
    if subjects == [] then NotPermitted
    else if !SubjectApplies(subjects[0], user) then WalkSubjects(subjects[1..], roleRef, user, roles, a)
    else match RoleOutcome(roleRef, roles, a)
      case NotPermitted => WalkSubjects(subjects[1..], roleRef, user, roles, a)
      case d => d
  }

  /** A binding that ends the walk: it applies, and its role is missing or grants. */
  predicate Decisive(b: Binding, user: UserInfo, roles: map<string, seq<PolicyRule>>, a: MatchArgs) {
    BindingApplies(b, user) && RoleOutcome(b.roleRef, roles, a) != NotPermitted
  }

  /** Some binding applies and its role exists and grants. */
  predicate ScopeGrant(bindings: seq<Binding>, user: UserInfo, roles: map<string, seq<PolicyRule>>, a: MatchArgs) {
    exists i :: 0 <= i < |bindings| && BindingApplies(bindings[i], user) &&
                bindings[i].roleRef in roles && AnyRuleGrants(roles[bindings[i].roleRef], a)
  }

  /** Some binding applies and references a role that is not there. */
  predicate ScopeDangling(bindings: seq<Binding>, user: UserInfo, roles: map<string, seq<PolicyRule>>) {
    exists i :: 0 <= i < |bindings| && BindingApplies(bindings[i], user) && bindings[i].roleRef !in roles
  }

  /** The loop over the bindings of one scope. */
  function WalkBindings(bindings: seq<Binding>, user: UserInfo,
                        roles: map<string, seq<PolicyRule>>, a: MatchArgs): (d: Decision)
    ensures d == Permitted ==> ScopeGrant(bindings, user, roles, a)
    ensures d.Failed? ==> ScopeDangling(bindings, user, roles) && d.err.NotFound?
    ensures d == NotPermitted <==> !ScopeGrant(bindings, user, roles, a) && !ScopeDangling(bindings, user, roles)
  {
    if bindings == [] then NotPermitted
    else
      var b := bindings[0];
      match WalkSubjects(b.subjects, b.roleRef, user, roles, a)
      case NotPermitted =>
        var d := WalkBindings(bindings[1..], user, roles, a);
        assert forall i :: 0 < i < |bindings| ==> bindings[i] == bindings[1..][i - 1];
        d
      case d => d
  }

  /** The walk's outcome is the outcome of the first decisive binding: a dangling
      role reference in an applicable binding is reported even when a later binding
      would grant, and a grant is returned even when a later binding dangles. */
  lemma {:induction false} FirstDecisiveBindingWins(bindings: seq<Binding>, user: UserInfo,
                                                    roles: map<string, seq<PolicyRule>>, a: MatchArgs, k: nat)
    requires k < |bindings| && Decisive(bindings[k], user, roles, a)
    requires forall j :: 0 <= j < k ==> !Decisive(bindings[j], user, roles, a)
    ensures WalkBindings(bindings, user, roles, a) == RoleOutcome(bindings[k].roleRef, roles, a)
  {
    if k > 0 {
      FirstDecisiveBindingWins(bindings[1..], user, roles, a, k - 1);
    }
  }

  /** A role that only inapplicable bindings reference is never looked up, so a
      dangling reference there is harmless. */
  lemma {:induction false} InapplicableBindingsAreSkipped(prefix: seq<Binding>, rest: seq<Binding>, user: UserInfo,
                                                          roles: map<string, seq<PolicyRule>>, a: MatchArgs)
    requires forall j :: 0 <= j < |prefix| ==> !BindingApplies(prefix[j], user)
    ensures WalkBindings(prefix + rest, user, roles, a) == WalkBindings(rest, user, roles, a)
  {
    if prefix != [] {
      assert (prefix + rest)[0] == prefix[0] && (prefix + rest)[1..] == prefix[1..] + rest;
      assert !BindingApplies(prefix[0], user);
      assert WalkSubjects(prefix[0].subjects, prefix[0].roleRef, user, roles, a) == NotPermitted;
      InapplicableBindingsAreSkipped(prefix[1..], rest, user, roles, a);
    } else {
      assert prefix + rest == rest;
    }
  }

  // ---------------------------------------------------------------------
  // Evaluator
  // ---------------------------------------------------------------------

  /** The cluster scope matches a resource request by its resource fields and a
      non-resource request by its path alone. */
  function ClusterArgs(attrs: Attributes): MatchArgs {
    if attrs.isResourceRequest
    then MatchArgs(attrs.apiGroup, "", attrs.resource, attrs.subresource, attrs.name, attrs.verb)
    else MatchArgs("", attrs.path, "", "", "", attrs.verb)
  }

  /** The namespace scope always uses the resource-shaped call. */
  function NamespaceArgs(attrs: Attributes): MatchArgs {
    MatchArgs(attrs.apiGroup, "", attrs.resource, attrs.subresource, attrs.name, attrs.verb)
  }

  /** The cache holds nothing for a namespace it has never seen: no bindings, no roles. */
  function NamespaceOf(store: Store, namespace: string): NamespaceSnapshot {
    if namespace in store.namespaces then store.namespaces[namespace]
    else NamespaceSnapshot(Listed([]), map[])
  }

  /** `clusterRoleValidate`. */
  function ClusterRoleValidate(store: Store, attrs: Attributes): (d: Decision)
    ensures store.clusterRoleBindings.ListFailed? ==> d == Failed(store.clusterRoleBindings.err)
    ensures d == Permitted ==>
      ScopeGrant(store.clusterRoleBindings.bindings, attrs.user, store.clusterRoles, ClusterArgs(attrs))
    ensures store.clusterRoleBindings.Listed? && d.Failed? ==>
      ScopeDangling(store.clusterRoleBindings.bindings, attrs.user, store.clusterRoles) && d.err.NotFound?
    ensures d == NotPermitted <==>
      && store.clusterRoleBindings.Listed?
      && !ScopeGrant(store.clusterRoleBindings.bindings, attrs.user, store.clusterRoles, ClusterArgs(attrs))
      && !ScopeDangling(store.clusterRoleBindings.bindings, attrs.user, store.clusterRoles)
  {
    match store.clusterRoleBindings
    case ListFailed(e) => Failed(e)
    case Listed(bindings) => WalkBindings(bindings, attrs.user, store.clusterRoles, ClusterArgs(attrs))
  }

  /** `roleValidate`. */
  function RoleValidate(store: Store, attrs: Attributes): (d: Decision)
    ensures var ns := NamespaceOf(store, attrs.namespace);
      && (ns.roleBindings.ListFailed? ==> d == Failed(ns.roleBindings.err))
      && (d == Permitted ==> ScopeGrant(ns.roleBindings.bindings, attrs.user, ns.roles, NamespaceArgs(attrs)))
      && (ns.roleBindings.Listed? && d.Failed? ==>
            ScopeDangling(ns.roleBindings.bindings, attrs.user, ns.roles) && d.err.NotFound?)
      && (d == NotPermitted <==>
            && ns.roleBindings.Listed?
            && !ScopeGrant(ns.roleBindings.bindings, attrs.user, ns.roles, NamespaceArgs(attrs))
            && !ScopeDangling(ns.roleBindings.bindings, attrs.user, ns.roles))
  {
    var ns := NamespaceOf(store, attrs.namespace);
    match ns.roleBindings
    case ListFailed(e) => Failed(e)
    case Listed(bindings) => WalkBindings(bindings, attrs.user, ns.roles, NamespaceArgs(attrs))
  }

  /** `permissionValidate`: the cluster scope decides unless it finds nothing; then
      a namespaced request asks its namespace. */
  function PermissionValidate(store: Store, attrs: Attributes): (d: Decision)
    ensures ClusterRoleValidate(store, attrs) == Permitted ==> d == Permitted
    ensures ClusterRoleValidate(store, attrs).Failed? ==> d == ClusterRoleValidate(store, attrs)
    ensures attrs.namespace == "" ==> d == ClusterRoleValidate(store, attrs)
    ensures ClusterRoleValidate(store, attrs) == NotPermitted && attrs.namespace != "" ==>
      d == RoleValidate(store, attrs)
    ensures d == Permitted ==>
      || ScopeGrant(store.clusterRoleBindings.bindings, attrs.user, store.clusterRoles, ClusterArgs(attrs))
      || (attrs.namespace != "" &&
          var ns := NamespaceOf(store, attrs.namespace);
          ns.roleBindings.Listed? && ScopeGrant(ns.roleBindings.bindings, attrs.user, ns.roles, NamespaceArgs(attrs)))
  {
    match ClusterRoleValidate(store, attrs)
    case Permitted => Permitted
    case Failed(e) => Failed(e)
    case NotPermitted =>
      if attrs.namespace != "" then RoleValidate(store, attrs) else NotPermitted
  }

  /** "Not permitted" is never a disguised lookup failure: it means both listings
      that were consulted succeeded, and no applicable binding in them grants the
      request or references a missing role. */
  lemma NotPermittedMeansNoGrant(store: Store, attrs: Attributes)
    requires PermissionValidate(store, attrs) == NotPermitted
    ensures store.clusterRoleBindings.Listed?
    ensures !ScopeGrant(store.clusterRoleBindings.bindings, attrs.user, store.clusterRoles, ClusterArgs(attrs))
    ensures !ScopeDangling(store.clusterRoleBindings.bindings, attrs.user, store.clusterRoles)
    ensures attrs.namespace != "" ==>
      var ns := NamespaceOf(store, attrs.namespace);
      && ns.roleBindings.Listed?
      && !ScopeGrant(ns.roleBindings.bindings, attrs.user, ns.roles, NamespaceArgs(attrs))
      && !ScopeDangling(ns.roleBindings.bindings, attrs.user, ns.roles)
  {
  }

  /** The converse at cluster scope: a listed grant with no dangling reference
      among the applicable bindings is always Permitted. */
  lemma ClusterGrantPermits(store: Store, attrs: Attributes)
    requires store.clusterRoleBindings.Listed?
    requires ScopeGrant(store.clusterRoleBindings.bindings, attrs.user, store.clusterRoles, ClusterArgs(attrs))
    requires !ScopeDangling(store.clusterRoleBindings.bindings, attrs.user, store.clusterRoles)
    ensures PermissionValidate(store, attrs) == Permitted
  {
  }

  /** The converse at namespace scope: when the cluster scope finds nothing, a
      namespaced request that a listed binding of its namespace grants, with no
      dangling reference there, is Permitted; and a failing RoleBinding list of
      that namespace is returned as the error. */
  lemma NamespaceScopeDecides(store: Store, attrs: Attributes)
    requires store.clusterRoleBindings.Listed?
    requires !ScopeGrant(store.clusterRoleBindings.bindings, attrs.user, store.clusterRoles, ClusterArgs(attrs))
    requires !ScopeDangling(store.clusterRoleBindings.bindings, attrs.user, store.clusterRoles)
    requires attrs.namespace != ""
    ensures var ns := NamespaceOf(store, attrs.namespace);
      && (ns.roleBindings.ListFailed? ==> PermissionValidate(store, attrs) == Failed(ns.roleBindings.err))
      && (ns.roleBindings.Listed? &&
          ScopeGrant(ns.roleBindings.bindings, attrs.user, ns.roles, NamespaceArgs(attrs)) &&
          !ScopeDangling(ns.roleBindings.bindings, attrs.user, ns.roles)
          ==> PermissionValidate(store, attrs) == Permitted)
  {
  }

  /** When the cluster scope decides, or the request is not namespaced, the
      namespace part of the store is never consulted. */
  lemma NamespaceScopeNotConsulted(s1: Store, s2: Store, attrs: Attributes)
    requires s1.clusterRoleBindings == s2.clusterRoleBindings && s1.clusterRoles == s2.clusterRoles
    requires ClusterRoleValidate(s1, attrs) != NotPermitted || attrs.namespace == ""
    ensures PermissionValidate(s1, attrs) == PermissionValidate(s2, attrs)
  {
  }

  /** A request for which the namespace scope is asked only with an empty resource
      (as a non-resource request is) is never granted by a namespaced Role. */
  lemma NamespaceScopeGrantsNoPaths(store: Store, attrs: Attributes)
    requires attrs.resource == ""
    ensures RoleValidate(store, attrs) != Permitted
  {
  }
}
