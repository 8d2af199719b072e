# RBAC authorization engine and DaemonSet searcher, modelled in Dafny

This project models two parts of the KubeSphere API server.

**The RBAC authorization engine of the API gateway's authentication plugin**
(`pkg/apigateway/caddy-plugin/authentication/authentication.go`), in module `Rbac` (`rbac.dfy`). It has three layers:

- **Pattern matcher.** It decides whether one RBAC `PolicyRule` grants a verb. The target is either an
  API-group/resource/subresource/name tuple or a raw URL path.
- **Binding resolver.** It walks the ClusterRoleBindings, or the RoleBindings of one namespace. It keeps
  the bindings whose subjects name the user, directly or through one of the user's groups. It then
  looks up the referenced role and scans its rules.
- **Evaluator.** It asks the cluster scope first. It asks the namespace scope only for a namespaced
  request the cluster scope did not decide.

The engine is pure, so every loop in it becomes a recursive function. Each such function is proved equal
to a quantified statement of what the loop searches for.

The Go `(bool, error)` result becomes a `Decision`: `Permitted`, `NotPermitted` or `Failed(err)`.
The informer caches become a `Store` snapshot, which holds:

- the ClusterRoleBinding list, or the error listing it returned;
- the ClusterRoles by name;
- per namespace, its RoleBinding list (or list error) and its Roles by name.

A role name missing from its map is the lister's not-found error. A namespace the store does not know
has no bindings and no roles, as in an empty cache.

**The DaemonSet searcher** (`pkg/models/resources/daemonsets.go`), in module `DaemonSets`
(`daemonsets.dfy`). It consists of:

- the status classifier;
- the exact-match and fuzzy filters, which are pure predicates over the condition maps;
- the `compare` ordering;
- `search`, which is a method. Its filtering loop and its copying loop are kept, with their invariants.

The condition keys, order keys, status values and label keys are package constants defined in files
outside this model. So is the `searchFuzzy` helper. All of them come in through a `Vocabulary` value,
and their values are left open. `Vocabulary.Valid()` demands only these facts:

- the case labels of each Go `switch` are distinct, which the Go compiler enforces;
- the three status values differ.

`StringUtil` (`string_util.dfy`) defines the Go `strings` operations the two files use:

- `HasPrefix` and `HasSuffix`;
- `TrimLeft` and `TrimRight`, which take a cut *set*, not a prefix or suffix string;
- `Contains`;
- `Compare`.

`RbacScenarios` (`rbac_scenarios.dfy`) states and proves what the model answers for concrete rules, stores and
requests.

The model follows the code in these edge cases:

- A resource specifier of the `"*/x"` form is compared after `strings.TrimLeft(res, "*/")`. Any run of
  `'*'` and `'/'` after the leading `"*/"` is therefore absorbed, so `"*//scale"` grants the `scale`
  subresource (`SubresourceWildcardCutSet`). Likewise `"pods//*"` grants `pods`.
- `"x/*"` also grants the bare resource `x`, with no subresource at all (`ResourceWildcardSpecifier`).
- The two scopes test group membership with two different helpers. Both are plain membership in the
  user's group list, so the model uses one predicate, `SubjectApplies`.

## Model

| member | source | states |
|---|---|---|
| `StringUtil.TrimLeft` | pkg/apigateway/caddy-plugin/authentication/authentication.go:222 | the result is a suffix of the input; everything dropped is in the cut set; the result does not start with a cut character |
| `StringUtil.TrimRight` | pkg/apigateway/caddy-plugin/authentication/authentication.go:226 | the result is a prefix of the input; everything dropped is in the cut set; the result does not end with a cut character |
| `StringUtil.TrimLeftUnique` | pkg/apigateway/caddy-plugin/authentication/authentication.go:222 | splitting a string into a run of cut characters and a rest not starting with one always yields that rest as the trim |
| `StringUtil.TrimRightUnique` | pkg/apigateway/caddy-plugin/authentication/authentication.go:269 | the mirror image: a rest followed by a run of cut characters trims to the rest |
| `StringUtil.Compare` | pkg/models/resources/daemonsets.go:100 | `strings.Compare` returns -1, 0 or 1, and returns 0 exactly for equal strings |
| `StringUtil.CompareAntisymmetric` | pkg/models/resources/daemonsets.go:100 | swapping the operands negates the comparison |
| `StringUtil.CompareTransitive` | pkg/models/resources/daemonsets.go:100 | `Compare(a, b) <= 0` is transitive |
| `Rbac.AnySpecifierMatches` | pkg/apigateway/caddy-plugin/authentication/authentication.go:214-231 | the scan over `rule.Resources` succeeds iff some specifier matches: `"*"`, the combined name, the `"*/sub"` form or the `"res/*"` form |
| `Rbac.RuleMatchesResources` | pkg/apigateway/caddy-plugin/authentication/authentication.go:194-232 | true iff the resource is non-empty, the API group or `"*"` is listed, the name list is empty or holds the name, and some specifier matches |
| `Rbac.AnyPathMatches` | pkg/apigateway/caddy-plugin/authentication/authentication.go:253-259 | the scan over `rule.NonResourceURLs` succeeds iff some pattern matches the path |
| `Rbac.RuleMatchesNonResource` | pkg/apigateway/caddy-plugin/authentication/authentication.go:247-260 | false for an empty URL; otherwise true iff some non-resource pattern matches |
| `Rbac.RuleMatchesRequest` | pkg/apigateway/caddy-plugin/authentication/authentication.go:234-245 | false unless the verb or `"*"` is listed; past that gate, an empty URL selects resource matching alone and a non-empty one selects path matching alone |
| `Rbac.WildcardVerbPassesGate` | pkg/apigateway/caddy-plugin/authentication/authentication.go:236-238 | with `"*"` among the verbs, every verb passes and the result is that of the selected matcher |
| `Rbac.PlainSpecifier` | pkg/apigateway/caddy-plugin/authentication/authentication.go:214-229 | a specifier without `'*'` matches exactly the request naming it (resource or resource/subresource) |
| `Rbac.ResourceWildcardSpecifier` | pkg/apigateway/caddy-plugin/authentication/authentication.go:225-228 | for a non-empty `x` that does not start with `'*'` and does not end with `'/'` or `'*'`: `"x/*"` matches iff the resource is `x` (with or without a subresource) or the request names `"x/*"` literally |
| `Rbac.SubresourceWildcardSpecifier` | pkg/apigateway/caddy-plugin/authentication/authentication.go:221-224 | for a non-empty `y` that starts with neither `'*'` nor `'/'` and does not end with `'*'`: `"*/y"` matches iff the subresource is `y` or the request names `"*/y"` literally |
| `Rbac.SubresourceWildcardCutSet` | pkg/apigateway/caddy-plugin/authentication/authentication.go:222 | `"*"`, then any run of `'/'` and `'*'` that starts with `'/'`, then `y` (not starting with either) grants subresource `y` of any resource |
| `Rbac.TrailingWildcardPath` | pkg/apigateway/caddy-plugin/authentication/authentication.go:262-273 | a pattern `p` followed by one or more `'*'` matches exactly the paths starting with `p` |
| `Rbac.ExactPath` | pkg/apigateway/caddy-plugin/authentication/authentication.go:262-273 | a pattern without `'*'` matches only the identical path |
| `Rbac.AnyRuleGrants` | pkg/apigateway/caddy-plugin/authentication/authentication.go:141-145 | the scan over a role's rules succeeds iff some rule matches the request |
| `Rbac.WalkSubjects` | pkg/apigateway/caddy-plugin/authentication/authentication.go:131-146 | a binding yields its role's outcome (missing, grants, or not) iff one of its subjects names the user or one of the user's groups; otherwise it yields nothing, and the role is not looked up |
| `Rbac.WalkBindings` | pkg/apigateway/caddy-plugin/authentication/authentication.go:129-150 | Permitted only if an applicable binding's existing role grants; Failed only with a not-found error for an applicable binding's missing role; NotPermitted iff neither exists |
| `Rbac.FirstDecisiveBindingWins` | pkg/apigateway/caddy-plugin/authentication/authentication.go:161-191 | the outcome is that of the first applicable binding whose role is missing or grants, so an error there wins over a later grant and the other way round |
| `Rbac.InapplicableBindingsAreSkipped` | pkg/apigateway/caddy-plugin/authentication/authentication.go:163-168 | bindings that do not name the user change nothing, even when their role reference dangles |
| `Rbac.ClusterRoleValidate` | pkg/apigateway/caddy-plugin/authentication/authentication.go:153-192 | a list failure is returned as the error; after a successful list, Failed only with a not-found error for an applicable binding's missing role; Permitted implies a cluster grant under the path-shaped or resource-shaped call; NotPermitted iff the list succeeded with neither grant nor dangling reference |
| `Rbac.RoleValidate` | pkg/apigateway/caddy-plugin/authentication/authentication.go:114-151 | the same for the request's namespace, always with the resource-shaped call |
| `Rbac.PermissionValidate` | pkg/apigateway/caddy-plugin/authentication/authentication.go:87-112 | a cluster grant is final; a cluster error is returned unchanged; a request without a namespace gets the cluster answer; a namespaced request the cluster scope does not decide gets the namespace answer; Permitted implies a grant in the cluster or in the request's namespace |
| `Rbac.NotPermittedMeansNoGrant` | pkg/apigateway/caddy-plugin/authentication/authentication.go:87-112 | NotPermitted means every consulted listing succeeded and no applicable binding in it grants or dangles, so errors are never reported as denials |
| `Rbac.ClusterGrantPermits` | pkg/apigateway/caddy-plugin/authentication/authentication.go:89-97 | a successfully listed cluster grant with no dangling applicable reference gives Permitted |
| `Rbac.NamespaceScopeDecides` | pkg/apigateway/caddy-plugin/authentication/authentication.go:99-108 | when the cluster scope finds nothing for a namespaced request, a failing RoleBinding list is returned as the error, and a namespace grant with no dangling applicable reference gives Permitted |
| `Rbac.NamespaceScopeNotConsulted` | pkg/apigateway/caddy-plugin/authentication/authentication.go:89-99 | when the cluster scope decides, or the namespace is empty, the namespaced part of the store cannot change the answer |
| `Rbac.NamespaceScopeGrantsNoPaths` | pkg/apigateway/caddy-plugin/authentication/authentication.go:142 | the namespace scope never grants a request with an empty resource, such as a non-resource request |
| `RbacScenarios.GetDoesNotGrantList` | pkg/apigateway/caddy-plugin/authentication/authentication.go:236-238 | a rule for `"get"` does not grant `"list"` |
| `RbacScenarios.PodsSubresourceWildcard` | pkg/apigateway/caddy-plugin/authentication/authentication.go:225-228 | `"pods/*"` grants `pods/log`, `pods/status` and bare `pods`, and not `deployments/log` |
| `RbacScenarios.ScaleOfAnyResource` | pkg/apigateway/caddy-plugin/authentication/authentication.go:221-224 | `"*/scale"` grants `deployments/scale` and `pods/scale`, and not `deployments/log` |
| `RbacScenarios.DoubledSeparatorStillMatches` | pkg/apigateway/caddy-plugin/authentication/authentication.go:222 | `"*//scale"` grants `deployments/scale` |
| `RbacScenarios.ResourceNameRestriction` | pkg/apigateway/caddy-plugin/authentication/authentication.go:204-206 | a name list `["foo"]` admits `foo` and rejects `bar`; an empty list admits `bar` |
| `RbacScenarios.NonResourcePatterns` | pkg/apigateway/caddy-plugin/authentication/authentication.go:262-273 | `"/api/*"` matches `/api/v1/pods`; `"/healthz"` matches itself and not `/healthz/ready` |
| `RbacScenarios.GroupBindingGrants` | pkg/apigateway/caddy-plugin/authentication/authentication.go:163-177 | a ClusterRoleBinding to group `admins` grants any member of the group, whatever the user's name |
| `RbacScenarios.AliceMayGetPods` | pkg/apigateway/caddy-plugin/authentication/authentication.go:99-107 | no cluster binding applies, and the group's namespaced role grants `get pods` |
| `RbacScenarios.AliceMayNotDeletePods` | pkg/apigateway/caddy-plugin/authentication/authentication.go:87-112 | with the same store, `delete pods` is NotPermitted and no error |
| `RbacScenarios.DanglingRoleBeatsLaterGrant` | pkg/apigateway/caddy-plugin/authentication/authentication.go:168-172 | an applicable binding to a missing role fails the request, although a later binding would grant it |
| `RbacScenarios.HealthzThroughClusterRole` | pkg/apigateway/caddy-plugin/authentication/authentication.go:179-183 | a non-resource request is granted at cluster scope through a rule's non-resource URLs |
| `RbacScenarios.ListFailureIsAnError` | pkg/apigateway/caddy-plugin/authentication/authentication.go:155-159 | a failing ClusterRoleBinding list fails the request |
| `DaemonSets.DaemonSetStatus` | pkg/models/resources/daemonsets.go:33-41 | stopped iff nothing is available; running iff something is available and all desired pods are; updating otherwise |
| `DaemonSets.Match` | pkg/models/resources/daemonsets.go:44-56 | true iff the only key, if any, is `status`, and its value is the item's status; so the empty map passes and any other key fails |
| `DaemonSets.Fuzzy` | pkg/models/resources/daemonsets.go:58-91 | the empty map passes; any map holding the `annotation` key fails whatever the annotations are; a passing `name` condition is contained in the name or the display-name label |
| `DaemonSets.FuzzyByName` | pkg/models/resources/daemonsets.go:62-65 | a lone `name` condition passes iff the name or the display-name label contains its value |
| `DaemonSets.LessByNameIsTotalPreorder` | pkg/models/resources/daemonsets.go:97-100 | by name, `compare` is reflexive, total and transitive, and ties only equal names |
| `DaemonSets.LessByCreateTimeIsStrict` | pkg/models/resources/daemonsets.go:95-96 | by creation time, `compare` is irreflexive and transitive |
| `DaemonSets.KeptCount` | pkg/models/resources/daemonsets.go:116-120 | the filter keeps each item that passes `match` and `fuzzy` as often as it is listed, and no other item |
| `DaemonSets.KeptMembers` | pkg/models/resources/daemonsets.go:116-120 | the kept items are exactly the listed items passing both filters |
| `DaemonSets.UnconditionedKeepsAll` | pkg/models/resources/daemonsets.go:113-114 | with no conditions the filter keeps every item, so the shortcut agrees with the loop |
| `DaemonSets.FilterItems` | pkg/models/resources/daemonsets.go:115-121 | the loop's result is the kept sequence, in listing order |
| `DaemonSets.SortSlice` | pkg/models/resources/daemonsets.go:122-129 | the sorted slice is a permutation of its input |
| `DaemonSets.Search` | pkg/models/resources/daemonsets.go:104-136 | a listing failure is returned as the error; otherwise the result is a permutation of the listed items passing `match` and `fuzzy` (all of them without conditions), and holds exactly those items |

## Left out

- `ServeHTTP`, `handleForbidden` and the `Rule.Path` / `ExceptedPath` routing are left out. They are HTTP
  middleware around the engine, and the path matcher they call belongs to the Caddy library.
- `getAuthorizerAttributes` is left out. It copies fields out of the request context; the `Attributes`
  datatype stands for its result.
- A request without a user is left out. When the context carries no user, `getAuthorizerAttributes`
  leaves the user unset, and `permissionValidate` then dereferences it at the first User or Group subject
  of any binding, a Go nil-pointer panic. The model's `Attributes` always holds a `UserInfo`, so this
  failure path is not captured.
- The informer listers and caches are left out. They are replaced by the `Store` snapshot for the RBAC
  engine and by a `Listing` value for the DaemonSet search, which is why `search`'s namespace parameter
  does not appear.
- The `fullSource` string that `roleValidate` builds is left out: nothing reads it.
- Errors carry no text beyond a list-failure reason and the missing role's name.
- Strings are sequences of characters, while Go compares and trims bytes. Every cut set is ASCII, and
  code-point order equals UTF-8 byte order, so the answers agree.
- The integer widths of the DaemonSet status counts are not modelled. The classifier only compares
  them, so no width can change its answer.
- The creation timestamp is an abstract integer, and `Time.Before` is `<` on it.
- `searchFuzzy` and the package constants are open parameters. They are defined in other files of the
  package, which are not part of this model.
- `SortSlice`: returns some permutation of its input. The order `sort.Slice` produces is not modelled,
  and neither is the operand swap for `reverse`. The comparator is not a strict order, and the sort is
  not stable, so that order is not a property of the comparator alone.
- `Search`: states only that the result is a permutation of the filtered items, not their order, for
  the reason given under `SortSlice`. `orderBy` and `reverse` are accepted and do not influence the
  model's result.
