/** The closed authorization vocabulary and the table of direct role grants. */
module RoleMatrix {
  import opened Hierarchy
  import opened Wrappers
  import opened Framing

  /** Go strings are byte sequences whose length fits a signed 64-bit integer. */
  type Text = s: Bytes | |s| < 0x8000_0000_0000_0000 witness []

  datatype Action =
    | ResourceList | ResourceGet | ResourceCreate | ResourceReplace | ResourceDelete | ResourceStatusReplace
    | PlanList | PlanGet | PlanPreview
    | OperationList | OperationGet | OperationCancel | OperationRetry | OperationQuarantine
    | MembershipList | MembershipGet | MembershipCreate | MembershipReplace | MembershipDelete
    | AuditList | AuditExport
    | ApprovalApprove | ApprovalReject | ApprovalOverride
    | WorkPublish | WorkConsume | WorkRedrive
    | ReconcilePlan | ReconcileExecute | OperationTransition | CredentialResolve
    | ProviderDiscover | ProviderApply | ProviderObserve | ProviderDelete
    | AuditAppend

  datatype Role = Viewer | Developer | Operator | WorkspaceAdministrator

  datatype ObjectKind = ResourceObject | OperationObject | PlanObject | MembershipObject | AuditObject

  /** A target sealed from the hierarchy. */
  datatype Target = Target(
    objectKind: ObjectKind, objectId: Text, resourceKind: Kind, resourceId: Text,
    workspace: Text, environment: Option<Text>, provider: Option<Text>)

  datatype Grant = Grant(action: Action, objectKind: ObjectKind, kinds: seq<Kind>)

  function InheritedRoles(role: Role): seq<Role> {
    if role.Viewer? then [Viewer] else [Viewer, role]
  }

  predicate GloballyReserved(action: Action) {
    match action
    case ResourceStatusReplace | OperationQuarantine | AuditExport | ApprovalApprove | ApprovalReject
      | ApprovalOverride | WorkPublish | WorkConsume | WorkRedrive => true
    case ReconcilePlan | ReconcileExecute | OperationTransition | CredentialResolve | ProviderDiscover | ProviderApply
      | ProviderObserve | ProviderDelete | AuditAppend => true
    case _ => false
  }

  /** actionReserved. */
  predicate Reserved(action: Action, target: Target) {
    || GloballyReserved(action)
    || (action == ResourceCreate && target.resourceKind == Workspace && target.objectKind == ResourceObject)
  }

  function DirectGrants(role: Role): seq<Grant> {
    match role
    case Viewer =>
      var kinds := [Application, Component, Environment, ProviderConnection, Workspace];
      [Grant(ResourceList, ResourceObject, kinds), Grant(ResourceGet, ResourceObject, kinds),
       Grant(PlanList, PlanObject, kinds), Grant(PlanGet, PlanObject, kinds),
       Grant(OperationList, OperationObject, kinds), Grant(OperationGet, OperationObject, kinds),
       Grant(AuditList, AuditObject, kinds)]
    case Developer =>
      var kinds := [Application, Component];
      [Grant(ResourceCreate, ResourceObject, kinds), Grant(ResourceReplace, ResourceObject, kinds),
       Grant(ResourceDelete, ResourceObject, kinds), Grant(PlanPreview, PlanObject, kinds),
       Grant(OperationCancel, OperationObject, kinds)]
    case Operator =>
      var kinds := [Environment, ProviderConnection];
      var all := [Application, Component, Environment, ProviderConnection];
      [Grant(ResourceCreate, ResourceObject, kinds), Grant(ResourceReplace, ResourceObject, kinds),
       Grant(ResourceDelete, ResourceObject, kinds), Grant(PlanPreview, PlanObject, kinds),
       Grant(OperationCancel, OperationObject, all), Grant(OperationRetry, OperationObject, all)]
    case WorkspaceAdministrator =>
      var both := [Policy, Workspace];
      [Grant(ResourceList, ResourceObject, [Policy]), Grant(ResourceGet, ResourceObject, [Policy]),
       Grant(ResourceCreate, ResourceObject, [Policy]), Grant(ResourceReplace, ResourceObject, both),
       Grant(ResourceDelete, ResourceObject, both), Grant(PlanList, PlanObject, both), Grant(PlanGet, PlanObject, both),
       Grant(PlanPreview, PlanObject, both), Grant(OperationList, OperationObject, both),
       Grant(OperationGet, OperationObject, both),
       Grant(OperationCancel, OperationObject, both), Grant(MembershipList, MembershipObject, []),
       Grant(MembershipGet, MembershipObject, []), Grant(MembershipCreate, MembershipObject, []),
       Grant(MembershipReplace, MembershipObject, []), Grant(MembershipDelete, MembershipObject, [])]
  }

  /** One direct grant fits the action and the target; a grant that names no kind fits them all. */
  predicate Fits(grant: Grant, action: Action, target: Target) {
    grant.action == action && grant.objectKind == target.objectKind
      && (|grant.kinds| == 0 || target.resourceKind in grant.kinds)
  }

  predicate DirectlyAllows(role: Role, action: Action, target: Target) {
    exists i :: 0 <= i < |DirectGrants(role)| && Fits(DirectGrants(role)[i], action, target)
  }

  /** roleAllows: some inherited role has a direct grant that fits. */
  predicate RoleAllows(role: Role, action: Action, target: Target) {
    exists i :: 0 <= i < |InheritedRoles(role)| && DirectlyAllows(InheritedRoles(role)[i], action, target)
  }

  /** What a workspace administrator alone may do: change policies, the workspace itself or its members. */
  predicate Administrative(action: Action, target: Target) {
    match action
    case MembershipList | MembershipCreate | MembershipReplace | MembershipDelete => true
    case ResourceCreate | ResourceReplace | ResourceDelete =>
      target.resourceKind.Policy? || target.resourceKind.Workspace?
    case _ => false
  }

  lemma DirectGrantsAreNotReserved(role: Role, i: nat, action: Action, target: Target)
    requires i < |DirectGrants(role)| && Fits(DirectGrants(role)[i], action, target)
    ensures !Reserved(action, target)
  {
    match role
    case Viewer =>
    case Developer =>
    case Operator =>
    case WorkspaceAdministrator =>
  }

  /** The table grants nothing that is reserved, for any role. */
  lemma RolesAreNeverGrantedReserved(role: Role, action: Action, target: Target)
    requires RoleAllows(role, action, target)
    ensures !Reserved(action, target)
  {
    var k :| 0 <= k < |InheritedRoles(role)| && DirectlyAllows(InheritedRoles(role)[k], action, target);
    var direct := InheritedRoles(role)[k];
    var i :| 0 <= i < |DirectGrants(direct)| && Fits(DirectGrants(direct)[i], action, target);
    DirectGrantsAreNotReserved(direct, i, action, target);
  }

  lemma DirectAdministration(role: Role, i: nat, action: Action, target: Target)
    requires i < |DirectGrants(role)| && Fits(DirectGrants(role)[i], action, target) && Administrative(action, target)
    ensures role == WorkspaceAdministrator
  {
  }

  /** Administrative actions are granted to workspace administrators only. */
  lemma AdministrationNeedsAdministrator(role: Role, action: Action, target: Target)
    requires RoleAllows(role, action, target) && Administrative(action, target)
    ensures role == WorkspaceAdministrator
  {
    var k :| 0 <= k < |InheritedRoles(role)| && DirectlyAllows(InheritedRoles(role)[k], action, target);
    var direct := InheritedRoles(role)[k];
    var i :| 0 <= i < |DirectGrants(direct)| && Fits(DirectGrants(direct)[i], action, target);
    DirectAdministration(direct, i, action, target);
  }
}
