/** What the roles may do, said by who keeps which kind of resource and without the table of grants, and what that
    means for the evaluator. */
module RoleMeaning {
  import opened Hierarchy
  import opened Wrappers
  import opened RoleMatrix
  import opened PolicySet

  /** The one role that changes resources of a kind. */
  function Keeper(kind: Kind): Role {
    match kind
    case Application | Component => Developer
    case Environment | ProviderConnection => Operator
    case Policy | Workspace => WorkspaceAdministrator
  }

  predicate Reading(action: Action) {
    || action.ResourceList? || action.ResourceGet? || action.PlanList? || action.PlanGet?
    || action.OperationList? || action.OperationGet?
  }

  predicate Managing(action: Action) {
    || action.MembershipList? || action.MembershipGet? || action.MembershipCreate? || action.MembershipReplace?
    || action.MembershipDelete?
  }

  /** The kind of object that an action of tenants is about. */
  function ObjectOf(action: Action): ObjectKind {
    match action
    case PlanList | PlanGet | PlanPreview => PlanObject
    case OperationList | OperationGet | OperationCancel | OperationRetry => OperationObject
    case MembershipList | MembershipGet | MembershipCreate | MembershipReplace | MembershipDelete => MembershipObject
    case AuditList => AuditObject
    case _ => ResourceObject
  }

  /** What a role may do to what belongs to a resource of a kind. Policies are read by administrators only. */
  predicate MayDo(role: Role, action: Action, kind: Kind) {
    if Reading(action) then !kind.Policy? || role.WorkspaceAdministrator?
    else if Managing(action) then role.WorkspaceAdministrator?
    else
      match action
      case AuditList => !kind.Policy?
      case ResourceCreate => role == Keeper(kind) && !kind.Workspace?
      case ResourceReplace | ResourceDelete | PlanPreview => role == Keeper(kind)
      case OperationCancel => role == Keeper(kind) || (role.Operator? && Keeper(kind).Developer?)
      case OperationRetry => role.Operator? && !Keeper(kind).WorkspaceAdministrator?
      case _ => false
  }

  predicate May(role: Role, action: Action, target: Target) {
    target.objectKind == ObjectOf(action) && MayDo(role, action, target.resourceKind)
  }

  // ----- the table

  lemma ViewerGrants(action: Action, target: Target)
    ensures DirectlyAllows(Viewer, action, target) <==>
            && target.objectKind == ObjectOf(action) && !target.resourceKind.Policy?
            && (Reading(action) || action.AuditList?)
  {
    var grants := DirectGrants(Viewer);
    if target.objectKind == ObjectOf(action) && !target.resourceKind.Policy? {
      match action
      case ResourceList => assert Fits(grants[0], action, target);
      case ResourceGet => assert Fits(grants[1], action, target);
      case PlanList => assert Fits(grants[2], action, target);
      case PlanGet => assert Fits(grants[3], action, target);
      case OperationList => assert Fits(grants[4], action, target);
      case OperationGet => assert Fits(grants[5], action, target);
      case AuditList => assert Fits(grants[6], action, target);
      case _ =>
    }
  }

  /** The actions that a role may do to what it keeps. */
  predicate Keeping(action: Action, kind: Kind) {
    match action
    case ResourceCreate => !kind.Workspace?
    case ResourceReplace | ResourceDelete | PlanPreview | OperationCancel => true
    case _ => false
  }

  lemma DeveloperGrants(action: Action, target: Target)
    ensures DirectlyAllows(Developer, action, target) <==>
            && target.objectKind == ObjectOf(action) && Keeping(action, target.resourceKind)
            && Keeper(target.resourceKind).Developer?
  {
    var grants := DirectGrants(Developer);
    if target.objectKind == ObjectOf(action) && Keeper(target.resourceKind).Developer? {
      match action
      case ResourceCreate => assert Fits(grants[0], action, target);
      case ResourceReplace => assert Fits(grants[1], action, target);
      case ResourceDelete => assert Fits(grants[2], action, target);
      case PlanPreview => assert Fits(grants[3], action, target);
      case OperationCancel => assert Fits(grants[4], action, target);
      case _ =>
    }
  }

  lemma OperatorGrants(action: Action, target: Target)
    ensures DirectlyAllows(Operator, action, target) <==>
            && target.objectKind == ObjectOf(action) && !Keeper(target.resourceKind).WorkspaceAdministrator?
            && (|| (Keeping(action, target.resourceKind) && Keeper(target.resourceKind).Operator?)
                || action.OperationCancel? || action.OperationRetry?)
  {
    var grants := DirectGrants(Operator);
    if target.objectKind == ObjectOf(action) && !Keeper(target.resourceKind).WorkspaceAdministrator? {
      match action
      case ResourceCreate => assert Keeper(target.resourceKind).Operator? ==> Fits(grants[0], action, target);
      case ResourceReplace => assert Keeper(target.resourceKind).Operator? ==> Fits(grants[1], action, target);
      case ResourceDelete => assert Keeper(target.resourceKind).Operator? ==> Fits(grants[2], action, target);
      case PlanPreview => assert Keeper(target.resourceKind).Operator? ==> Fits(grants[3], action, target);
      case OperationCancel => assert Fits(grants[4], action, target);
      case OperationRetry => assert Fits(grants[5], action, target);
      case _ =>
    }
  }

  predicate Administering(action: Action, target: Target) {
    || Managing(action)
    || (&& Keeper(target.resourceKind).WorkspaceAdministrator?
        && (|| Keeping(action, target.resourceKind)
            || (Reading(action) && (target.objectKind.ResourceObject? ==> target.resourceKind.Policy?))))
  }

  lemma AdministratorGrants(action: Action, target: Target)
    ensures DirectlyAllows(WorkspaceAdministrator, action, target) <==>
            target.objectKind == ObjectOf(action) && Administering(action, target)
  {
    if DirectlyAllows(WorkspaceAdministrator, action, target) {
      var grants := DirectGrants(WorkspaceAdministrator);
      var i :| 0 <= i < |grants| && Fits(grants[i], action, target);
      AdministratorOnly(i, action, target);
    } else if target.objectKind == ObjectOf(action) && Administering(action, target) {
      hide DirectlyAllows;
      if Managing(action) {
        AdministratorManages(action, target);
      } else {
        AdministratorKeeps(action, target);
      }
    }
  }

  lemma AdministratorOnly(i: nat, action: Action, target: Target)
    requires i < |DirectGrants(WorkspaceAdministrator)|
    requires Fits(DirectGrants(WorkspaceAdministrator)[i], action, target)
    ensures target.objectKind == ObjectOf(action) && Administering(action, target)
  {
  }

  lemma AdministratorManages(action: Action, target: Target)
    requires target.objectKind == ObjectOf(action) && Managing(action)
    ensures DirectlyAllows(WorkspaceAdministrator, action, target)
  {
    var grants := DirectGrants(WorkspaceAdministrator);
    match action
    case MembershipList => assert Fits(grants[11], action, target);
    case MembershipGet => assert Fits(grants[12], action, target);
    case MembershipCreate => assert Fits(grants[13], action, target);
    case MembershipReplace => assert Fits(grants[14], action, target);
    case MembershipDelete => assert Fits(grants[15], action, target);
  }

  lemma AdministratorKeeps(action: Action, target: Target)
    requires target.objectKind == ObjectOf(action) && Keeper(target.resourceKind).WorkspaceAdministrator?
    requires Keeping(action, target.resourceKind)
             || (Reading(action) && (target.objectKind.ResourceObject? ==> target.resourceKind.Policy?))
    ensures DirectlyAllows(WorkspaceAdministrator, action, target)
  {
    var grants := DirectGrants(WorkspaceAdministrator);
    match action
    case ResourceList => assert Fits(grants[0], action, target);
    case ResourceGet => assert Fits(grants[1], action, target);
    case ResourceCreate => assert Fits(grants[2], action, target);
    case ResourceReplace => assert Fits(grants[3], action, target);
    case ResourceDelete => assert Fits(grants[4], action, target);
    case PlanList => assert Fits(grants[5], action, target);
    case PlanGet => assert Fits(grants[6], action, target);
    case PlanPreview => assert Fits(grants[7], action, target);
    case OperationList => assert Fits(grants[8], action, target);
    case OperationGet => assert Fits(grants[9], action, target);
    case OperationCancel => assert Fits(grants[10], action, target);
  }

  lemma InheritsViewer(role: Role, action: Action, target: Target)
    ensures RoleAllows(role, action, target) <==>
            DirectlyAllows(Viewer, action, target) || DirectlyAllows(role, action, target)
  {
    hide DirectlyAllows;
    assert InheritedRoles(role)[0] == Viewer;
    assert !role.Viewer? ==> InheritedRoles(role)[1] == role;
  }

  /** The table allows a role exactly what the meaning of the roles says, for every action and target. */
  lemma RolesMeanWhatTheySay(role: Role, action: Action, target: Target)
    ensures RoleAllows(role, action, target) <==> May(role, action, target)
  {
    hide RoleAllows, DirectlyAllows;
    InheritsViewer(role, action, target);
    ViewerGrants(action, target);
    match role
    case Viewer =>
    case Developer => DeveloperGrants(action, target);
    case Operator => OperatorGrants(action, target);
    case WorkspaceAdministrator => AdministratorGrants(action, target);
  }

  /** Every role may do what a viewer may, and every kind of resource is changed by its keeper alone. */
  lemma RolesRelate(role: Role, action: Action, target: Target)
    ensures RoleAllows(Viewer, action, target) ==> RoleAllows(role, action, target)
    ensures action.ResourceReplace? || action.ResourceDelete? ==>
              (RoleAllows(role, action, target) <==>
               target.objectKind.ResourceObject? && role == Keeper(target.resourceKind))
  {
    hide RoleAllows;
    RolesMeanWhatTheySay(role, action, target);
    RolesMeanWhatTheySay(Viewer, action, target);
  }

  /** An action is reserved on every target exactly when no role is allowed it on any target. Of the others only the
      creation of a workspace is reserved. */
  lemma ReservedExactly(action: Action)
    ensures GloballyReserved(action) <==> forall role, target :: !RoleAllows(role, action, target)
    ensures forall target | !GloballyReserved(action) ::
              Reserved(action, target) <==>
              action.ResourceCreate? && target.objectKind.ResourceObject? && target.resourceKind.Workspace?
  {
    hide RoleAllows;
    var target := Target(ObjectOf(action), [], Application, [], [], None, None);
    var role :=
      if Managing(action) then WorkspaceAdministrator else if action.OperationRetry? then Operator else Developer;
    RolesMeanWhatTheySay(role, action, target);
    if GloballyReserved(action) {
      forall role, target
        ensures !RoleAllows(role, action, target)
      {
        RolesMeanWhatTheySay(role, action, target);
      }
    }
  }

  // ----- the evaluator

  /** Some binding of the member covers the target with a role that may do it. */
  ghost predicate SomeRoleMay(policySet: PolicySet, member: Member, input: Input) {
    exists b :: Binds(policySet, b, member) && Covers(b, input.target) && May(b.role, input.action, input.target)
  }

  lemma GrantingMeansMay(policySet: PolicySet, member: Member, input: Input)
    ensures SomeGranting(policySet, member, input) <==> SomeRoleMay(policySet, member, input)
  {
    hide RoleAllows, May, Binds, Covers;
    forall role
      ensures RoleAllows(role, input.action, input.target) <==> May(role, input.action, input.target)
    {
      RolesMeanWhatTheySay(role, input.action, input.target);
    }
  }

  lemma MayIsNotReserved(role: Role, action: Action, target: Target)
    requires May(role, action, target)
    ensures !Reserved(action, target)
  {
  }

  /** A request is allowed exactly when it stays in the workspace and its principal is a member that reads its own
      membership or has a role over the target that may do it. */
  lemma AllowedByMeaning(world: World, policySet: PolicySet, input: Input)
    requires WellBuilt(world, policySet) && ValidInput(world, input)
    ensures Evaluate(world, policySet, input).Some?
    ensures Evaluate(world, policySet, input).value.effect.Allow? <==>
            && input.target.workspace == policySet.workspace
            && exists m ::
               IsMember(policySet, input.principal, m) && (SelfRead(input, m.id) || SomeRoleMay(policySet, m, input))
  {
    hide Evaluate, ValidInput, WellBuilt, IsMember, SomeGranting;
    AllowedExactly(world, policySet, input);
    forall m
      ensures SomeGranting(policySet, m, input) <==> SomeRoleMay(policySet, m, input)
      ensures SelfRead(input, m.id) || SomeRoleMay(policySet, m, input) ==> !Reserved(input.action, input.target)
    {
      GrantingMeansMay(policySet, m, input);
      if b :| Binds(policySet, b, m) && Covers(b, input.target) && May(b.role, input.action, input.target) {
        MayIsNotReserved(b.role, input.action, input.target);
      }
    }
  }

  /** Every binding of the principal makes it a viewer. */
  ghost predicate OnlyViews(policySet: PolicySet, principal: Identity) {
    forall m, b | IsMember(policySet, principal, m) && Binds(policySet, b, m) :: b.role == Viewer
  }

  predicate Viewing(action: Action) {
    Reading(action) || action.AuditList?
  }

  /** A principal that is only a viewer is allowed, besides its own membership, exactly the covered reads of everything
      but policies: it never changes anything. */
  lemma ViewersOnlyView(world: World, policySet: PolicySet, input: Input)
    requires WellBuilt(world, policySet) && ValidInput(world, input) && OnlyViews(policySet, input.principal)
    requires input.target.workspace == policySet.workspace
    requires !exists m :: IsMember(policySet, input.principal, m) && SelfRead(input, m.id)
    ensures Evaluate(world, policySet, input).Some?
    ensures Evaluate(world, policySet, input).value.effect.Allow? <==>
            && Viewing(input.action) && input.target.objectKind == ObjectOf(input.action)
            && !input.target.resourceKind.Policy?
            && exists m :: IsMember(policySet, input.principal, m) && SomeCovering(policySet, m, input.target)
  {
    hide Evaluate, ValidInput, WellBuilt, IsMember, SelfRead, Binds, Covers;
    AllowedByMeaning(world, policySet, input);
  }
}
