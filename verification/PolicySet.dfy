/** Workspace policy sets: the member directory, policy validation, compiled role masks and the evaluator.

    The hierarchy snapshot and the identity rules are other packages and come in as parameters. */
module PolicySet {
  import opened Hierarchy
  import opened Wrappers
  import opened Framing
  import opened Ordering
  import opened RoleMatrix

  const MAX_MEMBERS := 500
  const MAX_POLICIES := 2_500

  type Id = Text

  datatype PrincipalKind = Human | Workload

  datatype Scope = Scope(kind: ScopeKind, environment: Option<Id>)

  datatype RoleBinding = RoleBinding(member: Id, role: Role, scope: Scope)

  /** Absent bindings are not the same as none; ranging over either is the same. */
  datatype PolicySpec = PolicySpec(bindings: Option<seq<RoleBinding>>) {
    function List(): seq<RoleBinding> {
      if bindings.Some? then bindings.value else []
    }
  }

  datatype Record = Record(id: Id, kind: Kind, parent: Option<Id>, workspace: Id)

  datatype PolicyRevision = PolicyRevision(record: Record, generation: int, spec: PolicySpec)

  datatype Identity = Identity(kind: PrincipalKind, issuer: Text, subject: Text)

  datatype Member = Member(id: Id, workspace: Id, identity: Identity)

  datatype Directory = Directory(workspace: Id, byId: map<Id, Member>, byIdentity: map<Identity, Id>,
                                 ordered: seq<Member>)

  /** What is asked of the hierarchy and identity packages. */
  datatype World = World(
    workspace: Id,
    lookup: Id -> Option<Record>,
    validRecord: Record -> bool,
    validIdentity: Identity -> bool,
    validPrincipal: Identity -> bool)

  function MemberKey(m: Member): Bytes {
    m.id
  }

  function PolicyKey(p: PolicyRevision): Bytes {
    p.record.id
  }

  /** resource.ParseID: a letter or digit, then 15 to 127 letters, digits, underscores and hyphens. */
  predicate ValidId(id: Id) {
    && 16 <= |id| <= 128
    && Alphanumeric(id[0])
    && forall i :: 0 < i < |id| ==> Alphanumeric(id[i]) || id[i] == 0x5f || id[i] == 0x2d
  }

  predicate Alphanumeric(b: Byte) {
    0x30 <= b <= 0x39 || 0x41 <= b <= 0x5a || 0x61 <= b <= 0x7a
  }

  // ----- The member directory

  predicate ValidMember(world: World, m: Member) {
    ValidId(m.id) && ValidId(m.workspace) && world.validIdentity(m.identity)
  }

  /** ValidateMemberDirectory. */
  predicate ValidDirectory(world: World, d: Directory) {
    && ValidId(d.workspace)
    && |d.byId| == |d.byIdentity| == |d.ordered| <= MAX_MEMBERS
    && (forall i :: 0 <= i < |d.ordered| ==> ValidMember(world, d.ordered[i]) && d.ordered[i].workspace == d.workspace)
    && (forall i :: 0 < i < |d.ordered| ==> BytesLess(d.ordered[i - 1].id, d.ordered[i].id))
    && (forall i :: 0 <= i < |d.ordered| ==> Indexed(d, d.ordered[i]))
  }

  predicate Indexed(d: Directory, m: Member) {
    m.id in d.byId && d.byId[m.id] == m && m.identity in d.byIdentity && d.byIdentity[m.identity] == m.id
  }

  /** A set of the keys of a list, of the size of the list, is all of a map's keys of that size. */
  lemma {:induction false} KeysAreCovered<K>(keys: seq<K>, domain: set<K>)
    requires forall i :: 0 <= i < |keys| ==> keys[i] in domain
    requires forall i, j :: 0 <= i < j < |keys| ==> keys[i] != keys[j]
    ensures |keys| <= |domain|
    ensures |domain| == |keys| ==> forall k | k in domain :: k in keys
  {
    if keys == [] {
    } else {
      var n := |keys| - 1;
      KeysAreCovered(keys[..n], domain - {keys[n]});
      forall k | k in domain && |domain| == |keys|
        ensures k in keys
      {
        if k != keys[n] { assert k in keys[..n]; }
      }
    }
  }

  lemma MembersDiffer(world: World, d: Directory)
    requires ValidDirectory(world, d)
    ensures Ascending(d.ordered, MemberKey)
    ensures forall i, j :: 0 <= i < j < |d.ordered| ==> d.ordered[i].id != d.ordered[j].id
    ensures forall i, j :: 0 <= i < j < |d.ordered| ==> d.ordered[i].identity != d.ordered[j].identity
  {
    hide ValidId, BytesLess;
    NeighboursAscend(d.ordered, MemberKey);
    AscendingIsDistinct(d.ordered, MemberKey);
    forall i, j | 0 <= i < j < |d.ordered|
      ensures d.ordered[i].id != d.ordered[j].id && d.ordered[i].identity != d.ordered[j].identity
    {
      assert MemberKey(d.ordered[i]) != MemberKey(d.ordered[j]);
      assert Indexed(d, d.ordered[i]) && Indexed(d, d.ordered[j]);
    }
  }

  /** Every identity indexed is that of a member, and leads to it. */
  lemma IdentityIndexIsExact(world: World, d: Directory, identity: Identity)
    requires ValidDirectory(world, d) && identity in d.byIdentity
    ensures d.byIdentity[identity] in d.byId
    ensures d.byId[d.byIdentity[identity]] in d.ordered && d.byId[d.byIdentity[identity]].identity == identity
  {
    hide ValidId, BytesLess, ValidMember;
    var n := |d.ordered|;
    MembersDiffer(world, d);
    var identities := seq(n, i requires 0 <= i < n => d.ordered[i].identity);
    forall i | 0 <= i < n
      ensures identities[i] in d.byIdentity.Keys
    {
      assert Indexed(d, d.ordered[i]);
    }
    KeysAreCovered(identities, d.byIdentity.Keys);
    var i :| 0 <= i < n && identities[i] == identity;
    assert Indexed(d, d.ordered[i]);
  }

  /** Two members of a valid directory are never the same principal. */
  lemma IdentityIsUnique(world: World, d: Directory, a: Member, b: Member)
    requires ValidDirectory(world, d) && a in d.ordered && b in d.ordered && a.identity == b.identity
    ensures a == b
  {
    MembersDiffer(world, d);
  }

  // ----- Policy specs

  /** validateRoleBinding; an administrator is bound at the workspace only. */
  predicate ValidBinding(b: RoleBinding) {
    && ValidId(b.member)
    && match b.scope.kind
       case WorkspaceScope => b.scope.environment.None?
       case EnvironmentScope =>
         b.scope.environment.Some? && ValidId(b.scope.environment.value) && !b.role.WorkspaceAdministrator?
  }

  function RoleText(role: Role): (r: Text)
    ensures |r| == match role case Viewer => 6 case Developer => 9 case Operator => 8 case WorkspaceAdministrator => 22
  {
    match role
    case Viewer => Ascii("Viewer")
    case Developer => Ascii("Developer")
    case Operator => Ascii("Operator")
    case WorkspaceAdministrator => Ascii("WorkspaceAdministrator")
  }

  function ScopeText(kind: ScopeKind): (r: Text)
    ensures |r| == if kind.WorkspaceScope? then 9 else 11
  {
    if kind.WorkspaceScope? then Ascii("Workspace") else Ascii("Environment")
  }

  /** scopeEnvironment. */
  function ScopeEnvironment(scope: Scope): Text {
    if scope.environment.Some? then scope.environment.value else []
  }

  /** CompareRoleBindings is negative: by member, scope kind, environment, then role. */
  predicate BindingLess(a: RoleBinding, b: RoleBinding) {
    if a.member != b.member then BytesLess(a.member, b.member)
    else if a.scope.kind != b.scope.kind then BytesLess(ScopeText(a.scope.kind), ScopeText(b.scope.kind))
    else if ScopeEnvironment(a.scope) != ScopeEnvironment(b.scope) then
      BytesLess(ScopeEnvironment(a.scope), ScopeEnvironment(b.scope))
    else BytesLess(RoleText(a.role), RoleText(b.role))
  }

  /** ValidatePolicySpec: present, bounded, and in strictly ascending canonical order. */
  predicate ValidSpec(spec: PolicySpec) {
    && spec.bindings.Some?
    && |spec.List()| <= MAX_BINDINGS
    && (forall i :: 0 <= i < |spec.List()| ==> ValidBinding(spec.List()[i]))
    && (forall i :: 0 < i < |spec.List()| ==> BindingLess(spec.List()[i - 1], spec.List()[i]))
  }

  /** ValidatePolicyReferences for one binding. */
  predicate ReferencesOk(world: World, d: Directory, b: RoleBinding) {
    && b.member in d.byId
    && d.byId[b.member].workspace == d.workspace
    && (b.role.WorkspaceAdministrator? ==> d.byId[b.member].identity.kind.Human?)
    && (b.scope.kind.EnvironmentScope? && b.scope.environment.Some? ==>
          var found := world.lookup(b.scope.environment.value);
          found.Some? && found.value.kind.Environment? && found.value.workspace == d.workspace)
  }

  /** validatePolicyRevision. */
  predicate ValidRevision(world: World, d: Directory, p: PolicyRevision) {
    && p.record.kind.Policy?
    && p.record.workspace == world.workspace
    && world.lookup(p.record.id) == Some(p.record) && world.validRecord(p.record)
    && 1 <= p.generation < 0x8000_0000_0000_0000
    && ValidSpec(p.spec)
    && forall i :: 0 <= i < |p.spec.List()| ==> ReferencesOk(world, d, p.spec.List()[i])
  }

  // ----- Compiled bindings

  type Mask = bv8

  /** maskForRole. */
  function Bit(role: Role): Mask {
    match role
    case Viewer => 1
    case Developer => 2
    case Operator => 4
    case WorkspaceAdministrator => 8
  }

  function Union(a: Mask, b: Mask): Mask {
    a | b
  }

  /** The mask holds the bits of these roles and no other bit. */
  ghost predicate Represents(mask: Mask, roles: set<Role>) {
    mask < 16 && forall role: Role :: mask & Bit(role) != 0 <==> role in roles
  }

  lemma RepresentsMore(mask: Mask, roles: set<Role>, role: Role)
    requires Represents(mask, roles)
    ensures Represents(Union(mask, Bit(role)), roles + {role})
  {
    forall other: Role
      ensures (mask | Bit(role)) & Bit(other) != 0 <==> other in roles + {role}
    {
      assert mask & Bit(other) != 0 <==> other in roles;
    }
  }

  lemma RepresentsUnion(a: Mask, b: Mask, left: set<Role>, right: set<Role>)
    requires Represents(a, left) && Represents(b, right)
    ensures Represents(Union(a, b), left + right)
  {
    forall role: Role
      ensures (a | b) & Bit(role) != 0 <==> role in left + right
    {
      assert a & Bit(role) != 0 <==> role in left;
      assert b & Bit(role) != 0 <==> role in right;
    }
  }

  lemma RepresentsNone(mask: Mask, roles: set<Role>)
    requires Represents(mask, roles)
    ensures mask == 0 <==> roles == {}
  {
    assert mask & Bit(Viewer) != 0 <==> Viewer in roles;
    assert mask & Bit(Developer) != 0 <==> Developer in roles;
    assert mask & Bit(Operator) != 0 <==> Operator in roles;
    assert mask & Bit(WorkspaceAdministrator) != 0 <==> WorkspaceAdministrator in roles;
  }

  datatype Compiled = Compiled(all: Mask, workspace: Mask, environments: map<Id, Mask>) {
    /** Reading a missing key of a Go map gives the zero mask. */
    function At(environment: Id): Mask {
      if environment in environments then environments[environment] else 0
    }
  }

  const NOTHING := Compiled(0, 0, map[])

  function Flatten(policies: seq<PolicyRevision>): seq<RoleBinding> {
    if policies == [] then [] else Flatten(policies[..|policies| - 1]) + policies[|policies| - 1].spec.List()
  }

  /** One more binding for one member. */
  function Bound(before: Compiled, b: RoleBinding): Compiled {
    var counted := before.(all := Union(before.all, Bit(b.role)));
    match b.scope.kind
    case WorkspaceScope => counted.(workspace := Union(counted.workspace, Bit(b.role)))
    case EnvironmentScope =>
      var e := ScopeEnvironment(b.scope);
      counted.(environments := counted.environments[e := Union(counted.At(e), Bit(b.role))])
  }

  function MasksOf(compiled: map<Id, Compiled>, member: Id): Compiled {
    if member in compiled then compiled[member] else NOTHING
  }

  function CompileOne(compiled: map<Id, Compiled>, b: RoleBinding): map<Id, Compiled> {
    compiled[b.member := Bound(MasksOf(compiled, b.member), b)]
  }

  function Compile(bindings: seq<RoleBinding>): map<Id, Compiled> {
    if bindings == [] then map[] else CompileOne(Compile(bindings[..|bindings| - 1]), bindings[|bindings| - 1])
  }

  lemma CompileMore(done: seq<RoleBinding>, bindings: seq<RoleBinding>, j: nat)
    requires j < |bindings|
    ensures Compile(done + bindings[..j + 1]) == CompileOne(Compile(done + bindings[..j]), bindings[j])
  {
    var next := done + bindings[..j + 1];
    assert next[..|next| - 1] == done + bindings[..j];
  }

  lemma FlattenMore(policies: seq<PolicyRevision>, i: nat)
    requires i < |policies|
    ensures Flatten(policies[..i + 1]) == Flatten(policies[..i]) + policies[i].spec.List()
  {
    assert policies[..i + 1][..i] == policies[..i];
  }

  /** compilePolicyBindings; an environment binding names its environment, or Go would stop at the nil pointer. */
  method CompilePolicyBindings(policies: seq<PolicyRevision>) returns (compiled: map<Id, Compiled>)
    requires forall b | b in Flatten(policies) && b.scope.kind.EnvironmentScope? :: b.scope.environment.Some?
    ensures compiled == Compile(Flatten(policies))
  {
    compiled := map[];
    for i := 0 to |policies|
      invariant compiled == Compile(Flatten(policies[..i]))
    {
      var bindings := policies[i].spec.List();
      ghost var done := Flatten(policies[..i]);
      FlattenMore(policies, i);
      assert done + bindings[..0] == done;
      for j := 0 to |bindings|
        invariant compiled == Compile(done + bindings[..j])
      {
        CompileMore(done, bindings, j);
        compiled := CompileBinding(compiled, bindings[j]);
      }
      assert bindings[..|bindings|] == bindings;
    }
    assert policies[..|policies|] == policies;
  }

  method CompileBinding(compiled: map<Id, Compiled>, b: RoleBinding) returns (r: map<Id, Compiled>)
    ensures r == CompileOne(compiled, b)
  {
    hide Bit, Union;
    var member := if b.member in compiled then compiled[b.member] else NOTHING;
    assert member == MasksOf(compiled, b.member);
    member := BindMember(member, b);
    r := compiled[b.member := member];
  }

  /** The bits of one binding are set in place. */
  method BindMember(before: Compiled, b: RoleBinding) returns (member: Compiled)
    ensures member == Bound(before, b)
  {
    hide Bit, Union;
    member := before;
    var bit := Bit(b.role);
    member := member.(all := Union(member.all, bit));
    match b.scope.kind
    case WorkspaceScope =>
      member := member.(workspace := Union(member.workspace, bit));
    case EnvironmentScope =>
      var e := ScopeEnvironment(b.scope);
      member := member.(environments := member.environments[e := Union(member.At(e), bit)]);
  }

  // ----- What the masks mean

  ghost function RolesOf(bindings: seq<RoleBinding>, member: Id): set<Role> {
    set b | b in bindings && b.member == member :: b.role
  }

  ghost function WorkspaceRolesOf(bindings: seq<RoleBinding>, member: Id): set<Role> {
    set b | b in bindings && b.member == member && b.scope.kind.WorkspaceScope? :: b.role
  }

  ghost function EnvironmentRolesOf(bindings: seq<RoleBinding>, member: Id, e: Id): set<Role> {
    set b | b in bindings && b.member == member && b.scope.kind.EnvironmentScope? && ScopeEnvironment(b.scope) == e ::
      b.role
  }

  ghost predicate Means(c: Compiled, bindings: seq<RoleBinding>, member: Id, e: Id) {
    && Represents(c.all, RolesOf(bindings, member))
    && Represents(c.workspace, WorkspaceRolesOf(bindings, member))
    && Represents(c.At(e), EnvironmentRolesOf(bindings, member, e))
  }

  lemma BoundMeans(c: Compiled, rest: seq<RoleBinding>, b: RoleBinding, e: Id)
    requires Means(c, rest, b.member, e)
    ensures Means(Bound(c, b), rest + [b], b.member, e)
  {
    hide Represents, Union, Bit, RolesOf, WorkspaceRolesOf, EnvironmentRolesOf;
    AddsRole(rest, b, b.member, e);
    RepresentsMore(c.all, RolesOf(rest, b.member), b.role);
    if b.scope.kind.WorkspaceScope? {
      RepresentsMore(c.workspace, WorkspaceRolesOf(rest, b.member), b.role);
    } else if ScopeEnvironment(b.scope) == e {
      RepresentsMore(c.At(e), EnvironmentRolesOf(rest, b.member, e), b.role);
    }
  }

  /** Every mask of the compiled bindings is the set of roles that the plain list gives. */
  lemma {:induction false} CompiledMeaning(bindings: seq<RoleBinding>, member: Id, e: Id)
    ensures Means(MasksOf(Compile(bindings), member), bindings, member, e)
  {
    if bindings == [] {
      ZeroRepresents();
    } else {
      var n := |bindings| - 1;
      var rest, b := bindings[..n], bindings[n];
      CompiledMeaning(rest, member, e);
      assert bindings == rest + [b];
      if b.member == member {
        BoundMeans(MasksOf(Compile(rest), member), rest, b, e);
      } else {
        OthersAreUntouched(rest, b, member, e);
      }
    }
  }

  lemma OthersAreUntouched(rest: seq<RoleBinding>, b: RoleBinding, member: Id, e: Id)
    requires b.member != member && Means(MasksOf(Compile(rest), member), rest, member, e)
    ensures Means(MasksOf(Compile(rest + [b]), member), rest + [b], member, e)
  {
    hide Represents, Union, Bit, RolesOf, WorkspaceRolesOf, EnvironmentRolesOf;
    AddsRole(rest, b, member, e);
    assert (rest + [b])[..|rest|] == rest;
  }

  lemma ZeroRepresents()
    ensures Represents(0, {})
  {
  }

  lemma AddsRole(rest: seq<RoleBinding>, b: RoleBinding, member: Id, e: Id)
    ensures RolesOf(rest + [b], member) == if b.member == member then RolesOf(rest, member) + {b.role}
                                           else RolesOf(rest, member)
    ensures WorkspaceRolesOf(rest + [b], member) ==
            if b.member == member && b.scope.kind.WorkspaceScope? then WorkspaceRolesOf(rest, member) + {b.role}
            else WorkspaceRolesOf(rest, member)
    ensures EnvironmentRolesOf(rest + [b], member, e) ==
            if b.member == member && b.scope.kind.EnvironmentScope? && ScopeEnvironment(b.scope) == e
            then EnvironmentRolesOf(rest, member, e) + {b.role} else EnvironmentRolesOf(rest, member, e)
  {
    assert forall x :: x in rest + [b] <==> x in rest || x == b;
  }

  // ----- The evaluator

  datatype PolicySet = PolicySet(
    workspace: Id, directory: Directory, policies: seq<PolicyRevision>, bindings: map<Id, Compiled>, version: Digest)

  datatype Input = Input(principal: Identity, action: Action, target: Target)

  datatype Effect = Allow | Deny

  datatype Reason =
    | CrossWorkspace | ReservedAction | NoMembership | NoRoleBinding | ScopeNotGranted | ActionNotGranted | RoleGranted

  datatype Decision = Decision(effect: Effect, reason: Reason)

  /** ValidateTarget. */
  predicate ValidTarget(t: Target) {
    && ValidId(t.objectId) && ValidId(t.resourceId) && ValidId(t.workspace)
    && (t.resourceKind.Workspace? ==> t.resourceId == t.workspace)
    && (t.environment.Some? <==> t.resourceKind.Environment? || t.resourceKind.Application? || t.resourceKind.Component?
                                 || t.resourceKind.ProviderConnection?)
    && (t.environment.Some? ==> ValidId(t.environment.value))
    && (t.provider.Some? ==> t.environment.Some? && ValidId(t.provider.value))
    && match t.objectKind
       case ResourceObject => t.objectId == t.resourceId && t.provider.None?
       case MembershipObject => t.resourceKind.Workspace? && t.resourceId == t.workspace && t.provider.None?
       case AuditObject => t.provider.None?
       case _ => true
  }

  predicate ValidInput(world: World, input: Input) {
    world.validPrincipal(input.principal) && ValidTarget(input.target)
  }

  /** roleMask.roles: the roles of a mask in the order of the vocabulary. */
  function RolesIn(mask: Mask): seq<Role> {
    (if mask & Bit(Viewer) != 0 then [Viewer] else []) +
    (if mask & Bit(Developer) != 0 then [Developer] else []) +
    (if mask & Bit(Operator) != 0 then [Operator] else []) +
    (if mask & Bit(WorkspaceAdministrator) != 0 then [WorkspaceAdministrator] else [])
  }

  lemma RolesInMask(mask: Mask, role: Role)
    ensures role in RolesIn(mask) <==> mask & Bit(role) != 0
  {
  }

  function GrantedRoles(compiled: Compiled, target: Target): Mask {
    if target.environment.Some? then Union(compiled.workspace, compiled.At(target.environment.value))
    else compiled.workspace
  }

  predicate SelfRead(input: Input, member: Id) {
    input.action.MembershipGet? && input.target.objectKind.MembershipObject? && input.target.objectId == member
  }

  /** What the masks of a member decide. */
  function EvaluateMember(policySet: PolicySet, input: Input, member: Member): Decision {
    var compiled := MasksOf(policySet.bindings, member.id);
    var roles := GrantedRoles(compiled, input.target);
    if SelfRead(input, member.id) then Decision(Allow, RoleGranted)
    else if member.id !in policySet.bindings || compiled.all == 0 then Decision(Deny, NoRoleBinding)
    else if roles == 0 then Decision(Deny, ScopeNotGranted)
    else if exists i :: 0 <= i < |RolesIn(roles)| && RoleAllows(RolesIn(roles)[i], input.action, input.target) then
      Decision(Allow, RoleGranted)
    else Decision(Deny, ActionNotGranted)
  }

  /** PolicySet.Evaluate; an invalid input gets no decision at all. */
  function Evaluate(world: World, policySet: PolicySet, input: Input): Option<Decision> {
    if policySet.directory.workspace != policySet.workspace || !ValidInput(world, input) then None
    else Some(
      if input.target.workspace != policySet.workspace then Decision(Deny, CrossWorkspace)
      else if Reserved(input.action, input.target) then Decision(Deny, ReservedAction)
      else if input.principal !in policySet.directory.byIdentity then Decision(Deny, NoMembership)
      else
        var id := policySet.directory.byIdentity[input.principal];
        if id !in policySet.directory.byId || policySet.directory.byId[id].identity != input.principal then
          Decision(Deny, NoMembership)
        else EvaluateMember(policySet, input, policySet.directory.byId[id]))
  }

  // ----- What the evaluator decides

  /** A policy set as its constructor leaves it. */
  ghost predicate WellBuilt(world: World, policySet: PolicySet) {
    && ValidDirectory(world, policySet.directory)
    && policySet.workspace == policySet.directory.workspace
    && policySet.bindings == Compile(Flatten(policySet.policies))
    && forall i :: 0 <= i < |policySet.policies| ==> ValidRevision(world, policySet.directory, policySet.policies[i])
  }

  ghost predicate IsMember(policySet: PolicySet, principal: Identity, member: Member) {
    member in policySet.directory.ordered && member.identity == principal
  }

  /** The plain list binds the member. */
  ghost predicate Binds(policySet: PolicySet, b: RoleBinding, member: Member) {
    b in Flatten(policySet.policies) && b.member == member.id
  }

  /** A workspace binding covers everything; an environment binding covers what is in that environment. */
  predicate Covers(b: RoleBinding, target: Target) {
    b.scope.kind.WorkspaceScope? || (target.environment.Some? && ScopeEnvironment(b.scope) == target.environment.value)
  }

  ghost predicate SomeBinding(policySet: PolicySet, member: Member) {
    exists b :: Binds(policySet, b, member)
  }

  ghost predicate SomeCovering(policySet: PolicySet, member: Member, target: Target) {
    exists b :: Binds(policySet, b, member) && Covers(b, target)
  }

  ghost predicate SomeGranting(policySet: PolicySet, member: Member, input: Input) {
    exists b :: Binds(policySet, b, member) && Covers(b, input.target) && RoleAllows(b.role, input.action, input.target)
  }

  lemma {:induction false} CompiledMembers(bindings: seq<RoleBinding>, member: Id)
    ensures member in Compile(bindings) <==> exists b :: b in bindings && b.member == member
  {
    if bindings != [] {
      var n := |bindings| - 1;
      CompiledMembers(bindings[..n], member);
      assert bindings == bindings[..n] + [bindings[n]];
      assert forall x :: x in bindings <==> x in bindings[..n] || x == bindings[n];
    }
  }

  /** The roles a target may draw on are those of the covering bindings. */
  lemma GrantedRolesAreCovering(bindings: seq<RoleBinding>, member: Id, target: Target, role: Role)
    ensures var roles := GrantedRoles(MasksOf(Compile(bindings), member), target);
            && roles < 16
            && (roles & Bit(role) != 0 <==> exists b ::
                b in bindings && b.member == member && Covers(b, target) && b.role == role)
  {
    var c := MasksOf(Compile(bindings), member);
    var e := if target.environment.Some? then target.environment.value else [];
    CompiledMeaning(bindings, member, e);
    RepresentsUnion(c.workspace, c.At(e), WorkspaceRolesOf(bindings, member), EnvironmentRolesOf(bindings, member, e));
    var roles := GrantedRoles(c, target);
    var expected := if target.environment.Some? then
                      WorkspaceRolesOf(bindings, member) + EnvironmentRolesOf(bindings, member, e)
                    else WorkspaceRolesOf(bindings, member);
    assert Represents(roles, expected);
    assert roles & Bit(role) != 0 <==> role in expected;
  }

  lemma MaskIsSomeRole(mask: Mask)
    requires mask < 16
    ensures mask != 0 <==> exists role :: mask & Bit(role) != 0
  {
    if mask != 0 {
      assert mask & Bit(Viewer) != 0 || mask & Bit(Developer) != 0 || mask & Bit(Operator) != 0
             || mask & Bit(WorkspaceAdministrator) != 0;
    }
  }

  /** The masks of one member decide as the plain list does. */
  lemma MemberDecision(policySet: PolicySet, input: Input, member: Member)
    requires policySet.bindings == Compile(Flatten(policySet.policies)) && !SelfRead(input, member.id)
    ensures EvaluateMember(policySet, input, member) ==
            if !SomeBinding(policySet, member) then Decision(Deny, NoRoleBinding)
            else if !SomeCovering(policySet, member, input.target) then Decision(Deny, ScopeNotGranted)
            else if SomeGranting(policySet, member, input) then Decision(Allow, RoleGranted)
            else Decision(Deny, ActionNotGranted)
  {
    hide Compile, RoleAllows, Covers, RolesIn, GrantedRoles, Bit;
    var bindings := Flatten(policySet.policies);
    var roles := GrantedRoles(MasksOf(policySet.bindings, member.id), input.target);
    SomeBindingIsMask(policySet, member);
    SomeCoveringIsMask(policySet, member, input.target);
    SomeGrantingIsMask(policySet, member, input);
  }

  lemma SomeBindingIsMask(policySet: PolicySet, member: Member)
    requires policySet.bindings == Compile(Flatten(policySet.policies))
    ensures SomeBinding(policySet, member) <==>
            member.id in policySet.bindings && MasksOf(policySet.bindings, member.id).all != 0
  {
    var bindings := Flatten(policySet.policies);
    hide Compile, Flatten, Represents;
    CompiledMembers(bindings, member.id);
    CompiledMeaning(bindings, member.id, []);
    RepresentsNone(MasksOf(policySet.bindings, member.id).all, RolesOf(bindings, member.id));
    if SomeBinding(policySet, member) {
      var b :| Binds(policySet, b, member);
      assert b.role in RolesOf(bindings, member.id);
    }
    if member.id in policySet.bindings {
      var b :| b in bindings && b.member == member.id;
      assert Binds(policySet, b, member);
    }
  }

  lemma SomeCoveringIsMask(policySet: PolicySet, member: Member, target: Target)
    requires policySet.bindings == Compile(Flatten(policySet.policies))
    ensures SomeCovering(policySet, member, target) <==>
            GrantedRoles(MasksOf(policySet.bindings, member.id), target) != 0
  {
    var bindings := Flatten(policySet.policies);
    var roles := GrantedRoles(MasksOf(policySet.bindings, member.id), target);
    hide Compile, Flatten, GrantedRoles, Covers;
    GrantedRolesAreCovering(bindings, member.id, target, Viewer);
    MaskIsSomeRole(roles);
    if SomeCovering(policySet, member, target) {
      var b :| Binds(policySet, b, member) && Covers(b, target);
      GrantedRolesAreCovering(bindings, member.id, target, b.role);
    }
    if roles != 0 {
      var role :| roles & Bit(role) != 0;
      GrantedRolesAreCovering(bindings, member.id, target, role);
      var b :| b in bindings && b.member == member.id && Covers(b, target) && b.role == role;
      assert Binds(policySet, b, member);
    }
  }

  lemma SomeGrantingIsMask(policySet: PolicySet, member: Member, input: Input)
    requires policySet.bindings == Compile(Flatten(policySet.policies))
    ensures var roles := GrantedRoles(MasksOf(policySet.bindings, member.id), input.target);
            SomeGranting(policySet, member, input) <==>
            exists i :: 0 <= i < |RolesIn(roles)| && RoleAllows(RolesIn(roles)[i], input.action, input.target)
  {
    var bindings := Flatten(policySet.policies);
    var roles := GrantedRoles(MasksOf(policySet.bindings, member.id), input.target);
    hide Compile, Flatten, GrantedRoles, Covers, RoleAllows, RolesIn, Bit;
    if SomeGranting(policySet, member, input) {
      var b :| Binds(policySet, b, member) && Covers(b, input.target) && RoleAllows(b.role, input.action, input.target);
      GrantedRolesAreCovering(bindings, member.id, input.target, b.role);
      RolesInMask(roles, b.role);
      var i :| 0 <= i < |RolesIn(roles)| && RolesIn(roles)[i] == b.role;
    }
    if i :| 0 <= i < |RolesIn(roles)| && RoleAllows(RolesIn(roles)[i], input.action, input.target) {
      var role := RolesIn(roles)[i];
      RolesInMask(roles, role);
      GrantedRolesAreCovering(bindings, member.id, input.target, role);
      var b :| b in bindings && b.member == member.id && Covers(b, input.target) && b.role == role;
      assert Binds(policySet, b, member);
    }
  }

  /** The plain binding list, read in the documented order of reasons. */
  ghost predicate Decides(policySet: PolicySet, input: Input, d: Decision) {
    if input.target.workspace != policySet.workspace then d == Decision(Deny, CrossWorkspace)
    else if Reserved(input.action, input.target) then d == Decision(Deny, ReservedAction)
    else if !exists m :: IsMember(policySet, input.principal, m) then d == Decision(Deny, NoMembership)
    else forall m | IsMember(policySet, input.principal, m) ::
      if SelfRead(input, m.id) then d == Decision(Allow, RoleGranted)
      else if !SomeBinding(policySet, m) then d == Decision(Deny, NoRoleBinding)
      else if !SomeCovering(policySet, m, input.target) then d == Decision(Deny, ScopeNotGranted)
      else if SomeGranting(policySet, m, input) then d == Decision(Allow, RoleGranted)
      else d == Decision(Deny, ActionNotGranted)
  }

  /** Evaluate decides every valid input as the plain binding list does, reason included. */
  lemma EvaluateAgrees(world: World, policySet: PolicySet, input: Input)
    requires WellBuilt(world, policySet) && ValidInput(world, input)
    ensures Evaluate(world, policySet, input).Some?
            && Decides(policySet, input, Evaluate(world, policySet, input).value)
  {
    hide ValidDirectory, ValidInput, ValidRevision, Compile, Flatten, EvaluateMember, Reserved, SelfRead;
    var d := policySet.directory;
    MembersAreIndexed(world, d);
    if input.principal in d.byIdentity {
      IdentityIndexIsExact(world, d, input.principal);
      var member := d.byId[d.byIdentity[input.principal]];
      assert IsMember(policySet, input.principal, member);
      forall m | IsMember(policySet, input.principal, m)
        ensures m == member
      {
        IdentityIsUnique(world, d, m, member);
      }
      if SelfRead(input, member.id) {
        SelfReadIsAllowed(policySet, input, member);
      } else {
        MemberDecision(policySet, input, member);
      }
    }
  }

  lemma MembersAreIndexed(world: World, d: Directory)
    requires ValidDirectory(world, d)
    ensures forall m | m in d.ordered :: m.identity in d.byIdentity
  {
    hide ValidId, ValidMember, BytesLess;
    forall m | m in d.ordered
      ensures m.identity in d.byIdentity
    {
      assert Indexed(d, m);
    }
  }

  lemma SelfReadIsAllowed(policySet: PolicySet, input: Input, member: Member)
    requires SelfRead(input, member.id)
    ensures EvaluateMember(policySet, input, member) == Decision(Allow, RoleGranted)
  {
  }

  lemma GrantingCovers(policySet: PolicySet, member: Member, input: Input)
    requires SomeGranting(policySet, member, input)
    ensures SomeCovering(policySet, member, input.target) && SomeBinding(policySet, member)
  {
    hide Binds, Covers, RoleAllows;
  }

  /** Allowed exactly for a member's own membership, or when a covering binding of the member grants the action. */
  lemma AllowedExactly(world: World, policySet: PolicySet, input: Input)
    requires WellBuilt(world, policySet) && ValidInput(world, input)
    ensures Evaluate(world, policySet, input).Some?
    ensures Evaluate(world, policySet, input).value.effect.Allow? <==>
            && input.target.workspace == policySet.workspace
            && !Reserved(input.action, input.target)
            && exists m ::
               IsMember(policySet, input.principal, m) && (SelfRead(input, m.id) || SomeGranting(policySet, m, input))
  {
    hide Evaluate, ValidInput, WellBuilt, Reserved, SelfRead, IsMember, SomeGranting, SomeCovering, SomeBinding;
    EvaluateAgrees(world, policySet, input);
    if m :| IsMember(policySet, input.principal, m) && SomeGranting(policySet, m, input) {
      GrantingCovers(policySet, m, input);
    }
  }

  /** More policies over the same directory never take a permission away. */
  lemma MorePoliciesNeverRevoke(world: World, less: PolicySet, more: PolicySet, input: Input)
    requires WellBuilt(world, less) && WellBuilt(world, more) && ValidInput(world, input)
    requires less.directory == more.directory && forall b | b in Flatten(less.policies) :: b in Flatten(more.policies)
    requires Evaluate(world, less, input).value.effect.Allow?
    ensures Evaluate(world, more, input).value.effect.Allow?
  {
    AllowedExactly(world, less, input);
    AllowedExactly(world, more, input);
    hide Evaluate, ValidInput, Reserved, SelfRead;
    var m :| IsMember(less, input.principal, m) && (SelfRead(input, m.id) || SomeGranting(less, m, input));
    if SomeGranting(less, m, input) {
      var b :| Binds(less, b, m) && Covers(b, input.target) && RoleAllows(b.role, input.action, input.target);
      assert Binds(more, b, m);
    }
    assert IsMember(more, input.principal, m);
  }

  lemma {:induction false} BindingIsChecked(world: World, d: Directory, policies: seq<PolicyRevision>, b: RoleBinding)
    requires forall i :: 0 <= i < |policies| ==> ValidRevision(world, d, policies[i])
    requires b in Flatten(policies)
    ensures ValidBinding(b) && ReferencesOk(world, d, b)
  {
    hide ValidBinding, ReferencesOk;
    var n := |policies| - 1;
    if b in policies[n].spec.List() {
      var i :| 0 <= i < |policies[n].spec.List()| && policies[n].spec.List()[i] == b;
      assert ValidRevision(world, d, policies[n]);
    } else {
      BindingIsChecked(world, d, policies[..n], b);
    }
  }

  /** The binding makes the member an administrator of the whole workspace. */
  ghost predicate AdministersAll(policySet: PolicySet, b: RoleBinding, m: Member) {
    Binds(policySet, b, m) && b.role == WorkspaceAdministrator && b.scope == Scope(WorkspaceScope, None)
  }

  /** Policies, the workspace itself and its members are changed only by people who administer the whole workspace. */
  lemma AdministrationIsHuman(world: World, policySet: PolicySet, input: Input)
    requires WellBuilt(world, policySet) && ValidInput(world, input)
    requires Administrative(input.action, input.target) && Evaluate(world, policySet, input).value.effect.Allow?
    ensures input.principal.kind.Human?
    ensures exists m, b :: IsMember(policySet, input.principal, m) && AdministersAll(policySet, b, m)
  {
    AllowedExactly(world, policySet, input);
    hide Evaluate, ValidInput, Reserved;
    var m :| IsMember(policySet, input.principal, m) && (SelfRead(input, m.id) || SomeGranting(policySet, m, input));
    var b :| Binds(policySet, b, m) && Covers(b, input.target) && RoleAllows(b.role, input.action, input.target);
    AdministrationNeedsAdministrator(b.role, input.action, input.target);
    BindingIsChecked(world, policySet.directory, policySet.policies, b);
    IndexedById(world, policySet.directory, m);
    assert AdministersAll(policySet, b, m);
  }

  lemma IndexedById(world: World, d: Directory, m: Member)
    requires ValidDirectory(world, d) && m in d.ordered
    ensures m.id in d.byId && d.byId[m.id] == m
  {
    hide ValidId, ValidMember, BytesLess;
    assert Indexed(d, m);
  }

  /** Nothing in a built set reaches outside its workspace: neither its policies nor the members and environments that
      they bind. */
  lemma NothingReachesOutside(world: World, policySet: PolicySet)
    requires WellBuilt(world, policySet)
    ensures forall p | p in policySet.policies :: p.record.kind.Policy? && p.record.workspace == world.workspace
    ensures forall b | b in Flatten(policySet.policies) ::
              && b.member in policySet.directory.byId
              && policySet.directory.byId[b.member].workspace == policySet.workspace
              && (b.scope.kind.EnvironmentScope? ==>
                    && b.scope.environment.Some?
                    && var found := world.lookup(b.scope.environment.value);
                       found.Some? && found.value.kind.Environment? && found.value.workspace == policySet.workspace)
  {
    hide ValidDirectory, ValidId, BindingLess, Compile;
    forall b | b in Flatten(policySet.policies)
      ensures ValidBinding(b) && ReferencesOk(world, policySet.directory, b)
    {
      BindingIsChecked(world, policySet.directory, policySet.policies, b);
    }
  }

  // ----- The canonical order of bindings

  lemma BindingLessTotal(a: RoleBinding, b: RoleBinding)
    requires ValidBinding(a) && ValidBinding(b)
    ensures a == b || BindingLess(a, b) || BindingLess(b, a)
    ensures !(BindingLess(a, b) && BindingLess(b, a)) && (a == b ==> !BindingLess(a, b))
  {
    hide BytesLess, ValidId;
    BytesLessTotal(a.member, b.member);
    BytesLessTotal(ScopeText(a.scope.kind), ScopeText(b.scope.kind));
    BytesLessTotal(ScopeEnvironment(a.scope), ScopeEnvironment(b.scope));
    BytesLessTotal(RoleText(a.role), RoleText(b.role));
  }

  lemma BindingLessTransitive(a: RoleBinding, b: RoleBinding, c: RoleBinding)
    requires BindingLess(a, b) && BindingLess(b, c)
    ensures BindingLess(a, c)
  {
    hide BytesLess;
    BytesLessTotal(a.member, b.member);
    BytesLessTotal(b.member, c.member);
    BytesLessTotal(ScopeText(a.scope.kind), ScopeText(b.scope.kind));
    BytesLessTotal(ScopeText(b.scope.kind), ScopeText(c.scope.kind));
    BytesLessTotal(ScopeEnvironment(a.scope), ScopeEnvironment(b.scope));
    BytesLessTotal(ScopeEnvironment(b.scope), ScopeEnvironment(c.scope));
    if a.member != b.member && b.member != c.member {
      BytesLessTransitive(a.member, b.member, c.member);
    } else if a.member == b.member == c.member {
      ScopeThenRole(a, b, c);
    }
  }

  lemma ScopeThenRole(a: RoleBinding, b: RoleBinding, c: RoleBinding)
    requires a.member == b.member == c.member && BindingLess(a, b) && BindingLess(b, c)
    ensures BindingLess(a, c)
  {
    hide BytesLess, ScopeText, ScopeEnvironment, RoleText;
    var x, y, z := ScopeText(a.scope.kind), ScopeText(b.scope.kind), ScopeText(c.scope.kind);
    BytesLessTotal(x, y);
    BytesLessTotal(y, z);
    if a.scope.kind != b.scope.kind && b.scope.kind != c.scope.kind {
      BytesLessTransitive(x, y, z);
      BytesLessTotal(x, z);
    } else if a.scope.kind == b.scope.kind == c.scope.kind {
      var e, f, g := ScopeEnvironment(a.scope), ScopeEnvironment(b.scope), ScopeEnvironment(c.scope);
      BytesLessTotal(e, f);
      BytesLessTotal(f, g);
      if e != f && f != g {
        BytesLessTransitive(e, f, g);
        BytesLessTotal(e, g);
      } else if e == f == g {
        BytesLessTransitive(RoleText(a.role), RoleText(b.role), RoleText(c.role));
      }
    }
  }

  predicate InOrder(bindings: seq<RoleBinding>) {
    forall i :: 0 < i < |bindings| ==> BindingLess(bindings[i - 1], bindings[i])
  }

  lemma {:induction false} LastIsGreatest(bindings: seq<RoleBinding>, i: nat)
    requires InOrder(bindings) && i < |bindings| - 1
    ensures BindingLess(bindings[i], bindings[|bindings| - 1])
    decreases |bindings|
  {
    hide BindingLess;
    var n := |bindings| - 1;
    assert BindingLess(bindings[n - 1], bindings[n]);
    if i < n - 1 {
      LastIsGreatest(bindings[..n], i);
      BindingLessTransitive(bindings[i], bindings[n - 1], bindings[n]);
    }
  }

  lemma SameLast(a: seq<RoleBinding>, b: seq<RoleBinding>)
    requires InOrder(a) && InOrder(b) && a != [] && b != [] && a[|a| - 1] in b && b[|b| - 1] in a
    requires (forall i :: 0 <= i < |a| ==> ValidBinding(a[i])) && forall i :: 0 <= i < |b| ==> ValidBinding(b[i])
    ensures a[|a| - 1] == b[|b| - 1]
  {
    hide BindingLess, ValidBinding;
    var x, y := a[|a| - 1], b[|b| - 1];
    var i :| 0 <= i < |b| && b[i] == x;
    var j :| 0 <= j < |a| && a[j] == y;
    if x != y {
      LastIsGreatest(b, i);
      LastIsGreatest(a, j);
      BindingLessTotal(x, y);
    }
  }

  lemma LastAppearsOnce(a: seq<RoleBinding>)
    requires InOrder(a) && a != [] && forall i :: 0 <= i < |a| ==> ValidBinding(a[i])
    ensures a[|a| - 1] !in a[..|a| - 1]
  {
    hide BindingLess, ValidBinding;
    var n := |a| - 1;
    if a[n] in a[..n] {
      var i :| 0 <= i < n && a[..n][i] == a[n];
      LastIsGreatest(a, i);
      BindingLessTotal(a[n], a[n]);
    }
  }

  /** There is one valid way to write down a set of bindings. */
  lemma {:induction false} OrderIsCanonical(a: seq<RoleBinding>, b: seq<RoleBinding>)
    requires InOrder(a) && InOrder(b) && (forall x :: x in a <==> x in b)
    requires (forall i :: 0 <= i < |a| ==> ValidBinding(a[i])) && forall i :: 0 <= i < |b| ==> ValidBinding(b[i])
    ensures a == b
    decreases |a|
  {
    hide BindingLess, ValidBinding;
    if b != [] { assert b[0] in b; }
    if a != [] {
      var x := a[|a| - 1];
      assert x in b;
      assert b[|b| - 1] in a;
      SameLast(a, b);
      LastAppearsOnce(a);
      LastAppearsOnce(b);
      var front, other := a[..|a| - 1], b[..|b| - 1];
      assert a == front + [x] && b == other + [x];
      forall y
        ensures y in front <==> y in other
      {
        assert y in a <==> y in front || y == x;
        assert y in b <==> y in other || y == x;
      }
      OrderIsCanonical(front, other);
    }
  }

  /** Two valid policy specs with the same bindings are the same. */
  lemma SpecsAreCanonical(a: PolicySpec, b: PolicySpec)
    requires ValidSpec(a) && ValidSpec(b) && forall x :: x in a.List() <==> x in b.List()
    ensures a == b
  {
    hide BindingLess, ValidBinding;
    OrderIsCanonical(a.List(), b.List());
  }
}
