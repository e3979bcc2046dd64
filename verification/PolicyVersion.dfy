/** The version of a policy set: framed strings mixed with raw eight-byte counts, hashed; and the constructor. */
module PolicyVersion {
  import opened Hierarchy
  import opened Wrappers
  import opened Framing
  import opened Ordering
  import opened RoleMatrix
  import opened PolicySet

  const VERSION_DOMAIN := "veer.authorization.policy-set.v1"
  const CONTRACT_VERSION := "veer.authorization.v1alpha1"

  function KindText(kind: PrincipalKind): (r: Text)
    ensures |r| == if kind.Human? then 5 else 8
  {
    if kind.Human? then Ascii("human") else Ascii("workload")
  }

  /** A signed 64-bit integer in two's complement. */
  function I64(n: int): Bytes
    requires -0x8000_0000_0000_0000 <= n < 0x8000_0000_0000_0000
  {
    U64(if n < 0 then n + TWO64 else n)
  }

  // ----- The message

  function MemberMessage(m: Member): Bytes {
    Frame(m.id) + Frame(KindText(m.identity.kind)) + Frame(m.identity.issuer) + Frame(m.identity.subject)
  }

  function MembersMessage(members: seq<Member>): Bytes {
    if members == [] then [] else MembersMessage(members[..|members| - 1]) + MemberMessage(members[|members| - 1])
  }

  function BindingMessage(b: RoleBinding): Bytes {
    Frame(b.member) + Frame(RoleText(b.role)) + Frame(ScopeText(b.scope.kind)) + Frame(ScopeEnvironment(b.scope))
  }

  function BindingsMessage(bindings: seq<RoleBinding>): Bytes {
    if bindings == [] then []
    else BindingsMessage(bindings[..|bindings| - 1]) + BindingMessage(bindings[|bindings| - 1])
  }

  predicate Encodable(p: PolicyRevision) {
    1 <= p.generation < 0x8000_0000_0000_0000 && |p.spec.List()| <= MAX_BINDINGS
  }

  function PolicyMessage(p: PolicyRevision): Bytes
    requires Encodable(p)
  {
    Frame(p.record.id) + I64(p.generation) + U64(|p.spec.List()|) + BindingsMessage(p.spec.List())
  }

  predicate AllEncodable(policies: seq<PolicyRevision>) {
    forall i :: 0 <= i < |policies| ==> Encodable(policies[i])
  }

  function PoliciesMessage(policies: seq<PolicyRevision>): Bytes
    requires AllEncodable(policies)
  {
    if policies == [] then [] else PoliciesMessage(policies[..|policies| - 1]) + PolicyMessage(policies[|policies| - 1])
  }

  predicate VersionOk(members: seq<Member>, policies: seq<PolicyRevision>) {
    |members| <= MAX_MEMBERS && |policies| <= MAX_POLICIES && AllEncodable(policies)
  }

  function Header(): Bytes {
    Frame(Ascii(VERSION_DOMAIN)) + Frame(Ascii(CONTRACT_VERSION))
  }

  /** What derivePolicyVersion feeds to the hash. */
  function VersionMessage(workspace: Id, members: seq<Member>, policies: seq<PolicyRevision>): Bytes
    requires VersionOk(members, policies)
  {
    Header() + Frame(workspace) + U64(|members|) + MembersMessage(members) + U64(|policies|) + PoliciesMessage(policies)
  }

  lemma Assoc(a: Bytes, b: Bytes, c: Bytes)
    ensures a + b + c == a + (b + c)
  {
  }

  lemma Nest(a: Bytes, b: Bytes, c: Bytes, d: Bytes, e: Bytes, f: Bytes)
    ensures a + b + c + d + e + f == a + (b + (c + (d + (e + f))))
  {
    Assoc(a + b + c + d, e, f);
    Assoc(a + b + c, d, e + f);
    Assoc(a + b, c, d + (e + f));
    Assoc(a, b, c + (d + (e + f)));
  }

  method FeedMembers(start: Bytes, members: seq<Member>) returns (fed: Bytes)
    ensures fed == start + MembersMessage(members)
  {
    fed := start;
    for i := 0 to |members|
      invariant fed == start + MembersMessage(members[..i])
    {
      assert members[..i + 1][..i] == members[..i];
      Assoc(start, MembersMessage(members[..i]), MemberMessage(members[i]));
      fed := fed + MemberMessage(members[i]);
    }
    assert members[..|members|] == members;
  }

  method FeedBindings(start: Bytes, bindings: seq<RoleBinding>) returns (fed: Bytes)
    ensures fed == start + BindingsMessage(bindings)
  {
    fed := start;
    for i := 0 to |bindings|
      invariant fed == start + BindingsMessage(bindings[..i])
    {
      assert bindings[..i + 1][..i] == bindings[..i];
      Assoc(start, BindingsMessage(bindings[..i]), BindingMessage(bindings[i]));
      fed := fed + BindingMessage(bindings[i]);
    }
    assert bindings[..|bindings|] == bindings;
  }

  method FeedPolicies(start: Bytes, policies: seq<PolicyRevision>) returns (fed: Bytes)
    requires AllEncodable(policies)
    ensures fed == start + PoliciesMessage(policies)
  {
    fed := start;
    for i := 0 to |policies|
      invariant fed == start + PoliciesMessage(policies[..i])
    {
      assert policies[..i + 1][..i] == policies[..i];
      var bindings := policies[i].spec.List();
      ghost var before := fed;
      var opening := Frame(policies[i].record.id) + I64(policies[i].generation) + U64(|bindings|);
      fed := FeedBindings(fed + opening, bindings);
      Assoc(before, opening, BindingsMessage(bindings));
      Assoc(start, PoliciesMessage(policies[..i]), PolicyMessage(policies[i]));
    }
    assert policies[..|policies|] == policies;
  }

  /** derivePolicyVersion: the hasher is fed piece by piece. */
  method DerivePolicyVersion(hash: Bytes -> Digest, workspace: Id, members: seq<Member>, policies: seq<PolicyRevision>)
    returns (version: Digest)
    requires VersionOk(members, policies)
    ensures version == hash(VersionMessage(workspace, members, policies))
  {
    var fed := Frame(Ascii(VERSION_DOMAIN)) + Frame(Ascii(CONTRACT_VERSION)) + Frame(workspace) + U64(|members|);
    fed := FeedMembers(fed, members);
    fed := FeedPolicies(fed + U64(|policies|), policies);
    return hash(fed);
  }

  // ----- The message determines what it describes

  /** Policies with the same id, generation and bindings look the same to the version. */
  predicate SamePolicy(p: PolicyRevision, q: PolicyRevision) {
    p.record.id == q.record.id && p.generation == q.generation && p.spec.List() == q.spec.List()
  }

  predicate SamePolicies(a: seq<PolicyRevision>, b: seq<PolicyRevision>) {
    |a| == |b| && forall i :: 0 <= i < |a| ==> SamePolicy(a[i], b[i])
  }

  predicate SameMembers(a: seq<Member>, b: seq<Member>) {
    |a| == |b| && forall i :: 0 <= i < |a| ==> a[i].id == b[i].id && a[i].identity == b[i].identity
  }

  predicate ValidBindings(bindings: seq<RoleBinding>) {
    forall i :: 0 <= i < |bindings| ==> ValidBinding(bindings[i])
  }

  predicate AllValidBindings(policies: seq<PolicyRevision>) {
    forall i :: 0 <= i < |policies| ==> ValidBindings(policies[i].spec.List())
  }

  /** Four frames at the front of a message can be read back. */
  lemma FourFrames(a: Text, b: Text, c: Text, d: Text, x: Bytes, a': Text, b': Text, c': Text, d': Text, y: Bytes)
    requires Frame(a) + Frame(b) + Frame(c) + Frame(d) + x == Frame(a') + Frame(b') + Frame(c') + Frame(d') + y
    ensures a == a' && b == b' && c == c' && d == d' && x == y
  {
    hide Frame;
    assert Frame(a) + (Frame(b) + (Frame(c) + (Frame(d) + x))) == Frame(a) + Frame(b) + Frame(c) + Frame(d) + x;
    assert Frame(a') + (Frame(b') + (Frame(c') + (Frame(d') + y))) == Frame(a') + Frame(b') + Frame(c') + Frame(d') + y;
    FramePrefix(a, Frame(b) + (Frame(c) + (Frame(d) + x)), a', Frame(b') + (Frame(c') + (Frame(d') + y)));
    FramePrefix(b, Frame(c) + (Frame(d) + x), b', Frame(c') + (Frame(d') + y));
    FramePrefix(c, Frame(d) + x, c', Frame(d') + y);
    FramePrefix(d, x, d', y);
  }

  lemma MemberPrefix(m: Member, x: Bytes, n: Member, y: Bytes)
    requires MemberMessage(m) + x == MemberMessage(n) + y
    ensures m.id == n.id && m.identity == n.identity && x == y
  {
    hide Frame, KindText;
    FourFrames(m.id, KindText(m.identity.kind), m.identity.issuer, m.identity.subject, x,
               n.id, KindText(n.identity.kind), n.identity.issuer, n.identity.subject, y);
    assert m.identity.kind == n.identity.kind;
  }

  lemma BindingPrefix(b: RoleBinding, x: Bytes, c: RoleBinding, y: Bytes)
    requires BindingMessage(b) + x == BindingMessage(c) + y && ValidBinding(b) && ValidBinding(c)
    ensures b == c && x == y
  {
    hide Frame, RoleText, ScopeText;
    FourFrames(b.member, RoleText(b.role), ScopeText(b.scope.kind), ScopeEnvironment(b.scope), x,
               c.member, RoleText(c.role), ScopeText(c.scope.kind), ScopeEnvironment(c.scope), y);
    assert b.role == c.role && b.scope.kind == c.scope.kind;
  }

  lemma {:induction false} MembersPrefix(a: seq<Member>, x: Bytes, b: seq<Member>, y: Bytes)
    requires |a| == |b| && MembersMessage(a) + x == MembersMessage(b) + y
    ensures SameMembers(a, b) && x == y
    decreases |a|
  {
    if a == [] {
      assert [] + x == x && [] + y == y;
    } else {
      var n := |a| - 1;
      Assoc(MembersMessage(a[..n]), MemberMessage(a[n]), x);
      Assoc(MembersMessage(b[..n]), MemberMessage(b[n]), y);
      MembersPrefix(a[..n], MemberMessage(a[n]) + x, b[..n], MemberMessage(b[n]) + y);
      MemberPrefix(a[n], x, b[n], y);
      LastMemberToo(a, b);
    }
  }

  lemma LastMemberToo(a: seq<Member>, b: seq<Member>)
    requires a != [] && |a| == |b| && SameMembers(a[..|a| - 1], b[..|a| - 1])
    requires a[|a| - 1].id == b[|a| - 1].id && a[|a| - 1].identity == b[|a| - 1].identity
    ensures SameMembers(a, b)
  {
    forall i | 0 <= i < |a|
      ensures a[i].id == b[i].id && a[i].identity == b[i].identity
    {
      if i < |a| - 1 { assert a[..|a| - 1][i] == a[i] && b[..|a| - 1][i] == b[i]; }
    }
  }

  lemma {:induction false} BindingsPrefix(a: seq<RoleBinding>, x: Bytes, b: seq<RoleBinding>, y: Bytes)
    requires |a| == |b| && ValidBindings(a) && ValidBindings(b) && BindingsMessage(a) + x == BindingsMessage(b) + y
    ensures a == b && x == y
    decreases |a|
  {
    if a == [] {
      assert [] + x == x && [] + y == y;
    } else {
      hide ValidBinding, BindingMessage;
      var n := |a| - 1;
      Assoc(BindingsMessage(a[..n]), BindingMessage(a[n]), x);
      Assoc(BindingsMessage(b[..n]), BindingMessage(b[n]), y);
      BindingsPrefix(a[..n], BindingMessage(a[n]) + x, b[..n], BindingMessage(b[n]) + y);
      BindingPrefix(a[n], x, b[n], y);
      LastBindingToo(a, b);
    }
  }

  lemma LastBindingToo(a: seq<RoleBinding>, b: seq<RoleBinding>)
    requires a != [] && |a| == |b| && a[..|a| - 1] == b[..|a| - 1] && a[|a| - 1] == b[|a| - 1]
    ensures a == b
  {
    assert a == a[..|a| - 1] + [a[|a| - 1]] && b == b[..|a| - 1] + [b[|a| - 1]];
  }

  lemma I64Prefix(n: int, x: Bytes, m: int, y: Bytes)
    requires -0x8000_0000_0000_0000 <= n < 0x8000_0000_0000_0000 && -0x8000_0000_0000_0000 <= m < 0x8000_0000_0000_0000
    requires I64(n) + x == I64(m) + y
    ensures n == m && x == y
  {
    U64Prefix(if n < 0 then n + TWO64 else n, x, if m < 0 then m + TWO64 else m, y);
  }

  lemma PolicyPrefix(p: PolicyRevision, x: Bytes, q: PolicyRevision, y: Bytes)
    requires Encodable(p) && Encodable(q) && ValidBindings(p.spec.List()) && ValidBindings(q.spec.List())
    requires PolicyMessage(p) + x == PolicyMessage(q) + y
    ensures SamePolicy(p, q) && x == y
  {
    hide Frame, I64, U64, BindingsMessage, ValidBindings;
    var bp, bq := BindingsMessage(p.spec.List()), BindingsMessage(q.spec.List());
    var np, nq := U64(|p.spec.List()|), U64(|q.spec.List()|);
    assert Frame(p.record.id) + (I64(p.generation) + (np + (bp + x))) == PolicyMessage(p) + x;
    assert Frame(q.record.id) + (I64(q.generation) + (nq + (bq + y))) == PolicyMessage(q) + y;
    FramePrefix(p.record.id, I64(p.generation) + (np + (bp + x)), q.record.id, I64(q.generation) + (nq + (bq + y)));
    I64Prefix(p.generation, np + (bp + x), q.generation, nq + (bq + y));
    U64Prefix(|p.spec.List()|, bp + x, |q.spec.List()|, bq + y);
    BindingsPrefix(p.spec.List(), x, q.spec.List(), y);
  }

  lemma {:induction false} PoliciesPrefix(a: seq<PolicyRevision>, x: Bytes, b: seq<PolicyRevision>, y: Bytes)
    requires |a| == |b| && AllEncodable(a) && AllEncodable(b) && AllValidBindings(a) && AllValidBindings(b)
    requires PoliciesMessage(a) + x == PoliciesMessage(b) + y
    ensures SamePolicies(a, b) && x == y
    decreases |a|
  {
    if a == [] {
      assert [] + x == x && [] + y == y;
    } else {
      hide ValidBindings, PolicyMessage, SamePolicy;
      var n := |a| - 1;
      Assoc(PoliciesMessage(a[..n]), PolicyMessage(a[n]), x);
      Assoc(PoliciesMessage(b[..n]), PolicyMessage(b[n]), y);
      PoliciesPrefix(a[..n], PolicyMessage(a[n]) + x, b[..n], PolicyMessage(b[n]) + y);
      PolicyPrefix(a[n], x, b[n], y);
      LastPolicyToo(a, b);
    }
  }

  lemma LastPolicyToo(a: seq<PolicyRevision>, b: seq<PolicyRevision>)
    requires a != [] && |a| == |b| && SamePolicies(a[..|a| - 1], b[..|a| - 1]) && SamePolicy(a[|a| - 1], b[|a| - 1])
    ensures SamePolicies(a, b)
  {
    hide SamePolicy;
    forall i | 0 <= i < |a|
      ensures SamePolicy(a[i], b[i])
    {
      if i < |a| - 1 { assert SamePolicy(a[..|a| - 1][i], b[..|a| - 1][i]); }
    }
  }

  lemma {:induction false} SameMembersMessage(a: seq<Member>, b: seq<Member>)
    requires SameMembers(a, b)
    ensures MembersMessage(a) == MembersMessage(b)
  {
    if a != [] {
      var n := |a| - 1;
      SameMembersMessage(a[..n], b[..n]);
    }
  }

  lemma {:induction false} SamePoliciesMessage(a: seq<PolicyRevision>, b: seq<PolicyRevision>)
    requires SamePolicies(a, b) && AllEncodable(a) && AllEncodable(b)
    ensures PoliciesMessage(a) == PoliciesMessage(b)
  {
    if a != [] {
      var n := |a| - 1;
      SamePoliciesMessage(a[..n], b[..n]);
      assert SamePolicy(a[n], b[n]);
    }
  }

  /** The message determines the workspace, the members and the policies. */
  lemma MessageDetermines(w: Id, m: seq<Member>, p: seq<PolicyRevision>, w': Id, m': seq<Member>,
                          p': seq<PolicyRevision>)
    requires VersionOk(m, p) && VersionOk(m', p') && AllValidBindings(p) && AllValidBindings(p')
    requires VersionMessage(w, m, p) == VersionMessage(w', m', p')
    ensures w == w' && SameMembers(m, m') && SamePolicies(p, p')
  {
    var h := Header();
    var n, n', k, k' := U64(|m|), U64(|m'|), U64(|p|), U64(|p'|);
    var mm, mm', pm, pm' := MembersMessage(m), MembersMessage(m'), PoliciesMessage(p), PoliciesMessage(p');
    hide Header, Frame, U64, MembersMessage, PoliciesMessage;
    Nest(h, Frame(w), n, mm, k, pm);
    Nest(h, Frame(w'), n', mm', k', pm');
    SplitEqual(h, Frame(w) + (n + (mm + (k + pm))), h, Frame(w') + (n' + (mm' + (k' + pm'))));
    FramePrefix(w, n + (mm + (k + pm)), w', n' + (mm' + (k' + pm')));
    U64Prefix(|m|, mm + (k + pm), |m'|, mm' + (k' + pm'));
    MembersPrefix(m, k + pm, m', k' + pm');
    U64Prefix(|p|, pm, |p'|, pm');
    assert pm + [] == pm && pm' + [] == pm';
    PoliciesPrefix(p, [], p', []);
  }

  /** Unless the hash collides on the two messages, versions agree exactly when the workspace, the members and
      each policy's id, generation and bindings do. */
  lemma VersionsAgreeExactly(hash: Bytes -> Digest, w: Id, m: seq<Member>, p: seq<PolicyRevision>,
                             w': Id, m': seq<Member>, p': seq<PolicyRevision>)
    requires VersionOk(m, p) && VersionOk(m', p') && AllValidBindings(p) && AllValidBindings(p')
    requires CollisionFree(hash, {VersionMessage(w, m, p), VersionMessage(w', m', p')})
    ensures hash(VersionMessage(w, m, p)) == hash(VersionMessage(w', m', p')) <==>
            w == w' && SameMembers(m, m') && SamePolicies(p, p')
  {
    hide VersionOk, AllValidBindings, SameMembers, SamePolicies;
    if hash(VersionMessage(w, m, p)) == hash(VersionMessage(w', m', p')) {
      MessageDetermines(w, m, p, w', m', p');
    }
    if w == w' && SameMembers(m, m') && SamePolicies(p, p') {
      SameMessages(w, m, p, m', p');
    }
  }

  lemma SameMessages(w: Id, m: seq<Member>, p: seq<PolicyRevision>, m': seq<Member>, p': seq<PolicyRevision>)
    requires VersionOk(m, p) && VersionOk(m', p') && SameMembers(m, m') && SamePolicies(p, p')
    ensures VersionMessage(w, m, p) == VersionMessage(w, m', p')
  {
    SameMembersMessage(m, m');
    SamePoliciesMessage(p, p');
  }

  // ----- NewPolicySet

  datatype SetError =
    | InvalidSnapshot | InvalidDirectory | WorkspaceMismatch | TooManyPolicies | InvalidPolicy(index: nat)
    | DuplicatePolicyId

  datatype Built = Success(value: PolicySet) | Failure(error: SetError)

  /** The first objection to the first n policies. */
  function Objection(world: World, d: Directory, policies: seq<PolicyRevision>, n: nat): Option<SetError>
    requires n <= |policies|
  {
    if n == 0 then None
    else if Objection(world, d, policies, n - 1).Some? then Objection(world, d, policies, n - 1)
    else if !ValidRevision(world, d, policies[n - 1]) then Some(InvalidPolicy(n - 1))
    else if exists i :: 0 <= i < n - 1 && policies[i].record.id == policies[n - 1].record.id then
      Some(DuplicatePolicyId)
    else None
  }

  predicate AllValid(world: World, d: Directory, policies: seq<PolicyRevision>) {
    forall i :: 0 <= i < |policies| ==> ValidRevision(world, d, policies[i])
  }

  lemma {:induction false} NoObjection(world: World, d: Directory, policies: seq<PolicyRevision>, n: nat)
    requires n <= |policies|
    ensures Objection(world, d, policies, n).None? <==>
            AllValid(world, d, policies[..n]) && DistinctKeys(policies[..n], PolicyKey)
  {
    hide ValidRevision;
    if n > 0 {
      NoObjection(world, d, policies, n - 1);
      var before, all := policies[..n - 1], policies[..n];
      assert all == before + [policies[n - 1]];
      if Objection(world, d, policies, n).None? {
        forall i, j | 0 <= i < j < n
          ensures PolicyKey(all[i]) != PolicyKey(all[j])
        {
          if j < n - 1 { assert PolicyKey(before[i]) != PolicyKey(before[j]); }
        }
      }
      if AllValid(world, d, all) && DistinctKeys(all, PolicyKey) {
        assert forall i :: 0 <= i < n - 1 ==> before[i] == all[i];
        assert forall i :: 0 <= i < n - 1 ==> PolicyKey(all[i]) != PolicyKey(all[n - 1]);
      }
    }
  }

  predicate SnapshotOk(world: World) {
    world.lookup(world.workspace).Some? && world.lookup(world.workspace).value.kind.Workspace?
  }

  lemma ValidMeansEncodable(world: World, d: Directory, policies: seq<PolicyRevision>)
    requires AllValid(world, d, policies)
    ensures AllEncodable(policies) && AllValidBindings(policies)
  {
  }

  lemma SortedAreValid(world: World, d: Directory, policies: seq<PolicyRevision>)
    requires AllValid(world, d, policies)
    ensures AllValid(world, d, Sorted(policies, PolicyKey)) && |Sorted(policies, PolicyKey)| == |policies|
  {
    hide ValidRevision, Sorted;
    var owned := Sorted(policies, PolicyKey);
    SortPermutes(policies, PolicyKey);
    forall i | 0 <= i < |owned|
      ensures ValidRevision(world, d, owned[i])
    {
      assert owned[i] in multiset(owned);
      assert owned[i] in policies;
    }
  }

  /** What NewPolicySet accepts. */
  predicate Accepts(world: World, d: Directory, policies: seq<PolicyRevision>) {
    && SnapshotOk(world)
    && ValidDirectory(world, d)
    && d.workspace == world.workspace == world.lookup(world.workspace).value.workspace
    && |policies| <= MAX_POLICIES
    && AllValid(world, d, policies)
    && DistinctKeys(policies, PolicyKey)
  }

  /** The set it builds: the policies in order of their ids, the compiled bindings and the version. */
  function Construct(hash: Bytes -> Digest, world: World, d: Directory, policies: seq<PolicyRevision>): PolicySet
    requires Accepts(world, d, policies)
  {
    var owned := Sorted(policies, PolicyKey);
    SortedAreValid(world, d, policies);
    ValidMeansEncodable(world, d, owned);
    PolicySet(world.workspace, d, owned, Compile(Flatten(owned)), hash(VersionMessage(d.workspace, d.ordered, owned)))
  }

  method CheckPolicies(world: World, d: Directory, policies: seq<PolicyRevision>) returns (objection: Option<SetError>)
    ensures objection == Objection(world, d, policies, |policies|)
  {
    hide ValidRevision;
    var seen: set<Id> := {};
    for i := 0 to |policies|
      invariant Objection(world, d, policies, i).None?
      invariant seen == set k | 0 <= k < i :: policies[k].record.id
    {
      if !ValidRevision(world, d, policies[i]) {
        FirstObjection(world, d, policies, i + 1);
        return Some(InvalidPolicy(i));
      }
      if policies[i].record.id in seen {
        FirstObjection(world, d, policies, i + 1);
        return Some(DuplicatePolicyId);
      }
      seen := seen + {policies[i].record.id};
    }
    return None;
  }

  lemma {:induction false} FirstObjection(world: World, d: Directory, policies: seq<PolicyRevision>, n: nat)
    requires n <= |policies| && Objection(world, d, policies, n).Some?
    ensures Objection(world, d, policies, |policies|) == Objection(world, d, policies, n)
    decreases |policies| - n
  {
    if n < |policies| { FirstObjection(world, d, policies, n + 1); }
  }

  /** The first reason against a set: the snapshot, the directory, their workspace, the count, then the policies. */
  function Refusal(world: World, d: Directory, policies: seq<PolicyRevision>): (refusal: Option<SetError>)
    ensures refusal.None? <==> Accepts(world, d, policies)
  {
    hide ValidDirectory, ValidRevision;
    NoObjection(world, d, policies, |policies|);
    assert policies[..|policies|] == policies;
    if !SnapshotOk(world) then Some(InvalidSnapshot)
    else if !ValidDirectory(world, d) then Some(InvalidDirectory)
    else if !(d.workspace == world.workspace == world.lookup(world.workspace).value.workspace) then
      Some(WorkspaceMismatch)
    else if |policies| > MAX_POLICIES then Some(TooManyPolicies)
    else Objection(world, d, policies, |policies|)
  }

  /** NewPolicySet. */
  method NewPolicySet(hash: Bytes -> Digest, world: World, d: Directory, policies: seq<PolicyRevision>)
    returns (r: Built)
    ensures r.Success? <==> Accepts(world, d, policies)
    ensures r.Success? ==> r.value == Construct(hash, world, d, policies)
    ensures r.Failure? ==> Some(r.error) == Refusal(world, d, policies)
  {
    hide ValidDirectory, ValidRevision, Compile, Flatten, Sorted, VersionMessage;
    var root := world.lookup(world.workspace);
    if root.None? || !root.value.kind.Workspace? { return Failure(InvalidSnapshot); }
    if !ValidDirectory(world, d) { return Failure(InvalidDirectory); }
    if d.workspace != world.workspace || root.value.workspace != d.workspace { return Failure(WorkspaceMismatch); }
    if |policies| > MAX_POLICIES { return Failure(TooManyPolicies); }
    var objection := CheckPolicies(world, d, policies);
    NoObjection(world, d, policies, |policies|);
    assert policies[..|policies|] == policies;
    if objection.Some? { return Failure(objection.value); }
    var owned := Sorted(policies, PolicyKey);
    SortedAreValid(world, d, policies);
    ValidMeansEncodable(world, d, owned);
    MembersAreBounded(world, d);
    EnvironmentsAreNamed(world, d, owned);
    var bindings := CompilePolicyBindings(owned);
    var version := DerivePolicyVersion(hash, d.workspace, d.ordered, owned);
    return Success(PolicySet(world.workspace, d, owned, bindings, version));
  }

  lemma MembersAreBounded(world: World, d: Directory)
    requires ValidDirectory(world, d)
    ensures |d.ordered| <= MAX_MEMBERS
  {
  }

  lemma EnvironmentsAreNamed(world: World, d: Directory, policies: seq<PolicyRevision>)
    requires AllValid(world, d, policies)
    ensures forall b | b in Flatten(policies) && b.scope.kind.EnvironmentScope? :: b.scope.environment.Some?
  {
    forall b | b in Flatten(policies) && b.scope.kind.EnvironmentScope?
      ensures b.scope.environment.Some?
    {
      BindingIsChecked(world, d, policies, b);
    }
  }

  /** What the constructor builds decides as the plain list does. */
  lemma ConstructIsWellBuilt(hash: Bytes -> Digest, world: World, d: Directory, policies: seq<PolicyRevision>)
    requires Accepts(world, d, policies)
    ensures WellBuilt(world, Construct(hash, world, d, policies))
  {
    hide ValidDirectory, ValidRevision, Compile, Flatten, Sorted, VersionMessage;
    SortedAreValid(world, d, policies);
  }

  /** Any order of the same policies is accepted alike and builds the very same set, with one version and one
      decision for every input. */
  lemma OrderOfPoliciesDoesNotMatter(hash: Bytes -> Digest, world: World, d: Directory, a: seq<PolicyRevision>,
                                     b: seq<PolicyRevision>)
    requires multiset(a) == multiset(b)
    ensures Accepts(world, d, a) <==> Accepts(world, d, b)
    ensures Accepts(world, d, a) ==> Construct(hash, world, d, a) == Construct(hash, world, d, b)
  {
    hide ValidDirectory, ValidRevision, Compile, Flatten, Sorted, VersionMessage;
    assert |a| == |multiset(a)| && |b| == |multiset(b)|;
    if Accepts(world, d, a) {
      AcceptanceMoves(world, d, a, b);
      SortForgetsOrder(a, b, PolicyKey);
    }
    if Accepts(world, d, b) { AcceptanceMoves(world, d, b, a); }
  }

  lemma AcceptanceMoves(world: World, d: Directory, a: seq<PolicyRevision>, b: seq<PolicyRevision>)
    requires multiset(a) == multiset(b) && Accepts(world, d, a)
    ensures Accepts(world, d, b)
  {
    hide ValidDirectory, ValidRevision, Sorted;
    assert |a| == |multiset(a)| && |b| == |multiset(b)|;
    forall i | 0 <= i < |b|
      ensures ValidRevision(world, d, b[i])
    {
      assert b[i] in multiset(b);
      assert b[i] in a;
    }
    DistinctMoves(a, b);
  }

  lemma DistinctMoves(a: seq<PolicyRevision>, b: seq<PolicyRevision>)
    requires multiset(a) == multiset(b) && DistinctKeys(a, PolicyKey)
    ensures DistinctKeys(b, PolicyKey)
  {
    forall i, j | 0 <= i < j < |b|
      ensures PolicyKey(b[i]) != PolicyKey(b[j])
    {
      assert b[i] in multiset(b) && b[j] in multiset(b);
      assert b[i] in a && b[j] in a;
      var x :| 0 <= x < |a| && a[x] == b[i];
      var y :| 0 <= y < |a| && a[y] == b[j];
      if x == y {
        TwiceInMultiset(b, i, j);
        OnceInMultiset(a, x);
      } else if x < y {
        assert PolicyKey(a[x]) != PolicyKey(a[y]);
      } else {
        assert PolicyKey(a[y]) != PolicyKey(a[x]);
      }
    }
  }

  lemma TwiceInMultiset(s: seq<PolicyRevision>, i: nat, j: nat)
    requires i < j < |s| && s[i] == s[j]
    ensures multiset(s)[s[i]] >= 2
  {
    assert s == s[..j] + ([s[j]] + s[j + 1..]);
    assert s[..j][i] in multiset(s[..j]);
  }

  lemma OnceInMultiset(s: seq<PolicyRevision>, x: nat)
    requires x < |s| && DistinctKeys(s, PolicyKey)
    ensures multiset(s)[s[x]] == 1
  {
    assert s == s[..x] + ([s[x]] + s[x + 1..]);
    forall i | 0 <= i < x
      ensures s[..x][i] != s[x]
    {
      assert PolicyKey(s[i]) != PolicyKey(s[x]);
    }
    forall i | x < i < |s|
      ensures s[i] != s[x]
    {
      assert PolicyKey(s[x]) != PolicyKey(s[i]);
    }
    assert s[x] !in multiset(s[..x]) && s[x] !in multiset(s[x + 1..]);
  }

  // ----- The version stands for every decision

  lemma {:induction false} SameFlatten(a: seq<PolicyRevision>, b: seq<PolicyRevision>)
    requires SamePolicies(a, b)
    ensures Flatten(a) == Flatten(b)
  {
    if a != [] {
      var n := |a| - 1;
      SameFlatten(a[..n], b[..n]);
      assert SamePolicy(a[n], b[n]);
    }
  }

  lemma SameOrdered(world: World, world': World, a: Directory, b: Directory)
    requires ValidDirectory(world, a) && ValidDirectory(world', b) && a.workspace == b.workspace
             && SameMembers(a.ordered, b.ordered)
    ensures a.ordered == b.ordered
  {
    hide ValidId, ValidMember, BytesLess;
    forall i | 0 <= i < |a.ordered|
      ensures a.ordered[i] == b.ordered[i]
    {
      assert a.ordered[i].workspace == b.ordered[i].workspace;
    }
  }

  lemma DecisionIsUnique(policySet: PolicySet, input: Input, d: Decision, e: Decision)
    requires Decides(policySet, input, d) && Decides(policySet, input, e)
    ensures d == e
  {
    hide Reserved, SelfRead, SomeBinding, SomeCovering, SomeGranting;
    if m :| IsMember(policySet, input.principal, m) {
    }
  }

  lemma DecisionMoves(a: PolicySet, b: PolicySet, input: Input, d: Decision)
    requires a.workspace == b.workspace && a.directory.ordered == b.directory.ordered
             && Flatten(a.policies) == Flatten(b.policies)
    requires Decides(a, input, d)
    ensures Decides(b, input, d)
  {
    hide Reserved, SelfRead, Flatten, Covers, RoleAllows;
    assert forall m :: IsMember(a, input.principal, m) <==> IsMember(b, input.principal, m);
    forall m
      ensures SomeBinding(a, m) <==> SomeBinding(b, m)
      ensures SomeCovering(a, m, input.target) <==> SomeCovering(b, m, input.target)
      ensures SomeGranting(a, m, input) <==> SomeGranting(b, m, input)
    {
      assert forall x :: Binds(a, x, m) <==> Binds(b, x, m);
    }
  }

  /** Two sets with the same version decide every input alike, whatever snapshots and orders they were built from,
      unless the hash collides on their two messages. */
  lemma SameVersionSameDecisions(hash: Bytes -> Digest, world: World, world': World, d: Directory, d': Directory,
                                 p: seq<PolicyRevision>, p': seq<PolicyRevision>, input: Input)
    requires Accepts(world, d, p) && Accepts(world', d', p') && ValidInput(world, input) && ValidInput(world', input)
    requires var a, b := Construct(hash, world, d, p), Construct(hash, world', d', p');
             && a.version == b.version
             && VersionOk(d.ordered, a.policies) && VersionOk(d'.ordered, b.policies)
             && CollisionFree(hash,
                              {VersionMessage(d.workspace, d.ordered, a.policies),
                               VersionMessage(d'.workspace, d'.ordered, b.policies)})
    ensures Evaluate(world, Construct(hash, world, d, p), input) ==
            Evaluate(world', Construct(hash, world', d', p'), input)
  {
    var a, b := Construct(hash, world, d, p), Construct(hash, world', d', p');
    SortedAreValid(world, d, p);
    SortedAreValid(world', d', p');
    ValidMeansEncodable(world, d, a.policies);
    ValidMeansEncodable(world', d', b.policies);
    ConstructIsWellBuilt(hash, world, d, p);
    ConstructIsWellBuilt(hash, world', d', p');
    hide VersionOk, AllValid, AllValidBindings, ValidDirectory, ValidInput, VersionMessage, Decides, Evaluate,
         Compile, Flatten, Sorted;
    VersionsAgreeExactly(hash, d.workspace, d.ordered, a.policies, d'.workspace, d'.ordered, b.policies);
    SameFlatten(a.policies, b.policies);
    SameOrdered(world, world', d, d');
    EvaluateAgrees(world, a, input);
    EvaluateAgrees(world', b, input);
    DecisionMoves(a, b, input, Evaluate(world, a, input).value);
    DecisionIsUnique(b, input, Evaluate(world, a, input).value, Evaluate(world', b, input).value);
  }
}
