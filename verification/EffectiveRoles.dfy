/** The effective role of a user in each org: the maximum over the org membership and every team scope. */
module EffectiveRoles {
  import opened Common

  datatype Source = OrgSource(role: string) | TeamSource(teamId: string, role: string)

  datatype Grant = Grant(orgId: string, source: Source)

  datatype Member = Member(userId: string, role: string)

  datatype Team = Team(orgId: string, roleId: Option<string>)

  /** The repositories as tables; `memberships` are the ids of the user's teams, `roles` maps a role id to its name. */
  datatype Tables = Tables(userOrgs: seq<string>, members: map<string, seq<Member>>, memberships: seq<string>,
                           teams: map<string, Team>, roles: map<string, string>, links: map<string, seq<string>>)

  datatype Accum = Accum(role: string, sources: seq<Source>)

  datatype EffectiveRole = EffectiveRole(orgId: string, role: string, sources: seq<Source>)

  const ROLE_RANK: map<string, nat> := map["Owner" := 5, "Admin" := 4, "Member" := 3, "Executive" := 2, "Viewer" := 1]

  /** The names a plain object inherits from `Object.prototype`, in the order of the texts their values convert to. */
  const INHERITED: seq<string> :=
    ["__proto__", "constructor", "__defineGetter__", "__defineSetter__", "__lookupGetter__", "__lookupSetter__",
     "hasOwnProperty", "isPrototypeOf", "propertyIsEnumerable", "toLocaleString", "toString", "valueOf"]

  function IndexOf(list: seq<string>, x: string): (i: nat)
    requires x in list
    ensures i < |list| && list[i] == x
  {
    if list[0] == x then 0 else 1 + IndexOf(list[1..], x)
  }

  /** What `ROLE_RANK[role] ?? 0` gives: a number, or for an inherited name a function or object. */
  datatype Looked = Number(value: nat) | Inherited(position: nat)

  function Lookup(role: string): Looked {
    if role in ROLE_RANK then Number(ROLE_RANK[role])
    else if role in INHERITED then Inherited(IndexOf(INHERITED, role))
    else Number(0)
  }

  /** `>` on looked-up ranks: two numbers compare as numbers and two inherited values as their texts;
      a number against an inherited value compares with NaN, which is false. */
  predicate Above(a: Looked, b: Looked) {
    match (a, b)
    case (Number(m), Number(n)) => m > n
    case (Inherited(m), Inherited(n)) => m > n
    case _ => false
  }

  predicate Outranks(role: string, other: string) {
    Above(Lookup(role), Lookup(other))
  }

  predicate IsInherited(role: string) {
    Lookup(role).Inherited?
  }

  /** The rank a name is meant to have: unknown names, inherited ones included, count 0. */
  function Rank(role: string): nat {
    if role in ROLE_RANK then ROLE_RANK[role] else 0
  }

  /** The built-in roles are ranked strictly and, with the exception of inherited names, above every other name. */
  lemma RankOrders(role: string)
    ensures Outranks("Owner", "Admin") && Outranks("Admin", "Member") && Outranks("Member", "Executive") && Outranks("Executive", "Viewer")
    ensures role !in ROLE_RANK ==> (Outranks("Viewer", role) <==> !IsInherited(role)) && !Outranks(role, "Viewer")
  {
  }

  // ---- Inherited names compare as texts ------------------------------------------------------------

  function ShownName(name: string): string {
    if name == "constructor" then "Object" else name
  }

  /** The text an inherited value converts to: that of `Object.prototype` itself, or of a function. */
  function TextOf(name: string): string {
    if name == "__proto__" then "[object Object]" else "function " + ShownName(name) + "() { [native code] }"
  }

  /** The texts agree below `k`, where the first one ends or has the smaller character. */
  ghost predicate LessAt(a: string, b: string, k: nat) {
    k <= |a| && k < |b| && a[..k] == b[..k] && (k < |a| ==> a[k] < b[k])
  }

  ghost predicate TextLess(a: string, b: string) {
    exists k: nat :: LessAt(a, b, k)
  }

  lemma TextLessTransitive(a: string, b: string, c: string)
    requires TextLess(a, b) && TextLess(b, c)
    ensures TextLess(a, c)
  {
    var k: nat :| LessAt(a, b, k);
    var l: nat :| LessAt(b, c, l);
    var m := if k < l then k else l;
    assert a[..m] == a[..k][..m] && b[..m] == b[..k][..m] && b[..m] == b[..l][..m] && c[..m] == c[..l][..m];
    if k < l { assert b[k] == b[..l][k] == c[..l][k] == c[k]; }
    if l < k { assert a[l] == a[..k][l] == b[..k][l] == b[l]; }
    assert LessAt(a, c, m);
  }

  /** Function names that first differ after `p` compare there. */
  lemma FunctionsAscend(name: string, other: string, p: string, x: string, y: string)
    requires name != "__proto__" && other != "__proto__" && ShownName(name) == p + x && ShownName(other) == p + y
    requires x != [] && y != [] && x[0] < y[0]
    ensures TextLess(TextOf(name), TextOf(other))
  {
    var head, tail := "function " + p, "() { [native code] }";
    assert TextOf(name) == head + (x + tail) && TextOf(other) == head + (y + tail);
    assert LessAt(head + (x + tail), head + (y + tail), |head|);
  }

  /** A name as it is shown, cut before its first difference from another. */
  lemma Cut(name: string, p: string, x: string)
    requires name == p + x && |name| > 2 && (name[0] != '_' || name[2] != 'p') && name[0] != 'c'
    ensures name != "__proto__" && ShownName(name) == p + x
  {
    assert "__proto__"[0] == '_' && "__proto__"[2] == 'p' && "constructor"[0] == 'c';
  }

  lemma WholeAscend(name: string, other: string)
    requires |name| > 2 && (name[0] != '_' || name[2] != 'p') && name[0] != 'c'
    requires |other| > 2 && (other[0] != '_' || other[2] != 'p') && other[0] != 'c'
    requires name[0] < other[0]
    ensures TextLess(TextOf(name), TextOf(other))
  {
    assert "" + name == name && "" + other == other;
    Cut(name, "", name);
    Cut(other, "", other);
    FunctionsAscend(name, other, "", name, other);
  }

  lemma Ascend0()
    ensures TextLess(TextOf(INHERITED[0]), TextOf(INHERITED[1]))
  {
    assert INHERITED[0] == "__proto__" && INHERITED[1] == "constructor";
    assert TextOf("__proto__")[0] == '[' && "constructor"[0] == 'c' && TextOf("constructor")[0] == 'f';
    assert LessAt(TextOf("__proto__"), TextOf("constructor"), 0);
  }

  lemma Ascend1()
    ensures TextLess(TextOf(INHERITED[1]), TextOf(INHERITED[2]))
  {
    assert INHERITED[1] == "constructor" && INHERITED[2] == "__defineGetter__";
    assert "constructor"[0] == 'c' && "" + "Object" == "Object";
    Cut("__defineGetter__", "", "__defineGetter__");
    FunctionsAscend("constructor", "__defineGetter__", "", "Object", "__defineGetter__");
  }

  lemma Ascend2()
    ensures TextLess(TextOf(INHERITED[2]), TextOf(INHERITED[3]))
  {
    assert INHERITED[2] == "__defineGetter__" && INHERITED[3] == "__defineSetter__";
    Cut("__defineGetter__", "__define", "Getter__");
    Cut("__defineSetter__", "__define", "Setter__");
    FunctionsAscend("__defineGetter__", "__defineSetter__", "__define", "Getter__", "Setter__");
  }

  lemma Ascend3()
    ensures TextLess(TextOf(INHERITED[3]), TextOf(INHERITED[4]))
  {
    assert INHERITED[3] == "__defineSetter__" && INHERITED[4] == "__lookupGetter__";
    Cut("__defineSetter__", "__", "defineSetter__");
    Cut("__lookupGetter__", "__", "lookupGetter__");
    FunctionsAscend("__defineSetter__", "__lookupGetter__", "__", "defineSetter__", "lookupGetter__");
  }

  lemma Ascend4()
    ensures TextLess(TextOf(INHERITED[4]), TextOf(INHERITED[5]))
  {
    assert INHERITED[4] == "__lookupGetter__" && INHERITED[5] == "__lookupSetter__";
    Cut("__lookupGetter__", "__lookup", "Getter__");
    Cut("__lookupSetter__", "__lookup", "Setter__");
    FunctionsAscend("__lookupGetter__", "__lookupSetter__", "__lookup", "Getter__", "Setter__");
  }

  lemma Ascend5()
    ensures TextLess(TextOf(INHERITED[5]), TextOf(INHERITED[6]))
  {
    assert INHERITED[5] == "__lookupSetter__" && INHERITED[6] == "hasOwnProperty";
    WholeAscend("__lookupSetter__", "hasOwnProperty");
  }

  lemma Ascend6()
    ensures TextLess(TextOf(INHERITED[6]), TextOf(INHERITED[7]))
  {
    assert INHERITED[6] == "hasOwnProperty" && INHERITED[7] == "isPrototypeOf";
    WholeAscend("hasOwnProperty", "isPrototypeOf");
  }

  lemma Ascend7()
    ensures TextLess(TextOf(INHERITED[7]), TextOf(INHERITED[8]))
  {
    assert INHERITED[7] == "isPrototypeOf" && INHERITED[8] == "propertyIsEnumerable";
    WholeAscend("isPrototypeOf", "propertyIsEnumerable");
  }

  lemma Ascend8()
    ensures TextLess(TextOf(INHERITED[8]), TextOf(INHERITED[9]))
  {
    assert INHERITED[8] == "propertyIsEnumerable" && INHERITED[9] == "toLocaleString";
    WholeAscend("propertyIsEnumerable", "toLocaleString");
  }

  lemma Ascend9()
    ensures TextLess(TextOf(INHERITED[9]), TextOf(INHERITED[10]))
  {
    assert INHERITED[9] == "toLocaleString" && INHERITED[10] == "toString";
    Cut("toLocaleString", "to", "LocaleString");
    Cut("toString", "to", "String");
    FunctionsAscend("toLocaleString", "toString", "to", "LocaleString", "String");
  }

  lemma Ascend10()
    ensures TextLess(TextOf(INHERITED[10]), TextOf(INHERITED[11]))
  {
    assert INHERITED[10] == "toString" && INHERITED[11] == "valueOf";
    WholeAscend("toString", "valueOf");
  }

  /** Neighbouring names of the list ascend by their texts. */
  lemma NeighboursAscend(i: nat)
    requires i < 11
    ensures TextLess(TextOf(INHERITED[i]), TextOf(INHERITED[i + 1]))
  {
    match i
    case 0 => Ascend0();
    case 1 => Ascend1();
    case 2 => Ascend2();
    case 3 => Ascend3();
    case 4 => Ascend4();
    case 5 => Ascend5();
    case 6 => Ascend6();
    case 7 => Ascend7();
    case 8 => Ascend8();
    case 9 => Ascend9();
    case 10 => Ascend10();
  }

  lemma {:induction false} AllAscend(i: nat, j: nat)
    requires i < j < 12
    ensures TextLess(TextOf(INHERITED[i]), TextOf(INHERITED[j]))
  {
    NeighboursAscend(j - 1);
    if i < j - 1 {
      AllAscend(i, j - 1);
      TextLessTransitive(TextOf(INHERITED[i]), TextOf(INHERITED[j - 1]), TextOf(INHERITED[j]));
    }
  }

  /** How any two names compare: built-in roles by rank, other names as 0, inherited names by the texts of what they inherit, and
      an inherited name never against any other. */
  lemma OutranksMeans(a: string, b: string)
    ensures !IsInherited(a) && !IsInherited(b) ==> (Outranks(a, b) <==> Rank(a) > Rank(b))
    ensures IsInherited(a) != IsInherited(b) ==> !Outranks(a, b)
    ensures IsInherited(a) && IsInherited(b) ==> (Outranks(a, b) <==> TextLess(TextOf(b), TextOf(a)))
    ensures IsInherited(a) <==> a in INHERITED && a !in ["Owner", "Admin", "Member", "Executive", "Viewer"]
  {
    if IsInherited(a) && IsInherited(b) {
      var i, j := IndexOf(INHERITED, a), IndexOf(INHERITED, b);
      if i < j {
        AllAscend(i, j);
        if TextLess(TextOf(b), TextOf(a)) { TextLessTransitive(TextOf(a), TextOf(b), TextOf(a)); }
      } else if j < i {
        AllAscend(j, i);
      }
    }
  }

  // ---- Which grants there are --------------------------------------------------------------------

  function FindMember(members: seq<Member>, userId: string): Option<Member> {
    if members == [] then None
    else if members[0].userId == userId then Some(members[0])
    else FindMember(members[1..], userId)
  }

  /** The org-level grant of one org, if the user is a member with a non-empty role. */
  function OrgGrant(t: Tables, orgId: string, userId: string): Option<Grant> {
    var me := FindMember(if orgId in t.members then t.members[orgId] else [], userId);
    if me.Some? && me.value.role != "" then Some(Grant(orgId, OrgSource(me.value.role))) else None
  }

  /** The role name a team passes on, unless the team, its role id or the role is missing. */
  function TeamRole(t: Tables, teamId: string): Option<string> {
    if teamId in t.teams && t.teams[teamId].roleId.Some? && t.teams[teamId].roleId.value in t.roles
    then Some(t.roles[t.teams[teamId].roleId.value]) else None
  }

  /** The orgs a team covers: its home first, then the linked ones, each once. */
  function Scope(t: Tables, teamId: string): seq<string>
    requires teamId in t.teams
  {
    Dedup([t.teams[teamId].orgId] + if teamId in t.links then t.links[teamId] else [])
  }

  function OrgGrants(t: Tables, orgs: seq<string>, userId: string): seq<Grant> {
    if orgs == [] then [] else
    var before, g := OrgGrants(t, orgs[..|orgs|-1], userId), OrgGrant(t, orgs[|orgs|-1], userId);
    if g.Some? then before + [g.value] else before
  }

  function ScopeGrants(teamId: string, role: string, orgs: seq<string>): seq<Grant> {
    seq(|orgs|, i requires 0 <= i < |orgs| => Grant(orgs[i], TeamSource(teamId, role)))
  }

  /** What one team membership grants: its role in every org it covers. */
  function MembershipGrants(t: Tables, teamId: string): seq<Grant> {
    if TeamRole(t, teamId).None? then [] else ScopeGrants(teamId, TeamRole(t, teamId).value, Scope(t, teamId))
  }

  function TeamGrants(t: Tables, teamIds: seq<string>): seq<Grant> {
    if teamIds == [] then [] else
    TeamGrants(t, teamIds[..|teamIds|-1]) + MembershipGrants(t, teamIds[|teamIds|-1])
  }

  function Grants(t: Tables, userId: string): seq<Grant> {
    OrgGrants(t, t.userOrgs, userId) + TeamGrants(t, t.memberships)
  }

  // ---- Recording them ------------------------------------------------------------------------------

  /** `record`: the first grant of an org makes the entry, a later one adds its source and wins only if it outranks the role so far. */
  function Record(accum: OMap<string, Accum>, g: Grant): OMap<string, Accum> {
    if g.orgId !in accum.vals then accum.Put(g.orgId, Accum(g.source.role, [g.source])) else
    var existing := accum.vals[g.orgId];
    accum.Put(g.orgId, Accum(if Outranks(g.source.role, existing.role) then g.source.role else existing.role,
                             existing.sources + [g.source]))
  }

  function RecordAll(grants: seq<Grant>): (accum: OMap<string, Accum>)
    ensures accum.Valid()
  {
    if grants == [] then Empty() else Record(RecordAll(grants[..|grants|-1]), grants[|grants|-1])
  }

  function Entries(keys: seq<string>, accum: map<string, Accum>): seq<EffectiveRole>
    requires forall k :: k in keys ==> k in accum
  {
    seq(|keys|, i requires 0 <= i < |keys| => EffectiveRole(keys[i], accum[keys[i]].role, accum[keys[i]].sources))
  }

  lemma RecordSnoc(grants: seq<Grant>, g: Grant)
    ensures RecordAll(grants + [g]) == Record(RecordAll(grants), g)
  {
    assert (grants + [g])[..|grants|] == grants;
  }

  lemma OrgGrantsNext(t: Tables, orgs: seq<string>, i: nat, userId: string)
    requires i < |orgs|
    ensures OrgGrants(t, orgs[..i + 1], userId) == OrgGrants(t, orgs[..i], userId)
              + if OrgGrant(t, orgs[i], userId).Some? then [OrgGrant(t, orgs[i], userId).value] else []
  {
    assert orgs[..i + 1][..i] == orgs[..i];
  }

  /** Step 1: the org-level memberships. */
  method RecordOrgs(t: Tables, userId: string) returns (accum: OMap<string, Accum>)
    ensures accum == RecordAll(OrgGrants(t, t.userOrgs, userId))
  {
    accum := Empty();
    ghost var sofar: seq<Grant> := [];
    for i := 0 to |t.userOrgs|
      invariant sofar == OrgGrants(t, t.userOrgs[..i], userId)
      invariant accum == RecordAll(sofar)
    {
      OrgGrantsNext(t, t.userOrgs, i, userId);
      var me := OrgGrant(t, t.userOrgs[i], userId);
      if me.Some? {
        RecordSnoc(sofar, me.value);
        accum := Record(accum, me.value);
        sofar := sofar + [me.value];
      }
    }
    assert t.userOrgs[..|t.userOrgs|] == t.userOrgs;
  }

  lemma ScopeGrantsSnoc(teamId: string, role: string, orgs: seq<string>, k: nat)
    requires k < |orgs|
    ensures ScopeGrants(teamId, role, orgs[..k + 1]) == ScopeGrants(teamId, role, orgs[..k]) + [Grant(orgs[k], TeamSource(teamId, role))]
  {
  }

  lemma RecordNext(before: seq<Grant>, teamId: string, role: string, orgs: seq<string>, k: nat)
    requires k < |orgs|
    ensures RecordAll(before + ScopeGrants(teamId, role, orgs[..k + 1]))
         == Record(RecordAll(before + ScopeGrants(teamId, role, orgs[..k])), Grant(orgs[k], TeamSource(teamId, role)))
  {
    var scoped, g := ScopeGrants(teamId, role, orgs[..k]), Grant(orgs[k], TeamSource(teamId, role));
    ScopeGrantsSnoc(teamId, role, orgs, k);
    assert before + (scoped + [g]) == (before + scoped) + [g];
    RecordSnoc(before + scoped, g);
  }

  /** Fanning one team out to the orgs it covers. */
  method RecordTeam(ghost before: seq<Grant>, start: OMap<string, Accum>, teamId: string, role: string, orgs: seq<string>)
      returns (accum: OMap<string, Accum>)
    requires start == RecordAll(before)
    ensures accum == RecordAll(before + ScopeGrants(teamId, role, orgs))
  {
    accum := start;
    assert before + ScopeGrants(teamId, role, orgs[..0]) == before;
    for k := 0 to |orgs|
      invariant accum == RecordAll(before + ScopeGrants(teamId, role, orgs[..k]))
    {
      RecordNext(before, teamId, role, orgs, k);
      accum := Record(accum, Grant(orgs[k], TeamSource(teamId, role)));
    }
    assert orgs[..|orgs|] == orgs;
  }

  method RecordMembership(t: Tables, teamId: string, ghost before: seq<Grant>, start: OMap<string, Accum>) returns (accum: OMap<string, Accum>)
    requires start == RecordAll(before)
    ensures accum == RecordAll(before + MembershipGrants(t, teamId))
  {
    var role := TeamRole(t, teamId);
    if role.None? {
      assert before + [] == before;
      return start;
    }
    accum := RecordTeam(before, start, teamId, role.value, Scope(t, teamId));
  }

  lemma TeamGrantsNext(t: Tables, before: seq<Grant>, teamIds: seq<string>, i: nat)
    requires i < |teamIds|
    ensures before + TeamGrants(t, teamIds[..i + 1]) == (before + TeamGrants(t, teamIds[..i])) + MembershipGrants(t, teamIds[i])
  {
    assert teamIds[..i + 1][..i] == teamIds[..i];
  }

  /** Step 2: the team memberships. */
  method RecordTeams(t: Tables, ghost before: seq<Grant>, start: OMap<string, Accum>) returns (accum: OMap<string, Accum>)
    requires start == RecordAll(before)
    ensures accum == RecordAll(before + TeamGrants(t, t.memberships))
  {
    accum := start;
    ghost var sofar := before;
    for i := 0 to |t.memberships|
      invariant sofar == before + TeamGrants(t, t.memberships[..i])
      invariant accum == RecordAll(sofar)
    {
      TeamGrantsNext(t, before, t.memberships, i);
      accum := RecordMembership(t, t.memberships[i], sofar, accum);
      sofar := sofar + MembershipGrants(t, t.memberships[i]);
    }
    assert t.memberships[..|t.memberships|] == t.memberships;
  }

  /** `resolveEffectiveRoles`. */
  method ResolveEffectiveRoles(t: Tables, userId: string) returns (entries: seq<EffectiveRole>)
    ensures entries == Entries(RecordAll(Grants(t, userId)).keys, RecordAll(Grants(t, userId)).vals)
  {
    var accum := RecordOrgs(t, userId);
    accum := RecordTeams(t, OrgGrants(t, t.userOrgs, userId), accum);
    entries := Entries(accum.keys, accum.vals);
  }

  // ---- What the entries mean -----------------------------------------------------------------------

  function SourcesFor(grants: seq<Grant>, orgId: string): seq<Source> {
    if grants == [] then [] else
    var before, g := SourcesFor(grants[..|grants|-1], orgId), grants[|grants|-1];
    if g.orgId == orgId then before + [g.source] else before
  }

  ghost predicate Granted(grants: seq<Grant>, orgId: string) {
    exists g :: g in grants && g.orgId == orgId
  }

  /** Where the first grant of an org is, or the number of grants if there is none. */
  function FirstAt(grants: seq<Grant>, orgId: string): (f: nat)
    ensures f <= |grants| && (f < |grants| ==> grants[f].orgId == orgId)
    ensures forall j :: 0 <= j < f ==> grants[j].orgId != orgId
  {
    if grants == [] then 0 else
    var f := FirstAt(grants[..|grants|-1], orgId);
    if f < |grants| - 1 || grants[f].orgId == orgId then f else |grants|
  }

  predicate SameKind(role: string, other: string) {
    IsInherited(role) == IsInherited(other)
  }

  /** The first grant of an org that no other grant of it outranks, among those ranked by the same kind of value as the
      org's very first grant. */
  ghost predicate FirstBest(grants: seq<Grant>, orgId: string, i: nat) {
    && i < |grants| && grants[i].orgId == orgId
    && SameKind(grants[i].source.role, grants[FirstAt(grants, orgId)].source.role)
    && (forall j :: 0 <= j < |grants| && grants[j].orgId == orgId ==> !Outranks(grants[j].source.role, grants[i].source.role))
    && (forall j :: 0 <= j < i && grants[j].orgId == orgId && SameKind(grants[j].source.role, grants[i].source.role) ==>
          Outranks(grants[i].source.role, grants[j].source.role))
  }

  ghost predicate HasBestRole(grants: seq<Grant>, orgId: string, role: string) {
    exists i: nat :: FirstBest(grants, orgId, i) && grants[i].source.role == role
  }

  lemma FirstAtSnoc(grants: seq<Grant>, g: Grant, orgId: string)
    ensures FirstAt(grants, orgId) < |grants| ==> FirstAt(grants + [g], orgId) == FirstAt(grants, orgId)
  {
    assert (grants + [g])[..|grants|] == grants;
  }

  lemma OutranksOrders(a: string, b: string, c: string)
    ensures Outranks(a, b) ==> SameKind(a, b) && !Outranks(b, a)
    ensures Outranks(a, b) && SameKind(b, c) && !Outranks(c, b) ==> Outranks(a, c)
    ensures Outranks(a, b) && !Outranks(c, b) ==> !Outranks(c, a)
  {
  }

  lemma StillBest(grants: seq<Grant>, g: Grant, orgId: string, i: nat)
    requires FirstBest(grants, orgId, i) && (g.orgId == orgId ==> !Outranks(g.source.role, grants[i].source.role))
    ensures FirstBest(grants + [g], orgId, i)
  {
    FirstAtSnoc(grants, g, orgId);
    assert forall j :: 0 <= j < |grants| ==> (grants + [g])[j] == grants[j];
  }

  lemma NewBest(grants: seq<Grant>, g: Grant, orgId: string, i: nat)
    requires FirstBest(grants, orgId, i) && g.orgId == orgId && Outranks(g.source.role, grants[i].source.role)
    ensures FirstBest(grants + [g], orgId, |grants|)
  {
    var more := grants + [g];
    FirstAtSnoc(grants, g, orgId);
    assert forall j :: 0 <= j < |grants| ==> more[j] == grants[j];
    forall j | 0 <= j < |grants| && grants[j].orgId == orgId
      ensures !Outranks(more[j].source.role, g.source.role)
      ensures SameKind(more[j].source.role, g.source.role) ==> Outranks(g.source.role, more[j].source.role)
    {
      OutranksOrders(g.source.role, grants[i].source.role, grants[j].source.role);
    }
    OutranksOrders(g.source.role, grants[i].source.role, g.source.role);
  }

  lemma BestAfter(grants: seq<Grant>, g: Grant, orgId: string, role: string)
    requires HasBestRole(grants, orgId, role)
    ensures HasBestRole(grants + [g], orgId, if g.orgId == orgId && Outranks(g.source.role, role) then g.source.role else role)
  {
    var i: nat :| FirstBest(grants, orgId, i) && grants[i].source.role == role;
    if g.orgId == orgId && Outranks(g.source.role, role) {
      NewBest(grants, g, orgId, i);
    } else {
      StillBest(grants, g, orgId, i);
    }
  }

  lemma BestFirst(grants: seq<Grant>, g: Grant)
    requires !Granted(grants, g.orgId)
    ensures HasBestRole(grants + [g], g.orgId, g.source.role)
  {
    assert forall j :: 0 <= j < |grants| ==> grants[j] in grants;
    assert FirstAt(grants + [g], g.orgId) == |grants|;
    assert FirstBest(grants + [g], g.orgId, |grants|);
  }

  /** What one record does to the entry of an org. */
  lemma RecordAt(accum: OMap<string, Accum>, g: Grant, orgId: string)
    ensures orgId in Record(accum, g).vals <==> orgId in accum.vals || g.orgId == orgId
    ensures orgId in accum.vals ==> Record(accum, g).vals[orgId] == if g.orgId != orgId then accum.vals[orgId] else
      Accum(if Outranks(g.source.role, accum.vals[orgId].role) then g.source.role else accum.vals[orgId].role,
            accum.vals[orgId].sources + [g.source])
    ensures orgId !in accum.vals && g.orgId == orgId ==> Record(accum, g).vals[orgId] == Accum(g.source.role, [g.source])
  {
  }

  /** The entry of an org: present exactly when something grants it, with all its sources in order and the first best role. */
  lemma {:induction false} EntryMeans(grants: seq<Grant>, orgId: string)
    ensures orgId in RecordAll(grants).vals <==> Granted(grants, orgId)
    ensures orgId in RecordAll(grants).vals ==>
      RecordAll(grants).vals[orgId].sources == SourcesFor(grants, orgId) && HasBestRole(grants, orgId, RecordAll(grants).vals[orgId].role)
  {
    if grants != [] {
      var front, g := grants[..|grants|-1], grants[|grants|-1];
      EntryMeans(front, orgId);
      assert grants == front + [g];
      RecordAt(RecordAll(front), g, orgId);
      if orgId in RecordAll(front).vals {
        BestAfter(front, g, orgId, RecordAll(front).vals[orgId].role);
      } else if g.orgId == orgId {
        NoSources(front, orgId);
        BestFirst(front, g);
      }
    }
  }

  lemma {:induction false} NoSources(grants: seq<Grant>, orgId: string)
    requires !Granted(grants, orgId)
    ensures SourcesFor(grants, orgId) == []
  {
    if grants != [] {
      assert grants == grants[..|grants|-1] + [grants[|grants|-1]];
      NoSources(grants[..|grants|-1], orgId);
    }
  }

  // ---- When the entry has the rank it is meant to have ---------------------------------------------

  ghost predicate SomePositive(grants: seq<Grant>, orgId: string) {
    exists g :: g in grants && g.orgId == orgId && Rank(g.source.role) > 0
  }

  ghost predicate SomeInherited(grants: seq<Grant>, orgId: string) {
    exists g :: g in grants && g.orgId == orgId && IsInherited(g.source.role)
  }

  /** No grant of the org is meant to rank higher. */
  ghost predicate HasMaxRank(grants: seq<Grant>, orgId: string, role: string) {
    forall g :: g in grants && g.orgId == orgId ==> Rank(g.source.role) <= Rank(role)
  }

  lemma Ranked(role: string)
    ensures Lookup(role).Number? ==> Lookup(role).value == Rank(role)
    ensures IsInherited(role) ==> Rank(role) == 0
  {
  }

  function FirstRole(grants: seq<Grant>, orgId: string): string
    requires FirstAt(grants, orgId) < |grants|
  {
    grants[FirstAt(grants, orgId)].source.role
  }

  lemma GrantedFirst(grants: seq<Grant>, orgId: string)
    ensures Granted(grants, orgId) <==> FirstAt(grants, orgId) < |grants|
  {
    assert forall j :: 0 <= j < |grants| ==> grants[j] in grants;
  }

  /** The entry's role has the maximum rank among its sources if and only if the first grant of the org has no inherited
      name, or no grant of the org is a built-in role. */
  lemma MaxRankIff(grants: seq<Grant>, orgId: string)
    requires orgId in RecordAll(grants).vals
    ensures FirstAt(grants, orgId) < |grants|
    ensures HasMaxRank(grants, orgId, RoleIn(grants, orgId))
       <==> !IsInherited(FirstRole(grants, orgId)) || !SomePositive(grants, orgId)
  {
    EntryMeans(grants, orgId);
    GrantedFirst(grants, orgId);
    BestRoleRank(grants, orgId, RoleIn(grants, orgId));
  }

  lemma BestRoleRank(grants: seq<Grant>, orgId: string, role: string)
    requires HasBestRole(grants, orgId, role) && FirstAt(grants, orgId) < |grants|
    ensures SameKind(role, FirstRole(grants, orgId))
    ensures HasMaxRank(grants, orgId, role) <==> !IsInherited(FirstRole(grants, orgId)) || !SomePositive(grants, orgId)
  {
    var i: nat :| FirstBest(grants, orgId, i) && grants[i].source.role == role;
    Ranked(role);
    forall g | g in grants && g.orgId == orgId
      ensures !Outranks(g.source.role, role) && (!IsInherited(role) ==> Rank(g.source.role) <= Rank(role))
    {
      Ranked(g.source.role);
      var j :| 0 <= j < |grants| && grants[j] == g;
    }
  }

  /** The first grant of an org with the highest meant rank. */
  ghost predicate FirstMax(grants: seq<Grant>, orgId: string, i: nat) {
    && i < |grants| && grants[i].orgId == orgId
    && (forall j :: 0 <= j < |grants| && grants[j].orgId == orgId ==> Rank(grants[j].source.role) <= Rank(grants[i].source.role))
    && (forall j :: 0 <= j < i && grants[j].orgId == orgId ==> Rank(grants[j].source.role) < Rank(grants[i].source.role))
  }

  ghost predicate SomeOutranks(grants: seq<Grant>, orgId: string, role: string) {
    exists g :: g in grants && g.orgId == orgId && Outranks(g.source.role, role)
  }

  /** When an inherited name cannot get in the way: it does not come first, or it comes first among grants that neither
      hold a built-in role nor outrank it. */
  ghost predicate Undisturbed(grants: seq<Grant>, orgId: string)
    requires FirstAt(grants, orgId) < |grants|
  {
    || !IsInherited(FirstRole(grants, orgId))
    || (!SomePositive(grants, orgId) && !SomeOutranks(grants, orgId, FirstRole(grants, orgId)))
  }

  /** The entry carries the first of the highest meant ranks if and only if no inherited name gets in the way. */
  lemma FirstMaxIff(grants: seq<Grant>, orgId: string, k: nat)
    requires orgId in RecordAll(grants).vals && FirstMax(grants, orgId, k)
    ensures FirstAt(grants, orgId) < |grants|
    ensures RoleIn(grants, orgId) == grants[k].source.role <==> Undisturbed(grants, orgId)
  {
    EntryMeans(grants, orgId);
    GrantedFirst(grants, orgId);
    BestIsMax(grants, orgId, k, RoleIn(grants, orgId));
  }

  lemma BestIsMax(grants: seq<Grant>, orgId: string, k: nat, role: string)
    requires HasBestRole(grants, orgId, role) && FirstMax(grants, orgId, k) && FirstAt(grants, orgId) < |grants|
    ensures role == grants[k].source.role <==> Undisturbed(grants, orgId)
  {
    var i: nat :| FirstBest(grants, orgId, i) && grants[i].source.role == role;
    var f := FirstAt(grants, orgId);
    forall j | 0 <= j < |grants| { Ranked(grants[j].source.role); }
    assert forall j :: 0 <= j < |grants| ==> grants[j] in grants;
    if IsInherited(FirstRole(grants, orgId)) {
      InheritedFirst(grants, orgId, k, i);
    } else {
      assert i == k by {
        assert !IsInherited(grants[i].source.role);
        if Rank(grants[k].source.role) == 0 { assert f == k; assert i == f; }
      }
    }
  }

  lemma InheritedFirst(grants: seq<Grant>, orgId: string, k: nat, i: nat)
    requires FirstBest(grants, orgId, i) && FirstMax(grants, orgId, k) && FirstAt(grants, orgId) < |grants|
    requires IsInherited(FirstRole(grants, orgId))
    ensures grants[i].source.role == grants[k].source.role <==> Undisturbed(grants, orgId)
  {
    var f := FirstAt(grants, orgId);
    forall j | 0 <= j < |grants| { Ranked(grants[j].source.role); }
    assert forall j :: 0 <= j < |grants| ==> grants[j] in grants;
    if SomePositive(grants, orgId) {
      assert Rank(grants[k].source.role) > 0;
    } else {
      assert k == f;
      if !SomeOutranks(grants, orgId, FirstRole(grants, orgId)) { assert i == f; }
    }
  }

  /** All grants of an org that nothing outranks name the same role. */
  ghost predicate BestAgree(grants: seq<Grant>, orgId: string) {
    forall g, h | g in grants && h in grants && g.orgId == orgId && h.orgId == orgId && Best(grants, g) && Best(grants, h) ::
      g.source.role == h.source.role
  }

  ghost predicate Best(grants: seq<Grant>, g: Grant) {
    forall h :: h in grants && h.orgId == g.orgId ==> !Outranks(h.source.role, g.source.role)
  }

  function RoleIn(grants: seq<Grant>, orgId: string): string
    requires orgId in RecordAll(grants).vals
  {
    RecordAll(grants).vals[orgId].role
  }

  lemma RoleIsBest(grants: seq<Grant>, orgId: string)
    requires orgId in RecordAll(grants).vals
    ensures exists g :: g in grants && g.orgId == orgId && Best(grants, g) && g.source.role == RoleIn(grants, orgId)
  {
    EntryMeans(grants, orgId);
    BestRoleIsBest(grants, orgId, RoleIn(grants, orgId));
  }

  lemma BestRoleIsBest(grants: seq<Grant>, orgId: string, role: string)
    requires HasBestRole(grants, orgId, role)
    ensures exists g :: g in grants && g.orgId == orgId && Best(grants, g) && g.source.role == role
  {
    var i: nat :| FirstBest(grants, orgId, i) && grants[i].source.role == role;
    assert grants[i] in grants && Best(grants, grants[i]);
  }

  /** What determines the rank, determines the role: an inherited name and a built-in role are told by their ranks. */
  lemma SameLookup(role: string, other: string)
    requires Lookup(role) == Lookup(other) && Lookup(role) != Number(0)
    ensures role == other
  {
  }

  /** A first grant that nothing outranks decides the role. */
  lemma FirstDecides(grants: seq<Grant>, orgId: string, role: string)
    requires HasBestRole(grants, orgId, role) && FirstAt(grants, orgId) < |grants|
    requires Best(grants, grants[FirstAt(grants, orgId)])
    ensures role == FirstRole(grants, orgId)
  {
    var i: nat :| FirstBest(grants, orgId, i) && grants[i].source.role == role;
    assert forall j :: 0 <= j < |grants| ==> grants[j] in grants;
  }

  /** A role that looks up to 0 is that of the first grant. */
  lemma ZeroIsFirst(grants: seq<Grant>, orgId: string, role: string)
    requires HasBestRole(grants, orgId, role) && FirstAt(grants, orgId) < |grants| && Lookup(role) == Number(0)
    ensures role == FirstRole(grants, orgId)
  {
    var i: nat :| FirstBest(grants, orgId, i) && grants[i].source.role == role;
  }

  /** No grant outranks the role of the same kind as the first. */
  lemma BestOfKind(grants: seq<Grant>, orgId: string, role: string)
    requires HasBestRole(grants, orgId, role) && FirstAt(grants, orgId) < |grants|
    ensures SameKind(role, FirstRole(grants, orgId))
    ensures forall g :: g in grants && g.orgId == orgId ==> !Outranks(g.source.role, role)
    ensures exists g :: g in grants && g.orgId == orgId && g.source.role == role
  {
    var i: nat :| FirstBest(grants, orgId, i) && grants[i].source.role == role;
    assert grants[i] in grants;
    forall g | g in grants && g.orgId == orgId
      ensures !Outranks(g.source.role, role)
    {
      var j :| 0 <= j < |grants| && grants[j] == g;
    }
  }

  /** The same grants with the same first role give the same role, in whatever order the rest comes. */
  lemma FirstDetermines(a: seq<Grant>, b: seq<Grant>, orgId: string, role: string, other: string)
    requires forall g :: g in a <==> g in b
    requires FirstAt(a, orgId) < |a| && FirstAt(b, orgId) < |b| && FirstRole(a, orgId) == FirstRole(b, orgId)
    requires HasBestRole(a, orgId, role) && HasBestRole(b, orgId, other)
    ensures role == other
  {
    BestOfKind(a, orgId, role);
    BestOfKind(b, orgId, other);
    assert Lookup(role) == Lookup(other);
    if Lookup(role) == Number(0) {
      ZeroIsFirst(a, orgId, role);
      ZeroIsFirst(b, orgId, other);
    } else {
      SameLookup(role, other);
    }
  }

  /** With a built-in role among the grants of an org, the grants nothing outranks name the same role exactly when no grant
      has an inherited name. */
  lemma KnownRolesAgreeIff(grants: seq<Grant>, orgId: string)
    requires SomePositive(grants, orgId)
    ensures BestAgree(grants, orgId) <==> !SomeInherited(grants, orgId)
  {
    if g, h :| g in grants && h in grants && g.orgId == orgId && h.orgId == orgId
               && !IsInherited(g.source.role) && IsInherited(h.source.role) {
      var m := BestLike(grants, g);
      var n := BestLike(grants, h);
      assert m.source.role != n.source.role;
    } else {
      forall g | g in grants { Ranked(g.source.role); }
    }
  }

  /** Each grant has a best one of its kind beside it. */
  lemma BestLike(grants: seq<Grant>, g: Grant) returns (best: Grant)
    requires g in grants
    ensures best in grants && best.orgId == g.orgId && Best(grants, best) && SameKind(best.source.role, g.source.role)
  {
    var other := [g] + grants;
    EntryMeans(other, g.orgId);
    assert other[0] in other;
    assert Granted(other, g.orgId);
    var i: nat :| FirstBest(other, g.orgId, i);
    best := other[i];
    assert FirstAt(other, g.orgId) == 0;
    assert forall h :: h in grants ==> h in other;
    assert best in other;
    forall h | h in grants && h.orgId == g.orgId
      ensures !Outranks(h.source.role, best.source.role)
    {
      var j :| 0 <= j < |other| && other[j] == h;
    }
  }

  // ---- The role and the rank of an org -----------------------------------------------------------------

  /** The role the grants give an org, if they give it one. */
  function NameIn(grants: seq<Grant>, orgId: string): Option<string> {
    if orgId in RecordAll(grants).vals then Some(RoleIn(grants, orgId)) else None
  }

  /** The rank of the role the grants give an org, if they give it one. */
  function RankIn(grants: seq<Grant>, orgId: string): Option<nat> {
    if orgId in RecordAll(grants).vals then Some(Rank(RoleIn(grants, orgId))) else None
  }

  ghost predicate Mixed(grants: seq<Grant>, orgId: string) {
    SomePositive(grants, orgId) && SomeInherited(grants, orgId)
  }

  ghost predicate FirstAlike(a: seq<Grant>, b: seq<Grant>, orgId: string) {
    FirstAt(a, orgId) < |a| && FirstAt(b, orgId) < |b| && SameKind(FirstRole(a, orgId), FirstRole(b, orgId))
  }

  lemma SameRank(a: seq<Grant>, b: seq<Grant>, orgId: string)
    requires forall g :: g in a <==> g in b
    requires orgId in RecordAll(a).vals
    requires !SomePositive(a, orgId) || FirstAlike(a, b, orgId)
    ensures orgId in RecordAll(b).vals && Rank(RoleIn(a, orgId)) == Rank(RoleIn(b, orgId))
  {
    EntryMeans(a, orgId);
    EntryMeans(b, orgId);
    DecidedRank(a, orgId);
    DecidedRank(b, orgId);
    if SomePositive(a, orgId) && IsInherited(FirstRole(a, orgId)) {
      assert Rank(RoleIn(b, orgId)) == 0;
    } else {
      assert HasMaxRank(a, orgId, RoleIn(a, orgId)) && HasMaxRank(b, orgId, RoleIn(b, orgId));
    }
  }

  /** The first grant decides: after an inherited name the rank is 0, after any other it is the maximum. */
  lemma DecidedRank(grants: seq<Grant>, orgId: string)
    requires orgId in RecordAll(grants).vals
    ensures FirstAt(grants, orgId) < |grants|
    ensures IsInherited(FirstRole(grants, orgId)) ==> Rank(RoleIn(grants, orgId)) == 0
    ensures !IsInherited(FirstRole(grants, orgId)) || !SomePositive(grants, orgId) ==> HasMaxRank(grants, orgId, RoleIn(grants, orgId))
    ensures exists g :: g in grants && g.orgId == orgId && g.source.role == RoleIn(grants, orgId)
  {
    MaxRankIff(grants, orgId);
    RoleIsBest(grants, orgId);
    EntryMeans(grants, orgId);
    BestRoleRank(grants, orgId, RoleIn(grants, orgId));
    Ranked(RoleIn(grants, orgId));
  }

  lemma NoneInheritedFirst(a: seq<Grant>, b: seq<Grant>, orgId: string)
    requires forall g :: g in a <==> g in b
    requires Granted(a, orgId) && !SomeInherited(a, orgId)
    ensures FirstAlike(a, b, orgId)
  {
    GrantedFirst(a, orgId);
    GrantedFirst(b, orgId);
    assert a[FirstAt(a, orgId)] in a;
    assert b[FirstAt(b, orgId)] in b;
  }

  // ---- From tables to grants -----------------------------------------------------------------------

  /** What it takes for a grant to exist. */
  ghost predicate Arises(t: Tables, userId: string, g: Grant) {
    || (g.orgId in t.userOrgs && OrgGrant(t, g.orgId, userId) == Some(g))
    || (g.source.TeamSource? && g.source.teamId in t.memberships && TeamRole(t, g.source.teamId) == Some(g.source.role)
        && (g.orgId == t.teams[g.source.teamId].orgId || (g.source.teamId in t.links && g.orgId in t.links[g.source.teamId])))
  }

  lemma {:induction false} OrgGrantsAre(t: Tables, orgs: seq<string>, userId: string, g: Grant)
    ensures g in OrgGrants(t, orgs, userId) <==> g.orgId in orgs && OrgGrant(t, g.orgId, userId) == Some(g)
  {
    if orgs != [] {
      OrgGrantsAre(t, orgs[..|orgs|-1], userId, g);
      assert orgs == orgs[..|orgs|-1] + [orgs[|orgs|-1]];
    }
  }

  lemma ScopeGrantsAre(teamId: string, role: string, orgs: seq<string>, g: Grant)
    ensures g in ScopeGrants(teamId, role, orgs) <==> g.orgId in orgs && g.source == TeamSource(teamId, role)
  {
    var list := ScopeGrants(teamId, role, orgs);
    if g.orgId in orgs && g.source == TeamSource(teamId, role) {
      var i :| 0 <= i < |orgs| && orgs[i] == g.orgId;
      assert list[i] == g;
    }
  }

  lemma {:induction false} TeamGrantsAre(t: Tables, teamIds: seq<string>, g: Grant)
    ensures g in TeamGrants(t, teamIds) <==>
      g.source.TeamSource? && g.source.teamId in teamIds && TeamRole(t, g.source.teamId) == Some(g.source.role)
      && (g.orgId == t.teams[g.source.teamId].orgId || (g.source.teamId in t.links && g.orgId in t.links[g.source.teamId]))
  {
    if teamIds != [] {
      var front, id := teamIds[..|teamIds|-1], teamIds[|teamIds|-1];
      TeamGrantsAre(t, front, g);
      assert teamIds == front + [id];
      if TeamRole(t, id).Some? {
        ScopeGrantsAre(id, TeamRole(t, id).value, Scope(t, id), g);
      }
    }
  }

  /** A user is given a role in an org by the first entry of the member list that names the user, or by a team of the user that
      has a role and is at home in or linked to the org. */
  ghost predicate Given(t: Tables, userId: string, g: Grant) {
    match g.source
    case OrgSource(role) =>
      && g.orgId in t.userOrgs && g.orgId in t.members && role != ""
      && exists k :: 0 <= k < |t.members[g.orgId]| && t.members[g.orgId][k] == Member(userId, role)
                     && forall j :: 0 <= j < k ==> t.members[g.orgId][j].userId != userId
    case TeamSource(teamId, role) =>
      && teamId in t.memberships && teamId in t.teams
      && t.teams[teamId].roleId.Some? && t.teams[teamId].roleId.value in t.roles && t.roles[t.teams[teamId].roleId.value] == role
      && (g.orgId == t.teams[teamId].orgId || (teamId in t.links && g.orgId in t.links[teamId]))
  }

  lemma {:induction false} FindMemberMeans(members: seq<Member>, userId: string, role: string)
    ensures (exists m :: FindMember(members, userId) == Some(m) && m.role == role)
       <==> exists k :: 0 <= k < |members| && members[k] == Member(userId, role) && forall j :: 0 <= j < k ==> members[j].userId != userId
  {
    if members != [] {
      FindMemberMeans(members[1..], userId, role);
      if members[0].userId == userId {
        assert members[0] == Member(userId, members[0].role);
      } else {
        if k :| 0 <= k < |members[1..]| && members[1..][k] == Member(userId, role) && forall j :: 0 <= j < k ==> members[1..][j].userId != userId {
          assert members[k + 1] == Member(userId, role);
          forall j | 0 <= j < k + 1 ensures members[j].userId != userId { if j > 0 { assert members[j] == members[1..][j - 1]; } }
        }
        if k :| 0 <= k < |members| && members[k] == Member(userId, role) && forall j :: 0 <= j < k ==> members[j].userId != userId {
          assert members[1..][k - 1] == Member(userId, role);
          assert forall j :: 0 <= j < k - 1 ==> members[1..][j] == members[j + 1];
        }
      }
    }
  }

  lemma ArisesIsGiven(t: Tables, userId: string, g: Grant)
    ensures Arises(t, userId, g) <==> Given(t, userId, g)
  {
    match g.source
    case OrgSource(role) => FindMemberMeans(if g.orgId in t.members then t.members[g.orgId] else [], userId, role);
    case TeamSource(_, _) =>
  }

  lemma GrantsArise(t: Tables, userId: string, g: Grant)
    ensures g in Grants(t, userId) <==> Arises(t, userId, g)
  {
    OrgGrantsAre(t, t.userOrgs, userId, g);
    TeamGrantsAre(t, t.memberships, g);
  }

  /** The recorded grants are exactly those the tables give. */
  lemma GrantsAre(t: Tables, userId: string, g: Grant)
    ensures g in Grants(t, userId) <==> Given(t, userId, g)
  {
    GrantsArise(t, userId, g);
    ArisesIsGiven(t, userId, g);
  }

  /** Tables that list the same orgs, memberships and links, in whatever order and however often. */
  ghost predicate SameFacts(t: Tables, u: Tables) {
    && Elements(t.userOrgs) == Elements(u.userOrgs) && Elements(t.memberships) == Elements(u.memberships)
    && t.members == u.members && t.teams == u.teams && t.roles == u.roles
    && t.links.Keys == u.links.Keys && forall k :: k in t.links ==> Elements(t.links[k]) == Elements(u.links[k])
  }

  ghost predicate SameRankIn(t: Tables, u: Tables, userId: string, orgId: string) {
    RankIn(Grants(t, userId), orgId) == RankIn(Grants(u, userId), orgId)
  }

  /** The user has an org-level role in the org; it is recorded before all team grants. */
  predicate HasOrgGrant(t: Tables, userId: string, orgId: string) {
    orgId in t.userOrgs && OrgGrant(t, orgId, userId).Some?
  }

  /** An org-level role decides the kind of rank, or the grants do not mix a built-in role and an inherited name. */
  ghost predicate Steady(t: Tables, userId: string, orgId: string) {
    HasOrgGrant(t, userId, orgId) || !Mixed(Grants(t, userId), orgId)
  }

  lemma SameGrants(t: Tables, u: Tables, userId: string)
    requires SameFacts(t, u)
    ensures forall g :: g in Grants(t, userId) <==> g in Grants(u, userId)
  {
    assert forall x :: x in t.userOrgs <==> x in Elements(t.userOrgs);
    assert forall x :: x in u.userOrgs <==> x in Elements(u.userOrgs);
    assert forall x :: x in t.memberships <==> x in Elements(t.memberships);
    assert forall x :: x in u.memberships <==> x in Elements(u.memberships);
    forall g ensures g in Grants(t, userId) <==> g in Grants(u, userId) {
      GrantsArise(t, userId, g);
      GrantsArise(u, userId, g);
      if g.source.TeamSource? && g.source.teamId in t.links {
        assert g.orgId in t.links[g.source.teamId] <==> g.orgId in Elements(t.links[g.source.teamId]);
        assert g.orgId in u.links[g.source.teamId] <==> g.orgId in Elements(u.links[g.source.teamId]);
      }
    }
  }

  lemma FirstAtIs(grants: seq<Grant>, orgId: string, k: nat)
    requires k <= |grants| && (k < |grants| ==> grants[k].orgId == orgId)
    requires forall j :: 0 <= j < k ==> grants[j].orgId != orgId
    ensures FirstAt(grants, orgId) == k
  {
  }

  lemma FirstAtConcat(a: seq<Grant>, b: seq<Grant>, orgId: string)
    ensures FirstAt(a, orgId) < |a| ==> FirstAt(a + b, orgId) == FirstAt(a, orgId)
    ensures FirstAt(a, orgId) == |a| ==> FirstAt(a + b, orgId) == |a| + FirstAt(b, orgId)
  {
    FirstAtIs(a + b, orgId, if FirstAt(a, orgId) < |a| then FirstAt(a, orgId) else |a| + FirstAt(b, orgId));
  }

  /** With an org-level role, that role is the first grant. */
  lemma OrgGrantFirst(t: Tables, userId: string, orgId: string)
    requires HasOrgGrant(t, userId, orgId)
    ensures var grants := Grants(t, userId);
      FirstAt(grants, orgId) < |grants| && Some(grants[FirstAt(grants, orgId)]) == OrgGrant(t, orgId, userId)
  {
    var own := OrgGrants(t, t.userOrgs, userId);
    var g := OrgGrant(t, orgId, userId).value;
    OrgGrantsAre(t, t.userOrgs, userId, g);
    GrantedFirst(own, orgId);
    FirstAtConcat(own, TeamGrants(t, t.memberships), orgId);
    OrgGrantsAre(t, t.userOrgs, userId, own[FirstAt(own, orgId)]);
  }

  lemma SteadyFirstAlike(t: Tables, u: Tables, userId: string, orgId: string)
    requires Steady(t, userId, orgId) && SameFacts(t, u) && Granted(Grants(t, userId), orgId)
    ensures !SomePositive(Grants(t, userId), orgId) || FirstAlike(Grants(t, userId), Grants(u, userId), orgId)
  {
    if HasOrgGrant(t, userId, orgId) {
      assert orgId in Elements(t.userOrgs) && orgId in Elements(u.userOrgs);
      OrgGrantFirst(t, userId, orgId);
      OrgGrantFirst(u, userId, orgId);
    } else if !SomeInherited(Grants(t, userId), orgId) {
      SameGrants(t, u, userId);
      NoneInheritedFirst(Grants(t, userId), Grants(u, userId), orgId);
    }
  }

  lemma SteadyKeepsRank(t: Tables, u: Tables, userId: string, orgId: string)
    requires Steady(t, userId, orgId) && SameFacts(t, u)
    ensures SameRankIn(t, u, userId, orgId)
  {
    var a, b := Grants(t, userId), Grants(u, userId);
    SameGrants(t, u, userId);
    EntryMeans(a, orgId);
    EntryMeans(b, orgId);
    if Granted(a, orgId) {
      SteadyFirstAlike(t, u, userId, orgId);
      SameRank(a, b, orgId);
    }
  }

  /** The user's team memberships with one listed first. */
  function ListedFirst(t: Tables, teamId: string): Tables {
    t.(memberships := [teamId] + t.memberships)
  }

  lemma {:induction false} TeamGrantsFrom(t: Tables, teamId: string, teamIds: seq<string>)
    ensures TeamGrants(t, [teamId] + teamIds) == MembershipGrants(t, teamId) + TeamGrants(t, teamIds)
  {
    var all := [teamId] + teamIds;
    if teamIds == [] {
      assert all[..0] == [];
    } else {
      TeamGrantsFrom(t, teamId, teamIds[..|teamIds|-1]);
      assert all[..|all|-1] == [teamId] + teamIds[..|teamIds|-1];
      ConcatAssoc(MembershipGrants(t, teamId), TeamGrants(t, teamIds[..|teamIds|-1]), MembershipGrants(t, teamIds[|teamIds|-1]));
    }
  }

  lemma MembershipFirst(t: Tables, g: Grant)
    requires g.source.TeamSource? && TeamRole(t, g.source.teamId) == Some(g.source.role)
    requires g.orgId == t.teams[g.source.teamId].orgId || (g.source.teamId in t.links && g.orgId in t.links[g.source.teamId])
    ensures var own := MembershipGrants(t, g.source.teamId);
      FirstAt(own, g.orgId) < |own| && own[FirstAt(own, g.orgId)].source == g.source
  {
    var own := MembershipGrants(t, g.source.teamId);
    ScopeGrantsAre(g.source.teamId, g.source.role, Scope(t, g.source.teamId), g);
    GrantedFirst(own, g.orgId);
  }

  lemma NoOrgGrant(t: Tables, userId: string, orgId: string)
    requires !HasOrgGrant(t, userId, orgId)
    ensures FirstAt(OrgGrants(t, t.userOrgs, userId), orgId) == |OrgGrants(t, t.userOrgs, userId)|
  {
    var own := OrgGrants(t, t.userOrgs, userId);
    if FirstAt(own, orgId) < |own| { OrgGrantsAre(t, t.userOrgs, userId, own[FirstAt(own, orgId)]); }
  }

  /** The grants once a team is listed first: the org-level ones, that team's, then those of all teams. */
  lemma GrantsWithFirst(t: Tables, userId: string, teamId: string)
    ensures Grants(ListedFirst(t, teamId), userId)
         == OrgGrants(t, t.userOrgs, userId) + (MembershipGrants(t, teamId) + TeamGrants(t, t.memberships))
  {
    var u := ListedFirst(t, teamId);
    OrgGrantsUnchanged(t, u, t.userOrgs, userId);
    TeamGrantsUnchanged(t, u, u.memberships);
    TeamGrantsFrom(t, teamId, t.memberships);
  }

  /** Without an org-level role, the first listed team of the org decides the kind of its rank. */
  lemma TeamFirst(t: Tables, userId: string, g: Grant)
    requires Arises(t, userId, g) && !HasOrgGrant(t, userId, g.orgId)
    ensures SameFacts(t, ListedFirst(t, g.source.teamId))
    ensures var grants := Grants(ListedFirst(t, g.source.teamId), userId);
      FirstAt(grants, g.orgId) < |grants| && FirstRole(grants, g.orgId) == g.source.role
  {
    var own, team, teams := OrgGrants(t, t.userOrgs, userId), MembershipGrants(t, g.source.teamId), TeamGrants(t, t.memberships);
    GrantsWithFirst(t, userId, g.source.teamId);
    NoOrgGrant(t, userId, g.orgId);
    MembershipFirst(t, g);
    FirstAtConcat(team, teams, g.orgId);
    FirstAtConcat(own, team + teams, g.orgId);
    ListedSame(t, g.source.teamId);
  }

  lemma ListedSame(t: Tables, teamId: string)
    requires teamId in t.memberships
    ensures SameFacts(t, ListedFirst(t, teamId))
  {
  }

  lemma {:induction false} OrgGrantsUnchanged(t: Tables, u: Tables, orgs: seq<string>, userId: string)
    requires t.members == u.members
    ensures OrgGrants(t, orgs, userId) == OrgGrants(u, orgs, userId)
  {
    if orgs != [] { OrgGrantsUnchanged(t, u, orgs[..|orgs|-1], userId); }
  }

  lemma {:induction false} TeamGrantsUnchanged(t: Tables, u: Tables, teamIds: seq<string>)
    requires t.teams == u.teams && t.roles == u.roles && t.links == u.links
    ensures TeamGrants(t, teamIds) == TeamGrants(u, teamIds)
  {
    if teamIds != [] { TeamGrantsUnchanged(t, u, teamIds[..|teamIds|-1]); }
  }

  /** The orgs a user has a role in, and the rank of that role, are the same for every order and repetition of
      memberships and links if and only if the grants are steady. */
  lemma RanksAreOrderFreeIff(t: Tables, userId: string, orgId: string)
    ensures Steady(t, userId, orgId) <==> forall u :: SameFacts(t, u) ==> SameRankIn(t, u, userId, orgId)
  {
    if Steady(t, userId, orgId) {
      forall u | SameFacts(t, u) ensures SameRankIn(t, u, userId, orgId) { SteadyKeepsRank(t, u, userId, orgId); }
    } else {
      var grants := Grants(t, userId);
      var g :| g in grants && g.orgId == orgId && Rank(g.source.role) > 0;
      var h :| h in grants && h.orgId == orgId && IsInherited(h.source.role);
      GrantsArise(t, userId, g);
      GrantsArise(t, userId, h);
      TeamDecides(t, userId, g);
      TeamDecides(t, userId, h);
    }
  }

  lemma TeamDecides(t: Tables, userId: string, g: Grant)
    requires Arises(t, userId, g) && !HasOrgGrant(t, userId, g.orgId)
    ensures var u := ListedFirst(t, g.source.teamId); var rank := RankIn(Grants(u, userId), g.orgId);
      && SameFacts(t, u) && rank.Some?
      && (Rank(g.source.role) > 0 ==> rank != Some(0))
      && (IsInherited(g.source.role) ==> rank == Some(0))
  {
    var u := ListedFirst(t, g.source.teamId);
    var grants := Grants(u, userId);
    TeamFirst(t, userId, g);
    GrantedFirst(grants, g.orgId);
    EntryMeans(grants, g.orgId);
    DecidedRank(grants, g.orgId);
    Ranked(g.source.role);
    assert grants[FirstAt(grants, g.orgId)] in grants;
  }

  ghost predicate Listed(entries: seq<EffectiveRole>, orgId: string) {
    exists e :: e in entries && e.orgId == orgId
  }

  ghost predicate SomethingGrants(t: Tables, userId: string, orgId: string) {
    exists g :: Given(t, userId, g) && g.orgId == orgId
  }

  /** There is one entry per org, exactly for the orgs some membership or team scope grants. */
  lemma OneEntryPerOrg(t: Tables, userId: string)
    ensures var accum := RecordAll(Grants(t, userId)); var entries := Entries(accum.keys, accum.vals);
      && (forall i, j :: 0 <= i < j < |entries| ==> entries[i].orgId != entries[j].orgId)
      && (forall orgId :: Listed(entries, orgId) <==> SomethingGrants(t, userId, orgId))
  {
    var grants := Grants(t, userId);
    var accum := RecordAll(grants);
    var entries := Entries(accum.keys, accum.vals);
    forall orgId
      ensures Listed(entries, orgId) <==> SomethingGrants(t, userId, orgId)
    {
      EntryMeans(grants, orgId);
      if orgId in accum.vals {
        var i :| 0 <= i < |accum.keys| && accum.keys[i] == orgId;
        assert entries[i] in entries;
        var g :| g in grants && g.orgId == orgId;
        GrantsAre(t, userId, g);
      }
      if g :| Given(t, userId, g) && g.orgId == orgId {
        GrantsAre(t, userId, g);
      }
    }
  }

  /** Each entry of the result carries the sources of its org, in order, and the role that `EntryMeans` describes. */
  lemma EntriesMean(t: Tables, userId: string, e: EffectiveRole)
    requires e in Entries(RecordAll(Grants(t, userId)).keys, RecordAll(Grants(t, userId)).vals)
    ensures e.sources == SourcesFor(Grants(t, userId), e.orgId) && HasBestRole(Grants(t, userId), e.orgId, e.role)
  {
    var accum := RecordAll(Grants(t, userId));
    var entries := Entries(accum.keys, accum.vals);
    var i :| 0 <= i < |entries| && entries[i] == e;
    assert accum.keys[i] in accum.keys;
    EntryMeans(Grants(t, userId), e.orgId);
  }

  // ---- The name of the role --------------------------------------------------------------------------

  ghost predicate SameNameIn(t: Tables, u: Tables, userId: string, orgId: string) {
    NameIn(Grants(t, userId), orgId) == NameIn(Grants(u, userId), orgId)
  }

  lemma OrgGrantKeepsName(t: Tables, u: Tables, userId: string, orgId: string)
    requires HasOrgGrant(t, userId, orgId) && SameFacts(t, u)
    ensures SameNameIn(t, u, userId, orgId)
  {
    var a, b := Grants(t, userId), Grants(u, userId);
    SameGrants(t, u, userId);
    assert orgId in Elements(t.userOrgs) && orgId in Elements(u.userOrgs);
    OrgGrantFirst(t, userId, orgId);
    OrgGrantFirst(u, userId, orgId);
    GrantedFirst(a, orgId);
    GrantedFirst(b, orgId);
    EntryMeans(a, orgId);
    EntryMeans(b, orgId);
    FirstDetermines(a, b, orgId, RoleIn(a, orgId), RoleIn(b, orgId));
  }

  lemma AgreementKeepsName(t: Tables, u: Tables, userId: string, orgId: string)
    requires BestAgree(Grants(t, userId), orgId) && SameFacts(t, u)
    ensures SameNameIn(t, u, userId, orgId)
  {
    var a, b := Grants(t, userId), Grants(u, userId);
    SameGrants(t, u, userId);
    EntryMeans(a, orgId);
    EntryMeans(b, orgId);
    if Granted(a, orgId) {
      RoleIsBest(a, orgId);
      RoleIsBest(b, orgId);
    }
  }

  /** Without an org-level role, a team whose role nothing outranks gives the name when it is listed first. */
  lemma BestTeamDecides(t: Tables, userId: string, g: Grant)
    requires Arises(t, userId, g) && !HasOrgGrant(t, userId, g.orgId) && Best(Grants(t, userId), g)
    ensures SameFacts(t, ListedFirst(t, g.source.teamId))
    ensures NameIn(Grants(ListedFirst(t, g.source.teamId), userId), g.orgId) == Some(g.source.role)
  {
    var u := ListedFirst(t, g.source.teamId);
    var grants := Grants(u, userId);
    TeamFirst(t, userId, g);
    SameGrants(t, u, userId);
    GrantedFirst(grants, g.orgId);
    EntryMeans(grants, g.orgId);
    FirstDecides(grants, g.orgId, RoleIn(grants, g.orgId));
  }

  /** The role name of an org is the same for every order and repetition of memberships and links if and only if the user
      has an org-level role there, or the grants nothing outranks name the same role. */
  lemma NamesAreOrderFreeIff(t: Tables, userId: string, orgId: string)
    ensures HasOrgGrant(t, userId, orgId) || BestAgree(Grants(t, userId), orgId)
       <==> forall u :: SameFacts(t, u) ==> SameNameIn(t, u, userId, orgId)
  {
    if HasOrgGrant(t, userId, orgId) {
      forall u | SameFacts(t, u) ensures SameNameIn(t, u, userId, orgId) { OrgGrantKeepsName(t, u, userId, orgId); }
    } else if BestAgree(Grants(t, userId), orgId) {
      forall u | SameFacts(t, u) ensures SameNameIn(t, u, userId, orgId) { AgreementKeepsName(t, u, userId, orgId); }
    } else {
      var grants := Grants(t, userId);
      var g, h :| g in grants && h in grants && g.orgId == orgId && h.orgId == orgId && Best(grants, g) && Best(grants, h)
                  && g.source.role != h.source.role;
      GrantsArise(t, userId, g);
      GrantsArise(t, userId, h);
      BestTeamDecides(t, userId, g);
      BestTeamDecides(t, userId, h);
    }
  }

  /** With a built-in role among the grants, the name is the same for every order if and only if the user has an org-level
      role there or no grant has an inherited name. */
  lemma KnownRolesAreOrderFreeIff(t: Tables, userId: string, orgId: string)
    requires SomePositive(Grants(t, userId), orgId)
    ensures HasOrgGrant(t, userId, orgId) || !SomeInherited(Grants(t, userId), orgId)
       <==> forall u :: SameFacts(t, u) ==> SameNameIn(t, u, userId, orgId)
  {
    NamesAreOrderFreeIff(t, userId, orgId);
    KnownRolesAgreeIff(Grants(t, userId), orgId);
  }

  // ---- Two teams whose order shows -------------------------------------------------------------------

  /** A user with no org-level role in two teams of an org, with roles `r` and `s`, listed in one order or the other. */
  function TwoTeams(orgId: string, r: string, s: string, swapped: bool): Tables {
    Tables([], map[], if swapped then ["b", "a"] else ["a", "b"],
           map["a" := Team(orgId, Some("a")), "b" := Team(orgId, Some("b"))], map["a" := r, "b" := s], map[])
  }

  lemma OneTeamGrants(orgId: string, r: string, s: string, swapped: bool)
    ensures MembershipGrants(TwoTeams(orgId, r, s, swapped), "a") == [Grant(orgId, TeamSource("a", r))]
    ensures MembershipGrants(TwoTeams(orgId, r, s, swapped), "b") == [Grant(orgId, TeamSource("b", s))]
  {
    assert "a"[0] != "b"[0];
    assert [orgId] + [] == [orgId] && [orgId][..0] == [];
    assert Dedup([orgId]) == [orgId];
  }

  lemma TwoTeamsGrant(orgId: string, r: string, s: string, swapped: bool, userId: string)
    ensures var a, b := Grant(orgId, TeamSource("a", r)), Grant(orgId, TeamSource("b", s));
      Grants(TwoTeams(orgId, r, s, swapped), userId) == if swapped then [b, a] else [a, b]
  {
    var t := TwoTeams(orgId, r, s, swapped);
    OneTeamGrants(orgId, r, s, swapped);
    var ids := t.memberships;
    assert ids[..1] == [ids[0]] && ids[..1][..0] == [];
    assert TeamGrants(t, ids[..1]) == [] + MembershipGrants(t, ids[0]);
    assert TeamGrants(t, ids) == TeamGrants(t, ids[..1]) + MembershipGrants(t, ids[1]);
  }

  lemma RecordPair(a: Grant, b: Grant)
    requires a.orgId == b.orgId
    ensures NameIn([a, b], a.orgId) == Some(if Outranks(b.source.role, a.source.role) then b.source.role else a.source.role)
  {
    assert RecordAll([a]) == Record(RecordAll([]), a) by { RecordSnoc([], a); assert [] + [a] == [a]; }
    assert RecordAll([a, b]) == Record(RecordAll([a]), b) by { RecordSnoc([a], b); assert [a] + [b] == [a, b]; }
  }

  /** Two team roles that do not outrank each other: the team listed first gives the name. */
  lemma FirstTeamNames(orgId: string, r: string, s: string, userId: string)
    requires !Outranks(r, s) && !Outranks(s, r)
    ensures SameFacts(TwoTeams(orgId, r, s, false), TwoTeams(orgId, r, s, true))
    ensures NameIn(Grants(TwoTeams(orgId, r, s, false), userId), orgId) == Some(r)
    ensures NameIn(Grants(TwoTeams(orgId, r, s, true), userId), orgId) == Some(s)
  {
    var a, b := Grant(orgId, TeamSource("a", r)), Grant(orgId, TeamSource("b", s));
    TwoTeamsGrant(orgId, r, s, false, userId);
    TwoTeamsGrant(orgId, r, s, true, userId);
    RecordPair(a, b);
    RecordPair(b, a);
    SwappedSame(orgId, r, s);
  }

  lemma SwappedSame(orgId: string, r: string, s: string)
    ensures SameFacts(TwoTeams(orgId, r, s, false), TwoTeams(orgId, r, s, true))
  {
    SwappedElements("a", "b");
  }

  lemma SwappedElements(x: string, y: string)
    ensures Elements([x, y]) == Elements([y, x])
  {
  }

  /** Two custom roles tie: the name is that of the team listed first. */
  lemma CustomRolesTie(orgId: string, userId: string)
    ensures NameIn(Grants(TwoTeams(orgId, "auditor", "editor", false), userId), orgId) == Some("auditor")
    ensures NameIn(Grants(TwoTeams(orgId, "auditor", "editor", true), userId), orgId) == Some("editor")
  {
    CustomRole("auditor");
    CustomRole("editor");
    FirstTeamNames(orgId, "auditor", "editor", userId);
  }

  /** No inherited and no built-in name begins like these. */
  lemma CustomRole(role: string)
    requires role != [] && role[0] in {'a', 'e'}
    ensures Lookup(role) == Number(0)
  {
    assert forall i :: 0 <= i < |INHERITED| ==> INHERITED[i] != [] && INHERITED[i][0] in {'_', 'c', 'h', 'i', 'p', 't', 'v'};
    assert "Owner"[0] == 'O' && "Admin"[0] == 'A' && "Member"[0] == 'M' && "Executive"[0] == 'E' && "Viewer"[0] == 'V';
  }

  /** An inherited name that is listed first hides a built-in role. */
  lemma InheritedNameHides(orgId: string, userId: string)
    ensures NameIn(Grants(TwoTeams(orgId, "constructor", "Admin", false), userId), orgId) == Some("constructor")
    ensures NameIn(Grants(TwoTeams(orgId, "constructor", "Admin", true), userId), orgId) == Some("Admin")
  {
    assert "constructor" in INHERITED && "Admin" in ROLE_RANK;
    assert "constructor" !in ROLE_RANK by { assert "constructor"[0] == 'c'; }
    FirstTeamNames(orgId, "constructor", "Admin", userId);
  }
}
