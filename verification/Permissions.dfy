/**
 Which permission codes a user holds and when a check passes: the grant test of the server and of the
 browser, the portal boundary around the codes of assigned roles, and the route guards.
 */
module Permissions {
  import opened Wrappers

  type Code = string

  // ------------------------------------------------------------------- grant test

  /** Position of the first dot, or the length when there is none. */
  function FirstDot(s: Code): (i: nat)
    ensures i <= |s| && '.' !in s[..i] && (i < |s| ==> s[i] == '.')
  {
    if s == [] || s[0] == '.' then 0 else 1 + FirstDot(s[1..])
  }

  const MANAGE := ".manage"

  /** The server's test: the code itself, or `manage` on its module. */
  predicate IsGranted(granted: set<Code>, required: Code) {
    if required in granted then true
    else
      var dot := FirstDot(required);
      dot < |required| && required[..dot] + MANAGE in granted
  }

  /** The browser's test on a list of codes; `indexOf` below 1 means no dot or no module. */
  predicate IsGrantedInBrowser(granted: seq<Code>, required: Code) {
    if required in granted then true
    else
      var separator := if FirstDot(required) < |required| then FirstDot(required) else -1;
      if separator < 1 then false else required[..separator] + MANAGE in granted
  }

  function Codes(granted: seq<Code>): set<Code> {
    set code | code in granted
  }

  predicate HasModule(required: Code) {
    required == [] || required[0] != '.'
  }

  predicate Alike(granted: seq<Code>, required: Code) {
    IsGranted(Codes(granted), required) == IsGrantedInBrowser(granted, required)
  }

  /** The two tests differ exactly on codes with an empty module when the code `.manage` itself is held. */
  lemma BrowserAgreesExactly(granted: seq<Code>, required: Code)
    ensures Alike(granted, required) <==> HasModule(required) || required in granted || MANAGE !in granted
  {
    if required != [] && required[0] == '.' {
      assert FirstDot(required) == 0 && required[..0] + MANAGE == MANAGE;
    }
  }

  lemma GrantMonotone(granted: set<Code>, more: set<Code>, required: Code)
    requires granted <= more && IsGranted(granted, required)
    ensures IsGranted(more, required)
  {
  }

  lemma {:induction false} FirstDotOf(m: string, rest: string)
    requires '.' !in m
    ensures FirstDot(m + "." + rest) == |m|
  {
    var code := m + "." + rest;
    if m == [] {
      assert code[0] == '.';
    } else {
      FirstDotOf(m[1..], rest);
      assert code[1..] == m[1..] + "." + rest && code[0] == m[0] && m[0] in m;
    }
  }

  /** A code is granted when it is held or `manage` of its module is; a code without a module only when it is held. */
  lemma GrantedExactly(granted: set<Code>, m: string, action: string)
    requires '.' !in m
    ensures IsGranted(granted, m + "." + action) <==> m + "." + action in granted || m + MANAGE in granted
    ensures IsGranted(granted, m) <==> m in granted
  {
    FirstDotOf(m, action);
    assert (m + "." + action)[..|m|] == m;
  }

  // -------------------------------------------------------------- portal boundary

  function Grant(modules: set<string>, actions: set<string>): set<Code> {
    set m, a | m in modules && a in actions :: m + "." + a
  }

  const VIEW: set<string> := {"view"}
  const REQUESTS: set<string> := {"view", "create", "update"}
  const IN_APP_NOTIFICATIONS := Grant({"notifications"}, {"view", "update"})

  const BROKER := "Broker / Channel Partner"
  const BUYER := "Customer / Buyer"
  const TENANT := "Tenant"

  const BROKER_CODES := Grant({"leads"}, {"create"}) + Grant({"projects", "inventory"}, VIEW) + IN_APP_NOTIFICATIONS
  const BUYER_CODES := Grant({"notifications"}, {"view", "update"}) + Grant({"service_requests"}, REQUESTS)
  const TENANT_CODES :=
    Grant({"leases"}, VIEW) + Grant({"payments"}, {"view", "create"}) + Grant({"notifications"}, {"view", "update"})
    + Grant({"service_requests"}, REQUESTS) + Grant({"maintenance"}, REQUESTS)

  const PORTAL_ALLOWLIST: map<string, set<Code>> :=
    map[BROKER := BROKER_CODES, BUYER := BUYER_CODES, TENANT := TENANT_CODES]

  datatype Role = Role(name: string, codes: set<Code>)

  /** The codes of all assigned roles. */
  function Assigned(roles: set<Role>): set<Code> {
    set r, code | r in roles && code in r.codes :: code
  }

  function Names(roles: set<Role>): set<string> {
    set r | r in roles :: r.name
  }

  function Allowed(allowlist: map<string, set<Code>>, names: set<string>): set<Code> {
    set name, code | name in names && name in allowlist && code in allowlist[name] :: code
  }

  predicate PortalOnly(allowlist: map<string, set<Code>>, roles: set<Role>) {
    Names(roles) != {} && Names(roles) <= allowlist.Keys
  }

  /** The codes a user has: those of the roles, cut down to the allowlists for an account with portal roles only. */
  function Effective(allowlist: map<string, set<Code>>, roles: set<Role>): set<Code> {
    if PortalOnly(allowlist, roles) then Assigned(roles) * Allowed(allowlist, Names(roles)) else Assigned(roles)
  }

  /** One more role never takes a code away, whatever the tables say and whichever side of the boundary it lands on. */
  lemma EffectiveMonotone(allowlist: map<string, set<Code>>, roles: set<Role>, more: set<Role>)
    requires roles <= more
    ensures Effective(allowlist, roles) <= Effective(allowlist, more)
  {
    assert Names(roles) <= Names(more);
    assert Assigned(roles) <= Assigned(more);
    assert Names(roles) == {} ==> Assigned(roles) == {} by {
      assert forall r :: r in roles ==> r.name in Names(roles);
    }
  }

  predicate GivenByRole(roles: set<Role>, code: Code) {
    exists r :: r in roles && code in r.codes
  }

  predicate NamedForRole(allowlist: map<string, set<Code>>, roles: set<Role>, code: Code) {
    exists r :: r in roles && r.name in allowlist && code in allowlist[r.name]
  }

  predicate HasStaffRole(allowlist: map<string, set<Code>>, roles: set<Role>) {
    exists r :: r in roles && r.name !in allowlist
  }

  /**
   Every effective code comes from an assigned role; with a staff role among them all of them count, without one only
   those that the table names for an assigned role.
   */
  lemma EffectiveExactly(allowlist: map<string, set<Code>>, roles: set<Role>, code: Code)
    ensures code in Effective(allowlist, roles) <==>
              GivenByRole(roles, code) && (HasStaffRole(allowlist, roles) || NamedForRole(allowlist, roles, code))
  {
    assert forall r :: r in roles ==> r.name in Names(roles);
  }

  // The codes open to each portal role, by name.

  lemma OneGrant(m: string, a: string, code: Code)
    requires code == m + "." + a
    ensures Grant({m}, {a}) == {code}
  {
  }

  lemma TwoGrants(m: string, a: string, b: string)
    ensures Grant({m}, {a, b}) == {m + "." + a, m + "." + b}
  {
  }

  lemma ThreeGrants(m: string, a: string, b: string, d: string)
    ensures Grant({m}, {a, b, d}) == {m + "." + a, m + "." + b, m + "." + d}
  {
  }

  lemma TwoModules(m: string, n: string, a: string)
    ensures Grant({m, n}, {a}) == {m + "." + a, n + "." + a}
  {
  }

  lemma SharedCodes()
    ensures Grant({"notifications"}, {"view", "update"}) == {"notifications.view", "notifications.update"}
    ensures Grant({"service_requests"}, REQUESTS)
              == {"service_requests.view", "service_requests.create", "service_requests.update"}
  {
    TwoGrants("notifications", "view", "update");
    ThreeGrants("service_requests", "view", "create", "update");
    assert "notifications" + "." + "view" == "notifications.view";
    assert "notifications" + "." + "update" == "notifications.update";
    assert "service_requests" + "." + "view" == "service_requests.view";
    assert "service_requests" + "." + "create" == "service_requests.create";
    assert "service_requests" + "." + "update" == "service_requests.update";
  }

  lemma BrokerCodes()
    ensures Grant({"leads"}, {"create"}) == {"leads.create"}
    ensures Grant({"projects", "inventory"}, VIEW) == {"projects.view", "inventory.view"}
  {
    assert "leads" + "." + "create" == "leads.create";
    OneGrant("leads", "create", "leads.create");
    TwoModules("projects", "inventory", "view");
    assert "projects" + "." + "view" == "projects.view" && "inventory" + "." + "view" == "inventory.view";
  }

  lemma TenantCodes()
    ensures Grant({"leases"}, VIEW) == {"leases.view"}
    ensures Grant({"payments"}, {"view", "create"}) == {"payments.view", "payments.create"}
    ensures Grant({"maintenance"}, REQUESTS) == {"maintenance.view", "maintenance.create", "maintenance.update"}
  {
    assert "leases" + "." + "view" == "leases.view";
    OneGrant("leases", "view", "leases.view");
    TwoGrants("payments", "view", "create");
    assert "payments" + "." + "view" == "payments.view" && "payments" + "." + "create" == "payments.create";
    ThreeGrants("maintenance", "view", "create", "update");
    assert "maintenance" + "." + "view" == "maintenance.view" && "maintenance" + "." + "create" == "maintenance.create"
           && "maintenance" + "." + "update" == "maintenance.update";
  }

  lemma FiveCodes(a: set<Code>, b: set<Code>, d: set<Code>, v: Code, w: Code, x: Code, y: Code, z: Code)
    requires a == {v} && b == {w, x} && d == {y, z}
    ensures a + b + d == {v, w, x, y, z}
  {
  }

  lemma BrokerIsOpenTo()
    ensures BROKER_CODES
              == {"leads.create", "projects.view", "inventory.view", "notifications.view", "notifications.update"}
  {
    SharedCodes();
    BrokerCodes();
    FiveCodes(Grant({"leads"}, {"create"}), Grant({"projects", "inventory"}, VIEW), IN_APP_NOTIFICATIONS,
              "leads.create", "projects.view", "inventory.view", "notifications.view", "notifications.update");
  }

  lemma BuyerIsOpenTo()
    ensures BUYER_CODES == {"notifications.view", "notifications.update"}
                           + {"service_requests.view", "service_requests.create", "service_requests.update"}
  {
    SharedCodes();
  }

  lemma TenantIsOpenTo()
    ensures TENANT_CODES == {"leases.view"} + {"payments.view", "payments.create"}
                            + {"notifications.view", "notifications.update"}
                            + {"service_requests.view", "service_requests.create", "service_requests.update"}
                            + {"maintenance.view", "maintenance.create", "maintenance.update"}
  {
    SharedCodes();
    TenantCodes();
  }

  lemma ThreeRoles(table: map<string, set<Code>>, a: string, b: string, d: string, x: set<Code>, y: set<Code>,
                   z: set<Code>)
    requires a != b && a != d && b != d && table == map[a := x, b := y, d := z]
    ensures table.Keys == {a, b, d} && table[a] == x && table[b] == y && table[d] == z
  {
  }

  lemma RoleNamesDiffer()
    ensures BROKER != BUYER && BROKER != TENANT && BUYER != TENANT
  {
    assert BROKER[0] == 'B' && BUYER[0] == 'C' && TENANT[0] == 'T';
  }

  /** The three portal roles and the codes open to each, by name. */
  lemma PortalCodes()
    ensures PORTAL_ALLOWLIST.Keys == {"Broker / Channel Partner", "Customer / Buyer", "Tenant"}
    ensures PORTAL_ALLOWLIST["Broker / Channel Partner"]
              == {"leads.create", "projects.view", "inventory.view", "notifications.view", "notifications.update"}
    ensures PORTAL_ALLOWLIST["Customer / Buyer"]
              == {"notifications.view", "notifications.update"}
                 + {"service_requests.view", "service_requests.create", "service_requests.update"}
    ensures PORTAL_ALLOWLIST["Tenant"]
              == {"leases.view"} + {"payments.view", "payments.create"} + {"notifications.view", "notifications.update"}
                 + {"service_requests.view", "service_requests.create", "service_requests.update"}
                 + {"maintenance.view", "maintenance.create", "maintenance.update"}
  {
    RoleNamesDiffer();
    ThreeRoles(PORTAL_ALLOWLIST, BROKER, BUYER, TENANT, BROKER_CODES, BUYER_CODES, TENANT_CODES);
    BrokerIsOpenTo();
    BuyerIsOpenTo();
    TenantIsOpenTo();
  }

  predicate IsManageCode(code: Code) {
    |code| >= |MANAGE| && code[|code| - |MANAGE|..] == MANAGE
  }

  lemma ManageEnds(code: Code)
    ensures IsManageCode(code) ==> code[|code| - 2] == 'g'
  {
  }

  lemma NotManage(name: string, action: string)
    requires action in {"view", "create", "update"}
    ensures !IsManageCode(name + "." + action)
  {
    var code := name + "." + action;
    assert code[|code| - 2] == action[|action| - 2];
    ManageEnds(code);
  }

  lemma GrantHasNoManage(modules: set<string>, actions: set<string>)
    requires actions <= {"view", "create", "update"}
    ensures forall code :: code in Grant(modules, actions) ==> !IsManageCode(code)
  {
    forall code | code in Grant(modules, actions) ensures !IsManageCode(code) {
      var m, a :| m in modules && a in actions && code == m + "." + a;
      NotManage(m, a);
    }
  }

  /** No entry of the table names a manage code. */
  ghost predicate NoManage(allowlist: map<string, set<Code>>) {
    forall name, code :: name in allowlist && code in allowlist[name] ==> !IsManageCode(code)
  }

  lemma PortalAllowlistHasNoManage()
    ensures NoManage(PORTAL_ALLOWLIST)
  {
    GrantHasNoManage({"leads"}, {"create"});
    GrantHasNoManage({"projects", "inventory"}, VIEW);
    GrantHasNoManage({"notifications"}, {"view", "update"});
    GrantHasNoManage({"service_requests"}, REQUESTS);
    GrantHasNoManage({"leases"}, VIEW);
    GrantHasNoManage({"payments"}, {"view", "create"});
    GrantHasNoManage({"maintenance"}, REQUESTS);
  }

  predicate PortalMay(allowlist: map<string, set<Code>>, roles: set<Role>, required: Code) {
    required in Assigned(roles) && required in Allowed(allowlist, Names(roles))
  }

  lemma PassesExactly(allowlist: map<string, set<Code>>, roles: set<Role>, required: Code)
    requires NoManage(allowlist) && PortalOnly(allowlist, roles)
    ensures IsGranted(Effective(allowlist, roles), required) <==> PortalMay(allowlist, roles, required)
  {
    var manage := required[..FirstDot(required)] + MANAGE;
    assert IsManageCode(manage) by {
      assert manage[|manage| - |MANAGE|..] == MANAGE;
    }
  }

  /** A portal-only user passes a check exactly for the codes a role gives that the allowlists also name. */
  lemma PortalUserPassesExactly(roles: set<Role>, required: Code)
    ensures PortalOnly(PORTAL_ALLOWLIST, roles) ==>
              (IsGranted(Effective(PORTAL_ALLOWLIST, roles), required)
               <==> PortalMay(PORTAL_ALLOWLIST, roles, required))
  {
    if PortalOnly(PORTAL_ALLOWLIST, roles) {
      PortalAllowlistHasNoManage();
      PassesExactly(PORTAL_ALLOWLIST, roles, required);
    }
  }

  // ----------------------------------------------------------------- route guards

  datatype Guard = InvalidGuard | Guard(groups: seq<seq<Code>>)

  /** `require_permission_groups`: at least one group, none empty. */
  function RequireGroups(groups: seq<seq<Code>>): Guard {
    if groups == [] || [] in groups then InvalidGuard else Guard(groups)
  }

  predicate AnyOf(granted: set<Code>, group: seq<Code>) {
    exists i :: 0 <= i < |group| && IsGranted(granted, group[i])
  }

  predicate AllOf(granted: set<Code>, required: seq<Code>) {
    forall i :: 0 <= i < |required| ==> IsGranted(granted, required[i])
  }

  /** Whether the guard lets a caller with these codes through. */
  predicate Admits(guard: Guard, granted: set<Code>)
    requires guard.Guard?
  {
    forall i :: 0 <= i < |guard.groups| ==> AnyOf(granted, guard.groups[i])
  }

  /** `require_permissions`: refused without any code, else one match or all, as asked. */
  function RequirePermissions(required: seq<Code>, anyOf: bool, granted: set<Code>): Option<bool> {
    if required == [] then None else Some(if anyOf then AnyOf(granted, required) else AllOf(granted, required))
  }

  function Singletons(required: seq<Code>): seq<seq<Code>> {
    seq(|required|, i requires 0 <= i < |required| => [required[i]])
  }

  function Verdict(guard: Guard, granted: set<Code>): Option<bool> {
    if guard.InvalidGuard? then None else Some(Admits(guard, granted))
  }

  /** Groups cover both forms of `require_permissions`: one group for any, a group for each code for all. */
  lemma GroupsGeneralize(required: seq<Code>, granted: set<Code>)
    ensures RequirePermissions(required, true, granted) == Verdict(RequireGroups([required]), granted)
    ensures RequirePermissions(required, false, granted) == Verdict(RequireGroups(Singletons(required)), granted)
  {
    var each := Singletons(required);
    assert [] !in each;
    if required != [] {
      assert [required][0] == required;
      assert Admits(Guard([required]), granted) == AnyOf(granted, required);
      forall i | 0 <= i < |required| ensures AnyOf(granted, each[i]) == IsGranted(granted, required[i]) {
        assert each[i][0] == required[i];
      }
    }
  }

  /** Assigning another role never closes a route. */
  lemma MoreRolesNeverLockOut(allowlist: map<string, set<Code>>, roles: set<Role>, more: set<Role>, guard: Guard)
    requires roles <= more && guard.Guard? && Admits(guard, Effective(allowlist, roles))
    ensures Admits(guard, Effective(allowlist, more))
  {
    var granted, wider := Effective(allowlist, roles), Effective(allowlist, more);
    EffectiveMonotone(allowlist, roles, more);
    forall i | 0 <= i < |guard.groups| ensures AnyOf(wider, guard.groups[i]) {
      var j :| 0 <= j < |guard.groups[i]| && IsGranted(granted, guard.groups[i][j]);
      GrantMonotone(granted, wider, guard.groups[i][j]);
    }
  }

  /** Codes open to portal-only users. */
  predicate OpenToPortal(allowlist: map<string, set<Code>>, code: Code) {
    code in Allowed(allowlist, allowlist.Keys)
  }

  predicate HasOpenCode(allowlist: map<string, set<Code>>, group: seq<Code>) {
    exists j :: 0 <= j < |group| && OpenToPortal(allowlist, group[j])
  }

  /** Whether every group of the guard names a code open to portal users. */
  predicate PortalReachable(allowlist: map<string, set<Code>>, guard: Guard)
    requires guard.Guard?
  {
    forall i :: 0 <= i < |guard.groups| ==> HasOpenCode(allowlist, guard.groups[i])
  }

  lemma PortalGrantIsOpen(allowlist: map<string, set<Code>>, roles: set<Role>, code: Code)
    requires NoManage(allowlist) && PortalOnly(allowlist, roles) && IsGranted(Effective(allowlist, roles), code)
    ensures OpenToPortal(allowlist, code)
  {
    PassesExactly(allowlist, roles, code);
  }

  lemma OpenCodesNeeded(allowlist: map<string, set<Code>>, granted: set<Code>, guard: Guard)
    requires guard.Guard? && Admits(guard, granted)
    requires forall code :: IsGranted(granted, code) ==> OpenToPortal(allowlist, code)
    ensures PortalReachable(allowlist, guard)
  {
  }

  /** An account holding every role of the table with all the codes its entry names. */
  function FullPortalRoles(allowlist: map<string, set<Code>>): set<Role> {
    set name | name in allowlist :: Role(name, allowlist[name])
  }

  lemma FullPortalIsPortalOnly(allowlist: map<string, set<Code>>, name: string)
    requires name in allowlist
    ensures PortalOnly(allowlist, FullPortalRoles(allowlist))
    ensures allowlist[name] <= Effective(allowlist, FullPortalRoles(allowlist))
  {
    var role := Role(name, allowlist[name]);
    assert role in FullPortalRoles(allowlist);
    assert role.name in Names(FullPortalRoles(allowlist));
  }

  lemma FullPortalUserPasses(allowlist: map<string, set<Code>>, guard: Guard)
    requires guard.Guard? && PortalReachable(allowlist, guard)
    ensures Admits(guard, Effective(allowlist, FullPortalRoles(allowlist)))
  {
    var granted := Effective(allowlist, FullPortalRoles(allowlist));
    forall i | 0 <= i < |guard.groups| ensures AnyOf(granted, guard.groups[i]) {
      var j :| 0 <= j < |guard.groups[i]| && OpenToPortal(allowlist, guard.groups[i][j]);
      var name :| name in allowlist && guard.groups[i][j] in allowlist[name];
      FullPortalIsPortalOnly(allowlist, name);
      assert IsGranted(granted, guard.groups[i][j]);
    }
  }

  ghost predicate PortalUserAdmitted(allowlist: map<string, set<Code>>, guard: Guard)
    requires guard.Guard?
  {
    exists roles :: PortalOnly(allowlist, roles) && Admits(guard, Effective(allowlist, roles))
  }

  /** The boundary of any table without manage codes that has a portal role at all. */
  lemma BoundaryExactly(allowlist: map<string, set<Code>>, name: string, guard: Guard)
    requires guard.Guard? && NoManage(allowlist) && name in allowlist
    ensures PortalUserAdmitted(allowlist, guard) <==> PortalReachable(allowlist, guard)
  {
    if PortalUserAdmitted(allowlist, guard) {
      var roles :| PortalOnly(allowlist, roles) && Admits(guard, Effective(allowlist, roles));
      var granted := Effective(allowlist, roles);
      forall code | IsGranted(granted, code) ensures OpenToPortal(allowlist, code) {
        PortalGrantIsOpen(allowlist, roles, code);
      }
      OpenCodesNeeded(allowlist, granted, guard);
    }
    if PortalReachable(allowlist, guard) {
      FullPortalIsPortalOnly(allowlist, name);
      FullPortalUserPasses(allowlist, guard);
    }
  }

  /** A guard can let some portal-only user through exactly when each of its groups has a code from the allowlists. */
  lemma PortalBoundaryExactly(guard: Guard)
    requires guard.Guard?
    ensures PortalUserAdmitted(PORTAL_ALLOWLIST, guard) <==> PortalReachable(PORTAL_ALLOWLIST, guard)
  {
    PortalAllowlistHasNoManage();
    BoundaryExactly(PORTAL_ALLOWLIST, "Tenant", guard);
  }
}
