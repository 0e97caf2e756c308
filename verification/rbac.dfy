/** Role-based access control: pkg/auth/rbac.go.

    Roles inherit from parent roles by name.  The role graph may have cycles, diamonds and
    parents that do not exist.  A permission check walks the graph depth first, and all the
    branches of one walk share a single mutable set of visited names. */
module RoleBasedAccess {
  import opened Common

  datatype Role = Role(name: string, description: string, permissions: seq<string>, parentRoles: seq<string>)

  type RoleTable = map<string, Role>

  // ---------------------------------------------------------------------------------------
  // Permission patterns
  // ---------------------------------------------------------------------------------------

  predicate MatchPermission(pattern: string, permission: string) {
    if |pattern| > 0 && pattern[|pattern| - 1] == '*' then
      var prefix := pattern[..|pattern| - 1];
      |permission| >= |prefix| && permission[..|prefix|] == prefix
    else
      pattern == permission
  }

  /** What a pattern means: it names the permission itself, or it is a prefix followed by '*'. */
  ghost predicate Covers(pattern: string, permission: string) {
    pattern == permission
    || exists suffix: string :: IsWildcardMatch(pattern, suffix, permission)
  }

  ghost predicate IsWildcardMatch(pattern: string, suffix: string, permission: string) {
    |pattern| > 0 && pattern[|pattern| - 1] == '*' && permission == pattern[..|pattern| - 1] + suffix
  }

  /** The three tests made for each permission of a role amount to Covers. */
  lemma DirectTestIsCovers(pattern: string, permission: string)
    ensures (pattern == "*" || pattern == permission || MatchPermission(pattern, permission))
            <==> Covers(pattern, permission)
  {
    if pattern == "*" {
      assert IsWildcardMatch(pattern, permission, permission);
    } else if MatchPermission(pattern, permission) && pattern != permission {
      var n := |pattern| - 1;
      assert permission == pattern[..n] + permission[n..];
      assert IsWildcardMatch(pattern, permission[n..], permission);
    }
  }

  // ---------------------------------------------------------------------------------------
  // Specification: inheritance as chains of roles
  // ---------------------------------------------------------------------------------------

  ghost predicate Grants(roles: RoleTable, role: string, permission: string) {
    role in roles
    && exists i :: 0 <= i < |roles[role].permissions| && Covers(roles[role].permissions[i], permission)
  }

  /** A chain follows parent links; every name in it except the last must be an existing role. */
  ghost predicate IsChain(roles: RoleTable, chain: seq<string>) {
    |chain| > 0
    && forall i :: 0 <= i < |chain| - 1 ==> chain[i] in roles && chain[i + 1] in roles[chain[i]].parentRoles
  }

  ghost predicate GrantingChain(roles: RoleTable, chain: seq<string>, role: string, permission: string) {
    IsChain(roles, chain) && chain[0] == role && Grants(roles, chain[|chain| - 1], permission)
  }

  ghost predicate RoleEntitled(roles: RoleTable, role: string, permission: string) {
    exists chain: seq<string> :: GrantingChain(roles, chain, role, permission)
  }

  /** The roles a user acts under: the assigned ones, or the default role when there are none. */
  function EffectiveRoles(own: seq<string>, defaultRole: string): seq<string> {
    if |own| == 0 && defaultRole != "" then [defaultRole] else own
  }

  ghost predicate Entitled(roles: RoleTable, held: seq<string>, permission: string) {
    exists i :: 0 <= i < |held| && RoleEntitled(roles, held[i], permission)
  }

  lemma PrependLink(roles: RoleTable, role: string, parent: string, permission: string)
    requires role in roles && parent in roles[role].parentRoles
    requires RoleEntitled(roles, parent, permission)
    ensures RoleEntitled(roles, role, permission)
  {
    var chain :| GrantingChain(roles, chain, parent, permission);
    var longer := [role] + chain;
    assert forall i :: 0 < i < |longer| ==> longer[i] == chain[i - 1];
    assert GrantingChain(roles, longer, role, permission);
  }

  // ---------------------------------------------------------------------------------------
  // The search
  // ---------------------------------------------------------------------------------------

  /** What a fruitless search leaves behind: every name it added to the visited set grants
      nothing itself, and all parents of that role are in the visited set as well. */
  ghost predicate Exhausted(roles: RoleTable, permission: string, names: set<string>, visited: set<string>) {
    forall r :: r in names ==>
      !Grants(roles, r, permission)
      && (r in roles ==> forall p :: p in roles[r].parentRoles ==> p in visited)
  }

  /** A visited set that is exhausted throughout cannot hide a granting role. */
  lemma {:induction false} ExhaustedMeansNotEntitled(
    roles: RoleTable, permission: string, visited: set<string>, chain: seq<string>, k: nat)
    requires Exhausted(roles, permission, visited, visited)
    requires IsChain(roles, chain) && chain[0] in visited && k < |chain|
    ensures chain[k] in visited && !Grants(roles, chain[k], permission)
  {
    if k > 0 {
      ExhaustedMeansNotEntitled(roles, permission, visited, chain, k - 1);
      assert chain[k - 1] in roles && chain[k - 1 + 1] in roles[chain[k - 1]].parentRoles;
    }
  }

  class VisitedRoles {
    var names: set<string>

    constructor ()
      ensures names == {}
    {
      names := {};
    }
  }

  datatype RBACError = RoleExists(name: string) | RoleMissing(name: string) | DefaultRoleProtected

  datatype RBACConfig = RBACConfig(
    defaultRole: string,
    roleHierarchy: map<string, seq<string>>,
    resourcePermissions: map<string, seq<string>>)

  function Without(roles: seq<string>, name: string): seq<string> {
    if roles == [] then []
    else if roles[0] != name then [roles[0]] + Without(roles[1..], name)
    else Without(roles[1..], name)
  }

  lemma {:induction false} WithoutAppend(roles: seq<string>, last: string, name: string)
    ensures Without(roles + [last], name) == Without(roles, name) + (if last != name then [last] else [])
  {
    if roles == [] {
      assert [last][1..] == [];
    } else {
      assert (roles + [last])[1..] == roles[1..] + [last];
      WithoutAppend(roles[1..], last, name);
    }
  }

  /** Removal keeps exactly the other names, and keeps duplicate-free lists duplicate free. */
  lemma {:induction false} WithoutMembers(roles: seq<string>, name: string)
    ensures forall r :: r in Without(roles, name) <==> r in roles && r != name
    ensures NoDuplicates(roles) ==> NoDuplicates(Without(roles, name))
  {
    if roles != [] {
      WithoutMembers(roles[1..], name);
      assert roles == [roles[0]] + roles[1..];
      if NoDuplicates(roles) {
        assert roles[0] !in roles[1..];
        var tail := Without(roles[1..], name);
        assert forall j :: 0 <= j < |tail| ==> tail[j] in tail;
      }
    }
  }

  method RemoveStringFromSlice(slice: seq<string>, str: string) returns (result: seq<string>)
    ensures result == Without(slice, str)
  {
    result := [];
    for i := 0 to |slice|
      invariant result == Without(slice[..i], str)
    {
      assert slice[..i + 1] == slice[..i] + [slice[i]];
      WithoutAppend(slice[..i], slice[i], str);
      if slice[i] != str {
        result := result + [slice[i]];
      }
    }
    assert slice[..|slice|] == slice;
  }

  function RolesFromHierarchy(hierarchy: map<string, seq<string>>): RoleTable {
    map r | r in hierarchy :: Role(r, "", [], hierarchy[r])
  }

  const Admin := Role("admin", "Administrator with full access", ["*"], [])
  const User := Role("user", "Standard user", ["read", "list", "create", "update"], [])
  const Guest := Role("guest", "Guest user", ["read", "list"], [])
  const Service := Role("service", "Service account", ["read", "write", "execute"], [])

  function AddIfAbsent(roles: RoleTable, role: Role): RoleTable {
    if role.name in roles then roles else roles[role.name := role]
  }

  function WithBuiltInRoles(configured: RoleTable): RoleTable {
    AddIfAbsent(AddIfAbsent(AddIfAbsent(AddIfAbsent(configured, Admin), User), Guest), Service)
  }

  /** A role named in the configured hierarchy is kept as configured, with no permissions of its
      own: naming "admin" there leaves the system without a role that has every permission. */
  lemma ConfiguredNamesLoseBuiltInPermissions(hierarchy: map<string, seq<string>>, permission: string)
    ensures var roles := WithBuiltInRoles(RolesFromHierarchy(hierarchy));
            && (forall r :: r in hierarchy ==> r in roles && !Grants(roles, r, permission)
                                               && roles[r].parentRoles == hierarchy[r])
            && (Grants(roles, Admin.name, permission) <==> Admin.name !in hierarchy)
  {
    var roles := WithBuiltInRoles(RolesFromHierarchy(hierarchy));
    if Admin.name !in hierarchy {
      assert roles[Admin.name] == Admin;
      DirectTestIsCovers("*", permission);
      assert Covers(Admin.permissions[0], permission);
    }
  }

  predicate Plain(permissions: seq<string>) {
    forall p :: p in permissions ==> p != "" && p[|p| - 1] != '*'
  }

  lemma LongChainHasParent(roles: RoleTable, chain: seq<string>)
    requires IsChain(roles, chain) && |chain| > 1
    ensures chain[0] in roles && roles[chain[0]].parentRoles != []
  {
    var parent := chain[0 + 1];
    assert parent in roles[chain[0]].parentRoles;
  }

  /** A role without parents and patterns gives exactly the permissions listed. */
  lemma PlainRole(roles: RoleTable, role: string, permission: string)
    requires role in roles && roles[role].parentRoles == [] && Plain(roles[role].permissions)
    ensures RoleEntitled(roles, role, permission) <==> permission in roles[role].permissions
  {
    var list := roles[role].permissions;
    if permission in list {
      var i :| 0 <= i < |list| && list[i] == permission;
      assert Covers(list[i], permission);
      assert GrantingChain(roles, [role], role, permission);
    }
    if RoleEntitled(roles, role, permission) {
      var chain :| GrantingChain(roles, chain, role, permission);
      if |chain| > 1 {
        LongChainHasParent(roles, chain);
        assert false;
      }
      var i :| 0 <= i < |list| && Covers(list[i], permission);
      assert list[i] in list;
    }
  }

  lemma AddedBuiltIns(configured: RoleTable)
    ensures var roles := WithBuiltInRoles(configured);
            && ("admin" !in configured ==> "admin" in roles && roles["admin"] == Admin)
            && ("user" !in configured ==> "user" in roles && roles["user"] == User)
            && ("guest" !in configured ==> "guest" in roles && roles["guest"] == Guest)
            && ("service" !in configured ==> "service" in roles && roles["service"] == Service)
  {
  }

  /** What the built-in roles of a new provider are entitled to, unless the configuration names them. */
  lemma BuiltInRoles(hierarchy: map<string, seq<string>>, permission: string)
    ensures var roles := WithBuiltInRoles(RolesFromHierarchy(hierarchy));
            && ("admin" !in hierarchy ==> RoleEntitled(roles, "admin", permission))
            && ("user" !in hierarchy ==>
                  (RoleEntitled(roles, "user", permission)
                   <==> permission in ["read", "list", "create", "update"]))
            && ("guest" !in hierarchy ==>
                  (RoleEntitled(roles, "guest", permission) <==> permission in ["read", "list"]))
            && ("service" !in hierarchy ==>
                  (RoleEntitled(roles, "service", permission) <==> permission in ["read", "write", "execute"]))
  {
    var roles := WithBuiltInRoles(RolesFromHierarchy(hierarchy));
    AddedBuiltIns(RolesFromHierarchy(hierarchy));
    if "admin" !in hierarchy {
      ConfiguredNamesLoseBuiltInPermissions(hierarchy, permission);
      assert GrantingChain(roles, ["admin"], "admin", permission);
    }
    if "user" !in hierarchy {
      PlainRole(roles, "user", permission);
    }
    if "guest" !in hierarchy {
      PlainRole(roles, "guest", permission);
    }
    if "service" !in hierarchy {
      PlainRole(roles, "service", permission);
    }
  }

  lemma OneRoleHeld(roles: RoleTable, role: string, permission: string)
    ensures Entitled(roles, [role], permission) <==> RoleEntitled(roles, role, permission)
  {
    assert [role][0] == role;
  }

  /** A user without roles may read, list, create and update, and nothing else, where the default role
      is the built-in "user". */
  lemma UserWithoutRoles(hierarchy: map<string, seq<string>>, permission: string)
    requires "user" !in hierarchy
    ensures Entitled(WithBuiltInRoles(RolesFromHierarchy(hierarchy)), EffectiveRoles([], "user"), permission)
            <==> permission in ["read", "list", "create", "update"]
  {
    BuiltInRoles(hierarchy, permission);
    OneRoleHeld(WithBuiltInRoles(RolesFromHierarchy(hierarchy)), "user", permission);
  }

  class RBACProvider {
    var roles: map<string, Role>
    var userRoles: map<string, seq<string>>
    var resourcePerms: map<string, seq<string>>
    var defaultRole: string

    /** Every assigned role exists and is listed once per user. */
    ghost predicate Valid()
      reads this
    {
      forall u :: u in userRoles ==>
        NoDuplicates(userRoles[u]) && forall r :: r in userRoles[u] ==> r in roles
    }

    function Assigned(userID: string): seq<string>
      reads this
    {
      if userID in userRoles then userRoles[userID] else []
    }

    ghost predicate UserEntitled(userID: string, permission: string)
      reads this
    {
      Entitled(roles, EffectiveRoles(Assigned(userID), defaultRole), permission)
    }

    constructor (config: Option<RBACConfig>)
      ensures Valid() && userRoles == map[]
      ensures defaultRole == if config.Some? then config.value.defaultRole else "user"
      ensures resourcePerms == if config.Some? then config.value.resourcePermissions else map[]
      ensures roles == WithBuiltInRoles(if config.Some? then RolesFromHierarchy(config.value.roleHierarchy) else map[])
    {
      roles, userRoles, resourcePerms, defaultRole := map[], map[], map[], "user";
      if config.Some? {
        defaultRole := config.value.defaultRole;
        resourcePerms := config.value.resourcePermissions;
        roles := RolesFromHierarchy(config.value.roleHierarchy);
      }
      new;
      var _ := CreateRole(Admin.name, Admin.description, Admin.permissions, Admin.parentRoles);
      var _ := CreateRole(User.name, User.description, User.permissions, User.parentRoles);
      var _ := CreateRole(Guest.name, Guest.description, Guest.permissions, Guest.parentRoles);
      var _ := CreateRole(Service.name, Service.description, Service.permissions, Service.parentRoles);
    }

    method CreateRole(name: string, description: string, permissions: seq<string>, parentRoles: seq<string>)
      returns (error: Option<RBACError>)
      requires Valid()
      modifies this`roles
      ensures Valid()
      ensures name in old(roles) ==> error == Some(RoleExists(name)) && roles == old(roles)
      ensures name !in old(roles) ==>
                error == None && roles == old(roles)[name := Role(name, description, permissions, parentRoles)]
    {
      if name in roles {
        return Some(RoleExists(name));
      }
      roles := roles[name := Role(name, description, permissions, parentRoles)];
      error := None;
    }

    method DeleteRole(name: string) returns (error: Option<RBACError>)
      requires Valid()
      modifies this`roles, this`userRoles
      ensures Valid()
      ensures name == defaultRole ==>
                error == Some(DefaultRoleProtected) && roles == old(roles) && userRoles == old(userRoles)
      ensures name != defaultRole ==>
                && error == None
                && roles == old(roles) - {name}
                && userRoles == map u | u in old(userRoles) :: Without(old(userRoles)[u], name)
    {
      if name == defaultRole {
        return Some(DefaultRoleProtected);
      }
      roles := roles - {name};
      var pending := userRoles.Keys;
      while pending != {}
        invariant roles == old(roles) - {name}
        invariant pending <= userRoles.Keys == old(userRoles).Keys
        invariant forall u :: u in pending ==> userRoles[u] == old(userRoles)[u]
        invariant forall u :: u in userRoles && u !in pending ==> userRoles[u] == Without(old(userRoles)[u], name)
      {
        var userID :| userID in pending;
        var kept := RemoveStringFromSlice(userRoles[userID], name);
        userRoles := userRoles[userID := kept];
        pending := pending - {userID};
      }
      forall u | u in userRoles
        ensures NoDuplicates(userRoles[u]) && forall r :: r in userRoles[u] ==> r in roles
      {
        WithoutMembers(old(userRoles)[u], name);
      }
      error := None;
    }

    method AssignRole(userID: string, roleName: string) returns (error: Option<RBACError>)
      requires Valid()
      modifies this`userRoles
      ensures Valid()
      ensures roleName !in roles ==> error == Some(RoleMissing(roleName)) && userRoles == old(userRoles)
      ensures roleName in roles ==>
                error == None && userRoles ==
                  if roleName in old(Assigned(userID)) then old(userRoles)
                  else old(userRoles)[userID := old(Assigned(userID)) + [roleName]]
    {
      if roleName !in roles {
        return Some(RoleMissing(roleName));
      }
      var held := Assigned(userID);
      if roleName !in held {
        userRoles := userRoles[userID := held + [roleName]];
      }
      error := None;
    }

    method RemoveRole(userID: string, roleName: string)
      requires Valid()
      modifies this`userRoles
      ensures Valid()
      ensures userRoles == old(userRoles)[userID := Without(old(Assigned(userID)), roleName)]
    {
      WithoutMembers(Assigned(userID), roleName);
      var kept := RemoveStringFromSlice(Assigned(userID), roleName);
      userRoles := userRoles[userID := kept];
    }

    /** Depth-first search below one role.  "visited" is shared with the caller's other branches:
        a name found there is skipped, whether its own search has ended or is still under way. */
    method RoleHasPermission(roleName: string, permission: string, visited: VisitedRoles) returns (found: bool)
      modifies visited
      ensures old(visited.names) <= visited.names
      ensures found ==> RoleEntitled(roles, roleName, permission)
      ensures !found ==> roleName in visited.names
      ensures !found ==> Exhausted(roles, permission, visited.names - old(visited.names), visited.names)
      decreases roles.Keys - visited.names
    {
      if roleName in visited.names {
        return false;
      }
      ghost var before := visited.names;
      visited.names := visited.names + {roleName};
      if roleName !in roles {
        return false;
      }
      var role := roles[roleName];

      for i := 0 to |role.permissions|
        invariant visited.names == before + {roleName}
        invariant forall j :: 0 <= j < i ==> !Covers(role.permissions[j], permission)
      {
        var perm := role.permissions[i];
        DirectTestIsCovers(perm, permission);
        if perm == "*" || perm == permission || MatchPermission(perm, permission) {
          assert GrantingChain(roles, [roleName], roleName, permission);
          return true;
        }
      }

      for i := 0 to |role.parentRoles|
        invariant before + {roleName} <= visited.names
        invariant forall j :: 0 <= j < i ==> role.parentRoles[j] in visited.names
        invariant Exhausted(roles, permission, visited.names - before - {roleName}, visited.names)
      {
        var inherited := RoleHasPermission(role.parentRoles[i], permission, visited);
        if inherited {
          PrependLink(roles, roleName, role.parentRoles[i], permission);
          return true;
        }
      }
      return false;
    }

    /** The check is exactly reachability of a granting role from a role the user acts under. */
    method HasPermission(userID: string, permission: string) returns (allowed: bool)
      ensures allowed <==> UserEntitled(userID, permission)
    {
      var held := EffectiveRoles(Assigned(userID), defaultRole);
      for i := 0 to |held|
        invariant forall j :: 0 <= j < i ==> !RoleEntitled(roles, held[j], permission)
      {
        var visited := new VisitedRoles();
        var found := RoleHasPermission(held[i], permission, visited);
        if found {
          return true;
        }
        forall chain | IsChain(roles, chain) && chain[0] == held[i]
          ensures !Grants(roles, chain[|chain| - 1], permission)
        {
          ExhaustedMeansNotEntitled(roles, permission, visited.names, chain, |chain| - 1);
        }
      }
      return false;
    }

    method CanAccessResource(userID: string, resource: string) returns (allowed: bool)
      ensures allowed <==>
                resource !in resourcePerms
                || exists i :: 0 <= i < |resourcePerms[resource]| && UserEntitled(userID, resourcePerms[resource][i])
    {
      if resource !in resourcePerms {
        return true;
      }
      var required := resourcePerms[resource];
      for i := 0 to |required|
        invariant forall j :: 0 <= j < i ==> !UserEntitled(userID, required[j])
      {
        var granted := HasPermission(userID, required[i]);
        if granted {
          return true;
        }
      }
      return false;
    }
  }

  // ---------------------------------------------------------------------------------------
  // What the role operations do to permissions
  // ---------------------------------------------------------------------------------------

  /** Creating a role under a new name can only add permissions, also to roles that already
      named it as a (so far missing) parent. */
  lemma CreateRoleOnlyAdds(roles: RoleTable, name: string, role: Role, from: string, permission: string)
    requires name !in roles
    requires RoleEntitled(roles, from, permission)
    ensures RoleEntitled(roles[name := role], from, permission)
  {
    var chain :| GrantingChain(roles, chain, from, permission);
    assert GrantingChain(roles[name := role], chain, from, permission);
  }

  lemma GrantsAlone(roles: RoleTable, name: string, role: string, permission: string)
    requires role != name
    ensures Grants(roles - {name}, role, permission) <==> Grants(roles, role, permission)
  {
    assert role in roles ==> role in roles - {name} && (roles - {name})[role] == roles[role];
  }

  lemma ChainAvoids(roles: RoleTable, name: string, chain: seq<string>, from: string, permission: string)
    requires GrantingChain(roles, chain, from, permission) && name !in chain
    ensures GrantingChain(roles - {name}, chain, from, permission)
  {
    forall i | 0 <= i < |chain| - 1
      ensures chain[i] in roles - {name} && chain[i + 1] in (roles - {name})[chain[i]].parentRoles
    {
      assert chain[i] in chain;
      assert chain[i] in roles && chain[i + 1] in roles[chain[i]].parentRoles;
    }
    assert chain[|chain| - 1] in chain;
    GrantsAlone(roles, name, chain[|chain| - 1], permission);
  }

  lemma ChainWithout(roles: RoleTable, name: string, chain: seq<string>, from: string, permission: string)
    requires GrantingChain(roles - {name}, chain, from, permission)
    ensures GrantingChain(roles, chain, from, permission) && name !in chain
  {
    forall i | 0 <= i < |chain|
      ensures chain[i] in roles - {name}
      ensures i < |chain| - 1 ==> chain[i + 1] in roles[chain[i]].parentRoles
    {
      assert i < |chain| - 1 ==> chain[i] in roles - {name}
                                 && chain[i + 1] in (roles - {name})[chain[i]].parentRoles;
    }
    GrantsAlone(roles, name, chain[|chain| - 1], permission);
  }

  /** After a deletion, a role keeps a permission exactly when it had a granting chain that
      avoids the deleted role. */
  lemma DeleteRoleKeepsAvoidingChains(roles: RoleTable, name: string, from: string, permission: string)
    ensures RoleEntitled(roles - {name}, from, permission) <==>
            exists chain :: GrantingChain(roles, chain, from, permission) && name !in chain
  {
    if RoleEntitled(roles - {name}, from, permission) {
      var chain :| GrantingChain(roles - {name}, chain, from, permission);
      ChainWithout(roles, name, chain, from, permission);
    }
    if chain :| GrantingChain(roles, chain, from, permission) && name !in chain {
      ChainAvoids(roles, name, chain, from, permission);
    }
  }

  /** Assigning a role adds what that role is entitled to.  Earlier permissions survive exactly
      when the user had roles of its own (or there is no default role): a first assignment
      replaces the default role instead of extending it. */
  lemma AssignRoleEffect(roles: RoleTable, own: seq<string>, defaultRole: string, role: string, permission: string)
    ensures Entitled(roles, EffectiveRoles(own + [role], defaultRole), permission) <==>
            RoleEntitled(roles, role, permission)
            || (own != [] && Entitled(roles, EffectiveRoles(own, defaultRole), permission))
  {
    var held := own + [role];
    assert held[|own|] == role;
    assert forall i :: 0 <= i < |own| ==> held[i] == own[i];
  }

  /** Removing a role keeps exactly what the other roles give.  Removing the only role hands
      the user whatever the default role gives, which may be more than before. */
  lemma RemoveRoleEffect(roles: RoleTable, own: seq<string>, defaultRole: string, role: string, permission: string)
    ensures Entitled(roles, EffectiveRoles(Without(own, role), defaultRole), permission) <==>
            if forall r :: r in own ==> r == role
            then defaultRole != "" && RoleEntitled(roles, defaultRole, permission)
            else exists r :: r in own && r != role && RoleEntitled(roles, r, permission)
  {
    var left := Without(own, role);
    WithoutMembers(own, role);
    if left == [] {
      assert forall r :: r in own ==> r == role;
      if defaultRole != "" {
        assert EffectiveRoles(left, defaultRole)[0] == defaultRole;
      }
    } else {
      assert left[0] in left;
      if r :| r in own && r != role && RoleEntitled(roles, r, permission) {
        var i :| 0 <= i < |left| && left[i] == r;
      }
      if i :| 0 <= i < |left| && RoleEntitled(roles, left[i], permission) {
        assert left[i] in left;
      }
    }
  }
}
