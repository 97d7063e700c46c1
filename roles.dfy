/** The file-level helpers of the role picker menu: the fixed-role prefix, the
    group of a fixed role, the display name of a group, the custom/fixed
    filters and the sort by name. */
module Roles {
  import opened JsStrings
  import opened Sequences

  /** A role as the picker sees it: identified by `uid`, classified, grouped
      and sorted by `name`. */
  datatype Role = Role(uid: string, name: string)

  /** One entry of the fixed-roles list: a display name, the group value it
      stands for and the roles in that group. */
  datatype Group = Group(name: string, value: string, options: seq<Role>)

  /** Every fixed role's name starts with this prefix. */
  const FixedPrefix: string := "fixed:"

  /** Display names that do not follow from capitalizing the group value. */
  const FixedRoleGroupNames: map<string, string> := map["ldap" := "LDAP", "current" := "Current org"]

  /** `filterFixedRoles`: the role's name starts with `fixed:`. */
  predicate IsFixedRole(r: Role)
  {
    StartsWith(r.name, FixedPrefix)
  }

  /** `filterCustomRoles`: the role's name does not start with `fixed:`. */
  predicate IsCustomRole(r: Role)
  {
    !StartsWith(r.name, FixedPrefix)
  }

  /** `getRoleGroup`: drop the first six characters (the length of `fixed:`)
      and keep what precedes the next `:`; with no `:` left, the empty string.
      The prefix itself is not checked. */
  function RoleGroup(r: Role): string
  {
    var groupName := Substr(r.name, |FixedPrefix|);
    Substring(groupName, 0, IndexOf(groupName, ':'))
  }

  /** The group never contains `:`. When a `:` follows the first six
      characters, the group is the text up to the first one; otherwise the
      group is empty (`substring(0, -1)` clamps to `substring(0, 0)`). */
  lemma RoleGroupShape(r: Role)
    ensures ':' !in RoleGroup(r)
    ensures StartsWith(Substr(r.name, |FixedPrefix|), RoleGroup(r))
    ensures ':' in Substr(r.name, |FixedPrefix|) ==> StartsWith(Substr(r.name, |FixedPrefix|), RoleGroup(r) + [':'])
    ensures ':' !in Substr(r.name, |FixedPrefix|) ==> RoleGroup(r) == []
  {
  }

  /** The group of `fixed:<group>:<rest>` is `<group>`, whatever follows. */
  lemma RoleGroupOfFixedName(group: string, rest: string, uid: string)
    requires ':' !in group
    ensures RoleGroup(Role(uid, FixedPrefix + group + [':'] + rest)) == group
  {
    var name := FixedPrefix + group + [':'] + rest;
    var tail := Substr(name, |FixedPrefix|);
    assert tail == group + [':'] + rest;
    assert tail[|group|] == ':';
    assert forall k :: 0 <= k < |group| ==> tail[k] == group[k] != ':';
    var i := IndexOf(tail, ':');
    assert tail[..|group| + 1][|group|] == ':';
    assert i == |group|;
    assert tail[..i] == group;
  }

  /** `capitalize`: the first character upper-cased, the rest unchanged. */
  function Capitalize(s: string): (r: string)
    ensures |r| == |s|
    ensures s != [] ==> r[0] == ToUpper(s[0]) && r[1..] == s[1..]
  {
    if s == [] then [] else [ToUpper(s[0])] + s[1..]
  }

  /** The display name of a group: the table entry when there is one,
      otherwise the capitalized value. */
  function DisplayName(value: string): (name: string)
    ensures value == "ldap" ==> name == "LDAP"
    ensures value == "current" ==> name == "Current org"
    ensures value !in FixedRoleGroupNames ==> |name| == |value|
    ensures value !in FixedRoleGroupNames && value != [] ==> name[0] == ToUpper(value[0]) && name[1..] == value[1..]
  {
    if value in FixedRoleGroupNames then FixedRoleGroupNames[value] else Capitalize(value)
  }

  function RoleName(r: Role): string
  {
    r.name
  }

  function GroupName(g: Group): string
  {
    g.name
  }

  function GroupValue(g: Group): string
  {
    g.value
  }

  /** `roles.sort(sortRolesByName)`: the same roles, non-decreasing by name. */
  function SortRolesByName(roles: seq<Role>): (r: seq<Role>)
    ensures multiset(r) == multiset(roles)
    ensures SortedBy(r, RoleName)
  {
    SortBySorted(roles, RoleName);
    SortBy(roles, RoleName)
  }

  /** The custom roles of `options` in the order the menu lists them. */
  function CustomRoles(options: seq<Role>): (r: seq<Role>)
    ensures SortedBy(r, RoleName)
    ensures forall i :: 0 <= i < |r| ==> r[i] in options && IsCustomRole(r[i])
  {
    var custom := Filter(options, IsCustomRole);
    FilterMembers(options, IsCustomRole);
    var sorted := SortRolesByName(custom);
    assert forall i :: 0 <= i < |sorted| ==> sorted[i] in multiset(custom);
    sorted
  }

  /** The fixed roles of `options` in the order the menu lists them. */
  function FixedRoles(options: seq<Role>): (r: seq<Role>)
    ensures SortedBy(r, RoleName)
    ensures forall i :: 0 <= i < |r| ==> r[i] in options && IsFixedRole(r[i])
  {
    var fixed := Filter(options, IsFixedRole);
    FilterMembers(options, IsFixedRole);
    var sorted := SortRolesByName(fixed);
    assert forall i :: 0 <= i < |sorted| ==> sorted[i] in multiset(fixed);
    sorted
  }

  /** Every role is custom or fixed and never both, so the two lists split
      the options: together they hold each option exactly as often as the
      options do. */
  lemma CustomFixedPartition(options: seq<Role>)
    ensures forall r :: IsCustomRole(r) <==> !IsFixedRole(r)
    ensures multiset(CustomRoles(options)) + multiset(FixedRoles(options)) == multiset(options)
  {
    FilterPartition(options, IsFixedRole, IsCustomRole);
  }
}
