/** `getOptionGroups` of the role picker menu: the fixed roles bucketed by
    group, each bucket sorted by role name, the groups sorted by display name;
    and the lookup of a group by its value. */
module OptionGroups {
  import opened Wrappers
  import opened Sequences
  import opened Roles

  /** Whether a role goes into the bucket of the group `value`. */
  function InBucket(value: string): Role -> bool
  {
    r => IsFixedRole(r) && RoleGroup(r) == value
  }

  /** The fixed options whose group is `value`, in option order. */
  function Bucket(options: seq<Role>, value: string): seq<Role>
  {
    Filter(options, InBucket(value))
  }

  /** `g` is the group `getOptionGroups` builds for its value: named by the
      display name of the value, holding the whole non-empty bucket of that
      value, sorted by name. */
  ghost predicate IsGroupOf(options: seq<Role>, g: Group)
  {
    && g.name == DisplayName(g.value)
    && g.options != []
    && multiset(g.options) == multiset(Bucket(options, g.value))
    && SortedBy(g.options, RoleName)
  }

  /** `groups` is a grouping of the fixed roles of `options`: one group per
      group value that occurs, no value twice, sorted by display name. */
  ghost predicate IsOptionGrouping(options: seq<Role>, groups: seq<Group>)
  {
    && (forall i :: 0 <= i < |groups| ==> IsGroupOf(options, groups[i]))
    && DistinctBy(groups, GroupValue)
    && (forall k :: 0 <= k < |options| && IsFixedRole(options[k]) ==>
          exists i :: 0 <= i < |groups| && groups[i].value == RoleGroup(options[k]))
    && SortedBy(groups, GroupName)
  }

  /** Appending one option extends every bucket by that option or by nothing. */
  lemma BucketSnoc(options: seq<Role>, i: nat, value: string)
    requires i < |options|
    ensures Bucket(options[..i + 1], value)
         == Bucket(options[..i], value) + (if IsFixedRole(options[i]) && RoleGroup(options[i]) == value then [options[i]] else [])
  {
    assert options[..i + 1] == options[..i] + [options[i]];
    FilterConcat(options[..i], [options[i]], InBucket(value));
    assert Filter([options[i]], InBucket(value)) == (if InBucket(value)(options[i]) then [options[i]] else []) + Filter([], InBucket(value));
  }

  /** `groupsMap` and `keys` hold the buckets of the roles seen so far: the
      keys are the map's keys, each once, and each key
      maps to its non-empty bucket; every other value has an empty bucket. */
  ghost predicate Collected(seen: seq<Role>, groupsMap: map<string, seq<Role>>, keys: seq<string>)
  {
    && (forall k :: k in groupsMap <==> k in keys)
    && (forall a, b :: 0 <= a < b < |keys| ==> keys[a] != keys[b])
    && (forall k :: k in groupsMap ==> groupsMap[k] == Bucket(seen, k) && groupsMap[k] != [])
    && (forall k :: k !in groupsMap ==> Bucket(seen, k) == [])
  }

  /** One step of the `options.forEach` of `getOptionGroups`: a fixed role is
      pushed onto the list of its group, the list being created (and its key
      recorded) at the group's first role; other roles are skipped. */
  method CollectRole(options: seq<Role>, i: nat, groupsMap: map<string, seq<Role>>, keys: seq<string>)
    returns (groupsMap': map<string, seq<Role>>, keys': seq<string>)
    requires i < |options|
    requires Collected(options[..i], groupsMap, keys)
    ensures Collected(options[..i + 1], groupsMap', keys')
  {
    groupsMap', keys' := groupsMap, keys;
    var role := options[i];
    if IsFixedRole(role) {
      var groupName := RoleGroup(role);
      if groupName in groupsMap' {
        CollectedPush(options, i, groupsMap, keys);
        groupsMap' := groupsMap'[groupName := groupsMap'[groupName] + [role]];
      } else {
        CollectedNew(options, i, groupsMap, keys);
        groupsMap' := groupsMap'[groupName := [role]];
        keys' := keys' + [groupName];
      }
    } else {
      CollectedSkip(options, i, groupsMap, keys);
    }
  }

  /** A role that is not fixed leaves every bucket as it was. */
  lemma CollectedSkip(options: seq<Role>, i: nat, groupsMap: map<string, seq<Role>>, keys: seq<string>)
    requires i < |options| && !IsFixedRole(options[i])
    requires Collected(options[..i], groupsMap, keys)
    ensures Collected(options[..i + 1], groupsMap, keys)
  {
    forall k
      ensures Bucket(options[..i + 1], k) == Bucket(options[..i], k)
    {
      BucketSnoc(options, i, k);
    }
  }

  /** A fixed role of a group already seen extends that group's list only. */
  lemma CollectedPush(options: seq<Role>, i: nat, groupsMap: map<string, seq<Role>>, keys: seq<string>)
    requires i < |options| && IsFixedRole(options[i]) && RoleGroup(options[i]) in groupsMap
    requires Collected(options[..i], groupsMap, keys)
    ensures var g := RoleGroup(options[i]);
            Collected(options[..i + 1], groupsMap[g := groupsMap[g] + [options[i]]], keys)
  {
    var g := RoleGroup(options[i]);
    forall k
      ensures Bucket(options[..i + 1], k) == Bucket(options[..i], k) + (if k == g then [options[i]] else [])
    {
      BucketSnoc(options, i, k);
    }
  }

  /** The first fixed role of a group starts its list and records its key. */
  lemma CollectedNew(options: seq<Role>, i: nat, groupsMap: map<string, seq<Role>>, keys: seq<string>)
    requires i < |options| && IsFixedRole(options[i]) && RoleGroup(options[i]) !in groupsMap
    requires Collected(options[..i], groupsMap, keys)
    ensures var g := RoleGroup(options[i]);
            Collected(options[..i + 1], groupsMap[g := [options[i]]], keys + [g])
  {
    var g := RoleGroup(options[i]);
    forall k
      ensures Bucket(options[..i + 1], k) == Bucket(options[..i], k) + (if k == g then [options[i]] else [])
    {
      BucketSnoc(options, i, k);
    }
  }

  /** The `options.forEach` of `getOptionGroups`: every fixed role is pushed
      onto the list of its group in `groupsMap`. `keys` stands for the keys a
      `for ... in` over the object enumerates; they are appended as they are
      added, but only their being the map's keys, each once, is stated. */
  method CollectBuckets(options: seq<Role>) returns (groupsMap: map<string, seq<Role>>, keys: seq<string>)
    ensures forall k :: k in groupsMap <==> k in keys
    ensures forall a, b :: 0 <= a < b < |keys| ==> keys[a] != keys[b]
    ensures forall k :: k in groupsMap ==> groupsMap[k] == Bucket(options, k) && groupsMap[k] != []
    ensures forall k :: k !in groupsMap ==> Bucket(options, k) == []
  {
    groupsMap, keys := map[], [];
    var i := 0;
    while i < |options|
      invariant 0 <= i <= |options|
      invariant Collected(options[..i], groupsMap, keys)
    {
      groupsMap, keys := CollectRole(options, i, groupsMap, keys);
      i := i + 1;
    }
    assert options[..i] == options;
  }

  /** The `for ... in` of `getOptionGroups`: one group per key of the bucket
      map, in key order, with its display name and its roles sorted by name.
      Every key was set by the code itself, so the `hasOwnProperty` test
      always passes. */
  method BuildGroups(options: seq<Role>, groupsMap: map<string, seq<Role>>, keys: seq<string>)
    returns (groups: seq<Group>)
    requires forall k :: k in keys ==> k in groupsMap
    requires forall k :: k in groupsMap ==> groupsMap[k] == Bucket(options, k) && groupsMap[k] != []
    ensures |groups| == |keys|
    ensures forall t :: 0 <= t < |keys| ==> groups[t].value == keys[t] && IsGroupOf(options, groups[t])
  {
    groups := [];
    var j := 0;
    while j < |keys|
      invariant 0 <= j <= |keys|
      invariant |groups| == j
      invariant forall t :: 0 <= t < j ==> groups[t].value == keys[t] && IsGroupOf(options, groups[t])
    {
      var groupName := keys[j];
      var groupOptions := SortRolesByName(groupsMap[groupName]);
      assert |groupOptions| == |multiset(groupOptions)| == |groupsMap[groupName]|;
      groups := groups + [Group(DisplayName(groupName), groupName, groupOptions)];
      j := j + 1;
    }
  }

  /** `getOptionGroups`: the buckets, made into groups, sorted by display name. */
  method GetOptionGroups(options: seq<Role>) returns (groups: seq<Group>)
    ensures IsOptionGrouping(options, groups)
  {
    var groupsMap, keys := CollectBuckets(options);
    var unsorted := BuildGroups(options, groupsMap, keys);
    assert DistinctBy(unsorted, GroupValue);
    groups := SortBy(unsorted, GroupName);
    SortBySorted(unsorted, GroupName);
    SortByDistinct(unsorted, GroupName, GroupValue);
    forall i | 0 <= i < |groups|
      ensures IsGroupOf(options, groups[i])
    {
      assert groups[i] in multiset(unsorted);
    }
    forall k | 0 <= k < |options| && IsFixedRole(options[k])
      ensures exists i :: 0 <= i < |groups| && groups[i].value == RoleGroup(options[k])
    {
      var value := RoleGroup(options[k]);
      FilterMembers(options, InBucket(value));
      assert options[k] in Bucket(options, value);
      var t :| 0 <= t < |keys| && keys[t] == value;
      assert unsorted[t] in multiset(groups);
    }
  }

  /** `groups.find((g) => g.value === value)`: the first group with that value. */
  function FindGroup(groups: seq<Group>, value: string): (r: Option<Group>)
    ensures r.None? <==> forall i :: 0 <= i < |groups| ==> groups[i].value != value
    ensures r.Some? ==> r.value.value == value && r.value in groups
    ensures r.Some? ==> exists i :: 0 <= i < |groups| && groups[i] == r.value
                                    && forall j :: 0 <= j < i ==> groups[j].value != value
  {
    if groups == [] then None
    else if groups[0].value == value then Some(groups[0])
    else FindGroup(groups[1..], value)
  }

  /** With pairwise different values, every group is the one found for its value. */
  lemma FindGroupUnique(groups: seq<Group>, i: nat)
    requires DistinctBy(groups, GroupValue)
    requires i < |groups|
    ensures FindGroup(groups, groups[i].value) == Some(groups[i])
  {
  }

  /** Only fixed options appear in a grouping, each in the group of its own
      group value. */
  lemma GroupOptionsAreFixedOptions(options: seq<Role>, groups: seq<Group>, i: nat, r: Role)
    requires IsOptionGrouping(options, groups)
    requires i < |groups| && r in groups[i].options
    ensures r in options && IsFixedRole(r) && RoleGroup(r) == groups[i].value
  {
    assert IsGroupOf(options, groups[i]);
    assert r in multiset(Bucket(options, groups[i].value));
    var b := Bucket(options, groups[i].value);
    FilterMembers(options, InBucket(groups[i].value));
    var k :| 0 <= k < |b| && b[k] == r;
  }

  /** Every fixed option appears in exactly one group of a grouping: the
      group whose value is the option's group. */
  lemma FixedRoleInExactlyOneGroup(options: seq<Role>, groups: seq<Group>, r: Role)
    requires IsOptionGrouping(options, groups)
    requires r in options && IsFixedRole(r)
    ensures exists i :: 0 <= i < |groups| && groups[i].value == RoleGroup(r) && r in groups[i].options
    ensures forall i :: 0 <= i < |groups| && r in groups[i].options ==> groups[i].value == RoleGroup(r)
    ensures forall i, j :: 0 <= i < |groups| && 0 <= j < |groups| && r in groups[i].options && r in groups[j].options ==> i == j
  {
    var i :| 0 <= i < |groups| && groups[i].value == RoleGroup(r);
    var g := groups[i];
    assert IsGroupOf(options, g);
    FilterMembers(options, InBucket(g.value));
    assert r in Bucket(options, g.value);
    assert r in multiset(g.options);
    forall j | 0 <= j < |groups| && r in groups[j].options
      ensures groups[j].value == RoleGroup(r)
    {
      GroupOptionsAreFixedOptions(options, groups, j, r);
    }
    forall a, b | 0 <= a < |groups| && 0 <= b < |groups| && r in groups[a].options && r in groups[b].options
      ensures a == b
    {
      GroupOptionsAreFixedOptions(options, groups, a, r);
      GroupOptionsAreFixedOptions(options, groups, b, r);
      DistinctByAt(groups, GroupValue, a, b);
    }
  }
}
