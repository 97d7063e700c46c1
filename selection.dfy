/** What the role picker menu's event handlers do to the selection, as
    functions of the state they read: toggling one role, checking or
    unchecking a whole group, classifying a group as fully or partly
    selected, clearing the roles of the open sub-menu, and the list of
    uids handed to `onUpdate`. */
module Selection {
  import opened Wrappers
  import opened Sequences
  import opened Roles
  import opened OptionGroups

  function UidIn(uids: set<string>): Role -> bool
  {
    (r: Role) => r.uid in uids
  }

  function UidNotIn(uids: set<string>): Role -> bool
  {
    (r: Role) => r.uid !in uids
  }

  /** The roles of `s` whose uid is not in `uids`, in order. */
  function Without(s: seq<Role>, uids: set<string>): seq<Role>
  {
    Filter(s, UidNotIn(uids))
  }

  /** The roles of `s` whose uid is in `uids`, in order. */
  function Only(s: seq<Role>, uids: set<string>): seq<Role>
  {
    Filter(s, UidIn(uids))
  }

  /** The uids of a list of roles. */
  function Uids(roles: seq<Role>): set<string>
  {
    set r | r in roles :: r.uid
  }

  /** `s.find((role) => role.uid === uid)` finds a role. */
  predicate HasUid(s: seq<Role>, uid: string)
  {
    exists i :: 0 <= i < |s| && s[i].uid == uid
  }

  /** Removing a set of uids leaves no role with one of them, and removing
      it again changes nothing. */
  lemma WithoutIdempotent(s: seq<Role>, uids: set<string>)
    ensures Only(Without(s, uids), uids) == []
    ensures Without(Without(s, uids), uids) == Without(s, uids)
  {
    var w := Without(s, uids);
    FilterMembers(s, UidNotIn(uids));
    assert forall x :: x in w ==> x.uid !in uids;
    FilterNone(w, UidIn(uids));
    FilterAll(w, UidNotIn(uids));
  }

  /** A list of roles is kept whole by its own uids and emptied by removing them. */
  lemma OwnUids(roles: seq<Role>)
    ensures Only(roles, Uids(roles)) == roles
    ensures Without(roles, Uids(roles)) == []
  {
    FilterAll(roles, UidIn(Uids(roles)));
    FilterNone(roles, UidNotIn(Uids(roles)));
  }

  /** `onChange(option)`'s new selection: every role with the option's uid
      removed when there is one, otherwise the option appended. */
  function Toggle(s: seq<Role>, option: Role): (r: seq<Role>)
    ensures HasUid(r, option.uid) <==> !HasUid(s, option.uid)
    ensures Without(r, {option.uid}) == Without(s, {option.uid})
    ensures !HasUid(s, option.uid) ==> r == s + [option]
  {
    if HasUid(s, option.uid) then
      WithoutIdempotent(s, {option.uid});
      FilterMembers(s, UidNotIn({option.uid}));
      var w := Without(s, {option.uid});
      assert forall i :: 0 <= i < |w| ==> w[i] in w && w[i].uid != option.uid;
      Without(s, {option.uid})
    else
      FilterConcat(s, [option], UidNotIn({option.uid}));
      assert Filter([option], UidNotIn({option.uid})) == [] + Filter([], UidNotIn({option.uid}));
      assert (s + [option])[|s|].uid == option.uid;
      s + [option]
  }

  /** Toggling a role that is not selected twice restores the selection. */
  lemma {:induction false} ToggleTwice(s: seq<Role>, option: Role)
    requires !HasUid(s, option.uid)
    ensures Toggle(Toggle(s, option), option) == s
  {
    assert Toggle(s, option) == s + [option];
    assert HasUid(s + [option], option.uid) by {
      assert (s + [option])[|s|].uid == option.uid;
    }
    FilterConcat(s, [option], UidNotIn({option.uid}));
    assert Filter([option], UidNotIn({option.uid})) == [] + Filter([], UidNotIn({option.uid}));
    FilterAll(s, UidNotIn({option.uid}));
  }

  function GroupIs(value: string): Role -> bool
  {
    (r: Role) => RoleGroup(r) == value
  }

  function GroupIsNot(value: string): Role -> bool
  {
    (r: Role) => RoleGroup(r) != value
  }

  /** The roles of `s` whose group is `value`, in order. The `fixed:` prefix
      is not checked: a custom role whose name happens to continue with
      `value:` after its sixth character is in the group as well. */
  function InGroup(s: seq<Role>, value: string): seq<Role>
  {
    Filter(s, GroupIs(value))
  }

  /** Extending a list by one role extends its roles of a group by that role
      or by nothing. */
  lemma InGroupSnoc(s: seq<Role>, i: nat, value: string)
    requires i < |s|
    ensures InGroup(s[..i + 1], value) == InGroup(s[..i], value) + (if RoleGroup(s[i]) == value then [s[i]] else [])
  {
    assert s[..i + 1] == s[..i] + [s[i]];
    FilterConcat(s[..i], [s[i]], GroupIs(value));
    assert Filter([s[i]], GroupIs(value)) == (if GroupIs(value)(s[i]) then [s[i]] else []) + Filter([], GroupIs(value));
  }

  /** The roles of `s` whose group is not `value`, in order. */
  function OutsideGroup(s: seq<Role>, value: string): seq<Role>
  {
    Filter(s, GroupIsNot(value))
  }

  /** `getSelectedGroupOptions(value)`: the selected roles of the group, then
      the roles of the built-in role that belong to it. */
  function SelectedGroupOptions(selected: seq<Role>, builtIns: seq<Role>, value: string): (r: seq<Role>)
    ensures forall x :: x in r <==> (x in selected || x in builtIns) && RoleGroup(x) == value
  {
    FilterMembers(selected, GroupIs(value));
    FilterMembers(builtIns, GroupIs(value));
    InGroup(selected, value) + InGroup(builtIns, value)
  }

  /** What `groupOptions!.options` throws when no group has the value. */
  const GroupNotFound: string := "TypeError: cannot read 'options' of undefined"

  /** `groupSelected`, given the number of selected roles of the group and the
      group found for its value: at least one role and at least as many as the
      group has options. With no role selected the `&&` stops before the group
      is dereferenced; otherwise an unknown group throws. */
  function IsGroupSelected(count: nat, group: Option<Group>): (r: Result<bool>)
    ensures r.Err? <==> count > 0 && group.None?
    ensures r == Ok(true) ==> 0 < count && |group.value.options| <= count
    ensures count == 0 ==> r == Ok(false)
    ensures 0 < count && group.Some? ==> r == Ok(|group.value.options| <= count)
  {
    if count == 0 then Ok(false)
    else if group.None? then Err(GroupNotFound)
    else Ok(count >= |group.value.options|)
  }

  /** `groupPartiallySelected`: at least one role selected and fewer than the
      group has options. It fails exactly when `groupSelected` does, and
      otherwise holds exactly when some role is selected and `groupSelected`
      does not hold: a group is unselected, partly or fully selected, one of
      the three. */
  function IsGroupPartiallySelected(count: nat, group: Option<Group>): (r: Result<bool>)
    ensures r.Err? <==> IsGroupSelected(count, group).Err?
    ensures r.Ok? ==> (r.value <==> count > 0 && !IsGroupSelected(count, group).value)
  {
    if count == 0 then Ok(false)
    else if group.None? then Err(GroupNotFound)
    else Ok(count < |group.value.options|)
  }

  /** The selection with a group's roles checked: every selected role with a
      uid of the group removed, then all the group's options appended. */
  function SelectGroup(s: seq<Role>, options: seq<Role>): seq<Role>
  {
    Without(s, Uids(options)) + options
  }

  /** The selection with a group's roles unchecked. */
  function DeselectGroup(s: seq<Role>, options: seq<Role>): seq<Role>
  {
    Without(s, Uids(options))
  }

  /** After checking a group, its roles in the selection are exactly its
      options, in option order, and the rest of the selection is unchanged. */
  lemma SelectGroupProjections(s: seq<Role>, options: seq<Role>)
    ensures Only(SelectGroup(s, options), Uids(options)) == options
    ensures Without(SelectGroup(s, options), Uids(options)) == Without(s, Uids(options))
  {
    var u := Uids(options);
    FilterConcat(Without(s, u), options, UidIn(u));
    FilterConcat(Without(s, u), options, UidNotIn(u));
    WithoutIdempotent(s, u);
    OwnUids(options);
  }

  /** After checking a group, each of its options is selected exactly as
      often as it occurs in the group: once, for a group without repeats. */
  lemma SelectGroupOccurrences(s: seq<Role>, options: seq<Role>, o: Role)
    requires o in options
    ensures multiset(SelectGroup(s, options))[o] == multiset(options)[o]
  {
    var w := Without(s, Uids(options));
    FilterMembers(s, UidNotIn(Uids(options)));
    assert o.uid in Uids(options);
    assert o !in w;
    assert multiset(SelectGroup(s, options)) == multiset(w) + multiset(options);
  }

  /** After unchecking a group, none of its roles is selected and the rest of
      the selection is unchanged. */
  lemma DeselectGroupProjections(s: seq<Role>, options: seq<Role>)
    ensures Only(DeselectGroup(s, options), Uids(options)) == []
    ensures Without(DeselectGroup(s, options), Uids(options)) == Without(s, Uids(options))
  {
    WithoutIdempotent(s, Uids(options));
  }

  /** `onGroupChange(value)`'s new selection, or the error it throws. */
  function GroupChange(selected: seq<Role>, builtIns: seq<Role>, groups: seq<Group>, value: string): Result<seq<Role>>
  {
    var group := FindGroup(groups, value);
    match IsGroupSelected(|SelectedGroupOptions(selected, builtIns, value)|, group)
    case Err(e) => Err(e)
    case Ok(full) =>
      if group.None? then Ok(selected)
      else if full then Ok(DeselectGroup(selected, group.value.options))
      else Ok(SelectGroup(selected, group.value.options))
  }

  /** What `onGroupChange(value)` does: it throws exactly when roles are
      counted for a value without a group; a value without a group otherwise
      leaves the selection alone; for a group, the roles with other uids stay
      as they were, and the group's roles become none when it was fully
      selected, and otherwise its options, appended after the kept roles. */
  lemma GroupChangeEffect(selected: seq<Role>, builtIns: seq<Role>, groups: seq<Group>, value: string)
    ensures var r := GroupChange(selected, builtIns, groups, value);
            r.Err? <==> |SelectedGroupOptions(selected, builtIns, value)| > 0 && FindGroup(groups, value).None?
    ensures var r := GroupChange(selected, builtIns, groups, value);
            FindGroup(groups, value).None? && r.Ok? ==> r.value == selected
    ensures FindGroup(groups, value).Some? ==>
              var r := GroupChange(selected, builtIns, groups, value);
              var g := FindGroup(groups, value).value;
              var full := IsGroupSelected(|SelectedGroupOptions(selected, builtIns, value)|, Some(g)).value;
              && r.Ok?
              && Without(r.value, Uids(g.options)) == Without(selected, Uids(g.options))
              && Only(r.value, Uids(g.options)) == (if full then [] else g.options)
              && (!full ==> |g.options| <= |r.value| && r.value[|r.value| - |g.options|..] == g.options)
  {
    var group := FindGroup(groups, value);
    if group.Some? {
      DeselectGroupProjections(selected, group.value.options);
      SelectGroupProjections(selected, group.value.options);
    }
  }

  /** Once a group's options are all selected, the roles counted for the
      group are at least as many as its options. */
  lemma SelectGroupCount(selected: seq<Role>, builtIns: seq<Role>, options: seq<Role>, value: string)
    requires forall o :: o in options ==> RoleGroup(o) == value
    ensures |SelectedGroupOptions(SelectGroup(selected, options), builtIns, value)| >= |options|
  {
    FilterConcat(Without(selected, Uids(options)), options, GroupIs(value));
    FilterAll(options, GroupIs(value));
  }

  /** Checking a group of a grouping that is not fully selected makes it
      fully selected. */
  lemma GroupChangeSelectsWholeGroup(options: seq<Role>, groups: seq<Group>, selected: seq<Role>, builtIns: seq<Role>, value: string)
    requires IsOptionGrouping(options, groups)
    requires FindGroup(groups, value).Some?
    requires IsGroupSelected(|SelectedGroupOptions(selected, builtIns, value)|, FindGroup(groups, value)) == Ok(false)
    ensures GroupChange(selected, builtIns, groups, value).Ok?
    ensures IsGroupSelected(|SelectedGroupOptions(GroupChange(selected, builtIns, groups, value).value, builtIns, value)|,
                            FindGroup(groups, value)) == Ok(true)
  {
    var g := FindGroup(groups, value).value;
    var i :| 0 <= i < |groups| && groups[i] == g;
    assert IsGroupOf(options, groups[i]);
    forall o | o in g.options
      ensures RoleGroup(o) == value
    {
      GroupOptionsAreFixedOptions(options, groups, i, o);
    }
    assert GroupChange(selected, builtIns, groups, value) == Ok(SelectGroup(selected, g.options));
    SelectGroupCount(selected, builtIns, g.options, value);
  }

  /** `onClearSubMenu` keeps the roles outside the open group: together with
      the roles of the group it removes they are the old selection, and none
      of the group's roles is left. */
  lemma ClearSubMenuRemovesExactlyGroup(s: seq<Role>, value: string)
    ensures multiset(OutsideGroup(s, value)) + multiset(InGroup(s, value)) == multiset(s)
    ensures InGroup(OutsideGroup(s, value), value) == []
  {
    FilterPartition(s, GroupIsNot(value), GroupIs(value));
    var o := OutsideGroup(s, value);
    FilterMembers(s, GroupIsNot(value));
    assert forall x :: x in o ==> !GroupIs(value)(x);
    FilterNone(o, GroupIs(value));
  }

  /** The uids of the selected roles, in selection order: what
      `onUpdateInternal` hands to `onUpdate`. */
  function RoleUids(s: seq<Role>): (uids: seq<string>)
    ensures |uids| == |s|
    ensures forall i :: 0 <= i < |s| ==> uids[i] == s[i].uid
  {
    if s == [] then [] else [s[0].uid] + RoleUids(s[1..])
  }
}
