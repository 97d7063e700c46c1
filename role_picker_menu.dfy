/** The role picker menu component: its props, the state it keeps between
    renders, and the event handlers that update that state. The `onUpdate`
    and `onClear` callbacks are recorded as outputs. */
module RolePicker {
  import opened Wrappers
  import opened Sequences
  import opened Roles
  import opened OptionGroups
  import opened Selection

  /** The organisation roles offered by the built-in role selector. */
  datatype OrgRole = Viewer | Editor | Admin

  /** The props give roles for every built-in role: `builtInRoles[newRole]`
      is never undefined. */
  predicate CoversOrgRoles(builtInRoles: map<OrgRole, seq<Role>>)
  {
    forall r: OrgRole :: r in builtInRoles
  }

  /** One call of the `onUpdate` callback. */
  datatype Update = Update(builtInRole: OrgRole, roleUids: seq<string>)

  class RolePickerMenu {
    // props
    const builtInRoles: map<OrgRole, seq<Role>>
    const options: seq<Role>
    const hasOnClear: bool
    /** `optionGroups`, computed from `options` on every render; the props do
        not change, so neither does it. */
    const optionGroups: seq<Group>

    // state
    var selectedOptions: seq<Role>
    var selectedBuiltInRole: OrgRole
    var selectedBuiltInRoles: seq<Role>
    var showSubMenu: bool
    var openedMenuGroup: string
    var subMenuOptions: seq<Role>

    // callback calls
    var updates: seq<Update>
    var clearCalls: nat

    /** The props give roles for every built-in role, the groups are the
        grouping of the options, the built-in roles follow the selected
        built-in role, and a closed sub-menu has no group and no options. */
    ghost predicate Valid()
      reads this
    {
      && CoversOrgRoles(builtInRoles)
      && IsOptionGrouping(options, optionGroups)
      && selectedBuiltInRole in builtInRoles
      && selectedBuiltInRoles == builtInRoles[selectedBuiltInRole]
      && (!showSubMenu ==> openedMenuGroup == "" && subMenuOptions == [])
      && (subMenuOptions == [] || exists i :: 0 <= i < |optionGroups| && optionGroups[i].options == subMenuOptions)
    }

    /** The first render: the selection starts from the applied roles, the
        built-in roles from the given built-in role, the sub-menu closed. */
    constructor (builtInRole: OrgRole, builtInRoles: map<OrgRole, seq<Role>>, options: seq<Role>,
                 appliedRoles: seq<Role>, hasOnClear: bool)
      requires CoversOrgRoles(builtInRoles)
      ensures Valid()
      ensures this.builtInRoles == builtInRoles && this.options == options && this.hasOnClear == hasOnClear
      ensures selectedOptions == appliedRoles
      ensures selectedBuiltInRole == builtInRole && selectedBuiltInRoles == builtInRoles[builtInRole]
      ensures !showSubMenu && openedMenuGroup == "" && subMenuOptions == []
      ensures updates == [] && clearCalls == 0
    {
      this.builtInRoles := builtInRoles;
      this.options := options;
      this.hasOnClear := hasOnClear;
      var groups := GetOptionGroups(options);
      optionGroups := groups;
      selectedOptions := appliedRoles;
      selectedBuiltInRole := builtInRole;
      selectedBuiltInRoles := builtInRoles[builtInRole];
      showSubMenu := false;
      openedMenuGroup := "";
      subMenuOptions := [];
      updates := [];
      clearCalls := 0;
    }

    /** `getSelectedGroupOptions(group)`: the selected roles of the group,
        then the built-in roles of the group, each in list order. */
    method GetSelectedGroupOptions(group: string) returns (selectedGroupOptions: seq<Role>)
      ensures selectedGroupOptions == SelectedGroupOptions(selectedOptions, selectedBuiltInRoles, group)
    {
      selectedGroupOptions := PushInGroup([], selectedOptions, group);
      assert selectedGroupOptions == InGroup(selectedOptions, group);
      selectedGroupOptions := PushInGroup(selectedGroupOptions, selectedBuiltInRoles, group);
    }

    /** `groupSelected(group)`. */
    method GroupSelected(group: string) returns (r: Result<bool>)
      ensures r == IsGroupSelected(|SelectedGroupOptions(selectedOptions, selectedBuiltInRoles, group)|,
                                   FindGroup(optionGroups, group))
    {
      var selectedGroupOptions := GetSelectedGroupOptions(group);
      var groupOptions := FindGroup(optionGroups, group);
      if |selectedGroupOptions| == 0 {
        r := Ok(false);
      } else if groupOptions.None? {
        r := Err(GroupNotFound);
      } else {
        r := Ok(|selectedGroupOptions| >= |groupOptions.value.options|);
      }
    }

    /** `groupPartiallySelected(group)`. */
    method GroupPartiallySelected(group: string) returns (r: Result<bool>)
      ensures r == IsGroupPartiallySelected(|SelectedGroupOptions(selectedOptions, selectedBuiltInRoles, group)|,
                                            FindGroup(optionGroups, group))
    {
      var selectedGroupOptions := GetSelectedGroupOptions(group);
      var groupOptions := FindGroup(optionGroups, group);
      if |selectedGroupOptions| == 0 {
        r := Ok(false);
      } else if groupOptions.None? {
        r := Err(GroupNotFound);
      } else {
        r := Ok(|selectedGroupOptions| < |groupOptions.value.options|);
      }
    }

    /** `onChange(option)`: toggles one role by uid. */
    method OnChange(option: Role)
      requires Valid()
      modifies this`selectedOptions
      ensures Valid()
      ensures selectedOptions == Toggle(old(selectedOptions), option)
    {
      if HasUid(selectedOptions, option.uid) {
        selectedOptions := Without(selectedOptions, {option.uid});
      } else {
        selectedOptions := selectedOptions + [option];
      }
    }

    /** `onGroupChange(value)`: unchecks a fully selected group, checks any
        other group; `ok` is false when the handler throws, and then nothing
        changes. */
    method OnGroupChange(value: string) returns (ok: bool)
      requires Valid()
      modifies this`selectedOptions
      ensures Valid()
      ensures var next := GroupChange(old(selectedOptions), selectedBuiltInRoles, optionGroups, value);
              && ok == next.Ok?
              && selectedOptions == if next.Ok? then next.value else old(selectedOptions)
    {
      var group := FindGroup(optionGroups, value);
      var selected := GroupSelected(value);
      ghost var next := GroupChange(selectedOptions, selectedBuiltInRoles, optionGroups, value);
      if selected.Err? {
        assert next.Err?;
        ok := false;
        return;
      }
      ok := true;
      if selected.value {
        if group.Some? {
          assert next == Ok(DeselectGroup(selectedOptions, group.value.options));
          selectedOptions := Without(selectedOptions, Uids(group.value.options));
        }
      } else {
        if group.Some? {
          assert next == Ok(SelectGroup(selectedOptions, group.value.options));
          var restOptions := Without(selectedOptions, Uids(group.value.options));
          selectedOptions := restOptions + group.value.options;
        } else {
          assert next == Ok(selectedOptions);
        }
      }
    }

    /** `onMenuGroupClick(value)`: a click on the open group closes the
        sub-menu; any other value opens it, showing that group's options
        when there is such a group. */
    method OnMenuGroupClick(value: string)
      requires Valid()
      modifies this`showSubMenu, this`openedMenuGroup, this`subMenuOptions
      ensures Valid()
      ensures old(openedMenuGroup) == value ==> !showSubMenu && openedMenuGroup == "" && subMenuOptions == []
      ensures old(openedMenuGroup) != value ==>
                && showSubMenu && openedMenuGroup == value
                && subMenuOptions == match FindGroup(optionGroups, value)
                                     case Some(g) => g.options
                                     case None => old(subMenuOptions)
    {
      if openedMenuGroup == value {
        showSubMenu := false;
        openedMenuGroup := "";
        subMenuOptions := [];
        return;
      }
      openedMenuGroup := value;
      showSubMenu := true;
      var group := FindGroup(optionGroups, value);
      if group.Some? {
        subMenuOptions := group.value.options;
      }
    }

    /** `onSelectedBuiltinRoleChange(newRole)`. */
    method OnSelectedBuiltinRoleChange(newRole: OrgRole)
      requires Valid()
      modifies this`selectedBuiltInRole, this`selectedBuiltInRoles
      ensures Valid()
      ensures selectedBuiltInRole == newRole && selectedBuiltInRoles == builtInRoles[newRole]
    {
      selectedBuiltInRole := newRole;
      selectedBuiltInRoles := builtInRoles[newRole];
    }

    /** `onClearInternal`: calls `onClear` when given and empties the selection. */
    method OnClearInternal()
      requires Valid()
      modifies this`selectedOptions, this`clearCalls
      ensures Valid()
      ensures selectedOptions == []
      ensures clearCalls == if hasOnClear then old(clearCalls) + 1 else old(clearCalls)
    {
      if hasOnClear {
        clearCalls := clearCalls + 1;
      }
      selectedOptions := [];
    }

    /** `onClearSubMenu`: drops the selected roles of the open group. */
    method OnClearSubMenu()
      requires Valid()
      modifies this`selectedOptions
      ensures Valid()
      ensures selectedOptions == OutsideGroup(old(selectedOptions), openedMenuGroup)
    {
      selectedOptions := OutsideGroup(selectedOptions, openedMenuGroup);
    }

    /** `onUpdateInternal`: hands the selected built-in role and the uids of
        the selected roles, in selection order, to `onUpdate`. */
    method OnUpdateInternal()
      requires Valid()
      modifies this`updates
      ensures Valid()
      ensures updates == old(updates) + [Update(selectedBuiltInRole, RoleUids(selectedOptions))]
    {
      var selected := selectedOptions;
      var selectedCustomRoles: seq<string> := [];
      var key := 0;
      while key < |selected|
        invariant 0 <= key <= |selected|
        invariant selectedCustomRoles == RoleUids(selected[..key])
        invariant updates == old(updates)
      {
        RoleUidsSnoc(selected, key);
        selectedCustomRoles := selectedCustomRoles + [selected[key].uid];
        key := key + 1;
      }
      assert selected[..key] == selected;
      updates := updates + [Update(selectedBuiltInRole, selectedCustomRoles)];
    }
  }

  /** One `forEach` of `getSelectedGroupOptions`: pushes the roles of `s`
      whose group is `group` onto `acc`, in order. */
  method PushInGroup(acc: seq<Role>, s: seq<Role>, group: string) returns (r: seq<Role>)
    ensures r == acc + InGroup(s, group)
  {
    r := acc;
    var i := 0;
    while i < |s|
      invariant 0 <= i <= |s|
      invariant r == acc + InGroup(s[..i], group)
    {
      var role := s[i];
      InGroupSnoc(s, i, group);
      if RoleGroup(role) == group {
        r := r + [role];
      }
      i := i + 1;
    }
    assert s[..i] == s;
  }

  lemma RoleUidsSnoc(s: seq<Role>, k: nat)
    requires k < |s|
    ensures RoleUids(s[..k + 1]) == RoleUids(s[..k]) + [s[k].uid]
  {
  }
}
