# Role picker menu: role grouping and selection

This project models the role-selection logic of the `RolePickerMenu` React
component (`public/app/core/components/RolePicker/RolePickerMenu.tsx`). The
menu lets a user pick a built-in organisation role and any number of custom
and fixed roles. Fixed roles have names of the form `fixed:<group>:<rest>`.
They are shown in groups, and a whole group can be checked or unchecked at once.

The model has seven modules:

- `Wrappers` holds the `Option` and `Result` types.
- `JsStrings` models the JavaScript string primitives the component uses:
  - `<` on strings
  - `startsWith`, `substr`, `substring` with its clamping and swapping of bounds, and `indexOf`
  - `toUpperCase` on one character
- `Sequences` holds the list operations:
  - `filter` and its lemmas
  - `Array.prototype.sort`, modelled as an insertion sort, with proofs that it returns a sorted permutation
- `Roles` holds the file-level helpers:
  - `getRoleGroup` and `capitalize`
  - the `fixedRoleGroupNames` table
  - `filterCustomRoles` / `filterFixedRoles` and `sortRolesByName`
- `OptionGroups` holds `getOptionGroups`. The `forEach` that fills `groupsMap` and the `for ... in` that builds the groups are methods with loop invariants. The result is proved to be a grouping:
  - every fixed option is in exactly one group, the group of its own value
  - no value appears twice
  - each group's options are sorted by name, and the groups are sorted by display name
- `Selection` states each event handler's effect on the selection as a function of the state it reads. It includes the error that `groupOptions!` throws for an unknown group.
- `RolePicker` holds the component as a class. The props are `const` fields and the `useState` variables are `var` fields. The handlers are methods. The selection handlers (`OnChange`, `OnGroupChange`, `OnClearSubMenu`, `OnUpdateInternal`) and the group queries are proved to agree with the `Selection` functions. `OnMenuGroupClick`, `OnSelectedBuiltinRoleChange` and `OnClearInternal` state their new state directly. The `onUpdate` and `onClear` callbacks are recorded as a list of calls and a call count.

The code decides one case where a plain reading of the handlers might differ: `onGroupChange` on a value that has no group. `groupSelected` returns `false` without touching the group when no selected or built-in role belongs to that value, so nothing changes. When some selected or built-in role does belong to it, `groupOptions!.options` throws a `TypeError`. The model returns that error (`Selection.GroupChange`, described by `Selection.GroupChangeEffect`), and `RolePicker.RolePickerMenu.OnGroupChange` reports it by leaving the state unchanged.

## Model

| member | source | states |
|---|---|---|
| Roles.RoleGroupShape | public/app/core/components/RolePicker/RolePickerMenu.tsx:460-463 | the group of a role never contains `:` and is a prefix of the name after its first six characters; when a `:` follows, the group plus `:` is such a prefix (the text up to the first `:`); with no `:` the group is empty |
| Roles.RoleGroupOfFixedName | public/app/core/components/RolePicker/RolePickerMenu.tsx:460-463 | the group of `fixed:<group>:<rest>` is `<group>` for every `<group>` without `:` and every `<rest>` |
| Roles.Capitalize | public/app/core/components/RolePicker/RolePickerMenu.tsx:465-467 | same length; first character upper-cased, the rest unchanged; the empty string maps to itself |
| Roles.DisplayName | public/app/core/components/RolePicker/RolePickerMenu.tsx:78 | `ldap` is shown as `LDAP`, `current` as `Current org`, any other value capitalized |
| Roles.SortRolesByName | public/app/core/components/RolePicker/RolePickerMenu.tsx:469 | sorting with `sortRolesByName` gives a permutation of the roles, non-decreasing by name |
| Roles.CustomRoles | public/app/core/components/RolePicker/RolePickerMenu.tsx:87 | the custom roles list holds only options whose name does not start with `fixed:`, sorted by name |
| Roles.FixedRoles | public/app/core/components/RolePicker/RolePickerMenu.tsx:88 | the fixed roles list holds only options whose name starts with `fixed:`, sorted by name |
| Roles.CustomFixedPartition | public/app/core/components/RolePicker/RolePickerMenu.tsx:291-292 | a role is custom exactly when it is not fixed; the custom and fixed lists together hold each option as many times as the options do |
| JsStrings.Substr | public/app/core/components/RolePicker/RolePickerMenu.tsx:461 | `substr(6)` is the suffix after the first six characters, or empty for a shorter string |
| JsStrings.IndexOf | public/app/core/components/RolePicker/RolePickerMenu.tsx:462 | `indexOf(':')` is -1 exactly when there is no `:`, otherwise the position of the first `:` |
| JsStrings.Substring | public/app/core/components/RolePicker/RolePickerMenu.tsx:462 | `substring(0, end)` is the prefix up to `end` when in range and empty for a negative `end` |
| JsStrings.ToUpper | public/app/core/components/RolePicker/RolePickerMenu.tsx:466 | lower-case ASCII letters become upper-case, every other character is unchanged |
| JsStrings.LessTotal | public/app/core/components/RolePicker/RolePickerMenu.tsx:469 | string `<` orders any two different strings one way or the other |
| JsStrings.LessTransitive | public/app/core/components/RolePicker/RolePickerMenu.tsx:469 | string `<` is transitive |
| JsStrings.NotLessTransitive | public/app/core/components/RolePicker/RolePickerMenu.tsx:469 | "not below" is transitive, so the comparators define a total preorder |
| Sequences.SortBySorted | public/app/core/components/RolePicker/RolePickerMenu.tsx:76-84 | the sort result is non-decreasing by the key |
| Sequences.SortByDistinct | public/app/core/components/RolePicker/RolePickerMenu.tsx:84 | sorting keeps a list free of repeated values |
| Sequences.FilterPartition | public/app/core/components/RolePicker/RolePickerMenu.tsx:87-88 | filtering by a predicate and by its negation splits a list into two lists that together hold it exactly |
| OptionGroups.CollectRole | public/app/core/components/RolePicker/RolePickerMenu.tsx:62-70 | one step of the `forEach` keeps the map holding, for each key, the non-empty bucket of the roles seen so far, with each key recorded once |
| OptionGroups.CollectedNew | public/app/core/components/RolePicker/RolePickerMenu.tsx:67-68 | a fixed role of a new group starts that group's list and records its key |
| OptionGroups.CollectedPush | public/app/core/components/RolePicker/RolePickerMenu.tsx:65-66 | a fixed role of a known group extends that group's list only |
| OptionGroups.CollectedSkip | public/app/core/components/RolePicker/RolePickerMenu.tsx:63 | a role that is not fixed leaves every list as it was |
| OptionGroups.CollectBuckets | public/app/core/components/RolePicker/RolePickerMenu.tsx:61-71 | `groupsMap` maps exactly the groups with fixed roles to their fixed roles in option order; its keys are the map's keys, each once |
| OptionGroups.BuildGroups | public/app/core/components/RolePicker/RolePickerMenu.tsx:73-83 | one group per key, in key order, named by the display name of the key and holding that key's roles sorted by name |
| OptionGroups.GetOptionGroups | public/app/core/components/RolePicker/RolePickerMenu.tsx:60-85 | the groups hold exactly the fixed options (a permutation of each bucket), one group per group value with no value twice, each group sorted by name, the groups sorted by display name |
| OptionGroups.FindGroup | public/app/core/components/RolePicker/RolePickerMenu.tsx:108 | `find` returns nothing exactly when no group has the value, otherwise the first group of the list with that value |
| OptionGroups.FindGroupUnique | public/app/core/components/RolePicker/RolePickerMenu.tsx:108 | in a list with distinct values, `find` returns the group for its own value |
| OptionGroups.GroupOptionsAreFixedOptions | public/app/core/components/RolePicker/RolePickerMenu.tsx:62-70 | a role in a group is a fixed option whose group is that group's value |
| OptionGroups.FixedRoleInExactlyOneGroup | public/app/core/components/RolePicker/RolePickerMenu.tsx:60-85 | every fixed option is in one group, the group of its own value, and in no other |
| Selection.WithoutIdempotent | public/app/core/components/RolePicker/RolePickerMenu.tsx:132 | removing roles by uid leaves none of those uids, and removing them again changes nothing |
| Selection.Toggle | public/app/core/components/RolePicker/RolePickerMenu.tsx:118-124 | the option's uid is selected afterwards exactly when it was not before; roles with other uids are unchanged and keep their order; an absent option is appended at the end |
| Selection.ToggleTwice | public/app/core/components/RolePicker/RolePickerMenu.tsx:118-124 | toggling an unselected role twice restores the selection |
| Selection.SelectedGroupOptions | public/app/core/components/RolePicker/RolePickerMenu.tsx:91-104 | a role is counted for a group exactly when it is selected or a built-in role and its group is that group |
| Selection.IsGroupSelected | public/app/core/components/RolePicker/RolePickerMenu.tsx:106-110 | false when no role is counted; throws exactly when roles are counted and the group is unknown; for a known group with roles counted, true exactly when at least as many roles are counted as the group has options |
| Selection.IsGroupPartiallySelected | public/app/core/components/RolePicker/RolePickerMenu.tsx:112-116 | throws exactly when `groupSelected` does; otherwise holds exactly when some role is counted and `groupSelected` does not hold, so the two are never both true |
| Selection.SelectGroupProjections | public/app/core/components/RolePicker/RolePickerMenu.tsx:135-138 | after checking a group, the selected roles with the group's uids are the group's options in order, and the other roles are unchanged in order |
| Selection.SelectGroupOccurrences | public/app/core/components/RolePicker/RolePickerMenu.tsx:136-137 | after checking a group, each of its options is selected as often as it occurs in the group |
| Selection.DeselectGroupProjections | public/app/core/components/RolePicker/RolePickerMenu.tsx:130-133 | after unchecking a group, no role with one of its uids is selected and the other roles are unchanged in order |
| Selection.GroupChangeEffect | public/app/core/components/RolePicker/RolePickerMenu.tsx:126-140 | fails exactly when roles are counted for an unknown group; an unknown group otherwise leaves the selection unchanged; for a known group the other roles are unchanged and the group's roles become none when it was fully selected and its options otherwise, appended after the kept roles |
| Selection.SelectGroupCount | public/app/core/components/RolePicker/RolePickerMenu.tsx:136-137 | after checking a group whose options all belong to it, at least as many roles are counted as it has options |
| Selection.GroupChangeSelectsWholeGroup | public/app/core/components/RolePicker/RolePickerMenu.tsx:126-140 | checking a group that is not fully selected makes it fully selected |
| Selection.ClearSubMenuRemovesExactlyGroup | public/app/core/components/RolePicker/RolePickerMenu.tsx:172-178 | the roles kept and the roles of the open group together are the old selection, and no role of the open group is kept |
| Selection.RoleUids | public/app/core/components/RolePicker/RolePickerMenu.tsx:180-187 | the emitted uids have the selection's length and are its uids in selection order |
| RolePicker.PushInGroup | public/app/core/components/RolePicker/RolePickerMenu.tsx:93-102 | one loop of `getSelectedGroupOptions` appends the list's roles of the group, in order |
| RolePicker.RolePickerMenu.constructor | public/app/core/components/RolePicker/RolePickerMenu.tsx:49-54 | the initial state: the applied roles selected, the built-in roles of the given built-in role, the sub-menu closed, the groups computed from the options |
| RolePicker.RolePickerMenu.GetSelectedGroupOptions | public/app/core/components/RolePicker/RolePickerMenu.tsx:91-104 | returns the selected roles of the group, then the built-in roles of the group |
| RolePicker.RolePickerMenu.GroupSelected | public/app/core/components/RolePicker/RolePickerMenu.tsx:106-110 | agrees with `Selection.IsGroupSelected` on the current state |
| RolePicker.RolePickerMenu.GroupPartiallySelected | public/app/core/components/RolePicker/RolePickerMenu.tsx:112-116 | agrees with `Selection.IsGroupPartiallySelected` on the current state |
| RolePicker.RolePickerMenu.OnChange | public/app/core/components/RolePicker/RolePickerMenu.tsx:118-124 | the new selection is the toggle of the old one |
| RolePicker.RolePickerMenu.OnGroupChange | public/app/core/components/RolePicker/RolePickerMenu.tsx:126-140 | the new selection is `Selection.GroupChange` of the old one; on a throw, reported as not ok, nothing changes |
| RolePicker.RolePickerMenu.OnMenuGroupClick | public/app/core/components/RolePicker/RolePickerMenu.tsx:142-158 | a click on the open group closes the sub-menu and resets its group and options; another value opens it with that value and with the group's options when the group exists, the old options otherwise |
| RolePicker.RolePickerMenu.OnSelectedBuiltinRoleChange | public/app/core/components/RolePicker/RolePickerMenu.tsx:160-163 | the built-in role and its roles follow the new role |
| RolePicker.RolePickerMenu.OnClearInternal | public/app/core/components/RolePicker/RolePickerMenu.tsx:165-170 | `onClear` is called once when given; the selection becomes empty |
| RolePicker.RolePickerMenu.OnClearSubMenu | public/app/core/components/RolePicker/RolePickerMenu.tsx:172-178 | the new selection is the old one without the roles of the open group, in order |
| RolePicker.RolePickerMenu.OnUpdateInternal | public/app/core/components/RolePicker/RolePickerMenu.tsx:180-187 | `onUpdate` is called once with the selected built-in role and the selected roles' uids in selection order |

## Left out

- Rendering: the JSX, the CSS-in-JS styles and the theme hooks of `RolePickerMenu.tsx`. This includes the `if (data.value)` test before a group checkbox calls `onGroupChange`, which skips the empty group value.
- The DOM event plumbing of `RoleMenuOption` and `RoleMenuGroupOption` (`preventDefault`, `stopPropagation`). It is presentation only.
- `onClear` and `onUpdate` are outside code. They are modelled only as a recorded call count and a recorded list of calls.
- `public/app/core/components/NavBar/TestMenu.tsx` is not part of this model. It is menu wiring over UI libraries whose code is not available, with no logic of its own.
- `public/app/features/live/pipeline/models.gen.ts` is not part of this model. It declares types only, and the engine that would interpret them is not available.
- Roles.SortRolesByName: tie order is not modelled. The comparators never return 0, so how `Array.prototype.sort` orders equal names is unspecified. Only "a permutation, non-decreasing by name" is stated, and the sort is modelled as an insertion sort.
- JsStrings.Substr: positions are counted in characters (Unicode scalar values), not in the UTF-16 code units `substr` counts. This differs only for names with characters outside the Basic Multilingual Plane.
- JsStrings.IndexOf: the index is counted in characters, not in UTF-16 code units. This differs only for strings with characters outside the Basic Multilingual Plane.
- JsStrings.Substring: the bounds are counted in characters, not in UTF-16 code units. This differs only for strings with characters outside the Basic Multilingual Plane.
- JsStrings.Less: JavaScript compares strings by UTF-16 code units. The model compares characters, which agrees with that comparison on the Basic Multilingual Plane only.
- JsStrings.ToUpper: only ASCII letters are upper-cased. `toUpperCase` also maps other letters, and can change the length of the string.
- OptionGroups.CollectBuckets: group names that are members of `Object.prototype` (such as `constructor`, `toString` or `__proto__`) are not modelled. In the source, `groupsMap[groupName]` reads the inherited member, which is truthy and has no `push`. So `push` throws a `TypeError` inside the `forEach`, and `getOptionGroups` never returns.
- OptionGroups.CollectBuckets: `for ... in` lists integer-like keys (such as `"1"`) before the other keys, in numeric order. The model's `keys` are built in insertion order, but no contract states a key order; only the final sort of the groups is stated. This only changes the order of groups whose display names are equal, which is unspecified anyway.
- Roles.DisplayName: inherited keys of `fixedRoleGroupNames` are not modelled. That case cannot be reached, because such a group name already makes `getOptionGroups` throw before line 78.
- `Role.name` is modelled as always present. The `?.` in the two filters would make a nameless role custom, but `getRoleGroup` does not guard against a missing name.
- The props are modelled as constant over the component's life, so `optionGroups`, which each render recomputes, is a constant field. `builtInRoles` is required to give roles for every organisation role.
- React state updates are modelled as taking effect when the handler returns. No handler reads a state variable after writing it, so the order of writes inside a handler does not matter.
- `OnGroupChange` models the `TypeError` thrown for an unknown group as a `false` result with the state unchanged. React's error handling after the throw is not modelled.
