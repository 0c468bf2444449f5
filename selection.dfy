/**
 * The add-on selection of the product page (`selectedAddons`): a map from an
 * add-on group's id to the ordered list of option ids chosen in it. Group ids
 * are numbers, so the JavaScript object's keys are integer-like and
 * `JSON.stringify` lists them in ascending order; two selections serialise
 * alike exactly when they are equal as maps of sequences.
 */
module Selection {
  import opened Seqs

  type GroupId = int
  type OptionId = int
  type Selection = map<GroupId, seq<OptionId>>

  /** How a click on an option changes its group. */
  datatype SelectMode = Single | Multiple

  /** The `type` argument of `handleAddonSelect`: only "single" replaces, any other value toggles. */
  function ModeOf(kind: string): (mode: SelectMode)
    ensures mode == Single <==> kind == "single"
  {
    if kind == "single" then Single else Multiple
  }

  /** `newSelectedAddons[addonId] || []`: the options chosen in a group, none when the key is absent. */
  function Chosen(sel: Selection, group: GroupId): seq<OptionId> {
    if group in sel then sel[group] else []
  }

  /** Absence of a key, never an empty list, means "nothing chosen in that group". */
  ghost predicate NoEmptyGroup(sel: Selection) {
    forall g | g in sel :: sel[g] != []
  }

  /** The shape every selection reachable from `{}` has: no empty list and no repeated option. */
  ghost predicate WellFormed(sel: Selection) {
    NoEmptyGroup(sel) && forall g | g in sel :: Distinct(sel[g])
  }

  /**
   * `handleAddonSelect(addonId, optionId, type)`. In single mode the group
   * becomes exactly `[option]`. In multiple mode the option is removed from
   * the group if chosen and appended if not, and a group left empty loses
   * its key. No other group changes.
   */
  function SelectAddon(sel: Selection, group: GroupId, option: OptionId, mode: SelectMode): (r: Selection)
    ensures r - {group} == sel - {group}
    ensures mode == Single ==> group in r && r[group] == [option]
    ensures mode == Multiple ==> Chosen(r, group) == Toggle(Chosen(sel, group), option)
    ensures mode == Multiple ==> (option in Chosen(r, group) <==> option !in Chosen(sel, group))
    ensures group in r ==> r[group] != []
    ensures NoEmptyGroup(sel) ==> NoEmptyGroup(r)
    ensures WellFormed(sel) ==> WellFormed(r)
  {
    if mode == Single then
      sel[group := [option]]
    else
      var next := Toggle(Chosen(sel, group), option);
      ToggleKeepsDistinct(Chosen(sel, group), option);
      if next == [] then sel - {group} else sel[group := next]
  }

  /**
   * In multiple mode, choosing an option that is not chosen and then
   * choosing it again gives back the selection it started from, whether the
   * group was absent or held other options.
   */
  lemma {:induction false} ToggleTwiceRestoresSelection(sel: Selection, group: GroupId, option: OptionId)
    requires NoEmptyGroup(sel)
    requires option !in Chosen(sel, group)
    ensures SelectAddon(SelectAddon(sel, group, option, Multiple), group, option, Multiple) == sel
  {
    var once := SelectAddon(sel, group, option, Multiple);
    var twice := SelectAddon(once, group, option, Multiple);
    ToggleTwiceRestores(Chosen(sel, group), option);
    assert Chosen(twice, group) == Chosen(sel, group);
    assert twice - {group} == sel - {group};
    if group in sel {
      assert group in twice;
    } else {
      assert group !in twice;
    }
    assert twice.Keys == sel.Keys;
  }

  /** One click: the group, the option and the mode passed to `handleAddonSelect`. */
  datatype Click = Click(group: GroupId, option: OptionId, mode: SelectMode)

  /** The selection after a series of clicks. */
  function ApplyClicks(sel: Selection, clicks: seq<Click>): Selection
    decreases |clicks|
  {
    if clicks == [] then sel
    else ApplyClicks(SelectAddon(sel, clicks[0].group, clicks[0].option, clicks[0].mode), clicks[1..])
  }

  /** Starting from `{}`, no series of clicks leaves an empty group or a repeated option. */
  lemma {:induction false} ClicksKeepSelectionWellFormed(sel: Selection, clicks: seq<Click>)
    requires WellFormed(sel)
    ensures WellFormed(ApplyClicks(sel, clicks))
    decreases |clicks|
  {
    if clicks != [] {
      ClicksKeepSelectionWellFormed(SelectAddon(sel, clicks[0].group, clicks[0].option, clicks[0].mode), clicks[1..]);
    }
  }
}
