/**
 * The profile skills dialog (`EditSkillsForm`) and the list that opens it
 * (`SeekerSkillsList`): the form's `skillIds`, the chips of the selected
 * skills, and the suggestions offered by the combobox.
 */
module SkillsList {
  import opened Wrappers
  import opened Text
  import opened Combobox
  import opened Skills

  /** A chip's skill: `{ id, name }`. */
  datatype Selected = Selected(id: string, name: string)

  /** A record passed to `SeekerSkillsList`: a profile-skill row with its joined `skills` record. */
  datatype ProfileSkill = ProfileSkill(skill: Selected)

  /** `skills?.map(({ skills: skill }) => ({ id: skill.id, name: skill.name }))`. */
  function SelectedOf(rows: seq<ProfileSkill>): (selected: seq<Selected>)
    ensures |selected| == |rows|
  {
    seq(|rows|, k requires 0 <= k < |rows| => Selected(rows[k].skill.id, rows[k].skill.name))
  }

  /** `selectedSkills?.map(({ id }) => id)`. */
  function IdsOf(selected: seq<Selected>): (ids: seq<string>)
    ensures |ids| == |selected|
  {
    seq(|selected|, k requires 0 <= k < |selected| => selected[k].id)
  }

  /**
   * The dialog opened from the list starts with the listed skills as its
   * chips and their ids as `skillIds`, both in the list's order.
   */
  lemma DialogStartsFromList(rows: seq<ProfileSkill>)
    ensures forall k :: 0 <= k < |rows| ==>
      SelectedOf(rows)[k].id == rows[k].skill.id && SelectedOf(rows)[k].name == rows[k].skill.name
      && IdsOf(SelectedOf(rows))[k] == rows[k].skill.id
    ensures |IdsOf(SelectedOf(rows))| == |rows|
  {
  }

  /** `skills.find((skill) => skill.value.startsWith(prefix))`. */
  function FirstWithPrefix(items: seq<Item>, prefix: string): (r: Option<Item>)
    ensures r.None? <==> forall k :: 0 <= k < |items| ==> !StartsWith(items[k].value, prefix)
    ensures r.Some? ==>
      exists k :: 0 <= k < |items| && items[k] == r.value && StartsWith(r.value.value, prefix)
        && forall j :: 0 <= j < k ==> !StartsWith(items[j].value, prefix)
    decreases |items|
  {
    if |items| == 0 then None
    else if StartsWith(items[0].value, prefix) then Some(items[0])
    else
      var r := FirstWithPrefix(items[1..], prefix);
      assert forall k :: 1 <= k < |items| ==> items[k] == items[1..][k - 1];
      r
  }

  /** `clonedSelectedSkills.filter((skill) => skill.id !== id)`. */
  function WithoutChip(selected: seq<Selected>, id: string): (r: seq<Selected>)
    ensures forall s :: s in r <==> s in selected && s.id != id
    decreases |selected|
  {
    if |selected| == 0 then []
    else (if selected[0].id == id then [] else [selected[0]]) + WithoutChip(selected[1..], id)
  }

  /** Removing chips by id keeps the others in order. */
  lemma {:induction false} WithoutChipConcat(a: seq<Selected>, b: seq<Selected>, id: string)
    ensures WithoutChip(a + b, id) == WithoutChip(a, id) + WithoutChip(b, id)
    decreases |a|
  {
    if |a| == 0 {
      assert a + b == b;
    } else {
      assert (a + b)[1..] == a[1..] + b;
      WithoutChipConcat(a[1..], b, id);
    }
  }

  lemma {:induction false} WithoutChipAbsent(selected: seq<Selected>, id: string)
    requires forall k :: 0 <= k < |selected| ==> selected[k].id != id
    ensures WithoutChip(selected, id) == selected
    decreases |selected|
  {
    if |selected| > 0 {
      WithoutChipAbsent(selected[1..], id);
    }
  }

  class EditSkillsForm {
    /** The combobox's items, as the last completed suggestion query left them. */
    var skills: seq<Item>
    /** The form's `skillIds`. */
    var skillIds: seq<string>
    /** `clonedSelectedSkills`: the chips. */
    var selected: seq<Selected>
    var search: string

    /** `useState(selectedSkills)` and `defaultValues: { skillIds: selectedSkills?.map(({ id }) => id) }`. */
    constructor (selectedSkills: seq<Selected>)
      ensures skills == [] && skillIds == IdsOf(selectedSkills) && selected == selectedSkills && search == ""
    {
      skills := [];
      skillIds := IdsOf(selectedSkills);
      selected := selectedSkills;
      search := "";
    }

    /**
     * The suggestion query's callback: nothing when it returned no data.
     * `added` is the list of ids captured when the query was sent (the
     * effect's `form.watch('skillIds')`, or the watch callback's own
     * `skillIds`); ids added while the query was in flight do not filter it.
     */
    method LoadSuggestions(data: Option<seq<SkillRow>>, added: seq<string>)
      modifies this`skills
      ensures skills == if data.Some? then Suggestions(data.value, added) else old(skills)
    {
      if data.Some? {
        skills := Suggestions(data.value, added);
      }
    }

    /**
     * `addSkill(id)` as written: the argument is the chosen item's whole
     * value, and it is that value, not its id part, that goes into `skillIds`.
     */
    method AddSkillAsWritten(id: string)
      modifies this`skillIds, this`selected, this`search
      ensures match FirstWithPrefix(skills, id)
        case None =>
          skillIds == old(skillIds) && selected == old(selected) && search == old(search)
        case Some(skill) =>
          skillIds == old(skillIds) + [id]
          && selected == old(selected) + [Selected(SkillIdOf(skill.value), skill.text)]
          && search == ""
    {
      var found := FirstWithPrefix(skills, id);
      if found.None? {
        return;
      }
      var skill := found.value;
      skillIds := skillIds + [id];
      selected := selected + [Selected(SkillIdOf(skill.value), skill.text)];
      search := "";
    }

    /** `addSkill(id)` storing the id part of the matched value, as the chips and `removeSkill` expect. */
    method AddSkill(id: string)
      modifies this`skillIds, this`selected, this`search
      ensures match FirstWithPrefix(skills, id)
        case None =>
          skillIds == old(skillIds) && selected == old(selected) && search == old(search)
        case Some(skill) =>
          skillIds == old(skillIds) + [SkillIdOf(skill.value)]
          && selected == old(selected) + [Selected(SkillIdOf(skill.value), skill.text)]
          && search == ""
    {
      var found := FirstWithPrefix(skills, id);
      if found.None? {
        return;
      }
      var skill := found.value;
      skillIds := skillIds + [SkillIdOf(skill.value)];
      selected := selected + [Selected(SkillIdOf(skill.value), skill.text)];
      search := "";
    }

    /** `removeSkill(id)`: drop the id from `skillIds` and its chips, keeping the rest in order. */
    method RemoveSkill(id: string)
      modifies this`skillIds, this`selected
      ensures skillIds == Without(old(skillIds), id)
      ensures selected == WithoutChip(old(selected), id)
    {
      skillIds := Without(skillIds, id);
      selected := WithoutChip(selected, id);
    }
  }

  /** The value of one skill's suggestion never starts with the value of another skill's. */
  lemma OtherSkillNoExtension(a: SkillRow, b: SkillRow)
    ensures a.id != b.id ==> !StartsWith(OptionOf(a).value, OptionOf(b).value)
  {
    var v := OptionOf(b).value;
    assert v == IdText(b.id) + "|" + b.name;
    assert v[|IdText(b.id)|] == '|';
    SkillIdOfOption(a);
    SkillIdOfOption(b);
    NatToStringInjective(a.id, b.id);
    SplitHeadOfExtension(OptionOf(a).value, v, '|');
  }

  /**
   * With distinct row ids, a suggestion's own value finds that suggestion:
   * no earlier suggestion of another skill starts with it.
   */
  lemma PrefixFindsOwnSuggestion(rows: seq<SkillRow>, added: seq<string>, k: nat)
    requires forall a, b :: 0 <= a < b < |rows| ==> rows[a].id != rows[b].id
    requires k < |Suggestions(rows, added)|
    ensures FirstWithPrefix(Suggestions(rows, added), Suggestions(rows, added)[k].value)
         == Some(Suggestions(rows, added)[k])
  {
    var items := Suggestions(rows, added);
    var v := items[k].value;
    SuggestionsSpec(rows, added);
    var b :| 0 <= b < |rows| && items[k] == OptionOf(rows[b]) && IdText(rows[b].id) !in added;
    forall j | 0 <= j < k ensures items[j] == items[k] || !StartsWith(items[j].value, v) {
      var a :| 0 <= a < |rows| && items[j] == OptionOf(rows[a]) && IdText(rows[a].id) !in added;
      OtherSkillNoExtension(rows[a], rows[b]);
    }
    FirstMatchIsOwn(items, k);
  }

  /** When every earlier item either equals item `k` or does not start with its value, the search lands on item `k`. */
  lemma FirstMatchIsOwn(items: seq<Item>, k: nat)
    requires k < |items|
    requires forall j :: 0 <= j < k ==> items[j] == items[k] || !StartsWith(items[j].value, items[k].value)
    ensures FirstWithPrefix(items, items[k].value) == Some(items[k])
  {
    var v := items[k].value;
    assert StartsWith(items[k].value, v);
    var r := FirstWithPrefix(items, v);
    assert r.Some?;
    var m :| 0 <= m < |items| && items[m] == r.value && StartsWith(r.value.value, v)
      && forall j :: 0 <= j < m ==> !StartsWith(items[j].value, v);
    assert m <= k;
    if m < k {
      assert StartsWith(items[m].value, v);
      assert items[m] == items[k];
    }
  }

  // ---------------------------------------------------------------------------
  // Adding then removing a skill

  /**
   * As written, the entry appended by `addSkill` is a whole value `id|name`,
   * which the chip's `removeSkill(id)` never matches: it survives the removal.
   */
  lemma AppendedValueSurvivesRemoval(ids: seq<string>, value: string)
    requires '|' in value
    ensures Without(ids + [value], SkillIdOf(value)) == Without(ids, SkillIdOf(value)) + [value]
  {
    WithoutConcat(ids, [value], SkillIdOf(value));
    assert |SkillIdOf(value)| < |value| by {
      SplitHead(value, '|');
    }
  }

  /**
   * As written, the suggestion query keeps offering a skill after it was
   * added, because `skillIds` holds its whole value and not its id.
   */
  lemma AddedValueStillSuggested(rows: seq<SkillRow>, ids: seq<string>, j: nat)
    requires j < |rows| && IdText(rows[j].id) !in ids
    ensures OptionOf(rows[j]) in Suggestions(rows, ids + [OptionOf(rows[j]).value])
  {
    var v := OptionOf(rows[j]).value;
    assert |v| > |IdText(rows[j].id)|;
    assert IdText(rows[j].id) !in ids + [v];
    SuggestionsSpec(rows, ids + [v]);
  }

  /** With the id part stored, removing that id takes the entry out again, and the skill is no longer suggested. */
  lemma AddedIdRemovedAndNotSuggested(rows: seq<SkillRow>, ids: seq<string>, j: nat)
    requires j < |rows| && IdText(rows[j].id) !in ids
    ensures Without(ids + [SkillIdOf(OptionOf(rows[j]).value)], IdText(rows[j].id)) == ids
    ensures OptionOf(rows[j]) !in Suggestions(rows, ids + [SkillIdOf(OptionOf(rows[j]).value)])
  {
    SkillIdOfOption(rows[j]);
    var added := ids + [IdText(rows[j].id)];
    RemoveUndoesAppend(ids, IdText(rows[j].id));
    SuggestionsSpec(rows, added);
    var items := Suggestions(rows, added);
    forall k | 0 <= k < |items| ensures items[k] != OptionOf(rows[j]) {
      assert SkillIdOf(items[k].value) !in added;
    }
  }

  const JavaScript: Item := Item("12|JavaScript", "JavaScript")

  /**
   * The suggestion list of a query returning skill 12, JavaScript, before
   * anything is added, and the item the argument `12|JavaScript` finds in it.
   */
  lemma ConcreteSuggestion()
    ensures Suggestions([SkillRow(12, "JavaScript")], []) == [JavaScript]
    ensures FirstWithPrefix([JavaScript], JavaScript.value) == Some(JavaScript)
    ensures SkillIdOf(JavaScript.value) == "12"
  {
    var row := SkillRow(12, "JavaScript");
    assert NatToString(1) == "1";
    assert NatToString(12) == NatToString(1) + [DigitChar(2)];
    assert IdText(12) == "12";
    assert OptionOf(row) == JavaScript;
    assert [row][1..] == [];
    assert Suggestions([row], []) == [OptionOf(row)] + Suggestions([], []);
    assert StartsWith(JavaScript.value, JavaScript.value);
    SkillIdOfOption(row);
  }

  /** What the two runs below need about one skill row, its suggestion and its id. */
  lemma OneRowFacts(row: SkillRow)
    ensures Suggestions([row], []) == [OptionOf(row)]
    ensures FirstWithPrefix([OptionOf(row)], OptionOf(row).value) == Some(OptionOf(row))
    ensures SkillIdOf(OptionOf(row).value) == IdText(row.id)
    ensures Without([OptionOf(row).value], IdText(row.id)) == [OptionOf(row).value]
    ensures Without([IdText(row.id)], IdText(row.id)) == []
    ensures WithoutChip([Selected(IdText(row.id), row.name)], IdText(row.id)) == []
    ensures IdsOf([]) == []
  {
    var v := OptionOf(row).value;
    assert [row][1..] == [];
    assert StartsWith(v, v);
    SkillIdOfOption(row);
    assert |v| > |IdText(row.id)|;
    assert [v][1..] == [];
    assert [IdText(row.id)][1..] == [];
    assert [Selected(IdText(row.id), row.name)][1..] == [];
  }

  /**
   * The dialog opened without skills, over a query returning one skill: add its
   * suggestion with the as-written `addSkill`, then remove its chip. The chip is
   * gone but the whole value stays in the form's ids (for skill 12, `JavaScript`,
   * the ids stay `["12|JavaScript"]`, by `ConcreteSuggestion`).
   */
  method AsWrittenAddThenRemove(row: SkillRow) returns (skillIds: seq<string>, selected: seq<Selected>)
    ensures skillIds == [OptionOf(row).value]
    ensures selected == []
  {
    var item, id := OptionOf(row), IdText(row.id);
    var form := new EditSkillsForm([]);
    assert form.skillIds == [] by { OneRowFacts(row); }
    form.LoadSuggestions(Some([row]), form.skillIds);
    assert FirstWithPrefix(form.skills, item.value) == Some(item) by { OneRowFacts(row); }
    form.AddSkillAsWritten(item.value);
    assert form.skillIds == [item.value] && form.selected == [Selected(id, row.name)] by { OneRowFacts(row); }
    form.RemoveSkill(id);
    assert form.skillIds == [item.value] && form.selected == [] by { OneRowFacts(row); }
    skillIds, selected := form.skillIds, form.selected;
  }

  /** The same steps with the corrected `addSkill` leave the dialog as it started. */
  method CorrectedAddThenRemove(row: SkillRow) returns (skillIds: seq<string>, selected: seq<Selected>)
    ensures skillIds == []
    ensures selected == []
  {
    var item, id := OptionOf(row), IdText(row.id);
    var form := new EditSkillsForm([]);
    assert form.skillIds == [] by { OneRowFacts(row); }
    form.LoadSuggestions(Some([row]), form.skillIds);
    assert FirstWithPrefix(form.skills, item.value) == Some(item) by { OneRowFacts(row); }
    form.AddSkill(item.value);
    assert form.skillIds == [id] && form.selected == [Selected(id, row.name)] by { OneRowFacts(row); }
    form.RemoveSkill(id);
    assert form.skillIds == [] && form.selected == [] by { OneRowFacts(row); }
    skillIds, selected := form.skillIds, form.selected;
  }
}
