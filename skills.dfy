/**
 * What the job form and the profile skills dialog share about skills: the
 * rows the `skills` table returns, the combobox items built from them
 * (`${id}|${name}` with label `name`), the id part of such a value, and the
 * removal of an id from a list of ids.
 */
module Skills {
  import opened Text
  import opened Combobox

  /** A row of `skills` as the forms select it (`id,name`). */
  datatype SkillRow = SkillRow(id: nat, name: string)

  /** `id.toString()`. */
  function IdText(id: nat): string {
    NatToString(id)
  }

  /** The suggestion for a row. */
  function OptionOf(row: SkillRow): Item {
    Item(IdText(row.id) + "|" + row.name, row.name)
  }

  /** `value.split('|')[0]`: the part of a value before its first `|`. */
  function SkillIdOf(value: string): string {
    Split(value, '|')[0]
  }

  /** A suggestion's value splits back to the row's id. */
  lemma SkillIdOfOption(row: SkillRow)
    ensures SkillIdOf(OptionOf(row).value) == IdText(row.id)
  {
    var d := IdText(row.id);
    var rest := "|" + row.name;
    assert '|' !in d by {
      forall k | 0 <= k < |d| ensures d[k] != '|' {
        assert IsDigit(d[k]);
      }
    }
    IndexOfConcat(d, rest, '|');
    assert OptionOf(row).value == d + rest;
    assert (d + rest)[..|d|] == d;
  }

  /**
   * The id filter and item mapping of the suggestion effect:
   * `rows.filter(({ id }) => !added.includes(id.toString())).map(OptionOf)`.
   */
  function Suggestions(rows: seq<SkillRow>, added: seq<string>): (items: seq<Item>)
    ensures |items| <= |rows|
    decreases |rows|
  {
    if |rows| == 0 then []
    else (if IdText(rows[0].id) in added then [] else [OptionOf(rows[0])]) + Suggestions(rows[1..], added)
  }

  /** Every suggestion is the item of a row whose id is not yet added. */
  lemma {:induction false} SuggestionsSound(rows: seq<SkillRow>, added: seq<string>)
    ensures forall k :: 0 <= k < |Suggestions(rows, added)| ==>
      exists j :: 0 <= j < |rows| && Suggestions(rows, added)[k] == OptionOf(rows[j])
                  && IdText(rows[j].id) !in added
    decreases |rows|
  {
    if |rows| > 0 {
      SuggestionsSound(rows[1..], added);
      var s := Suggestions(rows, added);
      var head := if IdText(rows[0].id) in added then [] else [OptionOf(rows[0])];
      var tail := Suggestions(rows[1..], added);
      assert s == head + tail;
      forall k | 0 <= k < |s|
        ensures exists j :: 0 <= j < |rows| && s[k] == OptionOf(rows[j]) && IdText(rows[j].id) !in added
      {
        if k < |head| {
          assert s[k] == OptionOf(rows[0]) && IdText(rows[0].id) !in added;
        } else {
          assert s[k] == tail[k - |head|];
          var j :| 0 <= j < |rows[1..]| && tail[k - |head|] == OptionOf(rows[1..][j])
                   && IdText(rows[1..][j].id) !in added;
          assert s[k] == OptionOf(rows[j + 1]) && IdText(rows[j + 1].id) !in added;
        }
      }
    } else {
      assert Suggestions(rows, added) == [];
    }
  }

  /** Every row whose id is not yet added has its suggestion. */
  lemma {:induction false} SuggestionsComplete(rows: seq<SkillRow>, added: seq<string>)
    ensures forall j :: 0 <= j < |rows| && IdText(rows[j].id) !in added ==>
      OptionOf(rows[j]) in Suggestions(rows, added)
    decreases |rows|
  {
    if |rows| > 0 {
      SuggestionsComplete(rows[1..], added);
      var s := Suggestions(rows, added);
      var head := if IdText(rows[0].id) in added then [] else [OptionOf(rows[0])];
      var tail := Suggestions(rows[1..], added);
      assert s == head + tail;
      forall j | 0 <= j < |rows| && IdText(rows[j].id) !in added
        ensures OptionOf(rows[j]) in s
      {
        if j > 0 {
          assert rows[j] == rows[1..][j - 1];
          assert OptionOf(rows[j]) in tail;
        } else {
          assert OptionOf(rows[j]) in head;
        }
      }
    }
  }

  /**
   * Every suggestion is the item of a row whose id is not yet added, and every
   * such row has its suggestion; so no suggestion's id part is among the added ids.
   */
  lemma SuggestionsSpec(rows: seq<SkillRow>, added: seq<string>)
    ensures forall k :: 0 <= k < |Suggestions(rows, added)| ==>
      exists j :: 0 <= j < |rows| && Suggestions(rows, added)[k] == OptionOf(rows[j])
                  && IdText(rows[j].id) !in added
    ensures forall j :: 0 <= j < |rows| && IdText(rows[j].id) !in added ==>
      OptionOf(rows[j]) in Suggestions(rows, added)
    ensures forall k :: 0 <= k < |Suggestions(rows, added)| ==>
      SkillIdOf(Suggestions(rows, added)[k].value) !in added
  {
    SuggestionsSound(rows, added);
    SuggestionsComplete(rows, added);
    var s := Suggestions(rows, added);
    forall k | 0 <= k < |s|
      ensures SkillIdOf(s[k].value) !in added
    {
      var j :| 0 <= j < |rows| && s[k] == OptionOf(rows[j]) && IdText(rows[j].id) !in added;
      SkillIdOfOption(rows[j]);
    }
  }

  /** `ids.filter((skillId) => skillId !== id)`. */
  function Without(ids: seq<string>, id: string): (r: seq<string>)
    ensures forall x :: x in r <==> x in ids && x != id
    decreases |ids|
  {
    if |ids| == 0 then []
    else (if ids[0] == id then [] else [ids[0]]) + Without(ids[1..], id)
  }

  /** Every other id keeps its number of occurrences; the removed one has none left. */
  lemma {:induction false} WithoutMultiplicity(ids: seq<string>, id: string)
    ensures multiset(Without(ids, id)) == multiset(ids)[id := 0]
    decreases |ids|
  {
    if |ids| > 0 {
      WithoutMultiplicity(ids[1..], id);
      assert ids == [ids[0]] + ids[1..];
    }
  }

  /** Filtering distributes over concatenation, so the kept ids stay in their order. */
  lemma {:induction false} WithoutConcat(a: seq<string>, b: seq<string>, id: string)
    ensures Without(a + b, id) == Without(a, id) + Without(b, id)
    decreases |a|
  {
    if |a| == 0 {
      assert a + b == b;
    } else {
      assert (a + b)[1..] == a[1..] + b;
      WithoutConcat(a[1..], b, id);
    }
  }

  /** Removing an id that is not there changes nothing. */
  lemma {:induction false} WithoutAbsent(ids: seq<string>, id: string)
    requires id !in ids
    ensures Without(ids, id) == ids
    decreases |ids|
  {
    if |ids| > 0 {
      WithoutAbsent(ids[1..], id);
    }
  }

  /** Removing an id just appended to a list without it gives the list back. */
  lemma RemoveUndoesAppend(ids: seq<string>, id: string)
    requires id !in ids
    ensures Without(ids + [id], id) == ids
  {
    WithoutConcat(ids, [id], id);
    WithoutAbsent(ids, id);
  }

  /** No id occurs twice. */
  predicate Distinct(ids: seq<string>) {
    forall i, j :: 0 <= i < j < |ids| ==> ids[i] != ids[j]
  }

  lemma DistinctTail(ids: seq<string>)
    requires Distinct(ids) && |ids| > 0
    ensures Distinct(ids[1..]) && ids[0] !in ids[1..]
  {
    forall i, j | 0 <= i < j < |ids[1..]| ensures ids[1..][i] != ids[1..][j] {
      assert ids[1..][i] == ids[i + 1] && ids[1..][j] == ids[j + 1];
    }
  }

  /** Prepending an id that is not there keeps a list without repeats. */
  lemma ConsDistinct(x: string, rest: seq<string>)
    requires Distinct(rest) && x !in rest
    ensures Distinct([x] + rest)
  {
    var r := [x] + rest;
    forall i, j | 0 <= i < j < |r| ensures r[i] != r[j] {
      assert r[j] == rest[j - 1];
      if i > 0 {
        assert r[i] == rest[i - 1];
      }
    }
  }

  /** Removing an id keeps a list without repeats. */
  lemma {:induction false} WithoutDistinct(ids: seq<string>, id: string)
    requires Distinct(ids)
    ensures Distinct(Without(ids, id))
    decreases |ids|
  {
    if |ids| > 0 {
      DistinctTail(ids);
      WithoutDistinct(ids[1..], id);
      if ids[0] != id {
        ConsDistinct(ids[0], Without(ids[1..], id));
      }
    }
  }

  /** In a list without repeats, removing an id that is there drops exactly one entry. */
  lemma {:induction false} WithoutDistinctLength(ids: seq<string>, id: string)
    requires Distinct(ids)
    ensures |Without(ids, id)| == if id in ids then |ids| - 1 else |ids|
    decreases |ids|
  {
    if |ids| > 0 {
      DistinctTail(ids);
      assert ids == [ids[0]] + ids[1..];
      if ids[0] == id {
        WithoutAbsent(ids[1..], id);
      } else {
        WithoutDistinctLength(ids[1..], id);
      }
    }
  }

  /** Appending an id that is not there keeps a list without repeats. */
  lemma AppendDistinct(ids: seq<string>, id: string)
    requires Distinct(ids) && id !in ids
    ensures Distinct(ids + [id])
  {
    var r := ids + [id];
    forall i, j | 0 <= i < j < |r| ensures r[i] != r[j] {
      if j == |ids| {
        assert r[i] == ids[i];
      }
    }
  }
}
