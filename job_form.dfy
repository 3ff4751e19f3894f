/**
 * The job-posting wizard: one form (`Schemas.Job`) revealed section by
 * section as a `step` counter grows, with the skills section adding and
 * removing ids, and readiness tests that enable its buttons.
 */
module JobForm {
  import opened Wrappers
  import opened Combobox
  import opened Skills
  import Schemas

  const NoValues: Schemas.Job := Schemas.Job("", "", None, "", "", "", [])

  // ---------------------------------------------------------------------------
  // Readiness tests

  /** The Next button of the first section is enabled: name and description are set and not marked invalid. */
  predicate DetailsFilled(values: Schemas.Job, nameInvalid: bool, descriptionInvalid: bool) {
    values.name != "" && !nameInvalid && values.description != "" && !descriptionInvalid
  }

  /** `canProceed`: all three place names are set. */
  predicate CanProceed(values: Schemas.Job) {
    values.province != "" && values.cityMuni != "" && values.barangay != ""
  }

  /** A value of `Object.values(form.getValues())`. */
  datatype FormValue = Undefined | Text(s: string) | List(items: seq<string>)

  /** The values in key order: name, description, price, province, city_muni, barangay, skill_ids. */
  function FormValues(values: Schemas.Job): (vs: seq<FormValue>)
    ensures |vs| == 7
  {
    [ Text(values.name), Text(values.description),
      match values.price case None => Undefined case Some(p) => Text(p),
      Text(values.province), Text(values.cityMuni), Text(values.barangay),
      List(values.skillIds) ]
  }

  /** `value instanceof Array ? !!value.length : !!value`. */
  predicate Truthy(v: FormValue) {
    match v
    case Undefined => false
    case Text(s) => s != ""
    case List(items) => |items| > 0
  }

  /** `canPost`: `.every(...)` over the form's values. */
  predicate CanPost(values: Schemas.Job) {
    forall k :: 0 <= k < |FormValues(values)| ==> Truthy(FormValues(values)[k])
  }

  /**
   * Posting is possible exactly when every text field is non-empty, a price
   * has been typed, and at least one skill has been added; in particular it
   * implies the address test.
   */
  lemma CanPostIff(values: Schemas.Job)
    ensures CanPost(values) <==>
      values.name != "" && values.description != "" && values.price.Some? && values.price.value != ""
      && values.province != "" && values.cityMuni != "" && values.barangay != ""
      && |values.skillIds| > 0
    ensures CanPost(values) ==> CanProceed(values)
  {
    var vs := FormValues(values);
    if CanPost(values) {
      assert Truthy(vs[0]) && Truthy(vs[1]) && Truthy(vs[2]) && Truthy(vs[3]);
      assert Truthy(vs[4]) && Truthy(vs[5]) && Truthy(vs[6]);
    }
  }

  // ---------------------------------------------------------------------------
  // Sections shown for a step

  predicate ShowsDetails(step: int) { step == 0 }
  predicate ShowsAddress(step: int) { step > 0 }
  predicate ShowsAddressNext(step: int) { step == 1 }
  predicate ShowsSkills(step: int) { step > 1 }
  predicate ShowsPrice(step: int) { step > 2 }
  predicate ShowsPost(step: int) { step >= 3 }

  /**
   * Each section stays on screen once a later one is: the post button implies
   * the price field, which implies the skills, which imply the address; the
   * details editor and the address are never shown together.
   */
  lemma SectionsNest(step: int)
    ensures ShowsPost(step) ==> ShowsPrice(step)
    ensures ShowsPrice(step) ==> ShowsSkills(step)
    ensures ShowsSkills(step) ==> ShowsAddress(step)
    ensures ShowsAddressNext(step) ==> ShowsAddress(step) && !ShowsSkills(step)
    ensures step >= 0 ==> (ShowsDetails(step) <==> !ShowsAddress(step))
  {
  }

  // ---------------------------------------------------------------------------
  // The wizard

  class JobWizard {
    var values: Schemas.Job
    var step: int
    var search: string
    /** The skills combobox's items, as the last completed suggestion query left them. */
    var skills: seq<Item>

    /** The steps stay within 0..3, the post step always has a skill, and no skill is added twice. */
    predicate Valid()
      reads this
    {
      0 <= step <= 3 && (step == 3 ==> |values.skillIds| >= 1) && Distinct(values.skillIds)
    }

    /** `useState(0)` and the form's `defaultValues`. */
    constructor ()
      ensures values == NoValues && step == 0 && search == "" && skills == []
      ensures Valid()
    {
      values := NoValues;
      step := 0;
      search := "";
      skills := [];
    }

    method SetName(name: string)
      modifies this`values
      ensures values == old(values).(name := name)
      ensures old(Valid()) ==> Valid()
    {
      values := values.(name := name);
    }

    method SetDescription(description: string)
      modifies this`values
      ensures values == old(values).(description := description)
      ensures old(Valid()) ==> Valid()
    {
      values := values.(description := description);
    }

    /** The price input; `None` until something is typed. */
    method SetPrice(price: Option<string>)
      modifies this`values
      ensures values == old(values).(price := price)
      ensures old(Valid()) ==> Valid()
    {
      values := values.(price := price);
    }

    /** `setProvince`: a new province clears the city/municipality and the barangay. */
    method SetProvince(province: string)
      modifies this`values
      ensures values == old(values).(province := province, cityMuni := "", barangay := "")
      ensures old(Valid()) ==> Valid()
    {
      values := values.(province := province);
      values := values.(cityMuni := "");
      values := values.(barangay := "");
    }

    method SetCityMuni(cityMuni: string)
      modifies this`values
      ensures values == old(values).(cityMuni := cityMuni)
      ensures old(Valid()) ==> Valid()
    {
      values := values.(cityMuni := cityMuni);
    }

    method SetBarangay(barangay: string)
      modifies this`values
      ensures values == old(values).(barangay := barangay)
      ensures old(Valid()) ==> Valid()
    {
      values := values.(barangay := barangay);
    }

    /** The first Next button: from the details to the address, when it is enabled. */
    method NextFromDetails(nameInvalid: bool, descriptionInvalid: bool)
      modifies this`step
      ensures step == if old(step) == 0 && DetailsFilled(values, nameInvalid, descriptionInvalid) then 1 else old(step)
      ensures old(Valid()) ==> Valid()
    {
      if ShowsDetails(step) && DetailsFilled(values, nameInvalid, descriptionInvalid) {
        step := 1;
      }
    }

    /** The address section's Next button, shown at step 1 and enabled by `canProceed`. */
    method NextFromAddress()
      modifies this`step
      ensures step == if old(step) == 1 && CanProceed(values) then 2 else old(step)
      ensures old(Valid()) ==> Valid()
    {
      if ShowsAddressNext(step) && CanProceed(values) {
        step := 2;
      }
    }

    /** The edit icon beside the job name, shown past the first step. */
    method EditDetails()
      modifies this`step
      ensures step == 0
      ensures old(Valid()) ==> Valid()
    {
      step := 0;
    }

    /**
     * The suggestion query's callback: nothing when it returned no data.
     * `added` is the list of `skill_ids` read when the query was sent; ids
     * added while it was in flight do not filter its answer.
     */
    method LoadSuggestions(data: Option<seq<SkillRow>>, added: seq<string>)
      modifies this`skills
      ensures skills == if data.Some? then Suggestions(data.value, added) else old(skills)
    {
      if data.Some? {
        skills := Suggestions(data.value, added);
      }
    }

    /** `addSkill(value)`: append the id part of the chosen value and move to the last step. */
    method AddSkill(value: string)
      modifies this`values, this`step, this`search
      ensures values == old(values).(skillIds := old(values.skillIds) + [SkillIdOf(value)])
      ensures step == 3 && search == ""
      ensures old(Valid()) && SkillIdOf(value) !in old(values.skillIds) ==> Valid()
    {
      var id := SkillIdOf(value);
      if Distinct(values.skillIds) && id !in values.skillIds {
        AppendDistinct(values.skillIds, id);
      }
      values := values.(skillIds := values.skillIds + [id]);
      step := 3;
      search := "";
    }

    /** `removeSkill(id)`: drop every occurrence; back to step 2 when the list had one entry. */
    method RemoveSkill(id: string)
      modifies this`values, this`step, this`search
      ensures values == old(values).(skillIds := Without(old(values.skillIds), id))
      ensures step == if |old(values.skillIds)| == 1 then 2 else old(step)
      ensures search == ""
      ensures old(Valid()) ==> Valid()
    {
      var before := values.skillIds;
      if Distinct(before) {
        WithoutDistinct(before, id);
        WithoutDistinctLength(before, id);
      }
      values := values.(skillIds := Without(before, id));
      if |before| == 1 {
        step := 2;
      }
      search := "";
    }
  }
}
