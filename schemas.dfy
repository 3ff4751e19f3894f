/**
 * The zod validators of the forms. A schema's verdict is its list of issues,
 * in the order zod reports them: the fields of an object in declaration
 * order, every check of a field in its chain order (a failed `min` or
 * `regex` does not stop the checks after it), and an object-level
 * refinement after all field issues. Input is valid when no issue is reported.
 */
module Schemas {
  import opened Wrappers
  import opened Text

  /** One step of an issue path: an object key or an array index. */
  datatype PathSegment = Key(name: string) | Index(at: nat)

  type Path = seq<PathSegment>

  datatype Issue = Issue(path: Path, message: string)

  /** One check: no issue when it holds, its message at `path` otherwise. */
  function Check(ok: bool, path: Path, message: string): (issues: seq<Issue>)
    ensures ok <==> issues == []
    ensures issues == [] || issues == [Issue(path, message)]
  {
    if ok then [] else [Issue(path, message)]
  }

  // ---------------------------------------------------------------------------
  // Password policy

  const PasswordTooShort: string := "Password must be at least 8 characters"
  const PasswordNoUpper: string := "Password must contain at least one uppercase letter"
  const PasswordNoLower: string := "Password must contain at least one lowercase letter"
  const PasswordNoDigit: string := "Password must contain at least one digit"
  const PasswordNoSpecial: string := "Password must contain at least one special character"

  /** `/[A-Z]/`, `/[a-z]/`, `/\d/` and `/[^A-Za-z0-9]/` each match somewhere in `s`. */
  predicate HasUpper(s: string) { exists k :: 0 <= k < |s| && IsUpper(s[k]) }
  predicate HasLower(s: string) { exists k :: 0 <= k < |s| && IsLower(s[k]) }
  predicate HasDigit(s: string) { exists k :: 0 <= k < |s| && IsDigit(s[k]) }
  predicate HasSpecial(s: string) {
    exists k :: 0 <= k < |s| && !IsUpper(s[k]) && !IsLower(s[k]) && !IsDigit(s[k])
  }

  /** The policy the password chain enforces. */
  predicate StrongPassword(s: string) {
    |s| >= 8 && HasUpper(s) && HasLower(s) && HasDigit(s) && HasSpecial(s)
  }

  /** `z.string().min(8, …).regex(/[A-Z]/, …).regex(/[a-z]/, …).regex(/\d/, …).regex(/[^A-Za-z0-9]/, …)`. */
  function PasswordIssues(path: Path, s: string): seq<Issue> {
    Check(|s| >= 8, path, PasswordTooShort)
    + Check(HasUpper(s), path, PasswordNoUpper)
    + Check(HasLower(s), path, PasswordNoLower)
    + Check(HasDigit(s), path, PasswordNoDigit)
    + Check(HasSpecial(s), path, PasswordNoSpecial)
  }

  /**
   * A password passes exactly when it meets the policy; every issue is on the
   * field's own path, and each rule's message is reported exactly when that
   * rule fails.
   */
  lemma PasswordPolicy(path: Path, s: string)
    ensures PasswordIssues(path, s) == [] <==> StrongPassword(s)
    ensures forall i :: i in PasswordIssues(path, s) ==> i.path == path
    ensures Issue(path, PasswordTooShort) in PasswordIssues(path, s) <==> |s| < 8
    ensures Issue(path, PasswordNoUpper) in PasswordIssues(path, s) <==> !HasUpper(s)
    ensures Issue(path, PasswordNoLower) in PasswordIssues(path, s) <==> !HasLower(s)
    ensures Issue(path, PasswordNoDigit) in PasswordIssues(path, s) <==> !HasDigit(s)
    ensures Issue(path, PasswordNoSpecial) in PasswordIssues(path, s) <==> !HasSpecial(s)
    ensures |PasswordIssues(path, s)| <= 5
  {
  }

  // ---------------------------------------------------------------------------
  // RegisterSchema

  const FirstNameRequired: string := "First name is required"
  const LastNameRequired: string := "Last name is required"
  const TermsRequired: string := "You must agree to the terms and conditions"
  const PasswordsDiffer: string := "The passwords did not match"

  /** A registration form; the email field is not part of this model. */
  datatype Registration = Registration(
    password: string, confirmPassword: string, firstName: string, lastName: string, terms: bool)

  /** The issue the `superRefine` adds. */
  const MismatchIssue: Issue := Issue([Key("confirmPassword")], PasswordsDiffer)

  /** `RegisterSchema`: the field chains of `registerFields`, then the match refinement. */
  function RegisterIssues(r: Registration): seq<Issue> {
    PasswordIssues([Key("password")], r.password)
    + PasswordIssues([Key("confirmPassword")], r.confirmPassword)
    + Check(|r.firstName| >= 1, [Key("firstName")], FirstNameRequired)
    + Check(|r.lastName| >= 1, [Key("lastName")], LastNameRequired)
    + Check(r.terms, [Key("terms")], TermsRequired)
    + Check(r.confirmPassword == r.password, [Key("confirmPassword")], PasswordsDiffer)
  }

  /** A registration is accepted exactly when both passwords meet the policy and agree, both names are given and the terms are accepted. */
  lemma RegisterAccepts(r: Registration)
    ensures RegisterIssues(r) == [] <==>
      StrongPassword(r.password) && StrongPassword(r.confirmPassword) && r.confirmPassword == r.password
      && r.firstName != "" && r.lastName != "" && r.terms
  {
    PasswordPolicy([Key("password")], r.password);
    PasswordPolicy([Key("confirmPassword")], r.confirmPassword);
  }

  /**
   * The mismatch issue on `confirmPassword` is reported exactly when the two
   * passwords differ, and then it is the last issue.
   */
  lemma MismatchReported(r: Registration)
    ensures MismatchIssue in RegisterIssues(r) <==> r.confirmPassword != r.password
    ensures r.confirmPassword != r.password ==>
      RegisterIssues(r)[|RegisterIssues(r)| - 1] == MismatchIssue
  {
    PasswordPolicy([Key("password")], r.password);
    PasswordPolicy([Key("confirmPassword")], r.confirmPassword);
  }

  // ---------------------------------------------------------------------------
  // Arrays of ids: SkillsSchema.skillIds and JobSchema.skill_ids

  const SkillRequired: string := "skill is required"

  /** `z.array(z.string().min(1, 'skill is required'))` under `key`: one issue per empty element, by index. */
  function ElementIssues(key: string, ids: seq<string>): seq<Issue>
    decreases |ids|
  {
    if |ids| == 0 then []
    else
      var n := |ids| - 1;
      ElementIssues(key, ids[..n]) + Check(ids[n] != "", [Key(key), Index(n)], SkillRequired)
  }

  /**
   * Exactly the empty elements are reported, each at its own index under the
   * array's key; so the array is accepted exactly when no element is empty,
   * and the empty array always is.
   */
  lemma {:induction false} ElementIssuesExact(key: string, ids: seq<string>)
    ensures ElementIssues(key, ids) == [] <==> forall k :: 0 <= k < |ids| ==> ids[k] != ""
    ensures forall k :: 0 <= k < |ids| ==>
      (Issue([Key(key), Index(k)], SkillRequired) in ElementIssues(key, ids) <==> ids[k] == "")
    ensures forall i :: i in ElementIssues(key, ids) ==>
      i.message == SkillRequired && |i.path| == 2 && i.path[0] == Key(key)
      && i.path[1].Index? && i.path[1].at < |ids| && ids[i.path[1].at] == ""
    decreases |ids|
  {
    if |ids| > 0 {
      var n := |ids| - 1;
      var front := ids[..n];
      ElementIssuesExact(key, front);
      assert forall k :: 0 <= k < n ==> front[k] == ids[k];
    }
  }

  /** `SkillsSchema`. */
  function SkillsIssues(skillIds: seq<string>): seq<Issue> {
    ElementIssues("skillIds", skillIds)
  }

  lemma SkillsAccepts(skillIds: seq<string>)
    ensures SkillsIssues(skillIds) == [] <==> forall k :: 0 <= k < |skillIds| ==> skillIds[k] != ""
  {
    ElementIssuesExact("skillIds", skillIds);
  }

  // ---------------------------------------------------------------------------
  // AddressSchema

  /** An address payload; an optional field is `None` when the key is absent. */
  datatype Address = Address(
    province: string, cityMuni: string, barangay: string,
    address1: Option<string>, address2: Option<string>, postalCode: Option<string>)

  /** `z.string().min(1, message).optional()`: nothing to check when absent. */
  function OptionalIssues(value: Option<string>, path: Path, message: string): seq<Issue> {
    match value
    case None => []
    case Some(s) => Check(|s| >= 1, path, message)
  }

  predicate AbsentOrFilled(value: Option<string>) {
    value.None? || value.value != ""
  }

  /** `AddressSchema`. */
  function AddressIssues(a: Address): seq<Issue> {
    Check(|a.province| >= 1, [Key("province")], "province is required")
    + Check(|a.cityMuni| >= 1, [Key("city_muni")], "City/Municipality is required")
    + Check(|a.barangay| >= 1, [Key("barangay")], "barangay is required")
    + OptionalIssues(a.address1, [Key("address_1")], "Address 1 is required")
    + OptionalIssues(a.address2, [Key("address_2")], "Address 2 is required")
    + OptionalIssues(a.postalCode, [Key("postal_code")], "Postal code is required")
  }

  /** The three place names are required; the other lines may be absent but not empty. */
  lemma AddressAccepts(a: Address)
    ensures AddressIssues(a) == [] <==>
      a.province != "" && a.cityMuni != "" && a.barangay != ""
      && AbsentOrFilled(a.address1) && AbsentOrFilled(a.address2) && AbsentOrFilled(a.postalCode)
  {
  }

  // ---------------------------------------------------------------------------
  // JobSchema

  /** The job form's values; `price` is the raw text of the price input, absent until typed. */
  datatype Job = Job(
    name: string, description: string, price: Option<string>,
    province: string, cityMuni: string, barangay: string, skillIds: seq<string>)

  const DescriptionRequired: string := "description is required"

  /** `JobSchema` without its `price` check. */
  function JobIssues(j: Job): seq<Issue> {
    Check(|j.name| >= 1, [Key("name")], "Name is required")
    + Check(|j.description| >= 10, [Key("description")], DescriptionRequired)
    + Check(|j.province| >= 1, [Key("province")], "province is required")
    + Check(|j.cityMuni| >= 1, [Key("city_muni")], "city_muni is required")
    + Check(|j.barangay| >= 1, [Key("barangay")], "barangay is required")
    + ElementIssues("skill_ids", j.skillIds)
  }

  /**
   * A job is accepted exactly when it has a name, a description of at least
   * ten characters, all three place names, and no empty skill id (no skill
   * at all is fine).
   */
  lemma JobAccepts(j: Job)
    ensures JobIssues(j) == [] <==>
      j.name != "" && |j.description| >= 10 && j.province != "" && j.cityMuni != "" && j.barangay != ""
      && forall k :: 0 <= k < |j.skillIds| ==> j.skillIds[k] != ""
  {
    ElementIssuesExact("skill_ids", j.skillIds);
  }

  /** A description shorter than ten characters, and only such a one, is reported on `description`. */
  lemma JobDescriptionReported(j: Job)
    ensures Issue([Key("description")], DescriptionRequired) in JobIssues(j) <==> |j.description| < 10
  {
    var fields := Check(|j.name| >= 1, [Key("name")], "Name is required")
      + Check(|j.description| >= 10, [Key("description")], DescriptionRequired)
      + Check(|j.province| >= 1, [Key("province")], "province is required")
      + Check(|j.cityMuni| >= 1, [Key("city_muni")], "city_muni is required")
      + Check(|j.barangay| >= 1, [Key("barangay")], "barangay is required");
    var elements := ElementIssues("skill_ids", j.skillIds);
    assert JobIssues(j) == fields + elements;
    ElementIssuesExact("skill_ids", j.skillIds);
    assert Issue([Key("description")], DescriptionRequired) !in elements;
  }
}
