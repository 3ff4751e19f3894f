# TaskGrabber front end: routing, validators and form logic in Dafny

TaskGrabber is a job marketplace. A seeker (role `SKR`) posts jobs, a
provider (role `PDR`) offers services and an `admin` manages users. This
project models the logic of its Next.js front end:

- the request middleware `updateSession`. It decides, for every request,
  whether the caller may see the page, is redirected, or gets an HTTP 500. It
  also mirrors the session cookies the identity backend refreshes;
- the small helpers of `lib/utils.ts`: pluralisation, error-code formatting,
  initials, address formatting, chart colours and chart configuration;
- the zod validators of the registration, skills, address and job forms, as
  the ordered list of issues zod reports;
- the job-posting wizard, which reveals one section per step;
- the profile skills dialog and the chip list that opens it;
- the strict combobox both skill pickers use.

Modules follow the source files:

| module | file | models |
|---|---|---|
| `Wrappers` | `wrappers.dfy` | `Option`, for absent keys and `undefined` |
| `Text` | `text.dfy` | the JavaScript string operations the core uses (`startsWith`, `includes`, `split`, `join`, `charAt`, ASCII casing, `\s`, number printing) |
| `Middleware` | `middleware.dfy` | `utils/supabase/middleware.ts` |
| `Utils` | `utils.dfy` | `lib/utils.ts` |
| `Schemas` | `schemas.dfy` | `schemas/index.ts` |
| `Combobox` | `combobox.dfy` | `components/custom/combobox.tsx` |
| `Skills` | `skills.dfy` | what the two skill pickers share: suggestion items and id removal |
| `JobForm` | `job_form.dfy` | `components/custom/job/job-form.tsx` |
| `SkillsList` | `skills_list.dfy` | `components/custom/profile/skills-list.tsx` |

How the model is built:

- **Routing** is a pure function. `Middleware.Route` maps the caller's identity
  and the URL to `Pass`, `Redirect(path)` or `Error500(message)`. Its early
  returns are tried in the source's order.
- **Cookie mirroring** uses the class `Middleware.SessionExchange`. It holds
  the request's cookie jar and the current `NextResponse`. Its `SetAll`
  method writes the request cookies and then rebuilds the response.
  `Middleware.UpdateSession` runs the backend's refresh batches through it
  and then turns the routing decision into the returned response.
- **The backend** is represented by values. The identity backend's answers
  (who the user is, the profile lookup's outcome, the cookie batches it asks
  to set) are parameters.
- **React state.** Component state is a Dafny class whose fields are the
  state variables and the form values. Each event handler is a method.
  - The `Combobox.StrictCombobox` class models the combobox.
  - `JobForm.JobWizard` models the job wizard.
  - `SkillsList.EditSkillsForm` models the skills dialog.
  - The answers of the suggestion queries are method parameters.
- **Validators** are functions that return the issue list, in zod's order:
  - the fields in declaration order;
  - each field's checks in chain order;
  - the object refinement last.

Behaviour worth knowing, established by the lemmas:

- Redirects and the 500 response are new response objects. So they carry
  **none** of the refreshed cookies; only the pass-through response does
  (`Middleware.ResponseShapes`, `Middleware.UpdateSession`). A response
  sets only the cookies of its own request's last refresh
  (`Middleware.AfterRefreshesContents`), so the cookies refreshed during a
  redirected or failed request are lost, and the browser keeps its old
  session cookies until a request that passes through refreshes them again.
- The `logout` exemption for signed-in users on `/auth` pages only skips
  the bounce to `/`. The role switch still sends a seeker, a provider or an
  admin to their home prefix, so only a user without a known role reaches
  such a page (`Middleware.LogoutPageAfterExemption`).
- The job form's Post button (`canPost`) requires a typed, non-empty price,
  although the price field is optional in `JobSchema` and its placeholder
  says "Leave empty if TBD" (`JobForm.CanPostIff`).
- `getAddress` leaves a trailing `", "` when the province is empty but
  another field is set (`Utils.AddressShape`).
- In the job wizard the suggestion list is refreshed only after a query
  answers. Until then the item just added can be picked again, so
  `JobForm.JobWizard.AddSkill` keeps the no-duplicates invariant only for a
  fresh id.

## Model

| member | source | states |
|---|---|---|
| Middleware.Route | utils/supabase/middleware.ts:44-116 | The routing decision for an identity and a URL: a 500 on a failed profile lookup, the auth-page bounce, then the role switch, or the anonymous redirect; its properties are the `Middleware` lemmas below. |
| Middleware.RouteClassification | utils/supabase/middleware.ts:8-10 | Auth routes are exactly the paths starting with `/auth`; public routes are exactly `/` and `/about/`. |
| Text.ContainsIff | utils/supabase/middleware.ts:58 | `includes` holds exactly when the searched text occurs at some position of the URL. |
| Middleware.ServerErrorExactlyOnLookupFailure | utils/supabase/middleware.ts:44-55 | The response is a 500 with a given message exactly when a signed-in user's profile lookup failed with that message; a failed lookup always ends in a 500. |
| Middleware.SignedInLeavesAuthPages | utils/supabase/middleware.ts:57-59 | A signed-in user, whatever the role, is sent to `/` from any auth page whose URL does not mention `logout`. |
| Middleware.OnboardingPolicy | utils/supabase/middleware.ts:62-78 | For a home prefix and its setup area: the request passes iff it is under home and is inside setup iff onboarding is unfinished; it goes to setup iff under home, unfinished and outside setup; it goes home iff outside home or finished and inside setup. |
| Middleware.SeekerPolicy | utils/supabase/middleware.ts:62-78 | A seeker not bounced from an auth page is governed by the onboarding rules over `/skr` and `/skr/setup`: passes iff under `/skr` and in `/skr/setup` exactly when the profile is not completed. |
| Middleware.ProviderPolicy | utils/supabase/middleware.ts:81-97 | The same onboarding rules for a provider over `/pdr` and `/pdr/setup`. |
| Middleware.AdminPolicy | utils/supabase/middleware.ts:100-104 | An admin passes under `/admin` and is sent to `/admin` elsewhere, whatever the completion flag. |
| Middleware.UnknownRolePasses | utils/supabase/middleware.ts:106-109 | A user with another or no role is only ever bounced from auth pages, and passes everywhere else. |
| Middleware.NamespaceIsolation | utils/supabase/middleware.ts:61-104 | Any page a seeker, provider or admin is let through to lies under that role's prefix and under no other role's prefix. |
| Middleware.SignedInNeverSentToLogin | utils/supabase/middleware.ts:44-114 | A signed-in user is never redirected to `/auth/login`. |
| Middleware.AnonymousPolicy | utils/supabase/middleware.ts:112-116 | An anonymous request goes to `/auth/login` iff its path is neither an auth nor a public route, and passes otherwise. |
| Middleware.RedirectTargetsCanonical | utils/supabase/middleware.ts:38-114 | Every redirect goes to one of `/`, `/auth/login`, `/skr`, `/skr/setup`, `/pdr`, `/pdr/setup`, `/admin`. |
| Middleware.LogoutPageAfterExemption | utils/supabase/middleware.ts:57-109 | On an auth page whose URL mentions `logout`, a user with a known role is still sent to their home prefix; only a user with another or no role passes. |
| Middleware.RedirectsSettle | utils/supabase/middleware.ts:44-116 | No redirect loop: unless the profile lookup fails, following the redirects from any URL reaches a page that passes within three redirects. |
| Middleware.SettlesUnder | utils/supabase/middleware.ts:62-97 | The same bound for seekers and providers, over their home and setup areas. |
| Middleware.LastNamed | utils/supabase/middleware.ts:19-27 | The cookie found is the last one with that name in the batch; none is found iff no cookie has that name. |
| Middleware.RequestJarHoldsLastWrite | utils/supabase/middleware.ts:20-22 | After the request writes, a name is present iff it was present before or is in the batch, and its value is the one written last (or the old one when it is not in the batch). |
| Middleware.ResponseJarHoldsLastWrite | utils/supabase/middleware.ts:23-26 | The rebuilt response sets exactly the names in the batch, each with the value and the options written last, unchanged. |
| Middleware.WithRequestCookiesConcat | utils/supabase/middleware.ts:19-22 | Two batches written one after the other leave the same request cookies as their concatenation. |
| Middleware.SessionExchange.constructor | utils/supabase/middleware.ts:5 | The first response forwards the request's cookies and sets none of its own. |
| Middleware.SessionExchange.SetAll | utils/supabase/middleware.ts:19-27 | The request cookies become the old ones overwritten by the batch, and the response is a fresh pass-through that forwards the updated request cookies and sets exactly the batch's cookies. |
| Middleware.AfterRefreshesContents | utils/supabase/middleware.ts:19-27 | After several refreshes the request carries every batch's writes in order, but the response sets only the last batch's cookies, because each call rebuilds the response. |
| Middleware.ResponseShapes | utils/supabase/middleware.ts:38-55 | Only the pass-through response carries the refreshed cookies; a redirect changes only the pathname of the request URL and keeps its origin and search. |
| Middleware.UpdateSession | utils/supabase/middleware.ts:4-117 | The returned response is the routing decision applied to the request URL and to the pass-through response left by the cookie refreshes. |
| Utils.Pluralize | lib/utils.ts:11-13 | The word comes back unchanged iff the count is exactly 1; otherwise it is the word followed by `s`. |
| Utils.FormatErrorMessage | lib/utils.ts:15-20 | Split on `_`, capitalise each piece, join with spaces; its meaning is given by the three lemmas below. |
| Utils.FormatErrorMessageIsWordCased | lib/utils.ts:15-20 | The formatted message equals, character by character, the code with each `_` turned into a space and the first character of each word upper-cased. |
| Utils.FormatErrorMessageShape | lib/utils.ts:15-20 | The message has no `_`, has the code's length, and has a space wherever the code has `_`. |
| Utils.FormatErrorMessageWords | lib/utils.ts:15-20 | For a code without spaces, splitting the message on spaces gives back the capitalised words of the code, as many as its underscores plus one. |
| Utils.InitialLetter | lib/utils.ts:22-24 | The result is a prefix of the text, one character long, or empty for empty text. |
| Utils.GetAddress | lib/utils.ts:53-66 | The address built by `+=` equals the non-empty fields from barangay to province joined by `", "`, with a dangling `", "` when the province is missing. |
| Utils.AddressPieces | lib/utils.ts:60-65 | The joined description agrees with the three optional pieces the source appends. |
| Utils.AddressShape | lib/utils.ts:60-65 | The address is empty iff all three fields are; with a province it ends with the province; without one but with another field it ends with `", "`; a barangay comes first. |
| Utils.Mod | lib/utils.ts:92 | The remainder of a non-negative index is below the modulus. |
| Utils.JsRem | lib/utils.ts:92 | JavaScript's `%`: in `[0, m)` for a non-negative index and in `(-m, 0]` for a negative one. |
| Utils.ModQuotient | lib/utils.ts:92 | A non-negative index is a whole number of moduli plus its remainder; with the bound on `Mod`, this fixes the remainder's value. |
| Utils.JsRemQuotient | lib/utils.ts:92 | JavaScript's `%` is the remainder of division truncated toward zero: the index is `q * m + r` when non-negative and `-(q * m) + r` when negative. |
| Utils.ColorFirstPeriod | lib/utils.ts:91-93 | Positions `0 .. MAX-1` get colour numbers `1 .. MAX`, in order: position 0 is `hsl(var(--chart-1))`. |
| Utils.GenerateColor | lib/utils.ts:91-94 | `hsl(var(--chart-N))` for the colour number of an index; its values are fixed by the colour lemmas. |
| Utils.ColorNumberRange | lib/utils.ts:91-94 | The colour variable number is between 1 and the number of colours for a non-negative index, and between `2 - max` and 1 for a negative one. |
| Utils.ColorPeriodic | lib/utils.ts:91-94 | Indices that differ by the number of colours get the same colour. |
| Utils.ColorsDistinctWithinPeriod | lib/utils.ts:91-94 | Indices closer than the number of colours get different colour strings. |
| Utils.BuildChartConfig | lib/utils.ts:68-89 | The configuration built by the loop equals the value entry updated by each item in order. |
| Utils.ChartConfigKeys | lib/utils.ts:74-86 | The configuration's keys are exactly the value key and the lower-cased, whitespace-free label of every item. |
| Utils.ChartConfigLastWins | lib/utils.ts:80-86 | For items that share a key, the last one decides the entry: its original label and the colour of its position. |
| Utils.ChartConfigValueEntry | lib/utils.ts:74-78 | Unless an item's key collides with it, the value key's entry is labelled `Job Openings` and has no colour. |
| Utils.FillFor | lib/utils.ts:99-101 | The fill is never empty. |
| Utils.AddColorsToChartData | lib/utils.ts:96-102 | Each item with `fill` set from the configuration entry of its key; its shape is `Utils.AddColorsShape`. |
| Utils.AddColorsShape | lib/utils.ts:96-102 | Length and order are kept; each item keeps all its other fields and gains `fill`; the fill is the entry's colour when it has a non-empty one, and `hsl(var(--chart-default))` otherwise. |
| Utils.ChartColorsOfOwnConfig | lib/utils.ts:80-101 | Colouring data with the configuration built from it gives each item the colour of the last item sharing its key. |
| Schemas.PasswordPolicy | schemas/index.ts:16-25 | A password passes iff it has at least 8 characters, an upper-case letter, a lower-case letter, a digit and another character; each rule's message is reported iff that rule fails; all issues are on the field. |
| Schemas.RegisterIssues | schemas/index.ts:12-69 | The issues of `RegisterSchema`, field chains first and the refinement last; characterised by the two lemmas below. |
| Schemas.RegisterAccepts | schemas/index.ts:12-69 | A registration is accepted iff both passwords meet the policy and are equal, both names are given and the terms are accepted. |
| Schemas.MismatchReported | schemas/index.ts:61-68 | The mismatch issue on `confirmPassword` is reported iff the passwords differ, and then it is the last issue. |
| Schemas.ElementIssuesExact | schemas/index.ts:84 | An id array is accepted iff no element is empty; an element's issue, at its own index, is reported iff it is empty; every issue names an empty element. |
| Schemas.SkillsAccepts | schemas/index.ts:83-85 | The skills form is accepted iff no skill id is empty. |
| Schemas.AddressIssues | schemas/index.ts:96-103 | The issues of `AddressSchema`, in field order; characterised by `Schemas.AddressAccepts`. |
| Schemas.AddressAccepts | schemas/index.ts:96-103 | An address is accepted iff the three place names are set and each optional line is absent or non-empty. |
| Schemas.JobIssues | schemas/index.ts:117-129 | The issues of `JobSchema` without its price check; characterised by the two lemmas below. |
| Schemas.JobAccepts | schemas/index.ts:117-129 | A job is accepted iff it has a name, a description of at least ten characters, all three place names and no empty skill id. An empty skill list is accepted. |
| Schemas.JobDescriptionReported | schemas/index.ts:119 | The description issue is reported iff the description is shorter than ten characters. |
| Combobox.FirstWithValue | components/custom/combobox.tsx:67 | The item found is the first one carrying the value; none is found iff no item carries it. |
| Combobox.TriggerLabel | components/custom/combobox.tsx:66-69 | The trigger's text; characterised by the two lemmas below. |
| Combobox.TriggerLabelShowsSelection | components/custom/combobox.tsx:66-69 | When a value is selected, the trigger shows the label of the first item carrying it, or the placeholder when that label is empty. |
| Combobox.TriggerLabelPlaceholder | components/custom/combobox.tsx:66-69 | With no value, or a value no item carries, the trigger shows `Select one...`. |
| Combobox.Toggled | components/custom/combobox.tsx:86 | The value `onSelect` emits: empty for the current value, the choice otherwise; its effect is `Combobox.ToggleFlipsCheck`. |
| Combobox.ToggleFlipsCheck | components/custom/combobox.tsx:85-93 | Once the parent stores the emitted value, the chosen item is checked iff it was not checked before. |
| Combobox.Entries | components/custom/combobox.tsx:79-98 | The list's rows; characterised by the two lemmas below. |
| Combobox.EntriesShape | components/custom/combobox.tsx:79-98 | `Loading...` appears iff there are no items; otherwise there is one entry per item, in order, checked iff its value is the current one. |
| Combobox.AtMostOneChecked | components/custom/combobox.tsx:90-95 | With distinct item values, at most one entry carries the check mark. |
| Combobox.StrictCombobox.constructor | components/custom/combobox.tsx:44 | The popover starts closed. |
| Combobox.StrictCombobox.SetOpen | components/custom/combobox.tsx:48-49 | The popover's state follows the requested one. |
| Combobox.StrictCombobox.Select | components/custom/combobox.tsx:85-88 | Selecting emits the choice, or the empty value when it is already selected, and closes the popover. |
| Skills.SkillIdOfOption | components/custom/job/job-form.tsx:207 | The id part of a suggestion's value is the row's id. |
| Skills.Suggestions | components/custom/job/job-form.tsx:234-237 | The suggestions: never more than the rows; soundness and completeness are `Skills.SuggestionsSpec`. |
| Skills.SuggestionsSpec | components/custom/job/job-form.tsx:234-237 | Every suggestion is the item of a row whose id is not yet added, every such row has its suggestion, and no suggestion's id part is among the added ids. |
| Skills.Without | components/custom/job/job-form.tsx:217 | Filtering keeps exactly the ids different from the removed one. |
| Skills.WithoutMultiplicity | components/custom/job/job-form.tsx:217 | Every other id keeps its number of occurrences, and the removed id has none left. |
| Skills.WithoutConcat | components/custom/job/job-form.tsx:217 | Filtering a concatenation filters each part. |
| Skills.WithoutAbsent | components/custom/job/job-form.tsx:217 | Removing an id that is not there changes nothing. |
| Skills.RemoveUndoesAppend | components/custom/job/job-form.tsx:206-218 | Removing a freshly appended id gives the list from before the append. |
| Skills.WithoutDistinct | components/custom/job/job-form.tsx:217 | Removal keeps a list free of duplicates. |
| Skills.WithoutDistinctLength | components/custom/job/job-form.tsx:213-219 | On a list without duplicates, removal shortens it by one iff the id was there. |
| Skills.AppendDistinct | components/custom/job/job-form.tsx:208 | Appending a fresh id keeps a list free of duplicates. |
| JobForm.CanProceed | components/custom/job/job-form.tsx:91-94 | The address Next button is enabled iff all three place names are set; used by `JobForm.JobWizard.NextFromAddress`. |
| JobForm.CanPost | components/custom/job/job-form.tsx:334-336 | Every form value is truthy; characterised by `JobForm.CanPostIff`. |
| JobForm.CanPostIff | components/custom/job/job-form.tsx:334-336 | Posting is enabled iff every text field is non-empty, a non-empty price was typed and at least one skill was added; it implies the address test. |
| JobForm.SectionsNest | components/custom/job/job-form.tsx:352-386 | The Post button implies the price field, which implies skills, which imply the address; the details editor shows exactly when the address does not. |
| JobForm.JobWizard.constructor | components/custom/job/job-form.tsx:319-333 | The wizard starts at step 0 with the default values and satisfies its invariant. |
| JobForm.JobWizard.SetName | components/custom/job/job-form.tsx:43-58 | Only the name changes; the invariant is kept. |
| JobForm.JobWizard.SetDescription | components/custom/job/job-form.tsx:59-74 | Only the description changes; the invariant is kept. |
| JobForm.JobWizard.SetPrice | components/custom/job/job-form.tsx:295-311 | Only the price changes; the invariant is kept. |
| JobForm.JobWizard.SetProvince | components/custom/job/job-form.tsx:118-122 | A new province clears the city/municipality and the barangay; nothing else changes. |
| JobForm.JobWizard.SetCityMuni | components/custom/job/job-form.tsx:157 | Only the city/municipality changes; the invariant is kept. |
| JobForm.JobWizard.SetBarangay | components/custom/job/job-form.tsx:176 | Only the barangay changes; the invariant is kept. |
| JobForm.JobWizard.NextFromDetails | components/custom/job/job-form.tsx:35-81 | The first Next moves from step 0 to 1 exactly when name and description are set and valid; otherwise the step is unchanged. |
| JobForm.JobWizard.NextFromAddress | components/custom/job/job-form.tsx:185-192 | The address Next moves from step 1 to 2 exactly when all three place names are set. |
| JobForm.JobWizard.EditDetails | components/custom/job/job-form.tsx:360-366 | The edit button returns to step 0; the invariant is kept. |
| JobForm.JobWizard.LoadSuggestions | components/custom/job/job-form.tsx:224-240 | An answered query replaces the suggestions with the rows whose ids were not among the `skill_ids` read when the query was sent; no data leaves them as they were. |
| JobForm.JobWizard.AddSkill | components/custom/job/job-form.tsx:206-212 | The id part of the chosen value is appended, the wizard moves to step 3, the search clears, and the invariant holds when the id was fresh. |
| JobForm.JobWizard.RemoveSkill | components/custom/job/job-form.tsx:213-222 | Every occurrence of the id is dropped; the wizard goes back to step 2 iff the list had one entry; the search clears; the invariant is kept. |
| SkillsList.SelectedOf | components/custom/profile/skills-list.tsx:199-202 | The dialog receives one selected skill per listed profile skill. |
| SkillsList.IdsOf | components/custom/profile/skills-list.tsx:41 | One default id per selected skill. |
| SkillsList.DialogStartsFromList | components/custom/profile/skills-list.tsx:168-209 | The dialog's chips and default ids are the listed skills' ids and names, in order. |
| SkillsList.FirstWithPrefix | components/custom/profile/skills-list.tsx:45 | The suggestion found is the first whose value starts with the argument; none is found iff no value does. |
| SkillsList.WithoutChip | components/custom/profile/skills-list.tsx:61-63 | The chips kept are exactly those whose id differs from the removed one. |
| SkillsList.WithoutChipConcat | components/custom/profile/skills-list.tsx:61-63 | Filtering chips distributes over concatenation. |
| SkillsList.WithoutChipAbsent | components/custom/profile/skills-list.tsx:61-63 | Removing an id no chip has changes nothing. |
| SkillsList.EditSkillsForm.constructor | components/custom/profile/skills-list.tsx:30-42 | The dialog starts with the given chips, their ids as form values, no suggestions and an empty search. |
| SkillsList.EditSkillsForm.LoadSuggestions | components/custom/profile/skills-list.tsx:77-113 | An answered query replaces the suggestions with the rows whose ids were not among the `skillIds` captured when the query was sent; no data leaves them as they were. |
| SkillsList.EditSkillsForm.AddSkillAsWritten | components/custom/profile/skills-list.tsx:44-54 | As written: with no suggestion matching, nothing changes; otherwise the whole argument is appended to the ids, a chip with the suggestion's id part and label is added, and the search clears. |
| SkillsList.EditSkillsForm.AddSkill | components/custom/profile/skills-list.tsx:44-54 | Corrected: the same, but the id part of the matched suggestion is what is appended to the ids. |
| SkillsList.EditSkillsForm.RemoveSkill | components/custom/profile/skills-list.tsx:56-64 | The id is dropped from the form values and its chip from the chips. |
| SkillsList.OtherSkillNoExtension | components/custom/profile/skills-list.tsx:86-89 | The value of one skill's suggestion never starts with the value of another skill's suggestion. |
| SkillsList.PrefixFindsOwnSuggestion | components/custom/profile/skills-list.tsx:45-46 | When row ids are distinct, looking up a suggestion's own value finds that suggestion. |
| SkillsList.FirstMatchIsOwn | components/custom/profile/skills-list.tsx:45 | If no earlier item's value extends a value, the lookup of that value finds its own item. |
| SkillsList.AppendedValueSurvivesRemoval | components/custom/profile/skills-list.tsx:48-59 | A whole `id\|name` value appended to the ids survives removal by its id. |
| SkillsList.AddedValueStillSuggested | components/custom/profile/skills-list.tsx:86-89 | After the as-written add, the next query still suggests the skill just added. |
| SkillsList.AddedIdRemovedAndNotSuggested | components/custom/profile/skills-list.tsx:44-64 | After the corrected add, removal by id restores the old ids and the skill is no longer suggested. |
| SkillsList.ConcreteSuggestion | components/custom/profile/skills-list.tsx:86-89 | Skill 12, `JavaScript`, is suggested as `12\|JavaScript`, is found by its own value, and its id part is `12`. |
| SkillsList.AsWrittenAddThenRemove | components/custom/profile/skills-list.tsx:44-64 | A dialog opened without skills, over a query returning any one skill. With the as-written code, adding that skill's suggestion and then removing its chip leaves the chips empty, but the ids still hold the whole `id\|name` value. For skill 12 `JavaScript` that is `["12\|JavaScript"]`. |
| SkillsList.CorrectedAddThenRemove | components/custom/profile/skills-list.tsx:44-64 | With the corrected add, the same steps leave both the ids and the chips empty. |

## Left out

- `cn`, `getRecency` and `formatDescription` in `lib/utils.ts` are not modelled. They are class-name merging, clock arithmetic on floating-point milliseconds, and a regular-expression HTML rewrite.
- `LoginSchema`, `RoleSchema`, `RegisterWithRoleSchema`, `ProfileDescriptionSchema` and `ContactUsSchema` are not modelled; only the schemas the modelled forms use are. `RegisterWithRoleSchema` reuses the field chains modelled in `Schemas.RegisterIssues`.
- Schemas.RegisterIssues: the `email` check (`z.string().email`) is left out. zod's email pattern is not modelled, so registration acceptance is stated for the other fields only.
- Schemas.JobIssues: the `price` check (`refine(Number)` then `transform`) is left out. It depends on JavaScript's `Number` parsing of floating-point text.
- Value type mismatches are not modelled, e.g. a non-string password; the types fix the field types. The model treats every issue as a non-fatal one after which zod goes on checking.
- The Supabase client is not modelled. Its cookie reads, `auth.getUser()`, the `profiles` and `skills` queries with their `order` and `range`, and the editing server actions are represented only by their answers, passed as parameters. Environment variables and network failures other than the lookup error are not modelled.
- Middleware.UpdateSession: the 500 body is the lookup message itself, not the JSON text `{"error": …}`. JSON serialisation is not modelled.
- Middleware.Href: `request.url` is modelled as origin, pathname and search concatenated. Fragments and URL normalisation are not modelled.
- Asynchrony is not modelled. The order in which queries answer, React re-rendering, and effects re-running on dependency changes are outside the model; each answer is a method call made at the moment it arrives, given the ids captured when its query was sent (`JobForm.JobWizard.LoadSuggestions`, `SkillsList.EditSkillsForm.LoadSuggestions`).
- Utils.Pluralize: `count` is an integer; JavaScript numbers with a fractional part (which also get the `s`) are not modelled.
- The job form's selected-skills query (`.in('id', skill_ids)`), its chips, `postJob`, `onSubmit`, the skills dialog's `editSkills` submission and `location.reload()` are not modelled. They are network calls and rendering.
- The edit icon button beside the job name has no `type="button"`, so inside the form a click also submits it. Form submission is not modelled; JobForm.JobWizard.EditDetails models only its `setStep(0)`.
- JobForm.JobWizard.NextFromDetails: react-hook-form's field validity (`getFieldState(...).invalid`) is an input, not derived from `JobSchema`. When it is computed depends on the form's validation mode.
- Skills.SkillRow: a row of the suggestion queries has a numeric `id` (`nat`), and the model compares it only through its decimal text `IdText(id)`, the `id.toString()` of components/custom/profile/skills-list.tsx:88 and the `${id}` of the item value.
- Ids taken straight from database rows are assumed to arrive as strings. There are two such places: the job form's chips are the rows of the `.in('id', skill_ids)` query (components/custom/job/job-form.tsx:247-251), whose `id` is passed to `removeSkill(id)` (job-form.tsx:279); and the profile dialog's first chips and its default `skillIds` are the `skill.id` of the joined `skills` records (skills-list.tsx:41, 199-202). If those ids are numbers, the source differs from the model in three ways, none of them modelled. In the job form, `skillId !== id` (job-form.tsx:217) never drops the string id, yet a one-element list still sends the wizard back to step 2 (job-form.tsx:219). In the dialog, `addedSkillIds.includes(id.toString())` (skills-list.tsx:88) never matches a numeric default id, so the profile's own skills are suggested again. And numeric default ids fail `z.string()` in `SkillsSchema` (schemas/index.ts:84).
- cmdk may lower-case or trim an item value before passing it to `onSelect`, depending on its version. The model passes the value through unchanged.
- Lengths and prefixes are counted in Dafny characters, not JavaScript UTF-16 code units. Upper and lower casing cover ASCII letters only; `\s` is JavaScript's set of white-space and line-terminator characters, listed in `Text.IsWhitespace`.
- Utils.GenerateColor: `MAX_COLOR_VARIABLES` is a parameter; lib/constants.ts is not part of this model. Indices are unbounded integers, not floating-point numbers.
- Utils.BuildChartConfig: the colour generator is a parameter. The default labelKey and valueKey are not modelled; callers pass them explicitly. Items are maps from field names to strings, and every item must have the label field; the source would throw on a missing one.
- Utils.FillFor: requires the item to have a `skill` field; `item.skill.toLowerCase()` (lib/utils.ts:100) would throw without one.
- Utils.AddColorsToChartData: requires every item to have a `skill` field, for the same reason (lib/utils.ts:100).
- SkillsList.EditSkillsForm.constructor: an undefined `selectedSkills` is not modelled; the source would throw when adding to a missing chip list.
- Rendering (JSX, class names, icons, popover placement) is not modelled.

## Findings

| source | as written | input that shows it | evidently intended | confidence | as-written member | corrected member |
|---|---|---|---|---|---|---|
| components/custom/profile/skills-list.tsx:48 | `addSkill(id)` receives the combobox's whole item value (`"12\|JavaScript"`) and appends it unchanged to `skillIds`, while `removeSkill` filters `skillIds` by the chip's bare id (`"12"`) and the suggestion filter compares bare ids | suggestions for skill 12 `JavaScript`; pick it (`addSkill("12\|JavaScript")`), then click its chip's remove button (`removeSkill("12")`): `skillIds` stays `["12\|JavaScript"]`, the chip disappears, and the skill is still suggested | append the id part `skill.value.split('\|')[0]`, as the chip already does and as the job form's `addSkill` does | high — not executed | SkillsList.EditSkillsForm.AddSkillAsWritten, SkillsList.AsWrittenAddThenRemove, SkillsList.AppendedValueSurvivesRemoval, SkillsList.AddedValueStillSuggested | SkillsList.EditSkillsForm.AddSkill, SkillsList.CorrectedAddThenRemove, SkillsList.AddedIdRemovedAndNotSuggested |
