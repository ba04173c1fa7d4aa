# Listing form model

This project models the car-listing form of an OLX-style classifieds front
end: the `AdForm` React component. The model covers:

- the draft the user fills in (`FormData`) and the car catalog that feeds the
  brand, model and variant dropdowns;
- the change handler, and the two effects that clear a dependent selection
  when a brand or model changes;
- the image-slot and profile-image upload handlers;
- the three field validators and the inline price rule;
- `validate`, which builds the error map, and the submit handler, which
  raises the success popup.

Modules, in dependency order:

- `Wrappers`: an `Option` type.
- `JsParseInt`: JavaScript's `parseInt(s, 10)` over mathematical integers.
  `None` stands for NaN. The module also has the decimal writer `Show` and
  the round trip between the two.
- `PhonePattern`: the anchored regular expression `^\+91[6-9]\d{9}$` as a
  sequence of counted character classes, with the proof that it accepts
  exactly the thirteen-character strings of that shape.
- `Validators`: `validatePhone`, `validateKmDriven`, `validateYear` and the
  price rule, with their boundary cases.
- `Form`: the data model (fields, draft, initial draft, catalog, error
  messages) and the specification of `validate`. `FieldError` gives each
  field's outcome and `ErrorsOf` gives the whole error map. The module also
  holds the lemmas about both, and the effects as the function
  `Settle(prev, committed)`.
- `AdFormState`: `CollectErrors` is the conditional assignments of `validate`
  in the code's order. It is proved equal to `ErrorsOf` through the `Agrees`
  invariant, which holds after each check. The class `AdForm` has the
  component's three pieces of state (`draft`, `errors`, `showSuccessPopup`)
  and one method per handler.

Each error-map entry is a value of the `Message` datatype, one constructor
per message `validate` writes. `Message.Text` gives its exact wording.

The clock is a parameter, `currentYear`. A file read by `FileReader` is a
parameter too: the data URL it produced, or `None` when no file was chosen.

Where the code and its description disagree, the model follows the code:

- Setting the brand to the empty string does not clear model and variant,
  because the effect only acts on a non-empty brand (`BrandCascade`). The
  same holds for the model (`ModelCascade`).
- Validation never consults the catalog. A Toyota "Civic" passes
  (`CatalogNotEnforced`).
- `parseInt` reads a numeric prefix. So `"12abc"` and `"1e7"` are accepted
  kilometre readings, both with the value of their leading digits.

## Model

| member | source | states |
|---|---|---|
| JsParseInt.ParseIntShow | project/src/components/AdForm.tsx:140 | parseInt reads back every integer as JavaScript writes it, whatever non-digit text follows |
| JsParseInt.ParseIntNumeral | project/src/components/AdForm.tsx:140 | whitespace, optional sign, a digit run, then text not continuing the digits: parseInt yields the signed value of the run |
| JsParseInt.NoDigitsIsNaN | project/src/components/AdForm.tsx:140-141 | a text without any ASCII digit gives NaN |
| JsParseInt.ParseIntIff | project/src/components/AdForm.tsx:140-141 | in both directions: parseInt yields n exactly when the text splits into whitespace, an optional sign, a digit run whose signed value is n, and text not continuing the digits |
| JsParseInt.ValueOfDecimal | project/src/components/AdForm.tsx:140 | the decimal numeral of n has the value n |
| PhonePattern.IndianMobileIff | project/src/components/AdForm.tsx:135 | the pattern accepts exactly "+91", one of 6-9, nine ASCII digits, and nothing more |
| Validators.ValidatePhoneIff | project/src/components/AdForm.tsx:134-137 | validatePhone holds iff the phone has that thirteen-character shape |
| Validators.PhoneExamples | project/src/components/AdForm.tsx:134-137 | an accepted number, and rejected ones with a bad first digit, too few digits, or no +91 prefix |
| Validators.ValidateKmDrivenNumeral | project/src/components/AdForm.tsx:139-142 | any reading of whitespace, optional sign, digits and a non-digit tail passes iff the signed value of the digits is in [0, 999999] |
| Validators.ValidateKmDrivenShow | project/src/components/AdForm.tsx:139-142 | the JavaScript numeral of n, then text not starting with a digit, passes iff 0 <= n <= 999999 |
| Validators.KmDrivenPaddedNumeral | project/src/components/AdForm.tsx:140-141 | " +0500" passes: parseInt skips the space, the plus sign and the leading zero |
| Validators.KmDrivenBounds | project/src/components/AdForm.tsx:141 | "0" and "999999" pass; "-1" and "1000000" fail |
| Validators.KmDrivenTrailingLetters | project/src/components/AdForm.tsx:140-141 | "12abc" passes, because parseInt stops at the first non-digit |
| Validators.KmDrivenExponent | project/src/components/AdForm.tsx:140-141 | "1e7" passes, read as 1 |
| Validators.KmDrivenLetters | project/src/components/AdForm.tsx:140-141 | "abc" fails (NaN) |
| Validators.ValidateYearNumeral | project/src/components/AdForm.tsx:144-148 | any year text of whitespace, optional sign, digits and a non-digit tail passes iff the signed value of the digits is in [1900, currentYear] |
| Validators.ValidateYearShow | project/src/components/AdForm.tsx:144-148 | the JavaScript numeral of n, then text not starting with a digit, passes iff 1900 <= n <= currentYear |
| Validators.YearLowerBound | project/src/components/AdForm.tsx:147 | "1899" fails and "1900" passes |
| Validators.YearUpperBound | project/src/components/AdForm.tsx:146-147 | the current year passes and the next one fails |
| Validators.ValidPriceNumeral | project/src/components/AdForm.tsx:171-175 | any price text of whitespace, optional sign, digits and a non-digit tail passes iff the signed value of the digits is positive |
| Validators.ValidPriceShow | project/src/components/AdForm.tsx:173 | the JavaScript numeral of n, then text not starting with a digit, passes iff n > 0 |
| Validators.NoDigitsRejected | project/src/components/AdForm.tsx:139-148 | a text without digits fails the kilometre, year and price checks |
| Form.Draft.With | project/src/components/AdForm.tsx:107-110 | the spread update sets the named field and keeps every other field and the images |
| Form.InitialDraft | project/src/components/AdForm.tsx:61-81 | the initial draft has the twenty image slots |
| Form.CivicIsNotToyota | project/src/components/AdForm.tsx:35-36 | the catalog does not list Civic under Toyota |
| Form.Rank | project/src/components/AdForm.tsx:153-182 | the fourteen positions in the check order are exactly the validated fields |
| Form.ErrorsWith | project/src/components/AdForm.tsx:150-183 | the error map only has keys among the fourteen validated fields; category, country, region, name and profile image never get one |
| Form.ErrorsOf | project/src/components/AdForm.tsx:150-183 | the same for the draft's own verdicts |
| Form.AgreesStart | project/src/components/AdForm.tsx:151 | the empty map agrees with no check done |
| Form.AgreesStep | project/src/components/AdForm.tsx:153-182 | recording check k's outcome extends agreement to k + 1 checks |
| Form.AgreesAll | project/src/components/AdForm.tsx:150-183 | a map that agrees with all fourteen checks is the error map |
| Form.FieldErrorRule | project/src/components/AdForm.tsx:153-182 | each validated field gets its "required" message when blank, its format message when non-blank and failing, nothing otherwise |
| Form.FieldMessages | project/src/components/AdForm.tsx:156-182 | in both directions: the "required" entry iff blank, the other entry iff non-blank and failing its check |
| Form.ErrorsWellFormed | project/src/components/AdForm.tsx:153-182 | every entry of the error map is a message its own field can carry |
| Form.InitialDraftErrors | project/src/components/AdForm.tsx:61-81 | validating the initial draft flags exactly the fourteen validated fields, each as required |
| Form.ErrorsEmptyIffNoFieldError | project/src/components/AdForm.tsx:185 | the map is empty iff no validated field produced a message |
| Form.MeetsAllNoFieldError | project/src/components/AdForm.tsx:153-182 | a draft meeting every rule produces no message |
| Form.NoFieldErrorMeetsAll | project/src/components/AdForm.tsx:153-182 | a draft producing no message meets every rule |
| Form.ErrorsEmptyIff | project/src/components/AdForm.tsx:185 | validate returns true iff the draft meets every rule, written field by field |
| Form.FormatOkLocal | project/src/components/AdForm.tsx:139-148 | a format verdict depends only on its own field |
| Form.FieldErrorSame | project/src/components/AdForm.tsx:153-182 | a field's outcome depends only on its blankness and its format verdict |
| Form.ErrorsAt | project/src/components/AdForm.tsx:150-183 | a field's entry in the error map is its check's message, if it has one |
| Form.ErrorsLocal | project/src/components/AdForm.tsx:153-182 | editing one field leaves every other field's error entry as it was |
| Form.UnvalidatedFieldsIgnored | project/src/components/AdForm.tsx:150-186 | category, country, region, name and profile image cannot change the error map |
| Form.CatalogNotEnforced | project/src/components/AdForm.tsx:150-186 | a brand/model pair missing from the catalog still passes validation |
| Form.EditedSetsField | project/src/components/AdForm.tsx:106-110 | after an edit and its effects, the field holds the new value |
| Form.EditedFrame | project/src/components/AdForm.tsx:87-110 | an edit changes no field except itself and, through the resets, model and variant |
| Form.EditedNoCascade | project/src/components/AdForm.tsx:87-110 | editing any field but brand and model changes only that field |
| Form.BrandCascade | project/src/components/AdForm.tsx:87-95 | a brand changed to a non-empty value clears model and variant; otherwise both are kept |
| Form.ModelCascade | project/src/components/AdForm.tsx:97-104 | a model changed to a non-empty value clears the variant; the brand is kept |
| Form.SettleIsStable | project/src/components/AdForm.tsx:87-104 | the render after the resets triggers no further reset |
| AdFormState.RequiredCheckRule | project/src/components/AdForm.tsx:153-177 | each plain "required" line of validate is the check of its field at its position |
| AdFormState.FormatCheckRule | project/src/components/AdForm.tsx:156-182 | each required-then-format block of validate is the check of its field at its position |
| AdFormState.Require | project/src/components/AdForm.tsx:153 | one `if (!value) newErrors[f] = message` line extends agreement by one check |
| AdFormState.RequireValid | project/src/components/AdForm.tsx:156-160 | one required-then-format block extends agreement by one check |
| AdFormState.CollectErrors | project/src/components/AdForm.tsx:151-182 | the fourteen conditional assignments in the code's order build exactly the error map ErrorsOf |
| AdFormState.AdForm.constructor | project/src/components/AdForm.tsx:61-84 | the initial draft, no errors, popup hidden |
| AdFormState.AdForm.HandleChange | project/src/components/AdForm.tsx:106-118 | the field is written, its error entry dropped, everything else kept |
| AdFormState.AdForm.RunEffects | project/src/components/AdForm.tsx:87-104 | the draft becomes Settle of the previous and committed drafts; errors and popup are kept |
| AdFormState.AdForm.EditField | project/src/components/AdForm.tsx:87-118 | an edit as the user sees it: handler, then effects |
| AdFormState.AdForm.HandleImageUpload | project/src/components/AdForm.tsx:393-404 | a read file replaces exactly slot index; no file changes nothing |
| AdFormState.AdForm.HandleProfileImageUpload | project/src/components/AdForm.tsx:120-132 | a read file becomes the profile image; no file changes nothing |
| AdFormState.AdForm.Validate | project/src/components/AdForm.tsx:150-186 | errors becomes ErrorsOf of the draft, and the result is true iff it is empty, iff the draft meets every rule |
| AdFormState.AdForm.HandleSubmit | project/src/components/AdForm.tsx:188-196 | validates; the popup is raised iff validation passed; the draft is untouched |
| AdFormState.AdForm.DismissPopup | project/src/components/AdForm.tsx:192-194 | the timer callback hides the popup and touches nothing else |

## Left out

- `activeTab` and its two buttons (lines 85 and 422-429): they only choose what is displayed.
- The rendering, the `maxLength` attributes (lines 342, 356 and 511) and the region and city option lists (lines 447-469). The model's handlers accept any text, as `handleChange` does.
- The three-second `setTimeout` in `handleSubmit`. Its callback is the separate method `DismissPopup`; the delay and timer ordering are not modelled.
- `FileReader`: each upload handler takes the read result as a parameter, applied after the read has finished.
- AdFormState.AdForm.HandleImageUpload: copies the slots of the current draft. The source copies `formData.images` from the render that created the handler, so two uploads finishing within one render can lose one image. Concurrent reads are not modelled.
- AdFormState.AdForm.HandleImageUpload: requires `index < 20`. The upload grid creates exactly twenty slot inputs (ImageUpload.tsx lines 14 and 51), so no other index reaches the handler.
- The React batching of `setFormData` and `setErrors`: each handler is modelled as one atomic state change.
- AdFormState.AdForm.HandleChange: clearing an error writes `undefined` in the source; the model removes the key. The error display and `validate` treat both as "no error".
- JsParseInt.ParseIntShow: `parseInt` is modelled over unbounded integers. Above 2^53, where JavaScript's floating point loses precision, the model gives the exact value.
- The current year comes from the clock (line 146); here it is the parameter `currentYear`.
- Message identity: the error map stores `Message` values rather than strings. `Message.Text` holds each exact wording, but no lemma compares the wordings themselves.
