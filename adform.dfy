/**
 * The listing form component's state: the draft under construction, the
 * error map shown beside the fields, and the success-popup flag. Each
 * method is one of the component's handlers; the clock is passed in as the
 * current calendar year, and a file read is passed in as its result
 * (`None` when the user picked no file).
 */
module AdFormState {

  import opened Wrappers
  import opened Validators
  import opened Form

  /**
   * Check number `k` of `validate` is a plain "required" check: it reads
   * field `f` as `missing` or not and, when missing, writes `message`.
   */
  predicate RequiredCheck(d: Draft, k: nat, f: Field, missing: bool, message: Message) {
    && k < 14 && k != 3 && k != 6 && k != 10 && k != 13
    && (k == 0 ==> f == Brand && missing == (d.brand == "") && message == BrandRequired)
    && (k == 1 ==> f == Model && missing == (d.model == "") && message == ModelRequired)
    && (k == 2 ==> f == Variant && missing == (d.variant == "") && message == VariantRequired)
    && (k == 4 ==> f == Fuel && missing == (d.fuel == "") && message == FuelRequired)
    && (k == 5 ==> f == Transmission && missing == (d.transmission == "") && message == TransmissionRequired)
    && (k == 7 ==> f == Owners && missing == (d.owners == "") && message == OwnersRequired)
    && (k == 8 ==> f == Title && missing == (d.title == "") && message == TitleRequired)
    && (k == 9 ==> f == Description && missing == (d.description == "") && message == DescriptionRequired)
    && (k == 11 ==> f == Images && missing == NoCoverImage(d) && message == ImagesRequired)
    && (k == 12 ==> f == City && missing == (d.city == "") && message == CityRequired)
  }

  /**
   * Check number `k` of `validate` is a "required" check on `f` followed,
   * for a present value, by a format check whose verdict is `valid`.
   */
  predicate FormatCheck(d: Draft, v: Verdicts, k: nat, f: Field, missing: bool, valid: bool,
                        required: Message, invalid: Message) {
    && (k == 3 || k == 6 || k == 10 || k == 13)
    && (k == 3 ==> f == Year && missing == (d.year == "") && valid == v.yearOk
                   && required == YearRequired && invalid == YearInvalid)
    && (k == 6 ==> f == KmDriven && missing == (d.kmDriven == "") && valid == v.kmDrivenOk
                   && required == KmDrivenRequired && invalid == KmDrivenInvalid)
    && (k == 10 ==> f == Price && missing == (d.price == "") && valid == v.priceOk
                    && required == PriceRequired && invalid == PriceInvalid)
    && (k == 13 ==> f == Phone && missing == (d.phone == "") && valid == v.phoneOk
                    && required == PhoneRequired && invalid == PhoneInvalid)
  }

  /** The required-only checks are the ones `FieldError` describes, in `Rank` order. */
  lemma RequiredCheckRule(d: Draft, v: Verdicts, k: nat, f: Field, missing: bool, message: Message)
    requires RequiredCheck(d, k, f, missing, message)
    ensures Rank(f) == k && FieldError(d, f, v) == Required(missing, message)
  { }

  /** Likewise for the checks that also apply a format rule. */
  lemma FormatCheckRule(d: Draft, v: Verdicts, k: nat, f: Field, missing: bool, valid: bool,
                        required: Message, invalid: Message)
    requires FormatCheck(d, v, k, f, missing, valid, required, invalid)
    ensures Rank(f) == k && FieldError(d, f, v) == Checked(missing, required, valid, invalid)
  { }

  /**
   * `if (!value) newErrors[f] = message`: check number `k` of `validate`.
   * The ghost parameters tie the map to the entries the first `k` checks
   * produce.
   */
  method Require(m: map<Field, Message>, f: Field, missing: bool, message: Message,
                 ghost d: Draft, ghost v: Verdicts, ghost k: nat)
    returns (r: map<Field, Message>)
    requires Agrees(m, d, v, k) && RequiredCheck(d, k, f, missing, message)
    ensures Agrees(r, d, v, k + 1)
  {
    if missing {
      r := m[f := message];
    } else {
      r := m;
    }
    RequiredCheckRule(d, v, k, f, missing, message);
    AgreesStep(m, d, v, k, f);
  }

  /** A "required" check followed, on a present value, by its format check. */
  method RequireValid(m: map<Field, Message>, f: Field, missing: bool, valid: bool, required: Message, invalid: Message,
                      ghost d: Draft, ghost v: Verdicts, ghost k: nat)
    returns (r: map<Field, Message>)
    requires Agrees(m, d, v, k) && FormatCheck(d, v, k, f, missing, valid, required, invalid)
    ensures Agrees(r, d, v, k + 1)
  {
    if missing {
      r := m[f := required];
    } else if !valid {
      r := m[f := invalid];
    } else {
      r := m;
    }
    FormatCheckRule(d, v, k, f, missing, valid, required, invalid);
    AgreesStep(m, d, v, k, f);
  }

  /**
   * The body of `validate` up to `setErrors`: a fresh map filled by the
   * fourteen checks in the code's order, each a conditional assignment.
   */
  method CollectErrors(d: Draft, currentYear: int) returns (newErrors: map<Field, Message>)
    ensures newErrors == ErrorsOf(d, currentYear)
  {
    ghost var v := VerdictsOf(d, currentYear);
    newErrors := map[];
    AgreesStart(d, v);

    // After check number k, newErrors agrees with the first k + 1 checks.
    newErrors := Require(newErrors, Brand, d.brand == "", BrandRequired, d, v, 0);
    newErrors := Require(newErrors, Model, d.model == "", ModelRequired, d, v, 1);
    newErrors := Require(newErrors, Variant, d.variant == "", VariantRequired, d, v, 2);
    newErrors := RequireValid(newErrors, Year, d.year == "", ValidateYear(d.year, currentYear), YearRequired, YearInvalid, d, v, 3);
    newErrors := Require(newErrors, Fuel, d.fuel == "", FuelRequired, d, v, 4);
    newErrors := Require(newErrors, Transmission, d.transmission == "", TransmissionRequired, d, v, 5);
    newErrors := RequireValid(newErrors, KmDriven, d.kmDriven == "", ValidateKmDriven(d.kmDriven), KmDrivenRequired, KmDrivenInvalid, d, v, 6);
    newErrors := Require(newErrors, Owners, d.owners == "", OwnersRequired, d, v, 7);
    newErrors := Require(newErrors, Title, d.title == "", TitleRequired, d, v, 8);
    newErrors := Require(newErrors, Description, d.description == "", DescriptionRequired, d, v, 9);
    newErrors := RequireValid(newErrors, Price, d.price == "", ValidPrice(d.price), PriceRequired, PriceInvalid, d, v, 10);
    newErrors := Require(newErrors, Images, |d.images| == 0 || d.images[0] == "", ImagesRequired, d, v, 11);
    newErrors := Require(newErrors, City, d.city == "", CityRequired, d, v, 12);
    newErrors := RequireValid(newErrors, Phone, d.phone == "", ValidatePhone(d.phone), PhoneRequired, PhoneInvalid, d, v, 13);
    AgreesAll(newErrors, d, v);
  }

  class AdForm {
    var draft: Draft
    var errors: map<Field, Message>
    var showSuccessPopup: bool

    /** The image grid keeps its twenty slots, and every error entry is a message its field can carry. */
    ghost predicate Valid()
      reads this
    {
      && |draft.images| == ImageSlots
      && forall f :: f in errors ==> IsMessageFor(f, errors[f])
    }

    /** A fresh form: the initial draft, no errors, no popup. */
    constructor ()
      ensures Valid()
      ensures draft == InitialDraft() && errors == map[] && !showSuccessPopup
    {
      draft := InitialDraft();
      errors := map[];
      showSuccessPopup := false;
    }

    /** `handleChange`: write one field and drop that field's error, if it has one. */
    method HandleChange(f: Field, value: string)
      requires Valid() && IsScalar(f)
      modifies this
      ensures Valid()
      ensures draft == old(draft).With(f, value)
      ensures errors == old(errors) - {f}
      ensures showSuccessPopup == old(showSuccessPopup)
    {
      draft := draft.With(f, value);
      if f in errors {
        errors := errors - {f};
      } else {
        assert errors == errors - {f};
      }
    }

    /**
     * The two effects, run after the render that follows a change away
     * from `prev`: a new non-empty brand clears model and variant, a new
     * non-empty model clears variant.
     */
    method RunEffects(prev: Draft)
      requires Valid()
      modifies this
      ensures Valid()
      ensures draft == Settle(prev, old(draft))
      ensures errors == old(errors) && showSuccessPopup == old(showSuccessPopup)
    {
      var committed := draft;
      if committed.brand != prev.brand && committed.brand != "" {
        draft := draft.(model := "", variant := "");
      }
      if committed.model != prev.model && committed.model != "" {
        draft := draft.(variant := "");
      }
    }

    /** One edit as the user sees it: the change handler, then the effects of the render it causes. */
    method EditField(f: Field, value: string)
      requires Valid() && IsScalar(f)
      modifies this
      ensures Valid()
      ensures draft == Edited(old(draft), f, value)
      ensures errors == old(errors) - {f}
      ensures showSuccessPopup == old(showSuccessPopup)
    {
      var prev := draft;
      HandleChange(f, value);
      RunEffects(prev);
    }

    /**
     * The image-slot upload handler once the file is read: copy the slots,
     * replace slot `index`, store the copy. Errors are left alone.
     */
    method HandleImageUpload(index: nat, file: Option<string>)
      requires Valid() && index < ImageSlots
      modifies this
      ensures Valid()
      ensures file.None? ==> draft == old(draft)
      ensures file.Some? ==> draft == old(draft).(images := old(draft).images[index := file.value])
      ensures errors == old(errors) && showSuccessPopup == old(showSuccessPopup)
    {
      if file.Some? {
        var newImages := draft.images;
        newImages := newImages[index := file.value];
        draft := draft.(images := newImages);
      }
    }

    /** `handleProfileImageUpload` once the file is read: store it as the profile image. */
    method HandleProfileImageUpload(file: Option<string>)
      requires Valid()
      modifies this
      ensures Valid()
      ensures file.None? ==> draft == old(draft)
      ensures file.Some? ==> draft == old(draft).(profileImage := file.value)
      ensures errors == old(errors) && showSuccessPopup == old(showSuccessPopup)
    {
      if file.Some? {
        draft := draft.(profileImage := file.value);
      }
    }

    /**
     * `validate`: build the error map, install it, and report whether it
     * has no keys.
     */
    method Validate(currentYear: int) returns (ok: bool)
      requires Valid()
      modifies this
      ensures Valid()
      ensures errors == ErrorsOf(draft, currentYear)
      ensures ok == (errors == map[])
      ensures ok <==> Acceptable(draft, currentYear)
      ensures draft == old(draft) && showSuccessPopup == old(showSuccessPopup)
    {
      var newErrors := CollectErrors(draft, currentYear);
      errors := newErrors;
      ok := |newErrors| == 0;
      ErrorsEmptyIff(draft, currentYear);
      ErrorsWellFormed(draft, VerdictsOf(draft, currentYear));
    }

    /**
     * `handleSubmit`: validate, and raise the success popup only when the
     * draft passed. The draft itself is never touched.
     */
    method HandleSubmit(currentYear: int)
      requires Valid()
      modifies this
      ensures Valid()
      ensures draft == old(draft)
      ensures errors == ErrorsOf(draft, currentYear)
      ensures showSuccessPopup == if errors == map[] then true else old(showSuccessPopup)
      ensures errors == map[] <==> Acceptable(draft, currentYear)
    {
      var ok := Validate(currentYear);
      if ok {
        showSuccessPopup := true;
      }
    }

    /** The timer callback that follows a successful submit: hide the popup. */
    method DismissPopup()
      requires Valid()
      modifies this
      ensures Valid()
      ensures !showSuccessPopup
      ensures draft == old(draft) && errors == old(errors)
    {
      showSuccessPopup := false;
    }
  }
}
