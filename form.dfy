/**
 * The listing form's data: the draft record, the catalog of car options,
 * the error map that validation produces, and the dependent-selection
 * resets that the form's two effects perform after a field changes.
 */
module Form {

  import opened Wrappers
  import opened Validators

  /** The keys of the draft record, which are also the keys of the error map. */
  datatype Field =
    | Category | Brand | Model | Variant | Year | Fuel | Transmission | KmDriven | Owners
    | Title | Description | Price | Images | Country | Region | City | Name | Phone | ProfileImage

  /** Every field except the image slots holds a single string. */
  predicate IsScalar(f: Field) {
    f != Images
  }

  const ImageSlots: nat := 20

  datatype Draft = Draft(
    category: string,
    brand: string,
    model: string,
    variant: string,
    year: string,
    fuel: string,
    transmission: string,
    kmDriven: string,
    owners: string,
    title: string,
    description: string,
    price: string,
    images: seq<string>,
    country: string,
    region: string,
    city: string,
    name: string,
    phone: string,
    profileImage: string)
  {
    /** The value of a scalar field. */
    function Get(f: Field): string
      requires IsScalar(f)
    {
      match f
      case Category => category
      case Brand => brand
      case Model => model
      case Variant => variant
      case Year => year
      case Fuel => fuel
      case Transmission => transmission
      case KmDriven => kmDriven
      case Owners => owners
      case Title => title
      case Description => description
      case Price => price
      case Country => country
      case Region => region
      case City => city
      case Name => name
      case Phone => phone
      case ProfileImage => profileImage
    }

    /** The record with one scalar field replaced (`{...prev, [field]: value}`). */
    function With(f: Field, v: string): (d: Draft)
      requires IsScalar(f)
      ensures d.Get(f) == v
      ensures forall g :: IsScalar(g) && g != f ==> d.Get(g) == Get(g)
      ensures d.images == images
    {
      match f
      case Category => this.(category := v)
      case Brand => this.(brand := v)
      case Model => this.(model := v)
      case Variant => this.(variant := v)
      case Year => this.(year := v)
      case Fuel => this.(fuel := v)
      case Transmission => this.(transmission := v)
      case KmDriven => this.(kmDriven := v)
      case Owners => this.(owners := v)
      case Title => this.(title := v)
      case Description => this.(description := v)
      case Price => this.(price := v)
      case Country => this.(country := v)
      case Region => this.(region := v)
      case City => this.(city := v)
      case Name => this.(name := v)
      case Phone => this.(phone := v)
      case ProfileImage => this.(profileImage := v)
    }
  }

  /** The state the form starts in. */
  function InitialDraft(): (d: Draft)
    ensures |d.images| == ImageSlots
  {
    Draft(
      category := "Cars", brand := "", model := "", variant := "", year := "",
      fuel := "", transmission := "", kmDriven := "", owners := "", title := "",
      description := "", price := "", images := seq(ImageSlots, _ => ""),
      country := "India", region := "Andaman & Nicobar Islands", city := "",
      name := "OLX User", phone := "", profileImage := "")
  }

  // The catalog of car options. It only fills the dependent dropdowns;
  // validation never consults it.

  const Brands: seq<string> := ["Toyota", "Honda", "Ford", "Hyundai", "Maruti Suzuki"]

  const Models: map<string, seq<string>> := map[
    "Toyota" := ["Innova", "Fortuner", "Camry"],
    "Honda" := ["City", "Civic", "Amaze"],
    "Ford" := ["EcoSport", "Endeavour", "Figo"],
    "Hyundai" := ["Creta", "i20", "Venue"],
    "Maruti Suzuki" := ["Swift", "Baleno", "Dzire"]]

  const Variants: map<string, seq<string>> := map[
    "Innova" := ["G", "GX", "VX", "ZX"],
    "Fortuner" := ["4x2", "4x4", "Legender"],
    "Camry" := ["Hybrid"],
    "City" := ["V", "VX", "ZX"],
    "Civic" := ["V", "VX", "ZX"],
    "Amaze" := ["E", "S", "V", "VX"],
    "EcoSport" := ["Ambiente", "Trend", "Titanium"],
    "Endeavour" := ["Titanium", "Titanium+"],
    "Figo" := ["Ambiente", "Titanium"],
    "Creta" := ["E", "S", "SX", "SX(O)"],
    "i20" := ["Magna", "Sportz", "Asta"],
    "Venue" := ["E", "S", "SX", "SX(O)"],
    "Swift" := ["LXi", "VXi", "ZXi", "ZXi+"],
    "Baleno" := ["Sigma", "Delta", "Zeta", "Alpha"],
    "Dzire" := ["LXi", "VXi", "ZXi", "ZXi+"]]

  /** The selection is one the dropdowns offer for the chosen brand and model. */
  predicate InCatalog(d: Draft) {
    && d.brand in Brands
    && d.brand in Models && d.model in Models[d.brand]
    && d.model in Variants && d.variant in Variants[d.model]
  }

  // Validation.

  /** The fields that validation looks at; the others never receive an error. */
  const ValidatedFields: set<Field> :=
    {Brand, Model, Variant, Year, Fuel, Transmission, KmDriven, Owners, Title, Description, Price, Images, City, Phone}

  // The messages `validate` writes into the error map. The map holds which
  // message a field failed with; `Text` gives its exact wording.

  datatype Message =
    | BrandRequired | ModelRequired | VariantRequired
    | YearRequired | YearInvalid
    | FuelRequired | TransmissionRequired
    | KmDrivenRequired | KmDrivenInvalid
    | OwnersRequired | TitleRequired | DescriptionRequired
    | PriceRequired | PriceInvalid
    | ImagesRequired | CityRequired
    | PhoneRequired | PhoneInvalid
  {
    /** The wording shown beside the field. */
    function Text(): string {
      match this
      case BrandRequired => "Brand is required"
      case ModelRequired => "Model is required"
      case VariantRequired => "Variant is required"
      case YearRequired => "Year is required"
      case YearInvalid => "Please enter a valid year"
      case FuelRequired => "Fuel type is required"
      case TransmissionRequired => "Transmission is required"
      case KmDrivenRequired => "KM driven is required"
      case KmDrivenInvalid => "Please enter a valid kilometer reading (0-999999)"
      case OwnersRequired => "Number of owners is required"
      case TitleRequired => "Title is required"
      case DescriptionRequired => "Description is required"
      case PriceRequired => "Price is required"
      case PriceInvalid => "Please enter a valid price"
      case ImagesRequired => "At least one image is required"
      case CityRequired => "City is required"
      case PhoneRequired => "Phone number is required"
      case PhoneInvalid => "Please enter a valid Indian phone number (+91XXXXXXXXXX)"
    }
  }

  /** The message for a validated field that is empty. */
  function RequiredMessage(f: Field): Message
    requires f in ValidatedFields
  {
    match f
    case Brand => BrandRequired
    case Model => ModelRequired
    case Variant => VariantRequired
    case Year => YearRequired
    case Fuel => FuelRequired
    case Transmission => TransmissionRequired
    case KmDriven => KmDrivenRequired
    case Owners => OwnersRequired
    case Title => TitleRequired
    case Description => DescriptionRequired
    case Price => PriceRequired
    case Images => ImagesRequired
    case City => CityRequired
    case Phone => PhoneRequired
  }

  /** The fields with a format rule besides being required. */
  predicate HasFormatRule(f: Field) {
    f == Year || f == KmDriven || f == Price || f == Phone
  }

  /** The message for a non-empty field that breaks its format rule. */
  function FormatMessage(f: Field): Message
    requires HasFormatRule(f)
  {
    match f
    case Year => YearInvalid
    case KmDriven => KmDrivenInvalid
    case Price => PriceInvalid
    case Phone => PhoneInvalid
  }

  /**
   * The outcome of the four format checks in `validate`. Keeping them in a
   * record lets the lemmas below reason about the error map without
   * unfolding the validators.
   */
  datatype Verdicts = Verdicts(yearOk: bool, kmDrivenOk: bool, priceOk: bool, phoneOk: bool)

  function VerdictsOf(d: Draft, currentYear: int): Verdicts {
    Verdicts(ValidateYear(d.year, currentYear), ValidateKmDriven(d.kmDriven), ValidPrice(d.price), ValidatePhone(d.phone))
  }

  /** The verdict of a field's format rule; fields without one always pass it. */
  predicate FormatOk(f: Field, v: Verdicts) {
    match f
    case Year => v.yearOk
    case KmDriven => v.kmDrivenOk
    case Price => v.priceOk
    case Phone => v.phoneOk
    case _ => true
  }

  /** `!formData.images[0]`: the cover slot is missing or empty. */
  predicate NoCoverImage(d: Draft) {
    |d.images| == 0 || d.images[0] == ""
  }

  /** A "required" check: its message when the value is missing. */
  function Required(missing: bool, message: Message): Option<Message> {
    if missing then Some(message) else None
  }

  /** A "required" check, then the format check on a value that is present. */
  function Checked(missing: bool, required: Message, ok: bool, invalid: Message): Option<Message> {
    if missing then Some(required) else if !ok then Some(invalid) else None
  }

  /** The error a single field receives in `validate`, if any. */
  function FieldError(d: Draft, f: Field, v: Verdicts): Option<Message> {
    match f
    case Brand => Required(d.brand == "", BrandRequired)
    case Model => Required(d.model == "", ModelRequired)
    case Variant => Required(d.variant == "", VariantRequired)
    case Year => Checked(d.year == "", YearRequired, v.yearOk, YearInvalid)
    case Fuel => Required(d.fuel == "", FuelRequired)
    case Transmission => Required(d.transmission == "", TransmissionRequired)
    case KmDriven =>
      Checked(d.kmDriven == "", KmDrivenRequired, v.kmDrivenOk, KmDrivenInvalid)
    case Owners => Required(d.owners == "", OwnersRequired)
    case Title => Required(d.title == "", TitleRequired)
    case Description => Required(d.description == "", DescriptionRequired)
    case Price => Checked(d.price == "", PriceRequired, v.priceOk, PriceInvalid)
    case Images => Required(NoCoverImage(d), ImagesRequired)
    case City => Required(d.city == "", CityRequired)
    case Phone =>
      Checked(d.phone == "", PhoneRequired, v.phoneOk, PhoneInvalid)
    case Category | Country | Region | Name | ProfileImage => None
  }

  /** The error map for a draft, given the verdicts of its format checks. */
  function ErrorsWith(d: Draft, v: Verdicts): (e: map<Field, Message>)
    ensures e.Keys <= ValidatedFields
    ensures Category !in e && Country !in e && Region !in e && Name !in e && ProfileImage !in e
  {
    map f | f in ValidatedFields && FieldError(d, f, v).Some? :: FieldError(d, f, v).value
  }

  /** Record one check's outcome: its message, if it has one. */
  function Put(m: map<Field, Message>, f: Field, e: Option<Message>): map<Field, Message> {
    if e.Some? then m[f := e.value] else m
  }

  /** A field's position in the order `validate` checks the fields; the unvalidated fields come after all of them. */
  function Rank(f: Field): (n: nat)
    ensures n < 14 <==> f in ValidatedFields
  {
    match f
    case Brand => 0
    case Model => 1
    case Variant => 2
    case Year => 3
    case Fuel => 4
    case Transmission => 5
    case KmDriven => 6
    case Owners => 7
    case Title => 8
    case Description => 9
    case Price => 10
    case Images => 11
    case City => 12
    case Phone => 13
    case _ => 14
  }

  /** `m` holds exactly the entries that the first `k` checks of `validate` produce. */
  ghost predicate Agrees(m: map<Field, Message>, d: Draft, v: Verdicts, k: nat) {
    forall f {:trigger f in m} ::
      && (f in m <==> Rank(f) < k && FieldError(d, f, v).Some?)
      && (f in m ==> m[f] == FieldError(d, f, v).value)
  }

  /** Before any check the empty map agrees. */
  lemma AgreesStart(d: Draft, v: Verdicts)
    ensures Agrees(map[], d, v, 0)
  {
  }

  /** Check number `k` records its field's error, if any, and keeps the map in agreement. */
  lemma AgreesStep(m: map<Field, Message>, d: Draft, v: Verdicts, k: nat, f: Field)
    requires Agrees(m, d, v, k) && Rank(f) == k
    ensures Agrees(Put(m, f, FieldError(d, f, v)), d, v, k + 1)
  {
  }

  /** After all fourteen checks the map is the error map. */
  lemma AgreesAll(m: map<Field, Message>, d: Draft, v: Verdicts)
    requires Agrees(m, d, v, 14)
    ensures m == ErrorsWith(d, v)
  {
  }

  /** The error map `validate` builds: one entry per failing field, at most one message each. */
  function ErrorsOf(d: Draft, currentYear: int): (e: map<Field, Message>)
    ensures e.Keys <= ValidatedFields
    ensures Category !in e && Country !in e && Region !in e && Name !in e && ProfileImage !in e
  {
    ErrorsWith(d, VerdictsOf(d, currentYear))
  }

  /** A draft that passes validation, stated field by field. */
  predicate Acceptable(d: Draft, currentYear: int) {
    && d.brand != "" && d.model != "" && d.variant != ""
    && d.year != "" && ValidateYear(d.year, currentYear)
    && d.fuel != "" && d.transmission != ""
    && d.kmDriven != "" && ValidateKmDriven(d.kmDriven)
    && d.owners != "" && d.title != "" && d.description != ""
    && d.price != "" && ValidPrice(d.price)
    && |d.images| > 0 && d.images[0] != ""
    && d.city != ""
    && d.phone != "" && ValidatePhone(d.phone)
  }

  /** Acceptable, with the format checks replaced by their verdicts. */
  predicate MeetsAll(d: Draft, v: Verdicts) {
    && d.brand != "" && d.model != "" && d.variant != ""
    && d.year != "" && v.yearOk
    && d.fuel != "" && d.transmission != ""
    && d.kmDriven != "" && v.kmDrivenOk
    && d.owners != "" && d.title != "" && d.description != ""
    && d.price != "" && v.priceOk
    && |d.images| > 0 && d.images[0] != ""
    && d.city != ""
    && d.phone != "" && v.phoneOk
  }

  /** The messages a field can carry in the error map. */
  predicate IsMessageFor(f: Field, m: Message) {
    f in ValidatedFields && (m == RequiredMessage(f) || (HasFormatRule(f) && m == FormatMessage(f)))
  }

  /** Whether a validated field counts as empty: its text, or the cover slot for the images. */
  predicate IsBlank(d: Draft, f: Field) {
    if f == Images then NoCoverImage(d) else d.Get(f) == ""
  }

  /** Every validated field follows one rule: "required" when blank, the format message when its check fails. */
  lemma FieldErrorRule(d: Draft, f: Field, v: Verdicts)
    requires f in ValidatedFields
    ensures FieldError(d, f, v) ==
      if IsBlank(d, f) then Some(RequiredMessage(f))
      else if !FormatOk(f, v) then Some(FormatMessage(f))
      else None
  {
    match f {
      case Brand =>
      case Model =>
      case Variant =>
      case Year =>
      case Fuel =>
      case Transmission =>
      case KmDriven =>
      case Owners =>
      case Title =>
      case Description =>
      case Price =>
      case Images =>
      case City =>
      case Phone =>
    }
  }

  /**
   * For each validated field: the "required" message exactly when it is blank,
   * the format message exactly when it is non-blank and fails its check,
   * and no entry otherwise.
   */
  lemma FieldMessages(d: Draft, f: Field, v: Verdicts)
    requires f in ValidatedFields
    ensures var e := ErrorsWith(d, v);
      && (f in e && e[f] == RequiredMessage(f) <==> IsBlank(d, f))
      && (f in e && e[f] != RequiredMessage(f) <==> !IsBlank(d, f) && !FormatOk(f, v))
      && (f in e ==> IsMessageFor(f, e[f]))
  {
    FieldErrorRule(d, f, v);
  }

  /** Every entry of the error map is a message its field can carry. */
  lemma ErrorsWellFormed(d: Draft, v: Verdicts)
    ensures forall f :: f in ErrorsWith(d, v) ==> IsMessageFor(f, ErrorsWith(d, v)[f])
  {
    forall f | f in ErrorsWith(d, v) ensures IsMessageFor(f, ErrorsWith(d, v)[f]) {
      FieldMessages(d, f, v);
    }
  }

  /** On the initial draft exactly the fourteen validated fields fail, each with its "required" message. */
  lemma InitialDraftErrors(currentYear: int)
    ensures ErrorsOf(InitialDraft(), currentYear).Keys == ValidatedFields
    ensures forall f :: f in ValidatedFields ==> ErrorsOf(InitialDraft(), currentYear)[f] == RequiredMessage(f)
    ensures ErrorsOf(InitialDraft(), currentYear) != map[]
  {
    var d := InitialDraft();
    var v := VerdictsOf(d, currentYear);
    assert d.images[0] == "";
    forall f | f in ValidatedFields
      ensures f in ErrorsWith(d, v) && ErrorsWith(d, v)[f] == RequiredMessage(f)
    {
      assert IsBlank(d, f);
      FieldErrorRule(d, f, v);
      ErrorsAt(d, v, f);
    }
    assert Brand in ErrorsOf(d, currentYear);
  }

  /** The error map is empty iff no validated field has an error. */
  lemma ErrorsEmptyIffNoFieldError(d: Draft, v: Verdicts)
    ensures ErrorsWith(d, v) == map[] <==> forall f :: f in ValidatedFields ==> FieldError(d, f, v).None?
  {
    var e := ErrorsWith(d, v);
    if forall f :: f in ValidatedFields ==> FieldError(d, f, v).None? {
      assert e.Keys == {};
    } else {
      var f :| f in ValidatedFields && FieldError(d, f, v).Some?;
      assert f in e;
    }
  }

  /** A draft that meets every rule has no field error. */
  lemma MeetsAllNoFieldError(d: Draft, v: Verdicts)
    requires MeetsAll(d, v)
    ensures forall f :: f in ValidatedFields ==> FieldError(d, f, v).None?
  {
    forall f | f in ValidatedFields ensures FieldError(d, f, v).None? {
      FieldErrorRule(d, f, v);
    }
  }

  /** A draft with no field error meets every rule. */
  lemma NoFieldErrorMeetsAll(d: Draft, v: Verdicts)
    requires forall f :: f in ValidatedFields ==> FieldError(d, f, v).None?
    ensures MeetsAll(d, v)
  {
    assert FieldError(d, Brand, v).None? && FieldError(d, Model, v).None?;
    assert FieldError(d, Variant, v).None? && FieldError(d, Year, v).None?;
    assert FieldError(d, Fuel, v).None? && FieldError(d, Transmission, v).None?;
    assert FieldError(d, KmDriven, v).None?;
    assert FieldError(d, Owners, v).None? && FieldError(d, Title, v).None?;
    assert FieldError(d, Description, v).None? && FieldError(d, Price, v).None?;
    assert FieldError(d, Images, v).None?;
    assert FieldError(d, City, v).None? && FieldError(d, Phone, v).None?;
  }

  /** Validation passes, i.e. the error map is empty, iff every rule holds. */
  lemma ErrorsEmptyIff(d: Draft, currentYear: int)
    ensures ErrorsOf(d, currentYear) == map[] <==> Acceptable(d, currentYear)
  {
    var v := VerdictsOf(d, currentYear);
    ErrorsEmptyIffNoFieldError(d, v);
    if MeetsAll(d, v) {
      MeetsAllNoFieldError(d, v);
    }
    if forall f :: f in ValidatedFields ==> FieldError(d, f, v).None? {
      NoFieldErrorMeetsAll(d, v);
    }
    assert MeetsAll(d, v) == Acceptable(d, currentYear);
  }

  /** A field's format verdict reads that field alone. */
  lemma FormatOkLocal(d: Draft, d': Draft, g: Field, currentYear: int)
    requires HasFormatRule(g) ==> d'.Get(g) == d.Get(g)
    ensures FormatOk(g, VerdictsOf(d', currentYear)) == FormatOk(g, VerdictsOf(d, currentYear))
  { }

  /** Two drafts that agree on a field's blankness and format verdict give it the same outcome. */
  lemma FieldErrorSame(d: Draft, d': Draft, g: Field, v: Verdicts, v': Verdicts)
    requires g in ValidatedFields
    requires IsBlank(d', g) == IsBlank(d, g) && FormatOk(g, v') == FormatOk(g, v)
    ensures FieldError(d', g, v') == FieldError(d, g, v)
  {
    FieldErrorRule(d, g, v);
    FieldErrorRule(d', g, v');
  }

  /** Looking one field up in the error map: its entry is its check's message, if any. */
  lemma ErrorsAt(d: Draft, v: Verdicts, g: Field)
    ensures g in ErrorsWith(d, v) <==> g in ValidatedFields && FieldError(d, g, v).Some?
    ensures g in ErrorsWith(d, v) ==> ErrorsWith(d, v)[g] == FieldError(d, g, v).value
  { }

  /** Editing one scalar field changes no error entry but that field's own. */
  lemma ErrorsLocal(d: Draft, f: Field, value: string, g: Field, currentYear: int)
    requires IsScalar(f) && g != f
    ensures var e, e' := ErrorsOf(d, currentYear), ErrorsOf(d.With(f, value), currentYear);
      (g in e' <==> g in e) && (g in e ==> e'[g] == e[g])
  {
    var d' := d.With(f, value);
    var v, v' := VerdictsOf(d, currentYear), VerdictsOf(d', currentYear);
    ErrorsAt(d, v, g);
    ErrorsAt(d', v', g);
    if g in ValidatedFields {
      assert IsScalar(g) ==> d'.Get(g) == d.Get(g);
      assert IsBlank(d', g) == IsBlank(d, g);
      FormatOkLocal(d, d', g, currentYear);
      FieldErrorSame(d, d', g, v, v');
    }
  }

  /** The fields validation ignores cannot change the error map, whatever they hold. */
  lemma UnvalidatedFieldsIgnored(d: Draft, f: Field, value: string, currentYear: int)
    requires f !in ValidatedFields
    ensures ErrorsOf(d.With(f, value), currentYear) == ErrorsOf(d, currentYear)
  {
    forall g | g in ValidatedFields
      ensures var e, e' := ErrorsOf(d, currentYear), ErrorsOf(d.With(f, value), currentYear);
        (g in e' <==> g in e) && (g in e ==> e'[g] == e[g])
    {
      ErrorsLocal(d, f, value, g, currentYear);
    }
  }

  lemma CivicIsNotToyota()
    ensures "Toyota" in Models && "Civic" !in Models["Toyota"]
  {
  }

  /** Validation does not consult the catalog: a Honda model under a Toyota brand passes. */
  lemma CatalogNotEnforced(image: string, currentYear: int)
    requires image != "" && currentYear >= MinYear
    ensures var d := InitialDraft().(brand := "Toyota", model := "Civic", variant := "ZX",
                                     year := "1900", fuel := "petrol", transmission := "manual",
                                     kmDriven := "0", owners := "1st", title := "Car", description := "Good",
                                     price := "1", images := [image] + seq(ImageSlots - 1, _ => ""),
                                     city := "Port Blair", phone := "+919812345678");
      !InCatalog(d) && ErrorsOf(d, currentYear) == map[]
  {
    var d := InitialDraft().(brand := "Toyota", model := "Civic", variant := "ZX",
                             year := "1900", fuel := "petrol", transmission := "manual",
                             kmDriven := "0", owners := "1st", title := "Car", description := "Good",
                             price := "1", images := [image] + seq(ImageSlots - 1, _ => ""),
                             city := "Port Blair", phone := "+919812345678");
    CivicIsNotToyota();
    assert Acceptable(d, currentYear) by {
      YearLowerBound(currentYear);
      KmDrivenBounds();
      ShownSmall();
      ValidPriceShow("1", 1, "");
      PhoneExamples();
    }
    ErrorsEmptyIff(d, currentYear);
  }

  // The dependent-selection resets.

  /**
   * The two effects after a render that committed `committed`, where the
   * previous render had `prev`: a brand that changed to a non-empty value
   * clears model and variant; a model that changed to a non-empty value
   * clears variant. Both effects compare the committed draft with the previous one.
   */
  function Settle(prev: Draft, committed: Draft): Draft {
    var afterBrand :=
      if committed.brand != prev.brand && committed.brand != "" then committed.(model := "", variant := "")
      else committed;
    if committed.model != prev.model && committed.model != "" then afterBrand.(variant := "")
    else afterBrand
  }

  /** A user edit: the field is written, the form re-renders and the effects run. */
  function Edited(d: Draft, f: Field, v: string): Draft
    requires IsScalar(f)
  {
    Settle(d, d.With(f, v))
  }

  /** The edited field holds the new value afterwards. */
  lemma EditedSetsField(d: Draft, f: Field, v: string)
    requires IsScalar(f)
    ensures Edited(d, f, v).Get(f) == v
  {
  }

  /** An edit changes nothing but the field itself and, through the resets, model and variant. */
  lemma EditedFrame(d: Draft, f: Field, v: string, g: Field)
    requires IsScalar(f) && IsScalar(g)
    requires g != f && g != Model && g != Variant
    ensures Edited(d, f, v).Get(g) == d.Get(g)
    ensures Edited(d, f, v).images == d.images
  {
  }

  /** Editing a field other than brand and model has no cascade: only that field changes. */
  lemma EditedNoCascade(d: Draft, f: Field, v: string)
    requires IsScalar(f) && f != Brand && f != Model
    ensures Edited(d, f, v) == d.With(f, v)
  {
  }

  /** Changing the brand to a different non-empty value clears model and variant; otherwise both are kept. */
  lemma BrandCascade(d: Draft, v: string)
    ensures var e := Edited(d, Brand, v);
      e.brand == v &&
      if v != "" && v != d.brand then e.model == "" && e.variant == ""
      else e.model == d.model && e.variant == d.variant
  {
  }

  /** Changing the model to a different non-empty value clears the variant; otherwise it is kept. */
  lemma ModelCascade(d: Draft, v: string)
    ensures var e := Edited(d, Model, v);
      e.model == v && e.brand == d.brand &&
      e.variant == if v != "" && v != d.model then "" else d.variant
  {
  }

  /** The render after the resets triggers nothing more: the effects reach a fixed point in one round. */
  lemma SettleIsStable(prev: Draft, committed: Draft)
    ensures var s := Settle(prev, committed); Settle(committed, s) == s
  {
  }
}
