/** The single-form steps of the domain-request wizard: how a step's cleaned data is
    written to and read back from model instances, the rule that decides whether a
    contact is reused or replaced, the requested-domain step, the deletion marking of
    the two contact forms, and the pure field validators. */
module WizardForms {
  import opened Strings
  import opened Wrappers

  /** A cleaned form value or a model column value. */
  datatype Value = Text(text: string) | Flag(flag: bool) | Null

  /** A form's `cleaned_data`: field name to cleaned value. */
  type Cleaned = map<string, Value>

  /** Python truthiness of a value. */
  predicate Truthy(v: Value) {
    match v
    case Text(t) => t != ""
    case Flag(b) => b
    case Null => false
  }

  /** `cleaned.get(key, default)`. */
  function Get(c: Cleaned, key: string, default: Value): Value {
    if key in c then c[key] else default
  }

  /** The field `key`, when present, holds text (what a CharField or URLField cleans to). */
  predicate TextOrAbsent(c: Cleaned, key: string) {
    key in c ==> c[key].Text?
  }

  /** The result of `{"DELETE": True}`, what a contact form marked for deletion cleans to. */
  const DeleteOnly: Cleaned := map["DELETE" := Flag(true)]

  /** A saved model instance as the wizard reaches it through getattr and setattr: its
      columns, its foreign keys to other instances, the relation names through which it
      is joined to more than one row (what `has_more_than_one_join` answers), and the
      number of times it has been saved. */
  class Model {
    var columns: map<string, Value>
    var refs: map<string, Model>
    var sharedVia: set<string>
    var saves: nat

    constructor(columns: map<string, Value>)
      ensures this.columns == columns && refs == map[] && sharedVia == {} && saves == 0
    {
      this.columns := columns;
      refs := map[];
      sharedVia := {};
      saves := 0;
    }
  }

  /** `RegistrarForm.to_database`: when the form is valid, set every cleaned field on
      `obj` and save it once; otherwise do nothing. */
  method FormToDatabase(valid: bool, cleaned: Cleaned, obj: Model)
    modifies obj
    ensures !valid ==> unchanged(obj)
    ensures valid ==> obj.columns == old(obj.columns) + cleaned && obj.saves == old(obj.saves) + 1
    ensures obj.refs == old(obj.refs) && obj.sharedVia == old(obj.sharedVia)
  {
    if !valid {
      return;
    }
    var pending := cleaned.Keys;
    while pending != {}
      invariant pending <= cleaned.Keys
      invariant obj.columns == old(obj.columns) + (map k | k in cleaned.Keys - pending :: cleaned[k])
      invariant obj.refs == old(obj.refs) && obj.sharedVia == old(obj.sharedVia) && obj.saves == old(obj.saves)
      decreases pending
    {
      var name :| name in pending;
      obj.columns := obj.columns[name := cleaned[name]];
      pending := pending - {name};
    }
    assert cleaned.Keys - pending == cleaned.Keys;
    assert (map k | k in cleaned.Keys :: cleaned[k]) == cleaned;
    obj.saves := obj.saves + 1;
  }

  /** The values of the `declared` fields read from a row's columns. */
  function ReadFields(columns: map<string, Value>, declared: set<string>): Cleaned
    requires declared <= columns.Keys
  {
    map k | k in declared :: columns[k]
  }

  /** `RegistrarForm.from_database`: the declared fields read from `obj`, or nothing
      when there is no object. */
  function FormFromDatabase(obj: Model?, declared: set<string>): (r: Cleaned)
    reads obj
    requires obj != null ==> declared <= obj.columns.Keys
    ensures obj == null ==> r == map[]
    ensures obj != null ==> r.Keys == declared
    ensures obj != null ==> forall k :: k in declared ==> r[k] == obj.columns[k]
  {
    if obj == null then map[] else ReadFields(obj.columns, declared)
  }

  /** Writing a step's cleaned data and reading the same fields back returns that data,
      whatever the row held before. */
  lemma ReadBackAfterWrite(columns: map<string, Value>, cleaned: Cleaned)
    ensures cleaned.Keys <= (columns + cleaned).Keys
    ensures ReadFields(columns + cleaned, cleaned.Keys) == cleaned
  {
  }

  /** The contact reached through `attr` exists and is joined to nothing but this
      request through `relation`, so it may be edited in place. */
  predicate Reusable(refs: map<string, Model>, attr: string, relation: string)
    reads if attr in refs then {refs[attr]} else {}
  {
    attr in refs && relation !in refs[attr].sharedVia
  }

  /** The `to_database` of the authorizing-official and your-contact steps: an existing
      contact joined to nothing else is updated in place; otherwise a new contact is
      created from the cleaned data and the request is pointed at it, leaving any
      previous contact as it was. */
  method ContactToDatabase(valid: bool, cleaned: Cleaned, obj: Model, attr: string, relation: string)
    requires obj !in obj.refs.Values
    modifies obj, obj.refs.Values
    ensures !valid ==> unchanged(obj) && unchanged(old(obj.refs.Values))
    ensures valid ==> attr in obj.refs && obj.refs.Keys == old(obj.refs.Keys) + {attr}
    ensures valid && old(Reusable(obj.refs, attr, relation)) ==>
      && obj.refs == old(obj.refs)
      && obj.refs[attr].columns == old(obj.refs[attr].columns) + cleaned
      && obj.refs[attr].saves == old(obj.refs[attr].saves) + 1
      && obj.refs[attr].refs == old(obj.refs[attr].refs)
      && obj.refs[attr].sharedVia == old(obj.refs[attr].sharedVia)
      && obj.saves == old(obj.saves)
      && unchanged(old(obj.refs.Values) - {obj.refs[attr]})
    ensures valid && !old(Reusable(obj.refs, attr, relation)) ==>
      && fresh(obj.refs[attr])
      && obj.refs[attr].columns == cleaned
      && obj.refs[attr].saves == 1
      && obj.refs[attr].refs == map[]
      && obj.refs[attr].sharedVia == {}
      && obj.refs == old(obj.refs)[attr := obj.refs[attr]]
      && obj.saves == old(obj.saves) + 1
      && unchanged(old(obj.refs.Values))
    ensures obj.columns == old(obj.columns) && obj.sharedVia == old(obj.sharedVia)
  {
    if !valid {
      return;
    }
    if attr in obj.refs && relation !in obj.refs[attr].sharedVia {
      FormToDatabase(true, cleaned, obj.refs[attr]);
    } else {
      var contact := new Model(map[]);
      FormToDatabase(true, cleaned, contact);
      obj.refs := obj.refs[attr := contact];
      obj.saves := obj.saves + 1;
    }
  }

  /** `AuthorizingOfficialForm.to_database`. */
  method AuthorizingOfficialToDatabase(valid: bool, cleaned: Cleaned, obj: Model)
    requires obj !in obj.refs.Values
    modifies obj, obj.refs.Values
    ensures !valid ==> unchanged(obj) && unchanged(old(obj.refs.Values))
    ensures valid ==> "authorizing_official" in obj.refs && obj.refs.Keys == old(obj.refs.Keys) + {"authorizing_official"}
    ensures valid && old(Reusable(obj.refs, "authorizing_official", "authorizing_official")) ==>
      && obj.refs == old(obj.refs)
      && obj.refs["authorizing_official"].columns == old(obj.refs["authorizing_official"].columns) + cleaned
      && obj.refs["authorizing_official"].saves == old(obj.refs["authorizing_official"].saves) + 1
      && obj.refs["authorizing_official"].refs == old(obj.refs["authorizing_official"].refs)
      && obj.refs["authorizing_official"].sharedVia == old(obj.refs["authorizing_official"].sharedVia)
      && obj.saves == old(obj.saves)
      && unchanged(old(obj.refs.Values) - {obj.refs["authorizing_official"]})
    ensures valid && !old(Reusable(obj.refs, "authorizing_official", "authorizing_official")) ==>
      && fresh(obj.refs["authorizing_official"])
      && obj.refs["authorizing_official"].columns == cleaned
      && obj.refs["authorizing_official"].saves == 1
      && obj.refs["authorizing_official"].refs == map[]
      && obj.refs["authorizing_official"].sharedVia == {}
      && obj.refs == old(obj.refs)["authorizing_official" := obj.refs["authorizing_official"]]
      && obj.saves == old(obj.saves) + 1
      && unchanged(old(obj.refs.Values))
    ensures obj.columns == old(obj.columns) && obj.sharedVia == old(obj.sharedVia)
  {
    ContactToDatabase(valid, cleaned, obj, "authorizing_official", "authorizing_official");
  }

  /** `YourContactForm.to_database`: the submitter, whose other joins are counted
      through `submitted_applications`. */
  method YourContactToDatabase(valid: bool, cleaned: Cleaned, obj: Model)
    requires obj !in obj.refs.Values
    modifies obj, obj.refs.Values
    ensures !valid ==> unchanged(obj) && unchanged(old(obj.refs.Values))
    ensures valid ==> "submitter" in obj.refs && obj.refs.Keys == old(obj.refs.Keys) + {"submitter"}
    ensures valid && old(Reusable(obj.refs, "submitter", "submitted_applications")) ==>
      && obj.refs == old(obj.refs)
      && obj.refs["submitter"].columns == old(obj.refs["submitter"].columns) + cleaned
      && obj.refs["submitter"].saves == old(obj.refs["submitter"].saves) + 1
      && obj.refs["submitter"].refs == old(obj.refs["submitter"].refs)
      && obj.refs["submitter"].sharedVia == old(obj.refs["submitter"].sharedVia)
      && obj.saves == old(obj.saves)
      && unchanged(old(obj.refs.Values) - {obj.refs["submitter"]})
    ensures valid && !old(Reusable(obj.refs, "submitter", "submitted_applications")) ==>
      && fresh(obj.refs["submitter"])
      && obj.refs["submitter"].columns == cleaned
      && obj.refs["submitter"].saves == 1
      && obj.refs["submitter"].refs == map[]
      && obj.refs["submitter"].sharedVia == {}
      && obj.refs == old(obj.refs)["submitter" := obj.refs["submitter"]]
      && obj.saves == old(obj.saves) + 1
      && unchanged(old(obj.refs.Values))
    ensures obj.columns == old(obj.columns) && obj.sharedVia == old(obj.sharedVia)
  {
    ContactToDatabase(valid, cleaned, obj, "submitter", "submitted_applications");
  }

  /** The name under which an entered second-level label is stored. */
  function DotGov(entered: string): (name: string)
    ensures |name| == |entered| + 4 && name[..|entered|] == entered && name[|entered|..] == ".gov"
  {
    entered + ".gov"
  }

  /** `DotGovDomainForm.to_database`: when a domain was entered, rename the request's
      existing draft domain to `<entered>.gov`, or create one draft with that name and
      link it; save the request in every valid case. */
  method DotGovToDatabase(valid: bool, cleaned: Cleaned, obj: Model)
    requires TextOrAbsent(cleaned, "requested_domain")
    requires obj !in obj.refs.Values
    modifies obj, obj.refs.Values
    ensures !valid ==> unchanged(obj) && unchanged(old(obj.refs.Values))
    ensures valid ==> obj.columns == old(obj.columns) && obj.sharedVia == old(obj.sharedVia)
    ensures valid && Truthy(Get(cleaned, "requested_domain", Null)) && "requested_domain" in old(obj.refs) ==>
      && obj.refs == old(obj.refs)
      && obj.refs["requested_domain"].columns ==
           old(obj.refs["requested_domain"].columns)["name" := Text(DotGov(cleaned["requested_domain"].text))]
      && obj.refs["requested_domain"].saves == old(obj.refs["requested_domain"].saves) + 1
      && obj.refs["requested_domain"].refs == old(obj.refs["requested_domain"].refs)
      && obj.refs["requested_domain"].sharedVia == old(obj.refs["requested_domain"].sharedVia)
      && obj.saves == old(obj.saves) + 1
      && unchanged(old(obj.refs.Values) - {obj.refs["requested_domain"]})
    ensures valid && Truthy(Get(cleaned, "requested_domain", Null)) && "requested_domain" !in old(obj.refs) ==>
      && "requested_domain" in obj.refs
      && fresh(obj.refs["requested_domain"])
      && obj.refs["requested_domain"].columns == map["name" := Text(DotGov(cleaned["requested_domain"].text))]
      && obj.refs["requested_domain"].saves == 1
      && obj.refs["requested_domain"].refs == map[]
      && obj.refs == old(obj.refs)["requested_domain" := obj.refs["requested_domain"]]
      && obj.saves == old(obj.saves) + 2
      && unchanged(old(obj.refs.Values))
    ensures valid && !Truthy(Get(cleaned, "requested_domain", Null)) ==>
      obj.refs == old(obj.refs) && obj.saves == old(obj.saves) + 1 && unchanged(old(obj.refs.Values))
  {
    if !valid {
      return;
    }
    var domain := Get(cleaned, "requested_domain", Null);
    if Truthy(domain) {
      var name := DotGov(domain.text);
      if "requested_domain" in obj.refs {
        var draft := obj.refs["requested_domain"];
        draft.columns := draft.columns["name" := Text(name)];
        draft.saves := draft.saves + 1;
      } else {
        var draft := new Model(map["name" := Text(name)]);
        draft.saves := 1;
        obj.refs := obj.refs["requested_domain" := draft];
        obj.saves := obj.saves + 1;
      }
    }
    obj.saves := obj.saves + 1;
  }

  /** `DotGovDomainForm.from_database`: the second-level label of the draft's name, as
      computed by the registry helper `sld`, when the request has a draft domain. */
  function DotGovFromDatabase(draftName: Option<string>, sld: string -> string): (r: Cleaned)
    ensures draftName.None? <==> r == map[]
    ensures draftName.Some? ==> r == map["requested_domain" := Text(sld(draftName.value))]
  {
    if draftName.None? then map[]
    else
      var r := map["requested_domain" := Text(sld(draftName.value))];
      assert "requested_domain" in r;
      r
  }

  /** Reading back the name `DotGovToDatabase` stores gives the step its entered label
      again, given that `sld` removes the `.gov` suffix `DotGov` adds. */
  lemma DotGovRoundTrip(cleaned: Cleaned, sld: string -> string)
    requires cleaned.Keys == {"requested_domain"} && cleaned["requested_domain"].Text?
    requires forall s :: sld(DotGov(s)) == s
    ensures DotGovFromDatabase(Some(DotGov(cleaned["requested_domain"].text)), sld) == cleaned
  {
    var e := cleaned["requested_domain"];
    assert sld(DotGov(e.text)) == e.text;
    assert cleaned == map["requested_domain" := e];
  }

  /** The errors left once those keyed by one of `fields` are dropped. */
  function WithoutFieldErrors(errors: map<string, seq<string>>, fields: seq<string>): (r: map<string, seq<string>>)
    ensures r.Keys == errors.Keys - set f | f in fields
    ensures forall k :: k in r ==> r[k] == errors[k]
  {
    map k | k in errors && k !in fields :: errors[k]
  }

  /** What `for field in self.fields: if field in self.errors: del self.errors[field]`
      leaves: every error keyed by a field name is gone; form-wide errors stay. */
  method DiscardFieldErrors(errors: map<string, seq<string>>, fields: seq<string>)
    returns (remaining: map<string, seq<string>>)
    ensures remaining.Keys == errors.Keys - set f | f in fields
    ensures forall k :: k in remaining ==> remaining[k] == errors[k]
  {
    remaining := errors;
    var i := 0;
    while i < |fields|
      invariant 0 <= i <= |fields|
      invariant remaining.Keys == errors.Keys - set f | f in fields[..i]
      invariant forall k :: k in remaining ==> remaining[k] == errors[k]
    {
      if fields[i] in remaining {
        remaining := remaining - {fields[i]};
      }
      assert fields[..i + 1] == fields[..i] + [fields[i]];
      i := i + 1;
    }
    assert fields[..i] == fields;
  }

  /** An other-contacts form is treated as deleted when the formset marked it or the
      user ticked DELETE. */
  predicate DeletingContactForm(marked: bool, cleaned: Cleaned) {
    marked || Truthy(Get(cleaned, "DELETE", Flag(false)))
  }

  /** One "other contact" form of the wizard. */
  class OtherContactsForm {
    const fieldNames: seq<string>
    var markedForDeletion: bool
    var cleanedData: Cleaned
    var errors: map<string, seq<string>>

    constructor(fieldNames: seq<string>, cleanedData: Cleaned, errors: map<string, seq<string>>)
      ensures this.fieldNames == fieldNames && this.cleanedData == cleanedData && this.errors == errors
      ensures !markedForDeletion
    {
      this.fieldNames := fieldNames;
      this.cleanedData := cleanedData;
      this.errors := errors;
      markedForDeletion := false;
    }

    /** `mark_form_for_deletion`. */
    method MarkForDeletion()
      modifies this
      ensures markedForDeletion
      ensures cleanedData == old(cleanedData) && errors == old(errors)
    {
      markedForDeletion := true;
    }

    /** `clean`: a deleted form loses its field errors and cleans to exactly
        `{"DELETE": True}`; any other form keeps its errors and cleaned data. */
    method Clean() returns (r: Cleaned)
      modifies this
      ensures markedForDeletion == old(markedForDeletion) && cleanedData == old(cleanedData)
      ensures DeletingContactForm(markedForDeletion, cleanedData) ==>
        && r == DeleteOnly
        && errors.Keys == old(errors.Keys) - (set f | f in fieldNames)
        && forall k :: k in errors ==> k in old(errors) && errors[k] == old(errors)[k]
      ensures !DeletingContactForm(markedForDeletion, cleanedData) ==> r == cleanedData && errors == old(errors)
    {
      if markedForDeletion || Truthy(Get(cleanedData, "DELETE", Flag(false))) {
        errors := DiscardFieldErrors(errors, fieldNames);
        return DeleteOnly;
      }
      return cleanedData;
    }
  }

  /** The "no other employees" rationale form of the wizard. */
  class NoOtherContactsForm {
    const fieldNames: seq<string>
    var markedForDeletion: bool
    var cleanedData: Cleaned
    var errors: map<string, seq<string>>

    constructor(fieldNames: seq<string>, cleanedData: Cleaned, errors: map<string, seq<string>>)
      ensures this.fieldNames == fieldNames && this.cleanedData == cleanedData && this.errors == errors
      ensures !markedForDeletion
    {
      this.fieldNames := fieldNames;
      this.cleanedData := cleanedData;
      this.errors := errors;
      markedForDeletion := false;
    }

    /** `mark_form_for_deletion`. */
    method MarkForDeletion()
      modifies this
      ensures markedForDeletion
      ensures cleanedData == old(cleanedData) && errors == old(errors)
    {
      markedForDeletion := true;
    }

    /** `clean`: a marked form loses its field errors; the cleaned data is returned as is. */
    method Clean() returns (r: Cleaned)
      modifies this
      ensures r == cleanedData && cleanedData == old(cleanedData) && markedForDeletion == old(markedForDeletion)
      ensures markedForDeletion ==>
        errors.Keys == old(errors.Keys) - (set f | f in fieldNames) && forall k :: k in errors ==> k in old(errors) && errors[k] == old(errors)[k]
      ensures !markedForDeletion ==> errors == old(errors)
    {
      if markedForDeletion {
        errors := DiscardFieldErrors(errors, fieldNames);
      }
      return cleanedData;
    }

    /** `to_database`: a marked form sets every one of its fields on the request to
        None; an unmarked one copies its cleaned data; either way the request is saved
        once. An invalid form changes nothing. */
    method ToDatabase(valid: bool, obj: Model)
      modifies obj
      ensures !valid ==> unchanged(obj)
      ensures valid && markedForDeletion ==>
        obj.columns == old(obj.columns) + (map f | f in fieldNames :: Null)
      ensures valid && !markedForDeletion ==> obj.columns == old(obj.columns) + cleanedData
      ensures valid ==> obj.saves == old(obj.saves) + 1
      ensures obj.refs == old(obj.refs) && obj.sharedVia == old(obj.sharedVia)
    {
      if !valid {
        return;
      }
      if markedForDeletion {
        var i := 0;
        while i < |fieldNames|
          invariant 0 <= i <= |fieldNames|
          invariant obj.columns == old(obj.columns) + (map f | f in fieldNames[..i] :: Null)
          invariant obj.refs == old(obj.refs) && obj.sharedVia == old(obj.sharedVia) && obj.saves == old(obj.saves)
        {
          assert fieldNames[..i + 1] == fieldNames[..i] + [fieldNames[i]];
          obj.columns := obj.columns[fieldNames[i] := Null];
          i := i + 1;
        }
        assert fieldNames[..i] == fieldNames;
        obj.saves := obj.saves + 1;
      } else {
        FormToDatabase(true, cleanedData, obj);
      }
    }
  }

  /** Outcome of a form-wide `clean`. */
  datatype Check = Pass | Fail(code: string)

  /** `TribalGovernmentForm.clean`: a tribe must be federally or state recognized. */
  function TribalGovernmentClean(federallyRecognized: bool, stateRecognized: bool): (r: Check)
    ensures r.Pass? <==> federallyRecognized || stateRecognized
    ensures r.Fail? ==> r.code == "invalid"
  {
    if !(federallyRecognized || stateRecognized) then Fail("invalid") else Pass
  }

  /** Outcome of a field's `clean_<field>`. */
  datatype FieldResult<T> = Valid(value: T) | Invalid(code: string)

  /** `clean_is_election_board`: the yes/no answer is required; a given answer is
      passed through unchanged. */
  function CleanIsElectionBoard(answer: Option<bool>): (r: FieldResult<bool>)
    ensures r.Valid? <==> answer.Some?
    ensures r.Valid? ==> r.value == answer.value
    ensures r.Invalid? ==> r.code == "required"
  {
    match answer
    case None => Invalid("required")
    case Some(b) => Valid(b)
  }

  predicate IsDigit(c: char) {
    '0' <= c <= '9'
  }

  predicate AllDigits(s: string) {
    forall i :: 0 <= i < |s| ==> IsDigit(s[i])
  }

  /** A five-digit ZIP code. */
  predicate IsZip5(s: string) {
    |s| == 5 && AllDigits(s)
  }

  /** A ZIP+4 code: five digits, a dash, four digits. */
  predicate IsZip9(s: string) {
    |s| == 10 && AllDigits(s[..5]) && s[5] == '-' && AllDigits(s[6..])
  }

  /** Python's `re.search` of `^[0-9]{5}(?:-[0-9]{4})?$|^$`, where `$` also matches just
      before a newline that ends the string. */
  predicate ZipPatternMatches(s: string) {
    var body := if s != [] && s[|s| - 1] == '\n' then s[..|s| - 1] else s;
    IsZip5(s) || IsZip9(s) || s == "" || IsZip5(body) || IsZip9(body) || body == ""
  }

  /** The ZIP field: a required CharField (which strips surrounding whitespace before
      any check) followed by the ZIP pattern validator. */
  function CleanZipcode(raw: string): (r: FieldResult<string>)
    ensures r.Valid? ==> r.value == Strip(raw)
  {
    var value := Strip(raw);
    if value == "" then Invalid("required")
    else if !ZipPatternMatches(value) then Invalid("invalid")
    else Valid(value)
  }

  /** The ZIP field accepts exactly the inputs that strip to a five-digit or a ZIP+4
      code: the pattern's allowance for a trailing newline never comes into play. */
  lemma ZipcodeAcceptsExactlyUsShapes(raw: string)
    ensures CleanZipcode(raw).Valid? <==> IsZip5(Strip(raw)) || IsZip9(Strip(raw))
    ensures CleanZipcode(raw).Invalid? && Strip(raw) == "" ==> CleanZipcode(raw).code == "required"
  {
    var v := Strip(raw);
    if v != [] {
      assert !IsSpace(v[|v| - 1]);
      assert v[|v| - 1] != '\n';
    }
  }

  /** Outcome of `clean_federal_agency`. */
  datatype AgencyResult = Agency(value: string) | AgencyRequired | NoneHasNoAttribute

  /** `OrganizationContactForm.clean_federal_agency` as written: without an application
      and with no agency it asks for one, but without an application and WITH an agency
      it goes on to call `is_federal()` on None. `application` is the request's
      `is_federal()` answer when there is a request. */
  function CleanFederalAgencyAsWritten(application: Option<bool>, agency: string): AgencyResult {
    if application.None? then
      (if agency == "" then AgencyRequired else NoneHasNoAttribute)
    else if application.value && agency == "" then AgencyRequired
    else Agency(agency)
  }

  /** An agency picked on a form that has no saved request behind it makes the
      as-written validator fail instead of returning the agency. */
  lemma FederalAgencyWithoutApplicationFails()
    ensures CleanFederalAgencyAsWritten(None, "General Services Administration") == NoneHasNoAttribute
  {
  }

  /** `clean_federal_agency` as its comments describe it: with no saved request the agency
      is required by default, and a federal request requires one; otherwise the selection,
      possibly empty, is returned. */
  function CleanFederalAgency(application: Option<bool>, agency: string): (r: AgencyResult)
    ensures !r.NoneHasNoAttribute?
    ensures r.AgencyRequired? <==> agency == "" && (application.None? || application.value)
    ensures r.Agency? ==> r.value == agency
  {
    if agency == "" && (application.None? || application.value) then AgencyRequired
    else Agency(agency)
  }

  /** The corrected validator agrees with the written one whenever a request exists. */
  lemma FederalAgencyCorrectionAgreesWithApplication(isFederal: bool, agency: string)
    ensures CleanFederalAgency(Some(isFederal), agency) == CleanFederalAgencyAsWritten(Some(isFederal), agency)
  {
  }
}
