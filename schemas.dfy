/**
 * The Pydantic schemas of schemas.py: `Patient`, `Appointment`, `Note` and
 * `SymptomCheckRequest`.
 *
 * Validation takes a decoded body (field name to value) and gives either the
 * entity or the list of failing fields, in declaration order. Fields the
 * schema does not declare are ignored. `model_dump()` is the inverse
 * direction; each schema has a round-trip lemma tying the two together.
 */
module Schemas {

  import opened Wrappers
  import opened Values

  datatype ErrorKind = MissingField | WrongType | InvalidFormat | OutOfRange

  datatype FieldError = FieldError(field: string, kind: ErrorKind)

  /** A decoded request body. */
  type Raw = map<string, Value>

  /**
   * The library validators the schemas lean on and this model does not
   * open up: `EmailStr`, which refuses an address (`None`) or gives back
   * its normalised form, and the parsing of `date` and `datetime` text.
   */
  datatype Parsers = Parsers(email: string -> Option<string>,
                             parseDate: string -> Option<Date>,
                             parseDateTime: string -> Option<Instant>)

  /** The outcome of validating one field. */
  datatype Field<+T> = Valid(value: T) | Invalid(kind: ErrorKind)

  /** The error a field contributes: none when it is valid, else one naming it. */
  function Problems<T>(name: string, f: Field<T>): (r: seq<FieldError>)
    ensures r == [] <==> f.Valid?
    ensures f.Invalid? ==> r == [FieldError(name, f.kind)]
  {
    if f.Valid? then [] else [FieldError(name, f.kind)]
  }

  // ---------------------------------------------------------------------
  // Field validators, one per kind of declaration found in schemas.py

  /** `name: str = Field(...)`: present and a string; the empty string is accepted. */
  function RequiredStr(raw: Raw, name: string): (f: Field<string>)
    ensures f.Valid? <==> name in raw && raw[name].Str?
    ensures f.Valid? ==> raw[name] == Str(f.value)
    ensures f.Invalid? ==> f.kind == if name !in raw then MissingField else WrongType
  {
    if name !in raw then Invalid(MissingField)
    else match raw[name]
      case Str(s) => Valid(s)
      case _ => Invalid(WrongType)
  }

  /** `name: str = Field(default)`. */
  function StrOr(raw: Raw, name: string, default: string): (f: Field<string>)
    ensures f.Valid? <==> name !in raw || raw[name].Str?
    ensures f.Valid? && name in raw ==> raw[name] == Str(f.value)
    ensures f.Valid? && name !in raw ==> f.value == default
    ensures f.Invalid? ==> f.kind == WrongType
  {
    if name !in raw then Valid(default)
    else match raw[name]
      case Str(s) => Valid(s)
      case _ => Invalid(WrongType)
  }

  /** `name: Optional[str] = Field(None)`. */
  function OptionalStr(raw: Raw, name: string): (f: Field<Option<string>>)
    ensures f.Valid? <==> name !in raw || raw[name].Null? || raw[name].Str?
    ensures f.Valid? ==> OptStr(f.value) == if name in raw then raw[name] else Null
    ensures f.Invalid? ==> f.kind == WrongType
  {
    if name !in raw then Valid(None)
    else match raw[name]
      case Null => Valid(None)
      case Str(s) => Valid(Some(s))
      case _ => Invalid(WrongType)
  }

  /** The strings of a list whose every item is a string. */
  function Strings(vs: seq<Value>): (r: Option<seq<string>>)
    ensures r.Some? <==> forall i :: 0 <= i < |vs| ==> vs[i].Str?
    ensures r.Some? ==> |r.value| == |vs| && forall i :: 0 <= i < |vs| ==> vs[i] == Str(r.value[i])
  {
    if vs == [] then Some([])
    else if !vs[0].Str? then None
    else match Strings(vs[1..])
      case None => None
      case Some(rest) => Some([vs[0].s] + rest)
  }

  /** `List[str]`, either required (`Field(...)`) or defaulting to `[]` (`default_factory=list`). */
  function StrListField(raw: Raw, name: string, required: bool): (f: Field<seq<string>>)
    ensures f.Valid? <==> if name in raw then raw[name].List? && Strings(raw[name].items).Some? else !required
    ensures f.Valid? && name in raw ==> raw[name] == StrList(f.value)
    ensures f.Valid? && name !in raw ==> f.value == []
    ensures f.Invalid? ==> f.kind == if name !in raw then MissingField else WrongType
  {
    if name !in raw then (if required then Invalid(MissingField) else Valid([]))
    else match raw[name]
      case List(items) => (
        match Strings(items)
        case Some(xs) => assert List(items) == StrList(xs); Valid(xs)
        case None => Invalid(WrongType))
      case _ => Invalid(WrongType)
  }

  /** `name: int = Field(..., ge=lo, le=hi)`. */
  function RequiredIntIn(raw: Raw, name: string, lo: int, hi: int): (f: Field<int>)
    ensures f.Valid? <==> name in raw && raw[name].Int? && lo <= raw[name].i <= hi
    ensures f.Valid? ==> raw[name] == Int(f.value)
    ensures f.Invalid? ==> f.kind == if name !in raw then MissingField
                                     else if raw[name].Int? then OutOfRange else WrongType
  {
    if name !in raw then Invalid(MissingField)
    else match raw[name]
      case Int(n) => if lo <= n <= hi then Valid(n) else Invalid(OutOfRange)
      case _ => Invalid(WrongType)
  }

  /**
   * `name: Optional[int] = Field(default, ge=lo)`. Pydantic does not
   * validate a default, so an absent field takes it unchecked.
   */
  function OptionalIntAtLeast(raw: Raw, name: string, lo: int, default: int): (f: Field<Option<int>>)
    ensures f.Valid? <==> name !in raw || raw[name].Null? || (raw[name].Int? && lo <= raw[name].i)
    ensures f.Valid? && name in raw ==> raw[name] == OptInt(f.value)
    ensures f.Valid? && name !in raw ==> f.value == Some(default)
    ensures f.Invalid? ==> f.kind == if raw[name].Int? then OutOfRange else WrongType
  {
    if name !in raw then Valid(Some(default))
    else match raw[name]
      case Null => Valid(None)
      case Int(n) => if lo <= n then Valid(Some(n)) else Invalid(OutOfRange)
      case _ => Invalid(WrongType)
  }

  /** `name: Optional[EmailStr] = Field(None)`: the normalised address is what is kept. */
  function OptionalEmail(raw: Raw, name: string, email: string -> Option<string>): (f: Field<Option<string>>)
    ensures f.Valid? <==> name !in raw || raw[name].Null? || (raw[name].Str? && email(raw[name].s).Some?)
    ensures f.Valid? ==> f.value == if name in raw && raw[name].Str? then email(raw[name].s) else None
    ensures f.Invalid? ==> f.kind == if raw[name].Str? then InvalidFormat else WrongType
  {
    if name !in raw then Valid(None)
    else match raw[name]
      case Null => Valid(None)
      case Str(s) => (
        match email(s)
        case Some(e) => Valid(Some(e))
        case None => Invalid(InvalidFormat))
      case _ => Invalid(WrongType)
  }

  /** `name: Optional[date] = Field(None)`: a date, or text that parses as one. */
  function OptionalDate(raw: Raw, name: string, parse: string -> Option<Date>): (f: Field<Option<Date>>)
    ensures f.Valid? <==> name !in raw || raw[name].Null? || raw[name].Day?
                          || (raw[name].Str? && parse(raw[name].s).Some?)
    ensures f.Valid? ==> f.value == if name !in raw || raw[name].Null? then None
                                    else if raw[name].Day? then Some(raw[name].date)
                                    else parse(raw[name].s)
    ensures f.Invalid? ==> f.kind == if raw[name].Str? then InvalidFormat else WrongType
  {
    if name !in raw then Valid(None)
    else match raw[name]
      case Null => Valid(None)
      case Day(d) => Valid(Some(d))
      case Str(s) => (
        match parse(s)
        case Some(d) => Valid(Some(d))
        case None => Invalid(InvalidFormat))
      case _ => Invalid(WrongType)
  }

  /** `name: datetime = Field(...)`: a datetime, or text that parses as one. */
  function RequiredDateTime(raw: Raw, name: string, parse: string -> Option<Instant>): (f: Field<Instant>)
    ensures f.Valid? <==> name in raw && (raw[name].Stamp? || (raw[name].Str? && parse(raw[name].s).Some?))
    ensures f.Valid? ==> raw[name] == Stamp(f.value) || (raw[name].Str? && parse(raw[name].s) == Some(f.value))
    ensures f.Invalid? ==> f.kind == if name !in raw then MissingField
                                     else if raw[name].Str? then InvalidFormat else WrongType
  {
    if name !in raw then Invalid(MissingField)
    else match raw[name]
      case Stamp(t) => Valid(t)
      case Str(s) => (
        match parse(s)
        case Some(t) => Valid(t)
        case None => Invalid(InvalidFormat))
      case _ => Invalid(WrongType)
  }

  function OptInt(o: Option<int>): Value {
    match o
    case None => Null
    case Some(n) => Int(n)
  }

  function OptDate(o: Option<Date>): Value {
    match o
    case None => Null
    case Some(d) => Day(d)
  }

  lemma StringsOfStrList(xs: seq<string>)
    ensures Strings(StrList(xs).items) == Some(xs)
  {
    var r := Strings(StrList(xs).items);
    assert r.Some?;
    assert r.value == xs;
  }

  // ---------------------------------------------------------------------
  // SymptomCheckRequest (schemas.py:70-74)

  datatype SymptomCheckRequest = SymptomCheckRequest(
    age: int, sex: Option<string>, symptoms: seq<string>, durationDays: Option<int>)

  const REQUEST_FIELDS: set<string> := {"age", "sex", "symptoms", "duration_days"}

  /** What every accepted request satisfies. */
  predicate ValidRequest(q: SymptomCheckRequest) {
    && 0 <= q.age <= 120
    && (q.durationDays.Some? ==> q.durationDays.value >= 0)
  }

  function ValidateSymptomCheckRequest(raw: Raw): (r: Result<SymptomCheckRequest, seq<FieldError>>)
    ensures r.Ok? ==> ValidRequest(r.value)
    ensures r.Ok? ==> "age" in raw && raw["age"] == Int(r.value.age)
    ensures r.Ok? ==> "symptoms" in raw && raw["symptoms"].List?
                      && Strings(raw["symptoms"].items) == Some(r.value.symptoms)
    ensures r.Ok? ==> r.value.sex == (if "sex" in raw && raw["sex"].Str? then Some(raw["sex"].s) else None)
    ensures r.Ok? ==> r.value.durationDays ==
                        if "duration_days" !in raw then Some(1)
                        else if raw["duration_days"].Int? then Some(raw["duration_days"].i)
                        else None
    ensures r.Err? ==> r.error != [] && forall e :: e in r.error ==> e.field in REQUEST_FIELDS
  {
    var age := RequiredIntIn(raw, "age", 0, 120);
    var sex := OptionalStr(raw, "sex");
    var symptoms := StrListField(raw, "symptoms", true);
    var duration := OptionalIntAtLeast(raw, "duration_days", 0, 1);
    var errors := Problems("age", age) + Problems("sex", sex)
                  + Problems("symptoms", symptoms) + Problems("duration_days", duration);
    if errors == [] then Ok(SymptomCheckRequest(age.value, sex.value, symptoms.value, duration.value))
    else Err(errors)
  }

  /** `req.model_dump()`: every field, `None` included. */
  function DumpRequest(q: SymptomCheckRequest): (r: Raw)
    ensures r.Keys == REQUEST_FIELDS
    ensures r["age"] == Int(q.age) && r["symptoms"] == StrList(q.symptoms)
  {
    map["age" := Int(q.age), "sex" := OptStr(q.sex),
        "symptoms" := StrList(q.symptoms), "duration_days" := OptInt(q.durationDays)]
  }

  /** Dumping an accepted request and validating the dump gives the request back. */
  lemma RequestRoundTrip(q: SymptomCheckRequest)
    requires ValidRequest(q)
    ensures ValidateSymptomCheckRequest(DumpRequest(q)) == Ok(q)
  {
    StringsOfStrList(q.symptoms);
  }

  /** The age rule: an integer age outside 0..120 is reported as out of range, and only then. */
  lemma AgeOutOfRangeRejected(raw: Raw)
    ensures FieldError("age", OutOfRange) in Errors(ValidateSymptomCheckRequest(raw))
            <==> "age" in raw && raw["age"].Int? && !(0 <= raw["age"].i <= 120)
  {
  }

  /** Both required fields must be present. */
  lemma RequestRequiredFields(raw: Raw)
    ensures FieldError("age", MissingField) in Errors(ValidateSymptomCheckRequest(raw)) <==> "age" !in raw
    ensures FieldError("symptoms", MissingField) in Errors(ValidateSymptomCheckRequest(raw)) <==> "symptoms" !in raw
  {
  }

  /** A negative integer duration, and nothing else, is out of range; `RequestAccepted` shows that null is accepted. */
  lemma DurationRule(raw: Raw)
    ensures FieldError("duration_days", OutOfRange) in Errors(ValidateSymptomCheckRequest(raw))
            <==> "duration_days" in raw && raw["duration_days"].Int? && raw["duration_days"].i < 0
  {
  }

  /** The errors of a request body are the problems of its four fields, in declaration order. */
  lemma RequestErrors(raw: Raw)
    ensures Errors(ValidateSymptomCheckRequest(raw))
            == Problems("age", RequiredIntIn(raw, "age", 0, 120)) + Problems("sex", OptionalStr(raw, "sex"))
               + Problems("symptoms", StrListField(raw, "symptoms", true))
               + Problems("duration_days", OptionalIntAtLeast(raw, "duration_days", 0, 1))
  {
  }

  /**
   * When a request body is accepted: an integer age in 0..120 and a list of
   * strings as `symptoms`; `sex` absent, null or a string; `duration_days`
   * absent, null or a non-negative integer.
   */
  lemma RequestAccepted(raw: Raw)
    ensures ValidateSymptomCheckRequest(raw).Ok? <==>
              && "age" in raw && raw["age"].Int? && 0 <= raw["age"].i <= 120
              && ("sex" !in raw || raw["sex"].Null? || raw["sex"].Str?)
              && "symptoms" in raw && raw["symptoms"].List? && Strings(raw["symptoms"].items).Some?
              && ("duration_days" !in raw || raw["duration_days"].Null?
                  || (raw["duration_days"].Int? && raw["duration_days"].i >= 0))
  {
    RequestErrors(raw);
  }

  /** A field the schema does not declare has no effect on validation. */
  lemma RequestIgnoresExtraFields(raw: Raw, k: string, v: Value)
    requires k !in REQUEST_FIELDS
    ensures ValidateSymptomCheckRequest(raw[k := v]) == ValidateSymptomCheckRequest(raw)
  {
  }

  /** Age 150 fails before any symptom is looked at. */
  lemma Age150Rejected()
    ensures ValidateSymptomCheckRequest(map["age" := Int(150), "symptoms" := StrList(["fever"])])
            == Err([FieldError("age", OutOfRange)])
  {
    var raw := map["age" := Int(150), "symptoms" := StrList(["fever"])];
    StringsOfStrList(["fever"]);
    assert RequiredIntIn(raw, "age", 0, 120) == Invalid(OutOfRange);
    assert OptionalStr(raw, "sex") == Valid(None);
    assert StrListField(raw, "symptoms", true) == Valid(["fever"]);
    assert OptionalIntAtLeast(raw, "duration_days", 0, 1) == Valid(Some(1));
    assert [FieldError("age", OutOfRange)] + [] + [] + [] == [FieldError("age", OutOfRange)];
  }

  /** An empty symptom list is accepted; `sex` defaults to None and `duration_days` to 1. */
  lemma EmptySymptomsAccepted(age: int)
    requires 0 <= age <= 120
    ensures ValidateSymptomCheckRequest(map["age" := Int(age), "symptoms" := List([])])
            == Ok(SymptomCheckRequest(age, None, [], Some(1)))
  {
  }

  function Errors<T>(r: Result<T, seq<FieldError>>): seq<FieldError> {
    if r.Err? then r.error else []
  }

  // ---------------------------------------------------------------------
  // Patient (schemas.py:44-53)

  datatype Patient = Patient(
    name: string, email: Option<string>, phone: Option<string>, dob: Option<Date>,
    gender: Option<string>, conditions: seq<string>, allergies: seq<string>, medications: seq<string>)

  const PATIENT_FIELDS: set<string> :=
    {"name", "email", "phone", "dob", "gender", "conditions", "allergies", "medications"}

  /** A patient whose email, if any, is already in the form the email validator gives back. */
  predicate ValidPatient(x: Patient, p: Parsers) {
    x.email.Some? ==> p.email(x.email.value) == Some(x.email.value)
  }

  function ValidatePatient(raw: Raw, p: Parsers): (r: Result<Patient, seq<FieldError>>)
    ensures r.Ok? ==> "name" in raw && raw["name"] == Str(r.value.name)
    ensures r.Ok? ==> r.value.email == if "email" in raw && raw["email"].Str? then p.email(raw["email"].s) else None
    ensures r.Ok? ==> OptStr(r.value.phone) == if "phone" in raw then raw["phone"] else Null
    ensures r.Ok? ==> OptStr(r.value.gender) == if "gender" in raw then raw["gender"] else Null
    ensures r.Ok? && ("dob" !in raw || raw["dob"].Null?) ==> r.value.dob == None
    ensures r.Ok? && "dob" in raw && raw["dob"].Day? ==> r.value.dob == Some(raw["dob"].date)
    ensures r.Ok? && "dob" in raw && raw["dob"].Str? ==> r.value.dob == p.parseDate(raw["dob"].s)
    ensures r.Ok? ==> "dob" !in raw || raw["dob"].Null? || raw["dob"].Day? || raw["dob"].Str?
    ensures r.Ok? && "conditions" in raw ==> raw["conditions"] == StrList(r.value.conditions)
    ensures r.Ok? && "allergies" in raw ==> raw["allergies"] == StrList(r.value.allergies)
    ensures r.Ok? && "medications" in raw ==> raw["medications"] == StrList(r.value.medications)
    ensures r.Ok? && "conditions" !in raw ==> r.value.conditions == []
    ensures r.Ok? && "allergies" !in raw ==> r.value.allergies == []
    ensures r.Ok? && "medications" !in raw ==> r.value.medications == []
    ensures r.Err? ==> r.error != [] && forall e :: e in r.error ==> e.field in PATIENT_FIELDS
  {
    var name := RequiredStr(raw, "name");
    var email := OptionalEmail(raw, "email", p.email);
    var phone := OptionalStr(raw, "phone");
    var dob := OptionalDate(raw, "dob", p.parseDate);
    var gender := OptionalStr(raw, "gender");
    var conditions := StrListField(raw, "conditions", false);
    var allergies := StrListField(raw, "allergies", false);
    var medications := StrListField(raw, "medications", false);
    var errors := PatientProblems(name, email, phone, dob, gender, conditions, allergies, medications);
    if errors == [] then
      Ok(Patient(name.value, email.value, phone.value, dob.value, gender.value,
                 conditions.value, allergies.value, medications.value))
    else Err(errors)
  }

  /** The problems of a patient's eight fields, in declaration order. */
  function PatientProblems(name: Field<string>, email: Field<Option<string>>, phone: Field<Option<string>>,
                           dob: Field<Option<Date>>, gender: Field<Option<string>>, conditions: Field<seq<string>>,
                           allergies: Field<seq<string>>, medications: Field<seq<string>>): (es: seq<FieldError>)
    ensures es == [] <==> && name.Valid? && email.Valid? && phone.Valid? && dob.Valid? && gender.Valid?
                          && conditions.Valid? && allergies.Valid? && medications.Valid?
    ensures forall e :: e in es ==> e.field in PATIENT_FIELDS
  {
    Problems("name", name) + Problems("email", email) + Problems("phone", phone)
    + Problems("dob", dob) + Problems("gender", gender)
    + Problems("conditions", conditions) + Problems("allergies", allergies)
    + Problems("medications", medications)
  }

  /** `patient.model_dump()`: every declared field, `None` included. */
  function DumpPatient(x: Patient): (r: Raw)
    ensures r.Keys == PATIENT_FIELDS
    ensures r["name"] == Str(x.name)
  {
    map["name" := Str(x.name), "email" := OptStr(x.email), "phone" := OptStr(x.phone),
        "dob" := OptDate(x.dob), "gender" := OptStr(x.gender),
        "conditions" := StrList(x.conditions), "allergies" := StrList(x.allergies),
        "medications" := StrList(x.medications)]
  }

  lemma PatientRoundTrip(x: Patient, p: Parsers)
    requires ValidPatient(x, p)
    ensures ValidatePatient(DumpPatient(x), p) == Ok(x)
  {
    var raw := DumpPatient(x);
    assert RequiredStr(raw, "name") == Valid(x.name);
    assert OptionalEmail(raw, "email", p.email) == Valid(x.email);
    assert OptionalStr(raw, "phone") == Valid(x.phone);
    assert OptionalDate(raw, "dob", p.parseDate) == Valid(x.dob);
    assert OptionalStr(raw, "gender") == Valid(x.gender);
    assert StrListField(raw, "conditions", false) == Valid(x.conditions) by {
      StringsOfStrList(x.conditions);
    }
    assert StrListField(raw, "allergies", false) == Valid(x.allergies) by {
      StringsOfStrList(x.allergies);
    }
    assert StrListField(raw, "medications", false) == Valid(x.medications) by {
      StringsOfStrList(x.medications);
    }
    PatientFromFields(raw, p, x);
  }

  lemma PatientFromFields(raw: Raw, p: Parsers, x: Patient)
    requires RequiredStr(raw, "name") == Valid(x.name)
    requires OptionalEmail(raw, "email", p.email) == Valid(x.email)
    requires OptionalStr(raw, "phone") == Valid(x.phone)
    requires OptionalDate(raw, "dob", p.parseDate) == Valid(x.dob)
    requires OptionalStr(raw, "gender") == Valid(x.gender)
    requires StrListField(raw, "conditions", false) == Valid(x.conditions)
    requires StrListField(raw, "allergies", false) == Valid(x.allergies)
    requires StrListField(raw, "medications", false) == Valid(x.medications)
    ensures ValidatePatient(raw, p) == Ok(x)
  {
  }

  /** `name` is only required to be present: the empty name is accepted, and every other field defaults. */
  lemma PatientMinimal(p: Parsers)
    ensures ValidatePatient(map["name" := Str("")], p) == Ok(Patient("", None, None, None, None, [], [], []))
  {
  }

  /** A present email the email validator refuses is an invalid-format error. */
  lemma PatientEmailRule(raw: Raw, p: Parsers)
    ensures FieldError("email", InvalidFormat) in Errors(ValidatePatient(raw, p))
            <==> "email" in raw && raw["email"].Str? && p.email(raw["email"].s).None?
  {
    PatientErrors(raw, p);
    EmailProblem(raw, p);
  }

  /** Among the problems of the eight patient fields, only the `email` field's can be an email-format error. */
  lemma EmailProblem(raw: Raw, p: Parsers)
    ensures FieldError("email", InvalidFormat) in
              Problems("name", RequiredStr(raw, "name")) + Problems("email", OptionalEmail(raw, "email", p.email))
              + Problems("phone", OptionalStr(raw, "phone"))
              + Problems("dob", OptionalDate(raw, "dob", p.parseDate))
              + Problems("gender", OptionalStr(raw, "gender"))
              + Problems("conditions", StrListField(raw, "conditions", false))
              + Problems("allergies", StrListField(raw, "allergies", false))
              + Problems("medications", StrListField(raw, "medications", false))
            <==> "email" in raw && raw["email"].Str? && p.email(raw["email"].s).None?
  {
    var e := FieldError("email", InvalidFormat);
    assert e !in Problems("name", RequiredStr(raw, "name"));
    assert e !in Problems("phone", OptionalStr(raw, "phone"));
    assert e !in Problems("dob", OptionalDate(raw, "dob", p.parseDate));
    assert e !in Problems("gender", OptionalStr(raw, "gender"));
    assert e !in Problems("conditions", StrListField(raw, "conditions", false));
    assert e !in Problems("allergies", StrListField(raw, "allergies", false));
    assert e !in Problems("medications", StrListField(raw, "medications", false));
  }

  /** The errors of a patient body are the problems of its fields, in declaration order. */
  lemma PatientErrors(raw: Raw, p: Parsers)
    ensures Errors(ValidatePatient(raw, p))
            == Problems("name", RequiredStr(raw, "name")) + Problems("email", OptionalEmail(raw, "email", p.email))
               + Problems("phone", OptionalStr(raw, "phone"))
               + Problems("dob", OptionalDate(raw, "dob", p.parseDate))
               + Problems("gender", OptionalStr(raw, "gender"))
               + Problems("conditions", StrListField(raw, "conditions", false))
               + Problems("allergies", StrListField(raw, "allergies", false))
               + Problems("medications", StrListField(raw, "medications", false))
  {
  }

  /**
   * When the email validator accepts its own output, as `EmailStr`'s
   * normalisation does, the dump of an accepted patient validates to that
   * same patient.
   */
  lemma PatientDumpRevalidates(raw: Raw, p: Parsers)
    requires forall s :: p.email(s).Some? ==> p.email(p.email(s).value) == p.email(s)
    requires ValidatePatient(raw, p).Ok?
    ensures ValidatePatient(DumpPatient(ValidatePatient(raw, p).value), p) == ValidatePatient(raw, p)
  {
    var x := ValidatePatient(raw, p).value;
    assert ValidPatient(x, p);
    PatientRoundTrip(x, p);
  }

  lemma PatientIgnoresExtraFields(raw: Raw, p: Parsers, k: string, v: Value)
    requires k !in PATIENT_FIELDS
    ensures ValidatePatient(raw[k := v], p) == ValidatePatient(raw, p)
  {
    var raw' := raw[k := v];
    assert RequiredStr(raw', "name") == RequiredStr(raw, "name");
    assert OptionalEmail(raw', "email", p.email) == OptionalEmail(raw, "email", p.email);
    assert OptionalStr(raw', "phone") == OptionalStr(raw, "phone");
    assert OptionalDate(raw', "dob", p.parseDate) == OptionalDate(raw, "dob", p.parseDate);
    assert OptionalStr(raw', "gender") == OptionalStr(raw, "gender");
    assert StrListField(raw', "conditions", false) == StrListField(raw, "conditions", false);
    assert StrListField(raw', "allergies", false) == StrListField(raw, "allergies", false);
    assert StrListField(raw', "medications", false) == StrListField(raw, "medications", false);
  }

  // ---------------------------------------------------------------------
  // Appointment (schemas.py:55-60)

  datatype Appointment = Appointment(patientId: string, scheduledAt: Instant, reason: string, status: string)

  const APPOINTMENT_FIELDS: set<string> := {"patient_id", "scheduled_at", "reason", "status"}

  function ValidateAppointment(raw: Raw, p: Parsers): (r: Result<Appointment, seq<FieldError>>)
    ensures r.Ok? ==> "patient_id" in raw && raw["patient_id"] == Str(r.value.patientId)
    ensures r.Ok? ==> "reason" in raw && raw["reason"] == Str(r.value.reason)
    ensures r.Ok? ==> "scheduled_at" in raw
    ensures r.Ok? ==> raw["scheduled_at"] == Stamp(r.value.scheduledAt)
                      || (raw["scheduled_at"].Str? && p.parseDateTime(raw["scheduled_at"].s) == Some(r.value.scheduledAt))
    ensures r.Ok? && "status" in raw ==> raw["status"] == Str(r.value.status)
    ensures r.Ok? && "status" !in raw ==> r.value.status == "scheduled"
    ensures r.Err? ==> r.error != [] && forall e :: e in r.error ==> e.field in APPOINTMENT_FIELDS
  {
    var patientId := RequiredStr(raw, "patient_id");
    var scheduledAt := RequiredDateTime(raw, "scheduled_at", p.parseDateTime);
    var reason := RequiredStr(raw, "reason");
    var status := StrOr(raw, "status", "scheduled");
    var errors := Problems("patient_id", patientId) + Problems("scheduled_at", scheduledAt)
                  + Problems("reason", reason) + Problems("status", status);
    if errors == [] then Ok(Appointment(patientId.value, scheduledAt.value, reason.value, status.value))
    else Err(errors)
  }

  /** `appointment.model_dump()`: `scheduled_at` stays a `datetime`. */
  function DumpAppointment(a: Appointment): (r: Raw)
    ensures r.Keys == APPOINTMENT_FIELDS
    ensures r["scheduled_at"] == Stamp(a.scheduledAt)
  {
    map["patient_id" := Str(a.patientId), "scheduled_at" := Stamp(a.scheduledAt),
        "reason" := Str(a.reason), "status" := Str(a.status)]
  }

  lemma AppointmentRoundTrip(a: Appointment, p: Parsers)
    ensures ValidateAppointment(DumpAppointment(a), p) == Ok(a)
  {
  }

  /** Any status text is accepted: the three documented values are a convention only. */
  lemma AppointmentAnyStatus(patientId: string, at: Instant, reason: string, status: string, p: Parsers)
    ensures ValidateAppointment(map["patient_id" := Str(patientId), "scheduled_at" := Stamp(at),
                                    "reason" := Str(reason), "status" := Str(status)], p)
            == Ok(Appointment(patientId, at, reason, status))
  {
  }

  lemma AppointmentRequiredFields(raw: Raw, p: Parsers)
    ensures FieldError("patient_id", MissingField) in Errors(ValidateAppointment(raw, p)) <==> "patient_id" !in raw
    ensures FieldError("scheduled_at", MissingField) in Errors(ValidateAppointment(raw, p)) <==> "scheduled_at" !in raw
    ensures FieldError("reason", MissingField) in Errors(ValidateAppointment(raw, p)) <==> "reason" !in raw
  {
  }

  /** The errors of an appointment body are the problems of its four fields, in declaration order. */
  lemma AppointmentErrors(raw: Raw, p: Parsers)
    ensures Errors(ValidateAppointment(raw, p))
            == Problems("patient_id", RequiredStr(raw, "patient_id"))
               + Problems("scheduled_at", RequiredDateTime(raw, "scheduled_at", p.parseDateTime))
               + Problems("reason", RequiredStr(raw, "reason"))
               + Problems("status", StrOr(raw, "status", "scheduled"))
  {
  }

  /**
   * When an appointment body is accepted: string `patient_id` and `reason`,
   * a `scheduled_at` that is a datetime or text that parses as one, and a
   * `status` that is absent or a string.
   */
  lemma AppointmentAccepted(raw: Raw, p: Parsers)
    ensures ValidateAppointment(raw, p).Ok? <==>
              && "patient_id" in raw && raw["patient_id"].Str?
              && "scheduled_at" in raw
              && (raw["scheduled_at"].Stamp?
                  || (raw["scheduled_at"].Str? && p.parseDateTime(raw["scheduled_at"].s).Some?))
              && "reason" in raw && raw["reason"].Str?
              && ("status" !in raw || raw["status"].Str?)
  {
    AppointmentErrors(raw, p);
  }

  lemma AppointmentIgnoresExtraFields(raw: Raw, p: Parsers, k: string, v: Value)
    requires k !in APPOINTMENT_FIELDS
    ensures ValidateAppointment(raw[k := v], p) == ValidateAppointment(raw, p)
  {
  }

  // ---------------------------------------------------------------------
  // Note (schemas.py:62-67)

  datatype Note = Note(patientId: string, content: string, author: Option<string>, tags: seq<string>)

  const NOTE_FIELDS: set<string> := {"patient_id", "content", "author", "tags"}

  function ValidateNote(raw: Raw): (r: Result<Note, seq<FieldError>>)
    ensures r.Ok? ==> "patient_id" in raw && raw["patient_id"] == Str(r.value.patientId)
    ensures r.Ok? ==> "content" in raw && raw["content"] == Str(r.value.content)
    ensures r.Ok? && "author" !in raw ==> r.value.author == None
    ensures r.Ok? && "author" in raw ==> raw["author"] == OptStr(r.value.author)
    ensures r.Ok? && "tags" in raw ==> raw["tags"] == StrList(r.value.tags)
    ensures r.Ok? && "tags" !in raw ==> r.value.tags == []
    ensures r.Err? ==> r.error != [] && forall e :: e in r.error ==> e.field in NOTE_FIELDS
  {
    var patientId := RequiredStr(raw, "patient_id");
    var content := RequiredStr(raw, "content");
    var author := OptionalStr(raw, "author");
    var tags := StrListField(raw, "tags", false);
    var errors := Problems("patient_id", patientId) + Problems("content", content)
                  + Problems("author", author) + Problems("tags", tags);
    if errors == [] then Ok(Note(patientId.value, content.value, author.value, tags.value))
    else Err(errors)
  }

  /** `note.model_dump()`: every declared field, `None` included. */
  function DumpNote(n: Note): (r: Raw)
    ensures r.Keys == NOTE_FIELDS
    ensures r["author"] == OptStr(n.author)
  {
    map["patient_id" := Str(n.patientId), "content" := Str(n.content),
        "author" := OptStr(n.author), "tags" := StrList(n.tags)]
  }

  lemma NoteRoundTrip(n: Note)
    ensures ValidateNote(DumpNote(n)) == Ok(n)
  {
    StringsOfStrList(n.tags);
  }

  lemma NoteRequiredFields(raw: Raw)
    ensures FieldError("patient_id", MissingField) in Errors(ValidateNote(raw)) <==> "patient_id" !in raw
    ensures FieldError("content", MissingField) in Errors(ValidateNote(raw)) <==> "content" !in raw
  {
  }

  /** The errors of a note body are the problems of its four fields, in declaration order. */
  lemma NoteErrors(raw: Raw)
    ensures Errors(ValidateNote(raw))
            == Problems("patient_id", RequiredStr(raw, "patient_id")) + Problems("content", RequiredStr(raw, "content"))
               + Problems("author", OptionalStr(raw, "author")) + Problems("tags", StrListField(raw, "tags", false))
  {
  }

  /**
   * When a note body is accepted: string `patient_id` and `content`, an
   * `author` that is absent, null or a string, and `tags` absent or a list
   * of strings.
   */
  lemma NoteAccepted(raw: Raw)
    ensures ValidateNote(raw).Ok? <==>
              && "patient_id" in raw && raw["patient_id"].Str?
              && "content" in raw && raw["content"].Str?
              && ("author" !in raw || raw["author"].Null? || raw["author"].Str?)
              && ("tags" !in raw || (raw["tags"].List? && Strings(raw["tags"].items).Some?))
  {
    NoteErrors(raw);
  }

  lemma NoteIgnoresExtraFields(raw: Raw, k: string, v: Value)
    requires k !in NOTE_FIELDS
    ensures ValidateNote(raw[k := v]) == ValidateNote(raw)
  {
  }
}
