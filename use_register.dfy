/** Student sign-up (src/auth/hooks/useRegister.js, with the campus effect of
    src/auth/pages/Register.js): the form, the five checks run in a fixed
    order before anything is sent, the signup body, the error shown after a
    refusal, and the static-data lists the form is filled from. */
module Register {
  import opened Common
  import opened Api

  datatype RegisterForm = RegisterForm(
    name: string,
    email: string,
    password: string,
    confirmPassword: string,
    phone: string,
    programId: string,
    campusId: string,
    oldCampusName: string,
    prevProgrammeName: string)

  const BlankForm := RegisterForm("", "", "", "", "", "", "", "", "")

  datatype Field = Name | Email | Password | ConfirmPassword | Phone | ProgramId | CampusId
                 | OldCampusName | PrevProgrammeName

  /** `formData[field]`. */
  function Get(f: RegisterForm, field: Field): string {
    match field
    case Name => f.name
    case Email => f.email
    case Password => f.password
    case ConfirmPassword => f.confirmPassword
    case Phone => f.phone
    case ProgramId => f.programId
    case CampusId => f.campusId
    case OldCampusName => f.oldCampusName
    case PrevProgrammeName => f.prevProgrammeName
  }

  /** `{ ...prev, [field]: value }`: the named field takes the value, every
      other keeps its own. */
  function WithField(f: RegisterForm, field: Field, value: string): (r: RegisterForm)
    ensures forall g :: Get(r, g) == if g == field then value else Get(f, g)
  {
    match field
    case Name => f.(name := value)
    case Email => f.(email := value)
    case Password => f.(password := value)
    case ConfirmPassword => f.(confirmPassword := value)
    case Phone => f.(phone := value)
    case ProgramId => f.(programId := value)
    case CampusId => f.(campusId := value)
    case OldCampusName => f.(oldCampusName := value)
    case PrevProgrammeName => f.(prevProgrammeName := value)
  }

  // ---------------------------------------------------------------------
  // Validation

  /** The five checks, in the order they run. */
  datatype Invalid = MissingRequired | PasswordMismatch | PasswordTooShort | MissingSelection | MissingPreviousStudy

  function Message(e: Invalid): string {
    match e
    case MissingRequired => "Please fill in all required fields"
    case PasswordMismatch => "Passwords do not match"
    case PasswordTooShort => "Password must be at least 6 characters"
    case MissingSelection => "Please select your program and campus"
    case MissingPreviousStudy => "Please fill in your previous study details"
  }

  /** The right of each check to fire: it fails and every earlier one passed. */
  predicate Fails(f: RegisterForm, e: Invalid) {
    match e
    case MissingRequired => f.name == "" || f.email == "" || f.password == "" || f.confirmPassword == ""
    case PasswordMismatch => f.password != f.confirmPassword
    case PasswordTooShort => Utf16Length(f.password) < 6
    case MissingSelection => f.programId == "" || f.campusId == ""
    case MissingPreviousStudy => f.oldCampusName == "" || f.prevProgrammeName == ""
  }

  function Rank(e: Invalid): nat {
    match e
    case MissingRequired => 0
    case PasswordMismatch => 1
    case PasswordTooShort => 2
    case MissingSelection => 3
    case MissingPreviousStudy => 4
  }

  /** The check that stops the submission, if any: the first in order that
      fails; none stops it exactly when all pass. */
  function Validate(f: RegisterForm): (r: Option<Invalid>)
    ensures r.Some? ==> Fails(f, r.value)
    ensures r.Some? ==> forall e :: Rank(e) < Rank(r.value) ==> !Fails(f, e)
    ensures r.None? <==> forall e :: !Fails(f, e)
  {
    if Fails(f, MissingRequired) then Some(MissingRequired)
    else if Fails(f, PasswordMismatch) then Some(PasswordMismatch)
    else if Fails(f, PasswordTooShort) then Some(PasswordTooShort)
    else if Fails(f, MissingSelection) then Some(MissingSelection)
    else if Fails(f, MissingPreviousStudy) then Some(MissingPreviousStudy)
    else None
  }

  /** The length check counts UTF-16 code units: three emoji make a
      six-unit password, which passes it. */
  lemma AstralPasswordLongEnough(f: RegisterForm)
    requires f.password == "\U{1F600}\U{1F600}\U{1F600}"
    ensures !Fails(f, PasswordTooShort)
  {
    var p := f.password;
    assert |p| == 3 && p[0] as int >= 0x1_0000 && p[1] as int >= 0x1_0000 && p[2] as int >= 0x1_0000;
    assert Utf16Length(p[2..]) == 2 by { assert p[2..][1..] == []; }
    assert Utf16Length(p[1..]) == 4 by { assert p[1..][1..] == p[2..]; }
    assert Utf16Length(p) == 6;
  }

  /** A short pair that does not match is reported as a mismatch: the match
      is checked before the length. */
  lemma ShortMismatchReportsMismatch(f: RegisterForm)
    requires f.name != "" && f.email != "" && f.password != "" && f.confirmPassword != ""
    requires f.password != f.confirmPassword && Utf16Length(f.password) < 6
    ensures Validate(f) == Some(PasswordMismatch)
  {
  }

  /** A form accepted by the checks has a matching password of at least six
      characters and every required text filled in. */
  lemma AcceptedForm(f: RegisterForm)
    requires Validate(f).None?
    ensures f.password == f.confirmPassword && Utf16Length(f.password) >= 6
    ensures f.name != "" && f.email != "" && f.programId != "" && f.campusId != ""
    ensures f.oldCampusName != "" && f.prevProgrammeName != ""
  {
    assert !Fails(f, MissingRequired) && !Fails(f, PasswordMismatch) && !Fails(f, PasswordTooShort);
    assert !Fails(f, MissingSelection) && !Fails(f, MissingPreviousStudy);
  }

  // ---------------------------------------------------------------------
  // The signup request

  datatype SignupPayload = SignupPayload(
    name: string,
    email: string,
    password: string,
    phone: Option<string>,
    programId: IntField,
    campusId: IntField,
    oldCampusName: string,
    prevProgrammeName: string)

  /** The POST body: an empty phone is sent as null, the programme and campus
      as `parseInt` of the selected values. */
  function Payload(f: RegisterForm): (p: SignupPayload)
    ensures p.name == f.name && p.email == f.email && p.password == f.password
    ensures p.phone.None? <==> f.phone == ""
    ensures p.phone.Some? ==> p.phone.value == f.phone
    ensures p.programId == ParseIntField(f.programId) && p.campusId == ParseIntField(f.campusId)
    ensures p.oldCampusName == f.oldCampusName && p.prevProgrammeName == f.prevProgrammeName
  {
    SignupPayload(f.name, f.email, f.password, if f.phone == "" then None else Some(f.phone),
                  ParseIntField(f.programId), ParseIntField(f.campusId), f.oldCampusName, f.prevProgrammeName)
  }

  /** An id chosen from the lists, written in decimal, is sent as that
      number. */
  lemma SelectedIdsSentAsNumbers(f: RegisterForm, program: nat, campus: nat)
    requires f.programId == NatToString(program) && f.campusId == NatToString(campus)
    ensures Payload(f).programId == IntVal(program) && Payload(f).campusId == IntVal(campus)
  {
    ParseIntOfNatToString(program);
    ParseIntOfNatToString(campus);
  }

  /** What the signup call produced: created, refused with the body's
      `message` and `error` fields, or a network exception. */
  datatype SignupAnswer = Created | Refused(message: Option<string>, error: Option<string>) | NetworkError(reason: string)

  const Fallback := "Registration failed"

  /** The error shown after a failed signup: the body's `message`, else its
      `error`, else "Registration failed"; an exception shows its own
      message, or the same fallback when that is empty. */
  function FailureMessage(answer: SignupAnswer): (m: string)
    requires !answer.Created?
    ensures m != ""
    ensures answer.Refused? && answer.message.Some? && answer.message.value != "" ==> m == answer.message.value
    ensures answer.Refused? && (answer.message.None? || answer.message.value == "") ==> m == OrElse(answer.error, Fallback)
    ensures answer.NetworkError? ==> m == OrElse(Some(answer.reason), Fallback)
  {
    match answer
    case Refused(message, error) => OrElse(Some(OrElse(message, OrElse(error, Fallback))), Fallback)
    case NetworkError(reason) => OrElse(Some(reason), Fallback)
  }

  const SuccessAlert := "Registration successful! Please login to continue."

  class RegisterHook {
    var form: RegisterForm
    var loading: bool
    var error: string

    constructor ()
      ensures form == BlankForm && !loading && error == ""
    {
      form := BlankForm;
      loading := false;
      error := "";
    }

    /** `handleChange`: one field updated and the error cleared. */
    method HandleChange(field: Field, value: string)
      modifies this`form, this`error
      ensures form == WithField(old(form), field, value)
      ensures error == ""
    {
      form := WithField(form, field, value);
      error := "";
    }

    /** `onSubmitRegister`: the first failing check sets its message and
        nothing is sent; otherwise the payload is posted, a success alerts
        and goes to /login, a failure shows its message. Loading ends false
        on every path. */
    method Submit(answer: SignupAnswer) returns (sent: Option<SignupPayload>, alert: Option<string>, navigateTo: Option<string>)
      modifies this`error, this`loading
      ensures !loading
      ensures Validate(form).Some? ==>
                sent.None? && alert.None? && navigateTo.None? && error == Message(Validate(form).value)
      ensures Validate(form).None? ==> sent == Some(Payload(form))
      ensures Validate(form).None? && answer.Created? ==>
                error == "" && alert == Some(SuccessAlert) && navigateTo == Some("/login")
      ensures Validate(form).None? && !answer.Created? ==>
                error == FailureMessage(answer) && alert.None? && navigateTo.None?
    {
      sent := None;
      alert := None;
      navigateTo := None;
      error := "";
      loading := true;
      if Fails(form, MissingRequired) {
        error := Message(MissingRequired);
        loading := false;
        return;
      }
      if Fails(form, PasswordMismatch) {
        error := Message(PasswordMismatch);
        loading := false;
        return;
      }
      if Fails(form, PasswordTooShort) {
        error := Message(PasswordTooShort);
        loading := false;
        return;
      }
      if Fails(form, MissingSelection) {
        error := Message(MissingSelection);
        loading := false;
        return;
      }
      if Fails(form, MissingPreviousStudy) {
        error := Message(MissingPreviousStudy);
        loading := false;
        return;
      }
      assert Validate(form).None?;
      sent := Some(Payload(form));
      if answer.Created? {
        alert := Some(SuccessAlert);
        navigateTo := Some("/login");
      } else {
        error := FailureMessage(answer);
      }
      loading := false;
    }
  }

  // ---------------------------------------------------------------------
  // Static data

  const StaticPath := "/staticdata"
  const CampusQuery := "?campus_id="

  /** `getProgramsForRegistration`: the campus is sent as a query exactly
      when one is given and non-empty. */
  function ProgramsUrl(origin: string, campusId: Option<string>): (url: string)
    ensures |url| >= |origin + StaticPath| && url[..|origin + StaticPath|] == origin + StaticPath
    ensures campusId.Some? && campusId.value != "" ==> url == origin + StaticPath + CampusQuery + campusId.value
    ensures campusId.None? || campusId.value == "" <==> url == origin + StaticPath
  {
    if campusId.Some? && campusId.value != "" then origin + StaticPath + CampusQuery + campusId.value
    else origin + StaticPath
  }

  /** `{ success, data }` of one static-data call: a non-ok answer or an
      exception gives an empty failure, a missing list an empty success. */
  function StaticList<T>(answer: Http<Option<seq<T>>>): (r: (bool, seq<T>))
    ensures r.0 <==> answer.Ok?
    ensures !r.0 ==> r.1 == []
    ensures r.0 ==> r.1 == answer.body.GetOr([])
  {
    match answer
    case Ok(list) => (true, list.GetOr([]))
    case NotOk(_) => (false, [])
    case Thrown(_) => (false, [])
  }

  datatype Program = Program(programId: int, programName: string)

  /** The registration page: the programme list follows the chosen campus,
      and the chosen programme is cleared whenever the list changes. */
  class RegisterPage {
    const hook: RegisterHook
    var programs: seq<Program>
    var loadingPrograms: bool

    constructor (h: RegisterHook)
      ensures hook == h && programs == [] && !loadingPrograms
    {
      hook := h;
      programs := [];
      loadingPrograms := false;
    }

    /** The effect run when `campus_id` changes: a cleared campus empties
        the list and clears a chosen programme; a campus whose programmes
        arrive replaces the list and clears the programme; a failed load
        keeps both. */
    method CampusChanged(res: (bool, seq<Program>)) returns (requested: bool)
      modifies this`programs, this`loadingPrograms, hook`form, hook`error
      ensures requested <==> old(hook.form.campusId) != ""
      ensures !requested ==> programs == [] && loadingPrograms == old(loadingPrograms)
      ensures !requested && old(hook.form.programId) != "" ==>
                hook.form == WithField(old(hook.form), ProgramId, "") && hook.error == ""
      ensures !requested && old(hook.form.programId) == "" ==>
                hook.form == old(hook.form) && hook.error == old(hook.error)
      ensures requested ==> !loadingPrograms
      ensures requested && res.0 ==>
                programs == res.1 && hook.form == WithField(old(hook.form), ProgramId, "") && hook.error == ""
      ensures requested && !res.0 ==>
                programs == old(programs) && hook.form == old(hook.form) && hook.error == old(hook.error)
    {
      if hook.form.campusId == "" {
        requested := false;
        programs := [];
        if hook.form.programId != "" {
          hook.HandleChange(ProgramId, "");
        }
        return;
      }
      requested := true;
      loadingPrograms := true;
      if res.0 {
        programs := res.1;
        hook.HandleChange(ProgramId, "");
      }
      loadingPrograms := false;
    }
  }
}
