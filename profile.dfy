/**
 * The profile page: the validation schema of the profile form, the request
 * body it sends, and the effects of its submit and avatar handlers.
 *
 * Collaborators are inputs: the e-mail format check is the `isEmail`
 * parameter, and each HTTP call's outcome is an `ApiResult`.
 */
module Profile {
  import opened Wrappers
  import opened Auth
  import Routing

  /** The inputs of the profile form. */
  datatype Field = Name | Email | CurrentPassword | Password | PasswordConfirmation

  /** The submitted form values (an empty input submits `""`). */
  datatype ProfileFormData = ProfileFormData(
    name: string, email: string, currentPassword: string, password: string, passwordConfirmation: string)

  function Value(data: ProfileFormData, f: Field): string {
    match f
    case Name => data.name
    case Email => data.email
    case CurrentPassword => data.currentPassword
    case Password => data.password
    case PasswordConfirmation => data.passwordConfirmation
  }

  // ---------------------------------------------------------------------------
  // The validation schema, as data, and its evaluation

  /** One string test of the schema library, with the message it reports. */
  datatype Test =
    | Required(message: string)
    | EmailFormat(message: string)
    | Min(limit: nat, message: string)
    | OneOfRef(ref: Field, message: string)

  /** A field's tests; `WhenFilled` picks one list by whether field `dep` is non-empty. */
  datatype FieldSchema =
    | Tests(tests: seq<Test>)
    | WhenFilled(dep: Field, whenFilled: seq<Test>, otherwise: seq<Test>)

  type Schema = seq<(Field, FieldSchema)>

  /**
   * The length JavaScript gives a string: its UTF-16 code units, two for a
   * character outside the Basic Multilingual Plane.
   */
  function Utf16Length(s: string): (n: nat)
    ensures |s| <= n <= 2 * |s|
    ensures n == 0 <==> s == ""
  {
    if s == "" then 0
    else (if s[0] as int > 0xFFFF then 2 else 1) + Utf16Length(s[1..])
  }

  /** On text without surrogate pairs the JavaScript length is the number of characters. */
  lemma {:induction false} Utf16LengthBasicPlane(s: string)
    requires forall i :: 0 <= i < |s| ==> s[i] as int <= 0xFFFF
    ensures Utf16Length(s) == |s|
  {
    if s != "" {
      Utf16LengthBasicPlane(s[1..]);
    }
  }

  /**
   * Whether value `v` passes test `t`. `Required` rejects the empty string;
   * `EmailFormat` skips it; `Min` measures it like any other string, in
   * UTF-16 code units.
   */
  function Passes(t: Test, v: string, data: ProfileFormData, isEmail: string -> bool): (b: bool)
    ensures t.Required? ==> (b <==> v != "")
    ensures t.EmailFormat? ==> (v == "" ==> b) && (v != "" ==> (b <==> isEmail(v)))
    ensures t.Min? ==> (t.limit <= |v| ==> b) && (2 * |v| < t.limit ==> !b) && (v == "" ==> (b <==> t.limit == 0))
    ensures t.OneOfRef? ==> (b <==> v == Value(data, t.ref))
  {
    match t
    case Required(_) => v != ""
    case EmailFormat(_) => v == "" || isEmail(v)
    case Min(n, _) => Utf16Length(v) >= n
    case OneOfRef(f, _) => v == Value(data, f)
  }

  /** The tests that apply to a field for this submission. */
  function Active(fs: FieldSchema, data: ProfileFormData): seq<Test> {
    match fs
    case Tests(ts) => ts
    case WhenFilled(dep, th, ot) => if Value(data, dep) != "" then th else ot
  }

  /** Messages of the tests in `tests` that `v` fails, in order. */
  function Failed(tests: seq<Test>, v: string, data: ProfileFormData, isEmail: string -> bool): (ms: seq<string>)
    ensures |ms| <= |tests|
    ensures ms == [] <==> forall i :: 0 <= i < |tests| ==> Passes(tests[i], v, data, isEmail)
  {
    if tests == [] then []
    else
      (if Passes(tests[0], v, data, isEmail) then [] else [tests[0].message]) +
      Failed(tests[1..], v, data, isEmail)
  }

  /**
   * The reported messages are exactly those of the failing tests, and the
   * first one (the one a field shows) belongs to the first failing test.
   */
  lemma {:induction false} FailedMessages(tests: seq<Test>, v: string, data: ProfileFormData, isEmail: string -> bool)
    ensures var ms := Failed(tests, v, data, isEmail);
      && (forall m :: m in ms <==>
            exists i :: 0 <= i < |tests| && !Passes(tests[i], v, data, isEmail) && tests[i].message == m)
      && (ms != [] ==>
            exists i :: 0 <= i < |tests| && !Passes(tests[i], v, data, isEmail) && tests[i].message == ms[0] &&
              forall j :: 0 <= j < i ==> Passes(tests[j], v, data, isEmail))
  {
    if tests != [] {
      FailedMessages(tests[1..], v, data, isEmail);
      var ms := Failed(tests, v, data, isEmail);
      var rest := Failed(tests[1..], v, data, isEmail);
      forall m ensures m in ms <==>
        exists i :: 0 <= i < |tests| && !Passes(tests[i], v, data, isEmail) && tests[i].message == m
      {
        if m in ms && !(m in rest) {
          assert !Passes(tests[0], v, data, isEmail) && tests[0].message == m;
        }
        if exists i :: 0 <= i < |tests| && !Passes(tests[i], v, data, isEmail) && tests[i].message == m {
          var i :| 0 <= i < |tests| && !Passes(tests[i], v, data, isEmail) && tests[i].message == m;
          if i > 0 {
            assert tests[1..][i - 1] == tests[i];
          }
        }
      }
      if ms != [] && Passes(tests[0], v, data, isEmail) {
        var i :| 0 <= i < |tests[1..]| && !Passes(tests[1..][i], v, data, isEmail) && tests[1..][i].message == rest[0] &&
          forall j :: 0 <= j < i ==> Passes(tests[1..][j], v, data, isEmail);
        assert forall j :: 0 <= j < i + 1 ==> Passes(tests[j], v, data, isEmail) by {
          forall j | 0 <= j < i + 1 ensures Passes(tests[j], v, data, isEmail) {
            if j > 0 { assert tests[j] == tests[1..][j - 1]; }
          }
        }
      }
    }
  }

  /** The errors of one field: its first failing message, if any. */
  function FieldErrors(entry: (Field, FieldSchema), data: ProfileFormData, isEmail: string -> bool): map<Field, string> {
    var ms := Failed(Active(entry.1, data), Value(data, entry.0), data, isEmail);
    if ms == [] then map[] else map[entry.0 := ms[0]]
  }

  /** The form errors of a submission under `schema`, field to message. */
  function Errors(schema: Schema, data: ProfileFormData, isEmail: string -> bool): map<Field, string>
  {
    if schema == [] then map[]
    else FieldErrors(schema[0], data, isEmail) + Errors(schema[1..], data, isEmail)
  }

  const NameRequired := "Nome obrigatório"
  const EmailRequired := "E-mail obrigatório"
  const EmailInvalid := "Digite um e-mail válido"
  const PasswordTooShort := "No mínimo 6 dígitos"
  const PasswordsDiffer := "Senhas digitadas não são iguais."

  /** The profile form's schema. */
  const ProfileSchema: Schema := [
    (Name, Tests([Required(NameRequired)])),
    (Email, Tests([Required(EmailRequired), EmailFormat(EmailInvalid)])),
    (CurrentPassword, Tests([])),
    (Password, WhenFilled(CurrentPassword,
                          [Min(6, PasswordTooShort)],
                          [Min(0, "password must be at least 0 characters")])),
    (PasswordConfirmation, Tests([OneOfRef(Password, PasswordsDiffer)]))
  ]

  /** `Errors` over a five-entry schema, such as the profile form's, one entry at a time. */
  lemma ErrorsUnfold(s: Schema, data: ProfileFormData, isEmail: string -> bool)
    requires |s| == 5
    ensures Errors(s, data, isEmail) ==
      FieldErrors(s[0], data, isEmail) + (FieldErrors(s[1], data, isEmail) +
      (FieldErrors(s[2], data, isEmail) + (FieldErrors(s[3], data, isEmail) +
      FieldErrors(s[4], data, isEmail))))
  {
    var e0, e1, e2, e3, e4 := FieldErrors(s[0], data, isEmail), FieldErrors(s[1], data, isEmail),
      FieldErrors(s[2], data, isEmail), FieldErrors(s[3], data, isEmail), FieldErrors(s[4], data, isEmail);
    assert s[4..][1..] == [];
    assert Errors(s[4..], data, isEmail) == e4;
    assert s[3..][1..] == s[4..];
    assert Errors(s[3..], data, isEmail) == e3 + e4;
    assert s[2..][1..] == s[3..];
    assert Errors(s[2..], data, isEmail) == e2 + (e3 + e4);
    assert s[1..][1..] == s[2..];
    assert Errors(s[1..], data, isEmail) == e1 + (e2 + (e3 + e4));
  }

  /** The errors each schema entry contributes, field by field. */
  lemma NameErrors(data: ProfileFormData, isEmail: string -> bool)
    ensures FieldErrors(ProfileSchema[0], data, isEmail) ==
      if data.name == "" then map[Name := NameRequired] else map[]
  {
    var tests := Active(ProfileSchema[0].1, data);
    assert Failed(tests, data.name, data, isEmail) == if data.name == "" then [NameRequired] else [];
  }

  lemma EmailErrors(data: ProfileFormData, isEmail: string -> bool)
    ensures FieldErrors(ProfileSchema[1], data, isEmail) ==
      if data.email == "" then map[Email := EmailRequired]
      else if !isEmail(data.email) then map[Email := EmailInvalid]
      else map[]
  {
    var tests := Active(ProfileSchema[1].1, data);
    assert Failed(tests[1..], data.email, data, isEmail) ==
      if data.email == "" || isEmail(data.email) then [] else [EmailInvalid];
    assert Failed(tests, data.email, data, isEmail) ==
      (if data.email != "" then [] else [EmailRequired]) + Failed(tests[1..], data.email, data, isEmail);
  }

  lemma CurrentPasswordErrors(data: ProfileFormData, isEmail: string -> bool)
    ensures FieldErrors(ProfileSchema[2], data, isEmail) == map[]
  {
    assert Active(ProfileSchema[2].1, data) == [];
  }

  lemma PasswordErrors(data: ProfileFormData, isEmail: string -> bool)
    ensures FieldErrors(ProfileSchema[3], data, isEmail) ==
      if data.currentPassword != "" && Utf16Length(data.password) < 6 then map[Password := PasswordTooShort] else map[]
  {
    var tests := Active(ProfileSchema[3].1, data);
    assert Failed(tests, data.password, data, isEmail) ==
      if data.currentPassword != "" && Utf16Length(data.password) < 6 then [PasswordTooShort] else [];
  }

  lemma ConfirmationErrors(data: ProfileFormData, isEmail: string -> bool)
    ensures FieldErrors(ProfileSchema[4], data, isEmail) ==
      if data.passwordConfirmation != data.password
      then map[PasswordConfirmation := PasswordsDiffer] else map[]
  {
    var tests := Active(ProfileSchema[4].1, data);
    assert Failed(tests, data.passwordConfirmation, data, isEmail) ==
      if data.passwordConfirmation != data.password then [PasswordsDiffer] else [];
  }

  /** An entry only ever reports its own field. */
  lemma FieldErrorsKeys(entry: (Field, FieldSchema), data: ProfileFormData, isEmail: string -> bool)
    ensures FieldErrors(entry, data, isEmail).Keys <= {entry.0}
  {
  }

  /** Looking a field up in the union of per-field error maps finds that field's own entry. */
  lemma UnionLookup(e0: map<Field, string>, e1: map<Field, string>, e2: map<Field, string>,
                    e3: map<Field, string>, e4: map<Field, string>)
    requires e0.Keys <= {Name} && e1.Keys <= {Email} && e2.Keys <= {CurrentPassword}
    requires e3.Keys <= {Password} && e4.Keys <= {PasswordConfirmation}
    ensures var e := e0 + (e1 + (e2 + (e3 + e4)));
      && (Name in e <==> Name in e0) && (Name in e0 ==> e[Name] == e0[Name])
      && (Email in e <==> Email in e1) && (Email in e1 ==> e[Email] == e1[Email])
      && (CurrentPassword in e <==> CurrentPassword in e2)
      && (Password in e <==> Password in e3) && (Password in e3 ==> e[Password] == e3[Password])
      && (PasswordConfirmation in e <==> PasswordConfirmation in e4)
      && (PasswordConfirmation in e4 ==> e[PasswordConfirmation] == e4[PasswordConfirmation])
  {
  }

  /**
   * Validation of a submission, following the profile form's rules: name and
   * e-mail required, the e-mail well formed, a new password of at least 6
   * UTF-16 code units only when a current password is given, and the
   * confirmation equal to the new password; the current password itself is
   * never rejected. The submission is valid when the result is empty.
   */
  function Validate(data: ProfileFormData, isEmail: string -> bool): (e: map<Field, string>)
    ensures Name in e <==> data.name == ""
    ensures Name in e ==> e[Name] == NameRequired
    ensures Email in e <==> data.email == "" || !isEmail(data.email)
    ensures Email in e ==> e[Email] == if data.email == "" then EmailRequired else EmailInvalid
    ensures CurrentPassword !in e
    ensures Password in e <==> data.currentPassword != "" && Utf16Length(data.password) < 6
    ensures Password in e ==> e[Password] == PasswordTooShort
    ensures PasswordConfirmation in e <==> data.passwordConfirmation != data.password
    ensures PasswordConfirmation in e ==> e[PasswordConfirmation] == PasswordsDiffer
  {
    var s := ProfileSchema;
    ErrorsUnfold(s, data, isEmail);
    FieldErrorsKeys(s[0], data, isEmail);
    FieldErrorsKeys(s[1], data, isEmail);
    FieldErrorsKeys(s[2], data, isEmail);
    FieldErrorsKeys(s[3], data, isEmail);
    FieldErrorsKeys(s[4], data, isEmail);
    UnionLookup(FieldErrors(s[0], data, isEmail), FieldErrors(s[1], data, isEmail),
      FieldErrors(s[2], data, isEmail), FieldErrors(s[3], data, isEmail), FieldErrors(s[4], data, isEmail));
    NameErrors(data, isEmail);
    EmailErrors(data, isEmail);
    CurrentPasswordErrors(data, isEmail);
    PasswordErrors(data, isEmail);
    ConfirmationErrors(data, isEmail);
    Errors(s, data, isEmail)
  }

  /** Each field fails at most one test, so the field-to-message map loses nothing. */
  lemma OneFailurePerField(data: ProfileFormData, isEmail: string -> bool)
    ensures forall i :: 0 <= i < |ProfileSchema| ==>
      |Failed(Active(ProfileSchema[i].1, data), Value(data, ProfileSchema[i].0), data, isEmail)| <= 1
  {
    var emailTests := Active(ProfileSchema[1].1, data);
    assert Failed(emailTests, data.email, data, isEmail) ==
      (if data.email != "" then [] else [EmailRequired]) +
      (if data.email == "" || isEmail(data.email) then [] else [EmailInvalid]);
  }

  /** The submission passes validation exactly when the rules above all hold. */
  lemma ValidIff(data: ProfileFormData, isEmail: string -> bool)
    ensures Validate(data, isEmail) == map[] <==>
      && data.name != ""
      && data.email != "" && isEmail(data.email)
      && (data.currentPassword != "" ==> Utf16Length(data.password) >= 6)
      && data.passwordConfirmation == data.password
  {
    var e := Validate(data, isEmail);
    if && data.name != "" && data.email != "" && isEmail(data.email)
       && (data.currentPassword != "" ==> Utf16Length(data.password) >= 6)
       && data.passwordConfirmation == data.password
    {
      forall f: Field ensures f !in e {
        match f
        case Name =>
        case Email =>
        case CurrentPassword =>
        case Password =>
        case PasswordConfirmation =>
      }
      assert e.Keys == {};
    }
  }

  // ---------------------------------------------------------------------------
  // The request body

  /** The body of the update request: password fields only when a current password is given. */
  function FormData(data: ProfileFormData): (body: map<Field, string>)
    ensures body.Keys == {Name, Email} +
      (if data.currentPassword != "" then {CurrentPassword, Password, PasswordConfirmation} else {})
    ensures forall f :: f in body ==> body[f] == Value(data, f)
  {
    map[Name := data.name, Email := data.email] +
    (if data.currentPassword != "" then
       map[CurrentPassword := data.currentPassword,
           Password := data.password,
           PasswordConfirmation := data.passwordConfirmation]
     else map[])
  }

  // ---------------------------------------------------------------------------
  // The handlers' effects

  datatype ToastType = Success | Error

  datatype Toast = Toast(kind: ToastType, title: string, description: Option<string>)

  /** The outcome of one HTTP call: the user in the response, or a rejection. */
  datatype ApiResult = Resolved(user: User) | Rejected

  /** A file picked in the avatar input. */
  datatype File = File(name: string)

  /** A call the page makes into a collaborator. */
  datatype Effect =
    | SetErrors(errors: map<Field, string>)
    | Put(url: string, body: map<Field, string>)
    | Patch(url: string, avatar: File)
    | UpdateUser(user: User)
    | Navigate(pathname: string)
    | AddToast(toast: Toast)

  const ProfileUrl := "/profile"
  const AvatarUrl := "/users/avatar"

  const ProfileUpdated := Toast(Success, "Perfil atualizado com sucesso!", None)
  const ProfileUpdateFailed := Toast(Error, "Erro na atualização",
    Some("Ocorreu um erro ao atualizar o usuário, verifique as informações enviadas."))
  const AvatarUpdated := Toast(Success, "Avatar alterado com sucesso!", None)

  /**
   * The effects of `handleSubmit`, given the validation errors of the
   * submission, the request body built from it and the request's outcome.
   */
  function SubmitTrace(errors: map<Field, string>, body: map<Field, string>, put: ApiResult): (t: seq<Effect>)
    ensures |t| >= 2 && t[0] == SetErrors(map[])
  {
    if errors != map[] then
      [SetErrors(map[]), SetErrors(errors)]
    else
      [SetErrors(map[]), Put(ProfileUrl, body)] +
      match put
      case Rejected => [AddToast(ProfileUpdateFailed)]
      case Resolved(user) => [UpdateUser(user), Navigate(Routing.DashboardPath), AddToast(ProfileUpdated)]
  }

  /** A request goes out, with the given body, exactly when there are no errors; navigation only after it resolves. */
  lemma SubmitTraceRequests(errors: map<Field, string>, body: map<Field, string>, put: ApiResult)
    ensures var t := SubmitTrace(errors, body, put);
      && ((exists i :: 0 <= i < |t| && t[i].Put?) <==> errors == map[])
      && (forall i :: 0 <= i < |t| && t[i].Put? ==> t[i] == Put(ProfileUrl, body))
      && ((exists i :: 0 <= i < |t| && t[i].Navigate?) <==> errors == map[] && put.Resolved?)
  {
    var t := SubmitTrace(errors, body, put);
    if errors == map[] {
      assert t[1].Put?;
      if put.Resolved? {
        assert t[3].Navigate?;
      }
    }
  }

  /** The effects of `handleSubmit` for a submission and the update request's outcome. */
  function SubmitEffects(data: ProfileFormData, isEmail: string -> bool, put: ApiResult): (t: seq<Effect>)
    ensures |t| >= 2 && t[0] == SetErrors(map[])
    ensures (exists i :: 0 <= i < |t| && t[i].Put?) <==> Validate(data, isEmail) == map[]
    ensures forall i :: 0 <= i < |t| && t[i].Put? ==> t[i] == Put(ProfileUrl, FormData(data))
    ensures (exists i :: 0 <= i < |t| && t[i].Navigate?) <==> Validate(data, isEmail) == map[] && put.Resolved?
  {
    SubmitTraceRequests(Validate(data, isEmail), FormData(data), put);
    SubmitTrace(Validate(data, isEmail), FormData(data), put)
  }

  /** The effects of `handleAvatarChange` for the picked files (absent or a list) and the upload's outcome. */
  function AvatarEffects(files: Option<seq<File>>, patch: ApiResult): (t: seq<Effect>)
    ensures t == [] <==> files.None? || files.value == []
    ensures t != [] ==> t[0] == Patch(AvatarUrl, files.value[0])
    ensures forall i :: 0 < i < |t| ==> !t[i].Patch?
    ensures (exists i :: 0 <= i < |t| && t[i].UpdateUser?) <==> t != [] && patch.Resolved?
  {
    if files.Some? && |files.value| > 0 then
      match patch
      case Resolved(user) =>
        var t := [Patch(AvatarUrl, files.value[0]), UpdateUser(user), AddToast(AvatarUpdated)];
        assert t[1].UpdateUser?;
        t
      case Rejected => [Patch(AvatarUrl, files.value[0])]
    else []
  }

  /** The toasts shown in a trace, in order. */
  function Toasts(t: seq<Effect>): (ts: seq<Toast>)
    ensures |ts| <= |t|
    ensures ts == [] <==> forall i :: 0 <= i < |t| ==> !t[i].AddToast?
  {
    if t == [] then []
    else (if t[0].AddToast? then [t[0].toast] else []) + Toasts(t[1..])
  }

  /** The toasts of a concatenated trace. */
  lemma {:induction false} ToastsAppend(a: seq<Effect>, b: seq<Effect>)
    ensures Toasts(a + b) == Toasts(a) + Toasts(b)
  {
    if a != [] {
      var head := if a[0].AddToast? then [a[0].toast] else [];
      assert (a + b)[0] == a[0] && (a + b)[1..] == a[1..] + b;
      ToastsAppend(a[1..], b);
      assert Toasts(a + b) == head + (Toasts(a[1..]) + Toasts(b));
      assert head + (Toasts(a[1..]) + Toasts(b)) == (head + Toasts(a[1..])) + Toasts(b);
    } else {
      assert a + b == b;
    }
  }

  /** A trace with no request, no user update, no navigation and no toast. */
  predicate Quiet(t: seq<Effect>) {
    forall i :: 0 <= i < |t| ==> t[i].SetErrors?
  }

  /** A failed validation sets the field errors and stops. */
  lemma SubmitInvalid(errors: map<Field, string>, body: map<Field, string>, put: ApiResult)
    requires errors != map[]
    ensures var t := SubmitTrace(errors, body, put);
      && t == [SetErrors(map[]), SetErrors(errors)]
      && Quiet(t) && Toasts(t) == []
  {
  }

  /** A valid submission whose request succeeds: clear, PUT, update user, navigate, one success toast. */
  lemma SubmitSucceeds(body: map<Field, string>, user: User)
    ensures var t := SubmitTrace(map[], body, Resolved(user));
      && t == [SetErrors(map[]), Put(ProfileUrl, body), UpdateUser(user),
               Navigate(Routing.DashboardPath), AddToast(ProfileUpdated)]
      && Toasts(t) == [ProfileUpdated]
  {
    var t := SubmitTrace(map[], body, Resolved(user));
    ToastsAppend(t[..4], t[4..]);
    assert t[..4] + t[4..] == t;
  }

  /** A valid submission whose request fails: one error toast, no user update, no navigation. */
  lemma SubmitRequestFails(body: map<Field, string>)
    ensures var t := SubmitTrace(map[], body, Rejected);
      && t == [SetErrors(map[]), Put(ProfileUrl, body), AddToast(ProfileUpdateFailed)]
      && Toasts(t) == [ProfileUpdateFailed]
      && forall i :: 0 <= i < |t| ==> !t[i].UpdateUser? && !t[i].Navigate?
  {
    var t := SubmitTrace(map[], body, Rejected);
    ToastsAppend(t[..2], t[2..]);
    assert t[..2] + t[2..] == t;
  }

  /**
   * Whatever the outcome, a request body that is sent carries a name, a
   * well-formed e-mail, and, when it carries a new password, one of at least
   * 6 UTF-16 code units that the confirmation repeats.
   */
  lemma SentBodiesAreValid(data: ProfileFormData, isEmail: string -> bool, put: ApiResult)
    ensures var t := SubmitEffects(data, isEmail, put);
      forall i :: 0 <= i < |t| && t[i].Put? ==>
        && t[i].body[Name] != "" && t[i].body[Email] != "" && isEmail(t[i].body[Email])
        && (Password in t[i].body ==>
              Utf16Length(t[i].body[Password]) >= 6 && t[i].body[PasswordConfirmation] == t[i].body[Password])
  {
    if Validate(data, isEmail) == map[] {
      ValidIff(data, isEmail);
    }
  }

  /** No file picked: nothing happens. */
  lemma AvatarWithoutFile(files: Option<seq<File>>, patch: ApiResult)
    requires files.None? || files.value == []
    ensures AvatarEffects(files, patch) == []
  {
  }

  /** A file picked: PATCH the first file; if that resolves, update the user, then a success toast. */
  lemma AvatarWithFile(files: seq<File>, patch: ApiResult)
    requires files != []
    ensures var t := AvatarEffects(Some(files), patch);
      && t[0] == Patch(AvatarUrl, files[0])
      && (patch.Resolved? ==> t == [Patch(AvatarUrl, files[0]), UpdateUser(patch.user), AddToast(AvatarUpdated)])
      && (patch.Rejected? ==> t == [Patch(AvatarUrl, files[0])] && Toasts(t) == [])
  {
  }

  /** The mounted profile page, recording every call it makes into its collaborators. */
  class ProfilePage {
    var effects: seq<Effect>

    constructor ()
      ensures effects == []
    {
      effects := [];
    }

    /** `handleSubmit`: validate, then send the update and report the outcome. */
    method HandleSubmit(data: ProfileFormData, isEmail: string -> bool, put: ApiResult)
      modifies this
      ensures effects == old(effects) + SubmitTrace(Validate(data, isEmail), FormData(data), put)
    {
      effects := effects + [SetErrors(map[])];
      var errors := Validate(data, isEmail);
      if errors != map[] {
        effects := effects + [SetErrors(errors)];
        return;
      }
      var body := FormData(data);
      effects := effects + [Put(ProfileUrl, body)];
      match put {
        case Rejected =>
          effects := effects + [AddToast(ProfileUpdateFailed)];
        case Resolved(user) =>
          effects := effects + [UpdateUser(user)];
          effects := effects + [Navigate(Routing.DashboardPath)];
          effects := effects + [AddToast(ProfileUpdated)];
      }
    }

    /** `handleAvatarChange`: upload the first picked file, if any. */
    method HandleAvatarChange(files: Option<seq<File>>, patch: ApiResult)
      modifies this
      ensures effects == old(effects) + AvatarEffects(files, patch)
    {
      if files.Some? && |files.value| > 0 {
        effects := effects + [Patch(AvatarUrl, files.value[0])];
        if patch.Resolved? {
          effects := effects + [UpdateUser(patch.user)];
          effects := effects + [AddToast(AvatarUpdated)];
        }
      }
    }
  }
}
