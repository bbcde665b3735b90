/** express_server/schemas/employee.js: the edit-request check, the outcome of a login attempt
    and the password hashing done before a document is saved. The database lookup and the
    bcrypt calls are not part of the model: their results are inputs. */
module EmployeeSchema {
  import opened JsValues
  import opened Validation

  // ---------------------------------------------------------------------------
  // validateEmployeeEditRequest

  const FullNameRequired := "fullName is required"
  const UsernameRequired := "username is required"
  const MobileRequired := "mobile is required"
  const LevelRequired := "Account Level is required"

  function EditChecks(body: Document): seq<Check> {
    [ Check(Truthy(Field(body, "fullName")), FullNameRequired),
      Check(Truthy(Field(body, "username")), UsernameRequired),
      Check(Truthy(Field(body, "mobile")), MobileRequired),
      Check(Truthy(Field(body, "level")), LevelRequired) ]
  }

  /** `validateEmployeeEditRequest(requestBody)` */
  function ValidateEmployeeEditRequest(body: Document): (r: Verdict)
    ensures r == FirstFailure(EditChecks(body))
    ensures r.Accepted? <==>
              && Truthy(Field(body, "fullName")) && Truthy(Field(body, "username"))
              && Truthy(Field(body, "mobile")) && Truthy(Field(body, "level"))
  {
    var checks := EditChecks(body);
    FirstFailureAccepts(checks);
    if !Truthy(Field(body, "fullName")) then FirstFailureAt(checks, 0); Rejected(FullNameRequired)
    else if !Truthy(Field(body, "username")) then FirstFailureAt(checks, 1); Rejected(UsernameRequired)
    else if !Truthy(Field(body, "mobile")) then FirstFailureAt(checks, 2); Rejected(MobileRequired)
    else if !Truthy(Field(body, "level")) then FirstFailureAt(checks, 3); Rejected(LevelRequired)
    else Accepted
  }

  /** An empty string or a level of 0 counts as missing. */
  lemma EditEmptyCountsAsMissing(body: Document)
    ensures Field(body, "fullName") == Str("") ==>
              ValidateEmployeeEditRequest(body) == Rejected(FullNameRequired)
    ensures Truthy(Field(body, "fullName")) && Truthy(Field(body, "username"))
            && Truthy(Field(body, "mobile")) && Field(body, "level") == Num(0.0) ==>
              ValidateEmployeeEditRequest(body) == Rejected(LevelRequired)
  {
  }

  /** Only the four checked properties matter: a password or any other property never
      changes the verdict. */
  lemma EditIgnoresOtherFields(body: Document, extra: Document)
    requires "fullName" !in extra && "username" !in extra && "mobile" !in extra && "level" !in extra
    ensures ValidateEmployeeEditRequest(body + extra) == ValidateEmployeeEditRequest(body)
  {
    assert Field(body + extra, "fullName") == Field(body, "fullName");
    assert Field(body + extra, "username") == Field(body, "username");
    assert Field(body + extra, "mobile") == Field(body, "mobile");
    assert Field(body + extra, "level") == Field(body, "level");
  }

  // ---------------------------------------------------------------------------
  // validateLogin

  /** What `Employee.findOne({username}).exec` hands its callback. */
  datatype Lookup = LookupFailed | NoEmployee | FoundEmployee(emp: Document)

  /** What `bcrypt.compare` hands its callback. */
  datatype Comparison = CompareFailed | Compared(isMatch: bool)

  /** The object passed to `validateLogin`'s callback: `{status, message}`, plus `emp` on success. */
  datatype LoginResult = LoginResult(status: int, message: string, emp: Option<Document>)

  /** The callback argument of `validateLogin`, or None when the callback is never called:
      an error from the lookup or from the comparison is thrown inside an asynchronous
      callback, where the surrounding `try` no longer catches it. */
  function ValidateLogin(lookup: Lookup, comparison: Comparison): (r: Option<LoginResult>)
    ensures r == Some(LoginResult(400, "bad request", None)) <==> lookup == NoEmployee
    ensures (r.Some? && r.value.status == 200) <==> lookup.FoundEmployee? && comparison == Compared(true)
    ensures r.Some? && r.value.status == 200 ==>
              r.value == LoginResult(200, "success", Some(lookup.emp))
    ensures r == Some(LoginResult(401, "invalid username/password", None)) <==>
              lookup.FoundEmployee? && comparison == Compared(false)
    ensures r.None? <==> lookup == LookupFailed || (lookup.FoundEmployee? && comparison == CompareFailed)
  {
    match lookup
    case LookupFailed => None
    case NoEmployee => Some(LoginResult(400, "bad request", None))
    case FoundEmployee(emp) =>
      match comparison
      case CompareFailed => None
      case Compared(isMatch) =>
        if isMatch then Some(LoginResult(200, "success", Some(emp)))
        else Some(LoginResult(401, "invalid username/password", None))
  }

  // ---------------------------------------------------------------------------
  // The pre-save hook

  /** The password an employee document holds once the hook has run: replaced by its hash
      when the document is new or its password was modified, kept otherwise. */
  function PasswordAfterPreSave(password: string, isNew: bool, passwordModified: bool,
                                hash: string -> string): string
  {
    if passwordModified || isNew then hash(password) else password
  }

  /** A document that is neither new nor has a modified password keeps its stored hash,
      so saving it again never hashes a hash. */
  lemma PreSaveKeepsUnmodified(password: string, hash: string -> string)
    ensures PasswordAfterPreSave(password, false, false, hash) == password
  {
  }

  /** A new document never keeps its clear-text password unless hashing returns it. */
  lemma PreSaveHashesNewDocuments(password: string, modified: bool, hash: string -> string)
    ensures PasswordAfterPreSave(password, true, modified, hash) == hash(password)
  {
  }

  /** An employee document as the save hook sees it. `hash` stands for `bcrypt.hash` with
      the salt `bcrypt.genSalt(10)` produced. */
  class EmployeeDocument {
    var password: string
    var isNew: bool
    var passwordModified: bool

    constructor (password: string, isNew: bool, passwordModified: bool)
      ensures this.password == password && this.isNew == isNew
      ensures this.passwordModified == passwordModified
    {
      this.password := password;
      this.isNew := isNew;
      this.passwordModified := passwordModified;
    }

    /** `employeeSchema.pre("save", ...)`: `emp.password = hash` only when
        `isModified("password") || isNew`. */
    method PreSave(hash: string -> string)
      modifies this
      ensures password == PasswordAfterPreSave(old(password), old(isNew), old(passwordModified), hash)
      ensures isNew == old(isNew) && passwordModified == old(passwordModified)
    {
      if passwordModified || isNew {
        password := hash(password);
      }
    }
  }
}
