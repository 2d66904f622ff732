/** `EmployeeService`: registration with its two validations, the partial profile
    updates, and the user details handed to the security layer. The password
    encoder is a function parameter; the repository is a sequence of employees
    and a new employee's generated id is an input. */
module Employees {
  import opened Wrappers
  import opened JavaText
  import opened Entities

  datatype RegisterRequest = RegisterRequest(name: JString, email: string, password: JString, gender: JString)

  /** `NameMissing` is the rejected save of an employee with a null name: the
      column is declared `nullable = false`. */
  datatype EmployeeError = EmailTaken | WeakPassword | NameMissing | NotFound

  datatype Saved = Saved(employees: seq<Employee>, employee: Employee)

  const MinPasswordLength: nat := 8
  const DefaultRole: string := "EMPLOYEE"

  /** `employeeRepository.existsByEmail`. */
  predicate EmailExists(employees: seq<Employee>, email: string) {
    exists i :: 0 <= i < |employees| && employees[i].email == email
  }

  /** No two stored employees share an e-mail. */
  predicate UniqueEmails(employees: seq<Employee>) {
    forall i, j :: 0 <= i < j < |employees| ==> employees[i].email != employees[j].email
  }

  /** Every stored e-mail is in lower case. */
  predicate LowerCaseEmails(employees: seq<Employee>) {
    forall i :: 0 <= i < |employees| ==> Lower(employees[i].email) == employees[i].email
  }

  /** `register`: the e-mail is lower-cased, checked for use before the password is
      checked, and the new employee starts with role EMPLOYEE and no credit. Saving
      it fails when the name is null. */
  function Register(employees: seq<Employee>, req: RegisterRequest, encode: string -> string, newId: int)
    : (r: Result<Saved, EmployeeError>)
    ensures EmailExists(employees, Lower(req.email)) <==> r == Failure(EmailTaken)
    ensures !EmailExists(employees, Lower(req.email)) && (req.password.None? || JavaLength(req.password.value) < MinPasswordLength)
      <==> r == Failure(WeakPassword)
    ensures (!EmailExists(employees, Lower(req.email)) && req.password.Some? &&
             JavaLength(req.password.value) >= MinPasswordLength && req.name.None?)
      <==> r == Failure(NameMissing)
    ensures r.Success? <==>
      && !EmailExists(employees, Lower(req.email))
      && req.password.Some? && JavaLength(req.password.value) >= MinPasswordLength
      && req.name.Some?
    ensures r.Success? ==>
      var e := r.value.employee;
      && r.value.employees == employees + [e]
      && e.id == newId && e.email == Lower(req.email)
      && req.password.Some? && e.password == encode(req.password.value)
      && e.role == DefaultRole && e.travelCredit == 0.0
      && e.name == req.name && e.gender == req.gender
      && e.phoneNumber.None? && e.profilePictureUrl.None?
  {
    var email := Lower(req.email);
    if EmailExists(employees, email) then Failure(EmailTaken)
    else if req.password.None? || JavaLength(req.password.value) < MinPasswordLength then Failure(WeakPassword)
    else if req.name.None? then Failure(NameMissing)
    else
      var e := Employee(newId, req.name, email, encode(req.password.value), req.gender, None, None, 0.0, DefaultRole);
      Success(Saved(employees + [e], e))
  }

  /** A password of four emoji is eight UTF-16 code units long, so it is long enough. */
  lemma EmojiPasswordAccepted(employees: seq<Employee>, req: RegisterRequest, encode: string -> string, newId: int)
    requires !EmailExists(employees, Lower(req.email))
    requires req.password == Some("\U{1F600}\U{1F600}\U{1F600}\U{1F600}") && req.name.Some?
    ensures Register(employees, req, encode, newId).Success?
  {
    FourEmojiAreEightUnits();
  }

  /** Registration keeps e-mails unique and lower-case. */
  lemma RegisterKeepsEmailsUnique(employees: seq<Employee>, req: RegisterRequest, encode: string -> string, newId: int)
    requires UniqueEmails(employees) && LowerCaseEmails(employees)
    requires Register(employees, req, encode, newId).Success?
    ensures var after := Register(employees, req, encode, newId).value.employees;
      UniqueEmails(after) && LowerCaseEmails(after)
  {
    var after := Register(employees, req, encode, newId).value.employees;
    var n := |employees|;
    assert forall i :: 0 <= i < n ==> after[i] == employees[i];
    assert !EmailExists(employees, Lower(req.email));
    LowerIdempotent(req.email);
  }

  /** The same address cannot be registered twice, whatever its letter case. */
  lemma RegisterTwiceRefused(employees: seq<Employee>, req: RegisterRequest, encode: string -> string, newId: int,
                             again: RegisterRequest, encode': string -> string, newId': int)
    requires Register(employees, req, encode, newId).Success?
    requires Lower(again.email) == Lower(req.email)
    ensures Register(Register(employees, req, encode, newId).value.employees, again, encode', newId') == Failure(EmailTaken)
  {
    var after := Register(employees, req, encode, newId).value.employees;
    assert after[|employees|].email == Lower(again.email);
  }

  /** The name and phone a user may change on their own profile. */
  datatype ProfileUpdate = ProfileUpdate(name: JString, phoneNumber: JString)

  /** Replace the employee at `k`. */
  function Store(employees: seq<Employee>, k: nat, e: Employee): (r: Saved)
    requires k < |employees|
    ensures |r.employees| == |employees| && r.employees[k] == e && r.employee == e
    ensures forall j :: 0 <= j < |employees| && j != k ==> r.employees[j] == employees[j]
  {
    Saved(employees[k := e], e)
  }

  /** `updateUserProfile`: a non-empty name replaces the name, and any non-null phone
      number — even an empty one — replaces the phone number. */
  function UpdateUserProfile(employees: seq<Employee>, email: string, u: ProfileUpdate): (r: Result<Saved, EmployeeError>)
    ensures FindEmployeeByEmail(employees, email).None? <==> r == Failure(NotFound)
    ensures r.Success? ==>
      FindEmployeeByEmail(employees, email).Some? &&
      var k := FindEmployeeByEmail(employees, email).value;
      var before := employees[k];
      && r.value.employees == employees[k := r.value.employee]
      && r.value.employee.name == (if u.name.Some? && u.name.value != [] then u.name else before.name)
      && r.value.employee.phoneNumber == (if u.phoneNumber.Some? then u.phoneNumber else before.phoneNumber)
      && r.value.employee.(name := before.name, phoneNumber := before.phoneNumber) == before
  {
    match FindEmployeeByEmail(employees, email)
    case None => Failure(NotFound)
    case Some(k) =>
      var e := employees[k];
      var e1 := if u.name.Some? && u.name.value != [] then e.(name := u.name) else e;
      var e2 := if u.phoneNumber.Some? then e1.(phoneNumber := u.phoneNumber) else e1;
      Success(Store(employees, k, e2))
  }

  /** `removeProfilePicture`: only the picture URL becomes null. */
  function RemoveProfilePicture(employees: seq<Employee>, email: string): (r: Result<Saved, EmployeeError>)
    ensures FindEmployeeByEmail(employees, email).None? <==> r == Failure(NotFound)
    ensures r.Success? ==>
      FindEmployeeByEmail(employees, email).Some? &&
      var k := FindEmployeeByEmail(employees, email).value;
      && r.value.employees == employees[k := r.value.employee]
      && r.value.employee.profilePictureUrl.None?
      && r.value.employee.(profilePictureUrl := employees[k].profilePictureUrl) == employees[k]
  {
    match FindEmployeeByEmail(employees, email)
    case None => Failure(NotFound)
    case Some(k) => Success(Store(employees, k, employees[k].(profilePictureUrl := None)))
  }

  /** The role and credit an administrator may set. */
  datatype AdminUpdate = AdminUpdate(role: JString, travelCredit: Option<real>)

  /** `updateUserAsAdmin`: each of role and credit is replaced only when given. */
  function UpdateUserAsAdmin(employees: seq<Employee>, userId: int, u: AdminUpdate): (r: Result<Saved, EmployeeError>)
    ensures FindEmployeeById(employees, userId).None? <==> r == Failure(NotFound)
    ensures r.Success? ==>
      FindEmployeeById(employees, userId).Some? &&
      var k := FindEmployeeById(employees, userId).value;
      var before := employees[k];
      && r.value.employees == employees[k := r.value.employee]
      && r.value.employee.role == (if u.role.Some? then u.role.value else before.role)
      && r.value.employee.travelCredit == (if u.travelCredit.Some? then u.travelCredit.value else before.travelCredit)
      && r.value.employee.(role := before.role, travelCredit := before.travelCredit) == before
  {
    match FindEmployeeById(employees, userId)
    case None => Failure(NotFound)
    case Some(k) =>
      var e := employees[k];
      var e1 := if u.role.Some? then e.(role := u.role.value) else e;
      var e2 := if u.travelCredit.Some? then e1.(travelCredit := u.travelCredit.value) else e1;
      Success(Store(employees, k, e2))
  }

  /** Profile and admin updates never touch ids or e-mails, so they keep e-mails
      unique and lower-case. */
  lemma UpdatesKeepEmails(employees: seq<Employee>, email: string, p: ProfileUpdate, userId: int, a: AdminUpdate)
    requires UniqueEmails(employees) && LowerCaseEmails(employees)
    ensures var r := UpdateUserProfile(employees, email, p);
      r.Success? ==> UniqueEmails(r.value.employees) && LowerCaseEmails(r.value.employees)
    ensures var r := RemoveProfilePicture(employees, email);
      r.Success? ==> UniqueEmails(r.value.employees) && LowerCaseEmails(r.value.employees)
    ensures var r := UpdateUserAsAdmin(employees, userId, a);
      r.Success? ==> UniqueEmails(r.value.employees) && LowerCaseEmails(r.value.employees)
  {
    var r1 := UpdateUserProfile(employees, email, p);
    if r1.Success? {
      SameEmailsKeepInvariants(employees, r1.value.employees);
    }
    var r2 := RemoveProfilePicture(employees, email);
    if r2.Success? {
      SameEmailsKeepInvariants(employees, r2.value.employees);
    }
    var r3 := UpdateUserAsAdmin(employees, userId, a);
    if r3.Success? {
      SameEmailsKeepInvariants(employees, r3.value.employees);
    }
  }

  lemma SameEmailsKeepInvariants(before: seq<Employee>, after: seq<Employee>)
    requires |after| == |before|
    requires forall i :: 0 <= i < |before| ==> after[i].email == before[i].email
    ensures UniqueEmails(before) ==> UniqueEmails(after)
    ensures LowerCaseEmails(before) ==> LowerCaseEmails(after)
  {
  }

  /** The user details `loadUserByUsername` hands to the security layer. */
  datatype UserDetails = UserDetails(username: string, password: string, authorities: seq<string>)

  const RolePrefix: string := "ROLE_"

  /** `loadUserByUsername`: the stored e-mail and password hash, and the single
      authority "ROLE_" followed by the role. */
  function LoadUserByUsername(employees: seq<Employee>, email: string): (r: Result<UserDetails, EmployeeError>)
    ensures FindEmployeeByEmail(employees, email).None? <==> r == Failure(NotFound)
    ensures r.Success? ==>
      FindEmployeeByEmail(employees, email).Some? &&
      var e := employees[FindEmployeeByEmail(employees, email).value];
      && r.value.username == e.email == email
      && r.value.password == e.password
      && |r.value.authorities| == 1
      && StartsWith(r.value.authorities[0], RolePrefix)
      && r.value.authorities[0][|RolePrefix|..] == e.role
  {
    match FindEmployeeByEmail(employees, email)
    case None => Failure(NotFound)
    case Some(k) =>
      var e := employees[k];
      Success(UserDetails(e.email, e.password, [RolePrefix + e.role]))
  }

  /** A freshly registered employee logs in with the single authority ROLE_EMPLOYEE. */
  lemma RegisteredUserIsEmployee(employees: seq<Employee>, req: RegisterRequest, encode: string -> string, newId: int)
    requires Register(employees, req, encode, newId).Success?
    ensures var after := Register(employees, req, encode, newId).value.employees;
      LoadUserByUsername(after, Lower(req.email)).Success? &&
      LoadUserByUsername(after, Lower(req.email)).value.authorities == ["ROLE_EMPLOYEE"]
  {
    var after := Register(employees, req, encode, newId).value.employees;
    assert !EmailExists(employees, Lower(req.email));
    assert forall j :: 0 <= j < |employees| ==> after[j] == employees[j];
    assert after[|employees|].email == Lower(req.email);
    assert FindEmployeeByEmail(after, Lower(req.email)) == Some(|employees|);
    assert RolePrefix + DefaultRole == "ROLE_EMPLOYEE";
  }
}
