/** express_server/routes/employee.js: the unguarded pagination of `GET /` and the responses
    of the employee routes, each projected with `Lodash.pick` to a field list, except the one
    of `DELETE /:id`. What the database hands back (the documents found, saved, updated or
    removed) is an input; the Joi verdict of `validateEmployee` is an input too. */
module EmployeeRoutes {
  import opened JsValues
  import opened JsNumbers
  import opened Validation
  import opened Http
  import opened ListQuery
  import opened EmployeeSchema

  // ---------------------------------------------------------------------------
  // GET /: pagination without guards

  /** `page`: 0, or `parseInt(req.query.page) - 1` whenever the page is given. */
  function EmployeePage(query: Query): JsNum {
    if Given(query, "page") then Minus(ParseIntNum(query["page"]), 1) else Finite(0)
  }

  /** `limit`: 10, or `parseInt(req.query.limit)` whenever the limit is given. */
  function EmployeeLimit(query: Query): JsNum {
    if Given(query, "limit") then ParseIntNum(query["limit"]) else Finite(10)
  }

  /** What `GET /` hands `find`: `{page: limit * page, limit}` and `{username: 1}`. */
  function EmployeeListSpec(query: Query): FindArgs {
    FindArgs(map["page" := Times(EmployeeLimit(query), EmployeePage(query)), "limit" := EmployeeLimit(query)],
             map["username" := 1])
  }

  /** The statements of `GET /` in their order. */
  method ListEmployees(query: Query) returns (args: FindArgs)
    ensures args == EmployeeListSpec(query)
  {
    var page := Finite(0);
    var limit := Finite(10);
    if Given(query, "page") {
      page := Minus(ParseIntNum(query["page"]), 1);
    }
    if Given(query, "limit") {
      limit := ParseIntNum(query["limit"]);
    }
    args := FindArgs(map["page" := Times(limit, page), "limit" := limit], map["username" := 1]);
  }

  /** The offset goes under `page`, an option `find` does not know, and never under `skip`,
      so every request reads from the first employee on; the order is always by username,
      ascending. The guarded routes, by contrast, always pass `skip`. */
  lemma EmployeeListHasNoSkip(query: Query, defaults: Defaults)
    ensures "skip" !in EmployeeListSpec(query).options
    ensures EmployeeListSpec(query).options.Keys == {"page", "limit"}
    ensures EmployeeListSpec(query).sortObj == map["username" := 1]
    ensures "skip" in ListSpec(query, defaults).options
  {
  }

  /** Page "0" becomes page -1, so the offset is minus the page size. */
  lemma EmployeePageZero(query: Query)
    requires "page" in query && query["page"] == "0"
    requires !Given(query, "limit")
    ensures EmployeePage(query) == Finite(-1)
    ensures EmployeeListSpec(query).options["page"] == Finite(-10)
  {
    ParseIntOfDecimalText(0);
    assert DecimalText(0) == "0";
  }

  /** The limit is taken as parsed, with no lower bound: 0 and negative limits pass. */
  lemma EmployeeLimitUnguarded(query: Query, n: int)
    requires "limit" in query && ParseInt(query["limit"]) == Some(n)
    ensures EmployeeListSpec(query).options["limit"] == Finite(n)
  {
    assert query["limit"] != "" by {
      assert ParseInt("") == None;
    }
  }

  /** "-5" is such a limit. */
  lemma EmployeeNegativeLimit(query: Query)
    requires "limit" in query && query["limit"] == "-5"
    ensures EmployeeListSpec(query).options["limit"] == Finite(-5)
  {
    OneDigit('5');
    ParseIntOfNegativeDigits("5");
    assert "-" + "5" == "-5";
    EmployeeLimitUnguarded(query, -5);
  }

  /** A given limit without leading digits ("abc") makes both the limit and the offset NaN. */
  lemma EmployeeLimitNaN(query: Query)
    requires Given(query, "limit") && ParseInt(query["limit"]).None?
    ensures EmployeeListSpec(query).options["limit"] == NaN
    ensures EmployeeListSpec(query).options["page"] == NaN
  {
  }

  // ---------------------------------------------------------------------------
  // Projections

  /** `Lodash.pick(doc, paths)`: the listed properties the document has, with their values. */
  function Pick(doc: Document, paths: seq<string>): (r: Document)
    ensures forall k :: k in r <==> k in doc && k in paths
    ensures forall k :: k in r ==> r[k] == doc[k]
  {
    map k | k in doc && k in paths :: doc[k]
  }

  const ListFields: seq<string> := ["_id", "username", "fullName", "mobile", "level"]
  const CreateFields: seq<string> := ["username", "fullName", "level", "mobile", "_id"]
  const LoginFields: seq<string> := ["_id", "username", "mobile", "level", "fullName"]

  /** The same five properties, whatever the route and the order of the list. */
  lemma FieldListsAgree()
    ensures forall k :: k in ListFields <==> k in CreateFields
    ensures forall k :: k in ListFields <==> k in LoginFields
    ensures "password" !in ListFields
  {
  }

  /** The response of `GET /` (over the employees found) and of `GET /search` (over the
      employees matched). */
  function ListResponse(employees: seq<Document>): (r: Response)
    ensures r.status == 200 && r.payload.Records? && |r.payload.rows| == |employees|
    ensures forall i :: 0 <= i < |employees| ==> r.payload.rows[i] == Pick(employees[i], ListFields)
    ensures forall i :: 0 <= i < |employees| ==>
              r.payload.rows[i].Keys <= employees[i].Keys && r.payload.rows[i].Keys <= {"_id", "username", "fullName", "mobile", "level"}
    ensures !Exposes(r, "password")
  {
    Response(200, Records(seq(|employees|, i requires 0 <= i < |employees| => Pick(employees[i], ListFields))))
  }

  /** Each row carries its employee's username, full name, mobile and level unchanged,
      whenever the stored employee has them. */
  lemma ListResponseKeepsProfile(employees: seq<Document>, i: int, k: string)
    requires 0 <= i < |employees| && k in employees[i]
    requires k in {"_id", "username", "fullName", "mobile", "level"}
    ensures k in ListResponse(employees).payload.rows[i]
    ensures ListResponse(employees).payload.rows[i][k] == employees[i][k]
  {
    assert ListResponse(employees).payload.rows[i] == Pick(employees[i], ListFields);
    assert k in ListFields;
  }

  /** `POST /`: the Joi verdict, then the username must be free, then the employee is saved
      (`stored` is what the save returns) and its projection sent. The second component is
      the document handed to `new Employee(...)`, present exactly when a save happens. */
  function CreateEmployee(body: Document, joiError: Option<string>, usernameTaken: bool,
                          stored: Document): (r: (Response, Option<Document>))
    ensures r.1.Some? <==> joiError.None? && !usernameTaken
    ensures joiError.Some? ==> r.0 == Response(400, Message(joiError.value))
    ensures joiError.None? && usernameTaken ==> r.0 == Response(400, Message("User Already Exists!"))
    ensures r.1.Some? ==> r.0 == Response(201, Record(Pick(stored, CreateFields)))
    ensures r.1.Some? ==> r.1.value.Keys == {"username", "level", "fullName", "mobile", "password"}
                          && forall k :: k in r.1.value ==> r.1.value[k] == Field(body, k)
    ensures !Exposes(r.0, "password")
  {
    if joiError.Some? then (Response(400, Message(joiError.value)), None)
    else if usernameTaken then (Response(400, Message("User Already Exists!")), None)
    else
      var emp := map["username" := Field(body, "username"), "level" := Field(body, "level"),
                     "fullName" := Field(body, "fullName"), "mobile" := Field(body, "mobile"),
                     "password" := Field(body, "password")];
      (Response(201, Record(Pick(stored, CreateFields))), Some(emp))
  }

  /** When the save hands back the body's profile fields, the 201 response repeats them and
      never the password. */
  lemma CreateEmployeeEchoesProfile(body: Document, stored: Document, k: string)
    requires k in {"username", "fullName", "mobile", "level"}
    requires k in stored && stored[k] == Field(body, k)
    ensures var r := CreateEmployee(body, None, false, stored).0;
      && r.status == 201 && r.payload.Record? && k in r.payload.fields
      && r.payload.fields[k] == Field(body, k) && "password" !in r.payload.fields
  {
    assert k in CreateFields;
  }

  /** `POST /login`: the route's own lookup (`found`), then the outcome `validateLogin`
      hands its callback after its second lookup; None when no response is ever sent. */
  function Login(found: bool, lookup: Lookup, comparison: Comparison): (r: Option<Response>)
    ensures !found ==> r == Some(Response(400, Message("invalid username/password")))
    ensures found && lookup.FoundEmployee? && comparison == Compared(true) ==>
              r == Some(Response(200, Record(Pick(lookup.emp, LoginFields))))
    ensures found && lookup.FoundEmployee? && comparison == Compared(false) ==>
              r == Some(Response(401, Message("invalid username/password")))
    ensures r.Some? && r.value.status == 200 ==> found && !Exposes(r.value, "password")
    ensures r.None? <==> found && ValidateLogin(lookup, comparison).None?
  {
    if !found then Some(Response(400, Message("invalid username/password")))
    else
      match ValidateLogin(lookup, comparison)
      case None => None
      case Some(result) =>
        if result.status == 404 then Some(Response(404, Message(result.message)))
        else if result.status == 401 then Some(Response(401, Message(result.message)))
        else
          var emp := if result.emp.Some? then result.emp.value else map[];
          Some(Response(200, Record(Pick(emp, LoginFields))))
  }

  /** When the employee vanishes between the two lookups, `validateLogin` reports 400, which
      the callback does not test for: the client gets 200 with an empty record. */
  lemma LoginVanishedEmployee(comparison: Comparison)
    ensures Login(true, NoEmployee, comparison) == Some(Response(200, Record(map[])))
  {
    assert Pick(map[], LoginFields) == map[];
  }

  /** `GET /:id`. */
  function GetEmployee(found: Option<Document>): (r: Response)
    ensures found.None? ==> r == Response(404, Message("Employee Not Found!"))
    ensures found.Some? ==> r.status == 200 && r.payload == Record(Pick(found.value, LoginFields))
    ensures !Exposes(r, "password")
  {
    match found
    case None => Response(404, Message("Employee Not Found!"))
    case Some(emp) => Response(200, Record(Pick(emp, LoginFields)))
  }

  /** `PUT /:id`: the edit check on the body, then the updated document, if any. */
  function UpdateEmployee(body: Document, updated: Option<Document>): (r: Response)
    ensures ValidateEmployeeEditRequest(body).Rejected? ==>
              r == Response(400, Message(ValidateEmployeeEditRequest(body).message))
    ensures ValidateEmployeeEditRequest(body).Accepted? && updated.None? ==>
              r == Response(404, Message("Employee Not Found"))
    ensures r.status == 201 <==> ValidateEmployeeEditRequest(body).Accepted? && updated.Some?
    ensures ValidateEmployeeEditRequest(body).Accepted? && updated.Some? ==>
              r == Response(201, Record(Pick(updated.value, ListFields)))
    ensures !Exposes(r, "password")
  {
    match ValidateEmployeeEditRequest(body)
    case Rejected(message) => Response(400, Message(message))
    case Accepted =>
      match updated
      case None => Response(404, Message("Employee Not Found"))
      case Some(emp) => Response(201, Record(Pick(emp, ListFields)))
  }

  /** `DELETE /:id`: the removed document is sent as it is, so its password hash goes out
      whenever the document has one. */
  function DeleteEmployee(removed: Option<Document>): (r: Response)
    ensures removed.None? ==> r == Response(400, Message("User Not Found!"))
    ensures removed.Some? ==> r == Response(200, Record(removed.value))
    ensures Exposes(r, "password") <==> removed.Some? && "password" in removed.value
  {
    match removed
    case None => Response(400, Message("User Not Found!"))
    case Some(emp) => Response(200, Record(emp))
  }
}
