/** express_server/routes/doctor.js: the list-query normalisation of `GET /` and the gates of
    `POST /` in front of building a Doctor. The Joi schema is not part of the model: its
    verdict (the first detail message, if any) is an input. */
module DoctorRoutes {
  import opened JsValues
  import opened JsNumbers
  import opened Http
  import opened Utils
  import opened ListQuery

  /** Ten doctors per page, first page, by name, descending. */
  const DoctorDefaults := Defaults("name", -1)

  /** The statements of `GET /` in their order: page, limit, sort, order, sort object. */
  method ListDoctors(query: Query) returns (args: FindArgs)
    ensures args == ListSpec(query, DoctorDefaults)
  {
    var limit := 10;
    var page := 0;
    var sort := DoctorDefaults.sort;
    var order := DoctorDefaults.order;
    var sortObj: map<string, int> := map[];

    var parsedPage := PositiveParam(query, "page");
    if parsedPage.Some? {
      page := parsedPage.value - 1;
    }
    assert page == ListPage(query);
    var parsedLimit := PositiveParam(query, "limit");
    if parsedLimit.Some? {
      limit := parsedLimit.value;
    }
    assert limit == ListLimit(query);
    if Given(query, "sort") {
      sort := query["sort"];
    }
    assert sort == ListSort(query, DoctorDefaults);
    if Given(query, "order") && (query["order"] == "-1" || query["order"] == "1") {
      ParseIntOfOrderTexts();
      order := ParseInt(query["order"]).value;
    }
    assert order == ListOrder(query, DoctorDefaults);
    sortObj := AssignSortKey(sortObj, sort, order);

    args := FindArgs(map["skip" := Finite(limit * page), "limit" := Finite(limit)], sortObj);
    ListSpecOf(query, DoctorDefaults, limit, page, sort, order);
  }

  // ---------------------------------------------------------------------------
  // POST /

  const StartTimeInvalid := "Field, startTime, is not a valid date-time value"
  const EndTimeInvalid := "Field, endTime, is not a valid date-time value"

  /** `isValidTime(v)` on a body property; only a string can match the pattern. */
  predicate IsValidTimeValue(v: JsValue) {
    v.Str? && IsValidTime(v.s)
  }

  /** The document handed to `new Doctor(...)`, its id taken at instant `d`. */
  function NewDoctor(body: Document, d: DateFields): Document {
    map["doctorId" := Str(GenerateId("doc", d)),
        "name" := Field(body, "name"),
        "specialization" := Field(body, "specialization"),
        "startTime" := Field(body, "startTime"),
        "endTime" := Field(body, "endTime"),
        "workingDays" := Field(body, "workingDays")]
  }

  /** `POST /`: the Joi verdict first, then startTime, then endTime; each refusal is sent
      with status 200, not 400. */
  function CreateDoctor(body: Document, joiError: Option<string>, d: DateFields): (o: Outcome)
    ensures o.Created? <==>
              joiError.None? && IsValidTimeValue(Field(body, "startTime"))
              && IsValidTimeValue(Field(body, "endTime"))
    ensures o.Refused? ==> o.response.status == 200 && o.response.payload.Message?
    ensures joiError.Some? ==> o == Refused(Response(200, Message(joiError.value)))
    ensures joiError.None? && !IsValidTimeValue(Field(body, "startTime")) ==>
              o == Refused(Response(200, Message(StartTimeInvalid)))
    ensures joiError.None? && IsValidTimeValue(Field(body, "startTime"))
            && !IsValidTimeValue(Field(body, "endTime")) ==>
              o == Refused(Response(200, Message(EndTimeInvalid)))
    ensures o.Created? ==>
              && o.doc.Keys == {"doctorId", "name", "specialization", "startTime", "endTime", "workingDays"}
              && o.doc["doctorId"] == Str(GenerateId("doc", d))
              && o.doc["name"] == Field(body, "name")
              && o.doc["specialization"] == Field(body, "specialization")
              && o.doc["startTime"] == Field(body, "startTime")
              && o.doc["endTime"] == Field(body, "endTime")
              && o.doc["workingDays"] == Field(body, "workingDays")
  {
    if joiError.Some? then Refused(Response(200, Message(joiError.value)))
    else if !IsValidTimeValue(Field(body, "startTime")) then Refused(Response(200, Message(StartTimeInvalid)))
    else if !IsValidTimeValue(Field(body, "endTime")) then Refused(Response(200, Message(EndTimeInvalid)))
    else Created(NewDoctor(body, d))
  }

  /** A doctor that gets built has an id "doc_" followed by digits, and both of its times
      are accepted by `isValidTime`, so each converts to an hour of the day in 1..23
      (Utils.To24HourOfValidTime). */
  lemma CreatedDoctorIsWellFormed(body: Document, joiError: Option<string>, d: DateFields)
    requires CreateDoctor(body, joiError, d).Created?
    ensures var doc := CreateDoctor(body, joiError, d).doc;
      && "doctorId" in doc && doc["doctorId"].Str?
      && |doc["doctorId"].s| > 4 && doc["doctorId"].s[..4] == "doc_"
      && AllDigits(doc["doctorId"].s[4..])
    ensures var doc := CreateDoctor(body, joiError, d).doc;
      && "startTime" in doc && IsValidTimeValue(doc["startTime"])
      && "endTime" in doc && IsValidTimeValue(doc["endTime"])
  {
    var doc := NewDoctor(body, d);
    assert CreateDoctor(body, joiError, d) == Created(doc);
    GenerateIdShape("doc", d);
    assert doc["doctorId"].s == GenerateId("doc", d);
  }

  /** The top-level keys `validateDoctorEntry` (schemas/doctor.js) admits. Joi refuses any
      other key unless told otherwise, and this schema is not. */
  const DoctorEntryKeys: set<string> := {"name", "specialization", "workingSchedule"}

  /** As shipped, no request builds a doctor: a body Joi accepts holds only the schema's
      keys, so it has no startTime and `isValidTime(undefined)` refuses it; a body that
      does carry a startTime is refused by Joi first. */
  lemma CreateDoctorUnreachableAsShipped(body: Document, joiError: Option<string>, d: DateFields)
    requires joiError.None? ==> body.Keys <= DoctorEntryKeys
    ensures CreateDoctor(body, joiError, d).Refused?
    ensures joiError.None? ==> CreateDoctor(body, joiError, d) == Refused(Response(200, Message(StartTimeInvalid)))
  {
    if joiError.None? {
      assert "startTime" !in body;
      assert Field(body, "startTime") == Undefined;
    }
  }

  /** A start time without the space before the meridiem ("9:00AM") is refused, even when
      the Joi schema lets the body through. */
  lemma CreateDoctorRefusesUnspacedTime(body: Document, d: DateFields)
    requires Field(body, "startTime") == Str("9:00AM")
    ensures CreateDoctor(body, None, d) == Refused(Response(200, Message(StartTimeInvalid)))
  {
    assert |"9:00AM"| == 6;
  }
}
