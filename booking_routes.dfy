/** express_server/routes/booking.js: the list-query normalisation of `GET /` and the gates of
    `POST /` in front of building a Booking. The Joi verdict on the body (its first detail
    message, if any) and `mongoose.Types.ObjectId.isValid` are inputs.

    As written, the route cannot answer anything but 500: `generateBookingId` is imported
    from a schema module that does not export it, so calling it throws, and both refusals
    log through an undeclared `baseUrl`, which throws before the 400 is sent.
    CreateBookingAsWritten keeps those throws; CreateBooking is the route as evidently
    intended, with the id supplied and the refusals sent as 400. */
module BookingRoutes {
  import opened JsValues
  import opened JsNumbers
  import opened Http
  import opened ListQuery

  /** Ten bookings per page, first page, by dateTime, ascending. */
  const BookingDefaults := Defaults("dateTime", 1)

  /** `GET /`: the shared statements with the booking defaults. */
  method ListBookings(query: Query) returns (args: FindArgs)
    ensures args == ListSpec(query, BookingDefaults)
  {
    args := NormaliseListQuery(query, BookingDefaults);
  }

  // ---------------------------------------------------------------------------
  // POST /

  const InvalidReceptionist := "Invalid receptionistId"

  /** The properties `new Booking(...)` copies from the request body. */
  const BookingFields: seq<string> := ["receptionistId", "receptionistName", "serviceName", "serviceId",
    "assignedStaffName", "patientName", "patientId", "dateTime", "status", "remarks"]

  /** The document handed to `new Booking(...)`. */
  function NewBooking(body: Document, bookingId: string): (doc: Document)
    ensures "bookingId" in doc && doc["bookingId"] == Str(bookingId)
    ensures forall k :: k in doc <==> k == "bookingId" || k in BookingFields
    ensures forall k :: k in BookingFields ==> k in doc && doc[k] == Field(body, k)
  {
    (map k | k in BookingFields :: Field(body, k))["bookingId" := Str(bookingId)]
  }

  /** The receptionistId the ObjectId check reads: the one of `{...req.body, bookingId}`. */
  function ReceptionistOf(body: Document, bookingId: string): JsValue {
    Field(WithProperty(body, "bookingId", Str(bookingId)), "receptionistId")
  }

  /** `POST /` as evidently intended: the Joi verdict on the body first, then the
      receptionistId, each refused with 400 and its message. */
  function CreateBooking(body: Document, bookingId: string, joiError: Option<string>,
                         isValidObjectId: JsValue -> bool): (o: Outcome)
    ensures o.Created? <==> joiError.None? && isValidObjectId(Field(body, "receptionistId"))
    ensures joiError.Some? ==> o == Refused(Response(400, Message(joiError.value)))
    ensures joiError.None? && !isValidObjectId(Field(body, "receptionistId")) ==>
              o == Refused(Response(400, Message(InvalidReceptionist)))
    ensures o.Created? ==> "bookingId" in o.doc && o.doc["bookingId"] == Str(bookingId)
                           && "receptionistId" in o.doc
                           && o.doc["receptionistId"] == Field(body, "receptionistId")
    ensures o.Created? ==> o.doc == NewBooking(body, bookingId)
  {
    if joiError.Some? then Refused(Response(400, Message(joiError.value)))
    else if !isValidObjectId(ReceptionistOf(body, bookingId)) then Refused(Response(400, Message(InvalidReceptionist)))
    else Created(NewBooking(body, bookingId))
  }

  /** `POST /` as written. `generateBookingId` is None, as with the schema module shipped,
      when the import is undefined and calling it throws; a refusal throws on `baseUrl`
      before its 400 is sent. Every throw lands in the `catch`, which answers 500. */
  function CreateBookingAsWritten(body: Document, generateBookingId: Option<string>,
                                  joiError: Option<string>, isValidObjectId: JsValue -> bool): (o: Outcome)
    ensures o.Refused? ==> o.response == InternalError
  {
    match generateBookingId
    case None => Refused(InternalError)
    case Some(bookingId) =>
      if joiError.Some? then Refused(InternalError)
      else if !isValidObjectId(ReceptionistOf(body, bookingId)) then Refused(InternalError)
      else Created(NewBooking(body, bookingId))
  }

  /** With the schema module as shipped, every booking request is answered 500 and no
      booking is ever built; a receptionistId that is not a valid ObjectId, which the
      intended route refuses with 400 "Invalid receptionistId", gets the same 500. */
  lemma BookingCreateAlwaysFails(body: Document, joiError: Option<string>, isValidObjectId: JsValue -> bool,
                                 bookingId: string)
    ensures CreateBookingAsWritten(body, None, joiError, isValidObjectId) == Refused(InternalError)
    ensures joiError.None? && !isValidObjectId(Field(body, "receptionistId")) ==>
              && CreateBookingAsWritten(body, Some(bookingId), joiError, isValidObjectId) == Refused(InternalError)
              && CreateBooking(body, bookingId, joiError, isValidObjectId)
                 == Refused(Response(400, Message(InvalidReceptionist)))
  {
    assert ReceptionistOf(body, bookingId) == Field(body, "receptionistId");
  }

  /** Once an id is supplied, the written route and the intended one build the same
      booking from the same requests; they differ only in the status of a refusal. */
  lemma BookingRoutesAgreeOnCreation(body: Document, bookingId: string, joiError: Option<string>,
                                     isValidObjectId: JsValue -> bool)
    ensures CreateBookingAsWritten(body, Some(bookingId), joiError, isValidObjectId).Created?
        <==> CreateBooking(body, bookingId, joiError, isValidObjectId).Created?
    ensures CreateBooking(body, bookingId, joiError, isValidObjectId).Created? ==>
              CreateBookingAsWritten(body, Some(bookingId), joiError, isValidObjectId)
              == CreateBooking(body, bookingId, joiError, isValidObjectId)
    ensures CreateBooking(body, bookingId, joiError, isValidObjectId).Refused? ==>
              CreateBooking(body, bookingId, joiError, isValidObjectId).response.status == 400
  {
    assert ReceptionistOf(body, bookingId) == Field(body, "receptionistId");
  }
}
