# electron-pos-server: the decision logic of the clinic server

The clinic's point-of-sale server is an Express application over MongoDB (Mongoose). This
project models, in Dafny, the parts of it that decide something on their own. The database
calls, Express and the Joi schemas stay outside the model:

- the time-of-day and id helpers of `express_server/utils.js`, and the id generators of the
  patient, service and specialization schemas:
  - `isValidTime` is a 12-hour clock recogniser;
  - `to24HourFormat` turns a clock time into a 24-hour hour;
  - `zeroPadding` left-pads with zeros;
  - the `generate...Id` helpers build ids from the current instant;
- the two checkout validators of `express_server/validateRequest.js`;
- the employee schema's edit-request check, the outcome mapping of `validateLogin`, and the
  rehash rule of the pre-save hook;
- the fixed table of 14 booking time slots, the upsert plan that `saveBookingSlots` builds
  from it, and what writing that plan does to the collection;
- the list routes of doctors, services, specializations, bookings and employees. Each turns
  the optional query values `limit`, `page`, `sort` and `order` into the options of
  `Model.find`;
- what the create routes of doctors, services, specializations, bookings and employees do
  before a document is built, and which fields the employee routes send back.

What the environment decides is passed in as an argument:

- the instant an id is taken, as its date fields;
- the verdict of a Joi schema (its first detail message, if any);
- `mongoose.Types.ObjectId.isValid`;
- the documents a lookup or a save returns;
- the bcrypt hash and comparison results.

JavaScript semantics are written out:

- truthiness (`JsValues.Truthy`);
- `parseInt` with no radix, including leading white space, a sign and the `0x` prefix
  (`JsNumbers.ParseInt`); None stands for NaN;
- arithmetic that carries NaN (`JsNumbers.JsNum`);
- `Lodash.pick` (`EmployeeRoutes.Pick`);
- the `{...body, key}` spread (`Http.WithProperty`).

Modules:

| file | module | models |
|---|---|---|
| js_values.dfy | JsValues | JS values, truthiness, documents |
| js_numbers.dfy | JsNumbers | decimal text, `parseInt`, NaN arithmetic |
| validation.dfy | Validation | an early-return ladder of checks, reporting the first failure |
| http.dfy | Http | responses, object spread |
| utils.dfy | Utils | `isValidTime`, `to24HourFormat`, `zeroPadding`, `generateId` |
| validate_request.dfy | ValidateRequest | `validateMedCheckOut`, `validateMedCheckOutSearchQueries` |
| booking_time_slot.dfy | BookingTimeSlot | the slot table, `saveBookingSlots`, the bulk write |
| employee_schema.dfy | EmployeeSchema | edit check, login outcome, pre-save hook |
| patient_schema.dfy | PatientSchema | `generatePatientId` |
| service_schema.dfy | ServiceSchema | `generateServiceId` |
| specialization_schema.dfy | SpecializationSchema | `generateSpecializationId` |
| list_query.dfy | ListQuery | the list-query normalisation shared by the guarded list routes |
| doctor_routes.dfy | DoctorRoutes | `routes/doctor.js` |
| service_routes.dfy | ServiceRoutes | `routes/service.js` |
| specialization_routes.dfy | SpecializationRoutes | `routes/specialization.js` |
| booking_routes.dfy | BookingRoutes | `routes/booking.js` |
| employee_routes.dfy | EmployeeRoutes | `routes/employee.js` |

## Model

| member | source | states |
|---|---|---|
| Utils.ValidTimeCharacterised | express_server/utils.js:14-18 | a string passes `isValidTime` exactly when it is the rendering of some clock time: hour 1..12 (hours below 10 with or without a leading 0), ':', two minute digits 00..59, one white-space character, and AM or PM in any case |
| Utils.ReadClock | express_server/utils.js:14-18 | every accepted string reads back as a valid clock time whose rendering is that string |
| Utils.FormatClockIsValid | express_server/utils.js:14-18 | every valid clock time rendered with any white-space gap and any meridiem case is accepted |
| Utils.IsValidTimeExamples | express_server/utils.js:15 | "9:00 AM", "09:00 pm" and "12:30 AM" are accepted; "9:00am", "9:00", "13:00 AM", "0:00 AM", "00:30 PM" and "9:60 AM" are rejected |
| Utils.To24HourOfText | express_server/utils.js:24-31 | for h:mm followed by a meridiem, the result is 12 when the hour is 12 (so "12:30 AM" gives 12), hour + 12 when the last two characters are "pm" in any case, and the hour otherwise |
| Utils.To24HourOfClock | express_server/utils.js:24-31 | on the rendering of a valid clock time, the conversion yields the clock's hour, plus 12 for PM hours other than 12 |
| Utils.To24HourOfValidTime | express_server/utils.js:24-31 | for every string `isValidTime` accepts, the result is a number in 1..23, and it is 12 exactly when the hour field is 12 |
| Utils.ZeroPadding | express_server/utils.js:34-45 | the loop's result is the decimal text of the value padded with '0's to width 3 for type "ms" and 2 otherwise |
| Utils.PadZerosShape | express_server/utils.js:34-45 | padding only prepends '0's: the result ends with the decimal text, and everything before it is '0' |
| Utils.PadZeros | express_server/utils.js:37-43 | the padded length is the larger of the text's length and the width |
| Utils.PadZerosIdempotent | express_server/utils.js:37-43 | a text already at the width is unchanged, and padding a padded text again changes nothing |
| Utils.PadZerosValue | express_server/utils.js:37-43 | padding a digit string keeps it all digits and keeps its numeric value |
| Utils.TwoDigitsRoundTrip | express_server/utils.js:41-42 | every two-digit string is the 2-padding of its own value |
| Utils.GenerateIdShape | express_server/utils.js:48-57 | an id is the initial, '_', then only digits |
| Utils.IdSuffixRoundTrip | express_server/utils.js:50-57 | with a 4-digit year, the digits after '_' decode back to the exact date fields: the year in the first four, then month (index + 1), day, hour, minute and second in two digits each, then the milliseconds in the rest, so the field order is year, month, day, hour, minute, second, millisecond |
| Utils.IdSuffixLength | express_server/utils.js:56-57 | with a 4-digit year the suffix has 16 characters when ms < 100 and 17 otherwise |
| Utils.IdsNotChronological | express_server/utils.js:56-57 | the id taken at x.100 compares below the id taken at x.099, so ids do not sort in time order |
| ValidateRequest.ValidateMedCheckOut | express_server/validateRequest.js:9-30 | the verdict is the first failing check among tagId present, tagId valid, medId present, medId valid, qty present, qty a number and not negative; it is accepted exactly when all of them pass |
| ValidateRequest.QtyDecides | express_server/validateRequest.js:23-27 | with valid ids, qty 0 is refused by the presence check, a non-empty string qty such as "10" and a negative qty by the type check, and a positive number is accepted |
| ValidateRequest.CheckoutIgnoresOtherFields | express_server/validateRequest.js:9-30 | properties other than tagId, medId and qty never change the verdict |
| ValidateRequest.CheckoutTestCases | tests/validateRequest.test.js:13-83 | the unit tests' bodies get the verdicts the tests expect: missing or malformed ids, a missing qty and a string qty are refused; the valid body is accepted |
| ValidateRequest.ValidateMedCheckOutSearchQueries | express_server/validateRequest.js:40-53 | the verdict is the first failure among `q` present, `q` a non-empty string, and `q` free of '&', '?' and '='; it is accepted exactly when `q` is a non-empty string without those characters |
| ValidateRequest.SearchTypeRungOnlyForNonStrings | express_server/validateRequest.js:45-46 | the "must be string" refusal happens only for a truthy `q` that is not a string |
| ValidateRequest.SignsPass | express_server/validateRequest.js:38-52 | '+' and '-' are accepted, although the comment above the function lists them as forbidden |
| ValidateRequest.SearchTestCases | tests/validateRequest.test.js:92-122 | missing and empty `q` are refused as required, "panadol?", "panadol&" and "panadol=" as malformed, and "panadol" is accepted |
| BookingTimeSlot.TableNumbering | express_server/schemas/bookingTimeSlot.js:36-107 | the table has 14 slots numbered 1..14 in order |
| BookingTimeSlot.TableChaining | express_server/schemas/bookingTimeSlot.js:36-107 | each slot ends where the next starts, except from slot 5 (ends 12:00 PM) to slot 6 (starts 1:00 PM); slot 4 is 10:30 AM to 11:30 AM |
| BookingTimeSlot.ClockMinutesAgreesWithReadClock | express_server/utils.js:14-18 | on every text `isValidTime` accepts with an "AM" or "PM" meridiem, the table's minute reader gives the hour that `Utils.ReadClock` reads, on the 24-hour clock, times 60 plus its minute |
| BookingTimeSlot.StartMinutesValues | express_server/schemas/bookingTimeSlot.js:36-107 | the start times, as minutes of the day, run from 9:00 AM to 5:00 PM in increasing order |
| BookingTimeSlot.EndMinutesValues | express_server/schemas/bookingTimeSlot.js:36-107 | the end times, as minutes of the day, run from 9:30 AM to 5:30 PM |
| BookingTimeSlot.SlotDurations | express_server/schemas/bookingTimeSlot.js:36-107 | every slot lasts 30 minutes except slot 4, which lasts 60 |
| BookingTimeSlot.TableKeysDistinct | express_server/schemas/bookingTimeSlot.js:36-107 | no two slots share a start time, so no two share the (startTime, endTime) filter key |
| BookingTimeSlot.SaveBookingSlots | express_server/schemas/bookingTimeSlot.js:110-124 | the loop builds exactly one operation per slot, in table order; each filters on that slot's startTime and endTime, sets the whole slot on insert, and upserts |
| BookingTimeSlot.ApplyBulkKeepsExisting | express_server/schemas/bookingTimeSlot.js:9-10 | a bulk write of `$setOnInsert` upserts never changes or removes a stored entry |
| BookingTimeSlot.ApplyBulkKeys | express_server/schemas/bookingTimeSlot.js:9-10 | after the write the keys are the stored keys plus the filters of the upserting operations |
| BookingTimeSlot.ApplyBulkNoOp | express_server/schemas/bookingTimeSlot.js:9-10 | when every filter is already stored, the write changes nothing |
| BookingTimeSlot.ApplyBulkIdempotent | express_server/schemas/bookingTimeSlot.js:9-10 | writing the same operations twice equals writing them once |
| BookingTimeSlot.SlotPlanEffect | express_server/schemas/bookingTimeSlot.js:9-10 | after writing the slot plan every slot's key is stored, entries already stored keep their document, and only the table's keys are added |
| BookingTimeSlot.ApplyBulkInserts | express_server/schemas/bookingTimeSlot.js:115-121 | under a plan with distinct keys, a slot whose key was missing is stored as that slot |
| BookingTimeSlot.SlotPlanInserts | express_server/schemas/bookingTimeSlot.js:9-10 | a slot missing from the collection is inserted as the table's slot |
| EmployeeSchema.ValidateEmployeeEditRequest | express_server/schemas/employee.js:139-153 | the verdict names the first falsy field among fullName, username, mobile and level, with that field's message; it is accepted exactly when all four are truthy |
| EmployeeSchema.EditEmptyCountsAsMissing | express_server/schemas/employee.js:140-150 | an empty fullName and a level of 0 count as missing |
| EmployeeSchema.EditIgnoresOtherFields | express_server/schemas/employee.js:139-153 | the password and any other property never change the verdict |
| EmployeeSchema.ValidateLogin | express_server/schemas/employee.js:110-136 | no employee gives 400 "bad request"; a match gives 200 "success" with the employee; a mismatch gives 401 "invalid username/password"; a lookup or comparison error means the callback is never called |
| EmployeeSchema.PreSaveKeepsUnmodified | express_server/schemas/employee.js:65-83 | a document that is neither new nor has a modified password keeps its stored password |
| EmployeeSchema.PreSaveHashesNewDocuments | express_server/schemas/employee.js:65-75 | a new document's password is replaced by its hash |
| EmployeeSchema.EmployeeDocument.PreSave | express_server/schemas/employee.js:61-88 | the hook replaces the password by its hash exactly when the password was modified or the document is new, and changes nothing else |
| PatientSchema.GeneratePatientId | express_server/schemas/patient.js:94-104 | a patient id is "pt_" followed by digits only, and is at least 10 characters long, so it meets the patientId minimum length |
| PatientSchema.YearDigitsAndPadding | express_server/schemas/patient.js:65 | the id has at least 3 + 1 + 6 * 2 characters, whatever the year |
| PatientSchema.PatientIdDecodes | express_server/schemas/patient.js:96-103 | the digits after "pt_" decode back to the date fields, and the month field at positions 7..8 lies in 01..12 |
| PatientSchema.PatientIdLength | express_server/schemas/patient.js:102-103 | with a 4-digit year the id has 19 characters when ms < 100 and 20 otherwise: the ms field is padded to 2 only |
| ServiceSchema.GenerateServiceId | express_server/schemas/service.js:66-76 | a service id is "sv_" followed by digits only |
| ServiceSchema.ServiceIdFields | express_server/schemas/service.js:67-75 | the digits after "sv_" decode back to the date fields in the order year, month, day, hour, minute, second, ms; the id has 19 characters when ms < 100 and 20 otherwise |
| SpecializationSchema.GenerateSpecializationId | express_server/schemas/specialization.js:62-72 | a specialization id starts with "sv_", like a service id, not "sp_", and is followed by digits only |
| SpecializationSchema.SpecializationIdFields | express_server/schemas/specialization.js:63-71 | the digits after "sv_" decode back to the date fields in order; the ms field has 2 digits below 100 ms |
| JsNumbers.ParseIntOfDecimalText | express_server/routes/doctor.js:25-29 | `parseInt` reads the decimal text of every natural number back as that number |
| JsNumbers.ParseIntOfDigits | express_server/routes/doctor.js:25-29 | `parseInt` reads a non-empty digit string as its decimal value |
| JsNumbers.ParseIntOfNegativeDigits | express_server/routes/employee.js:26-30 | `parseInt` reads '-' followed by digits as the negated value |
| ListQuery.NormaliseListQuery | express_server/routes/service.js:14-38 | the statements of the guarded list routes compute exactly ListSpec: limit from a positive `limit`, zero-based page from a positive `page`, order from "-1" or "1" only, sort from a non-empty `sort`, and `sortObj[sort] = order` on `{}`, which adds no key for "__proto__" |
| ListQuery.ListSpecBounds | express_server/routes/service.js:38 | limit >= 1, page >= 0 and skip = page * limit >= 0, and the options are exactly skip and limit |
| ListQuery.ListSpecSortObject | express_server/routes/service.js:18-32 | for every sort key other than "__proto__", the sort object has exactly one key, the sort key, mapped to -1, 1 or the default order |
| ListQuery.ListSpecProtoSort | express_server/routes/service.js:18-41 | `sort=__proto__` leaves the sort object empty (the prototype setter ignores a number), so no order is applied, while skip and limit are those of the same query without `sort` |
| ListQuery.ListSpecEmptyQuery | express_server/routes/service.js:14-17 | with no query, and a default sort key that is a plain field name, the route reads the first ten documents in the default order |
| ListQuery.ListSpecPage | express_server/routes/service.js:20-24 | a page read as n >= 1 and a limit read as l >= 1 give skip (n - 1) * l and limit l |
| ListQuery.ListSpecIgnoresNonPositivePage | express_server/routes/service.js:23-24 | an absent, empty, non-numeric or non-positive page leaves skip at 0 |
| ListQuery.ListSpecPageZero | express_server/routes/doctor.js:25-26 | page "0" is ignored rather than becoming -1 |
| ListQuery.ListSpecOrderOnlyExact | express_server/routes/service.js:26-27 | whenever the sort key lands in the sort object, its order leaves the default only for the exact texts "-1" and "1", and takes -1 or 1 for them |
| ListQuery.ListSpecIgnoresOtherParameters | express_server/routes/service.js:14-38 | query parameters other than limit, page, sort and order never change the options |
| DoctorRoutes.ListDoctors | express_server/routes/doctor.js:19-46 | the doctor statements (page before limit, skip written as limit * page) compute ListSpec with defaults sort "name" and order -1 |
| DoctorRoutes.CreateDoctor | express_server/routes/doctor.js:59-91 | a doctor is built exactly when the Joi verdict passes and both times are accepted by `isValidTime`; otherwise the Joi message, then the startTime message, then the endTime message is sent, each with status 200; a built doctor holds exactly the generated "doc" id and the body's name, specialization, startTime, endTime and workingDays |
| DoctorRoutes.CreateDoctorUnreachableAsShipped | express_server/routes/doctor.js:61-71 | when Joi passes only bodies whose keys are those of `validateDoctorEntry` (name, specialization, workingSchedule), every create request is refused, and a body Joi passes gets the startTime message, so no doctor is ever built |
| DoctorRoutes.CreatedDoctorIsWellFormed | express_server/routes/doctor.js:78-85 | a built doctor has the id "doc_" followed by digits, and both of its times are accepted by `isValidTime` |
| DoctorRoutes.CreateDoctorRefusesUnspacedTime | express_server/routes/doctor.js:68-71 | a startTime of "9:00AM" is refused with the startTime message even when Joi accepts the body |
| ServiceRoutes.ListServices | express_server/routes/service.js:12-41 | the service route computes ListSpec with defaults sort "name" and order 1 |
| ServiceRoutes.CreateService | express_server/routes/service.js:55-79 | the validated body always carries the generated serviceId; a Joi failure is sent as 400 with its message; otherwise the service gets the generated "sv_" id and the body's name, price and remarks |
| ServiceRoutes.CreateServiceIgnoresClientId | express_server/routes/service.js:57-63 | a serviceId sent by the client never changes the outcome |
| SpecializationRoutes.ListSpecializations | express_server/routes/specialization.js:12-41 | the specialization route computes ListSpec with defaults sort "name" and order 1 |
| SpecializationRoutes.CreateSpecialization | express_server/routes/specialization.js:55-79 | the validated body always carries the generated specialId; a Joi failure is sent as 400 with its message; otherwise the specialization gets the id and the body's name and remarks |
| SpecializationRoutes.RouteIdIsNotSchemaId | express_server/routes/specialization.js:57 | the route's ids start with "sp_", so they never equal what the schema's own generator produces |
| SpecializationRoutes.CreateSpecializationIgnoresClientId | express_server/routes/specialization.js:57-63 | a specialId sent by the client never changes the outcome |
| BookingRoutes.ListBookings | express_server/routes/booking.js:11-41 | the booking route computes ListSpec with defaults sort "dateTime" and order 1 |
| BookingRoutes.NewBooking | express_server/routes/booking.js:74-86 | the booking document holds the booking id and exactly the ten listed properties of the body |
| BookingRoutes.CreateBooking | express_server/routes/booking.js:54-90 | intended behaviour: a booking is built exactly when Joi passes and the receptionistId is a valid ObjectId; otherwise 400 with the Joi message or "Invalid receptionistId", before anything is built; a built booking is the generated id plus exactly the ten listed body properties (`NewBooking`) |
| BookingRoutes.CreateBookingAsWritten | express_server/routes/booking.js:54-95 | as written, every refusal is answered 500 |
| BookingRoutes.BookingCreateAlwaysFails | express_server/routes/booking.js:5 | as shipped, every create request is answered 500, and an invalid receptionistId gets 500 instead of the intended 400 |
| BookingRoutes.BookingRoutesAgreeOnCreation | express_server/routes/booking.js:57-86 | once an id is supplied, the written and the intended route build the same booking from the same requests, and the intended refusals are all 400 |
| EmployeeRoutes.ListEmployees | express_server/routes/employee.js:20-36 | the employee statements compute EmployeeListSpec: page is `parseInt(page) - 1` whenever given, limit is `parseInt(limit)` whenever given, options `{page: limit * page, limit}`, sort by username ascending |
| EmployeeRoutes.EmployeeListHasNoSkip | express_server/routes/employee.js:32-36 | the offset goes under `page`, never `skip`; the options are exactly page and limit; sorting is always by username ascending, while the guarded routes always pass `skip` |
| EmployeeRoutes.EmployeePageZero | express_server/routes/employee.js:26-27 | page "0" becomes -1 and the offset becomes -10 |
| EmployeeRoutes.EmployeeLimitUnguarded | express_server/routes/employee.js:29-30 | any limit `parseInt` reads is passed as it is, with no positivity check |
| EmployeeRoutes.EmployeeNegativeLimit | express_server/routes/employee.js:29-30 | limit "-5" is passed as -5 |
| EmployeeRoutes.EmployeeLimitNaN | express_server/routes/employee.js:29-35 | a given limit without leading digits makes both the limit and the offset NaN |
| EmployeeRoutes.Pick | express_server/routes/employee.js:38 | `Lodash.pick` keeps exactly the listed properties the document has, with their values |
| EmployeeRoutes.FieldListsAgree | express_server/routes/employee.js:76 | the list, create and login field lists name the same five properties, none of them the password |
| EmployeeRoutes.ListResponse | express_server/routes/employee.js:135 | the list and search responses are 200 with one projected row per employee, each row exactly the `pick` of its employee over `_id`, username, fullName, mobile and level, never holding the password |
| EmployeeRoutes.ListResponseKeepsProfile | express_server/routes/employee.js:38 | a row carries each of its employee's `_id`, username, fullName, mobile and level unchanged whenever the employee has it, as the list test expects the usernames back (tests/integration/employee.test.js:32-51) |
| EmployeeRoutes.CreateEmployee | express_server/routes/employee.js:51-82 | a Joi failure or a taken username is refused with 400 before anything is saved; otherwise the document handed to the save holds exactly the body's username, level, fullName, mobile and password, and 201 is sent with the `pick` of the saved employee over the create field list, which never holds the password |
| EmployeeRoutes.CreateEmployeeEchoesProfile | express_server/routes/employee.js:65-76 | when the save hands back the body's username, fullName, mobile or level, the 201 response repeats it and holds no password, as the registration test expects (tests/integration/employee.test.js:131-148) |
| EmployeeRoutes.Login | express_server/routes/employee.js:86-122 | an unknown username gets 400; a match gets 200 with the projection, never the password; a mismatch gets 401; no response when `validateLogin` never calls back |
| EmployeeRoutes.LoginVanishedEmployee | express_server/routes/employee.js:97-113 | an employee removed between the two lookups gets 200 with an empty record, since status 400 is not tested for |
| EmployeeRoutes.GetEmployee | express_server/routes/employee.js:149-166 | an unknown id gets 404; a found employee gets 200 with the projection, never the password |
| EmployeeRoutes.UpdateEmployee | express_server/routes/employee.js:170-197 | a failed edit check gets 400 with its message, a missing employee 404; the response is 201 exactly when the check passes and the update found the employee, and then it is the `pick` of the updated employee over the list field list; the password is never sent |
| EmployeeRoutes.DeleteEmployee | express_server/routes/employee.js:201-218 | no removed document gets 400 "User Not Found!"; otherwise the response is 200 with the removed document itself, unprojected, so its password goes out whenever it has one |
| Validation.FirstFailureAccepts | express_server/validateRequest.js:9-30 | a ladder of checks accepts exactly when every check passes |
| Validation.FirstFailureAt | express_server/schemas/employee.js:139-153 | the ladder reports the message of the first failing check |
| Http.WithProperty | express_server/routes/service.js:58-61 | the spread `{...body, key}` has the key with the new value and every other property of the body unchanged |

## Left out

- Mongoose, MongoDB and Express: `find`, `findOne`, `findById`, `findByIdAndUpdate`,
  `findByIdAndRemove` and `save` are not modelled; what they return is an argument, and a
  response is a status and a payload. `bulkWrite` is modelled only for what
  `saveBookingSlots` hands it: its `$setOnInsert` upserts on a store keyed by the filter
  (`BookingTimeSlot.ApplyBulk`), not its promise or its error logging.
- The 500 answers of the `catch` blocks are modelled only in `POST /bookings`
  (`BookingRoutes.CreateBookingAsWritten`), where every request reaches them. Elsewhere a
  database error or a throw is not an input, so those 500 answers are left out.
- DoctorRoutes.CreateDoctor: takes the Joi verdict as an argument, so its Created branch is
  stated for verdicts the shipped schema never gives. `validateDoctorEntry`
  (`express_server/schemas/doctor.js:42-54`) admits only name, specialization and
  workingSchedule, while the route reads startTime, endTime and workingDays. The route loads
  the lowercase `../schemas/doctor.js` (`express_server/routes/doctor.js:8`), but the tree
  also holds `express_server/schemas/Doctor.js`, a name differing only in letter case, whose
  `validateDoctorEntry` (lines 50-57) asks for exactly startTime, endTime and workingDays.
  On a case-sensitive file system the lowercase schema loads and every create request is
  refused (`DoctorRoutes.CreateDoctorUnreachableAsShipped`); on a case-insensitive one
  (the default on macOS and Windows) a checkout keeps only one of the two files, and when
  that is `Doctor.js` the Created branch is reachable. Which file survives is not modelled.
- The Joi schemas (`validateEmployee`, `validateDoctorEntry`, `validateServiceEntry`,
  `validateSpecialEntry`, `validateBookingEntry`, `validatePatientEntry` and the others):
  library semantics. Their verdict is an argument.
- `mongoose.Types.ObjectId.isValid` is an argument. Only the cases the unit tests fix are
  assumed.
- bcrypt (`genSalt`, `hash`, `compare`) and `express_server/HashSalt.js`: cryptography
  behind callbacks. The hash is a function argument and the comparison outcome a datatype.
- EmployeeSchema.EmployeeDocument.PreSave: does not model the hashing error passed to
  `next(err)`, nor the salt error thrown inside a callback. Both leave the password as it was.
- `new Date()`: the date fields of the instant are an argument (`Utils.DateFields`).
- `asyncFilter` in utils.js, the invoice routes and the other routes not listed above: they
  depend on `Promise.all` and database lookups, or they are CRUD with no logic of their own.
- The search, count, get, update and delete routes of doctors, services, specializations and
  bookings: CRUD with no logic of their own.
- The employee search's regular expression: the route sends what the database returns, and
  only the projection of those rows is modelled.
- Request logging (`requestLogger`, `console`): output only.
- `Utils.ZeroPadding` also models the copies in `express_server/schemas/patient.js:80-91`,
  `express_server/schemas/service.js:52-63` and `express_server/schemas/specialization.js:48-59`.
  They are the same code, so there is one method.
- JsNumbers.ParseInt: does not model the rounding of results above 2^53, nor `-0`.
  Every parsed number is an exact integer.
- JsValues: numbers are reals. NaN and Infinity are not body values, and `parseInt`'s NaN
  appears only as None and as `JsNum.NaN`.
- ListQuery.Query: a query value is a single string. Repeated keys, which Express turns into
  arrays, are not modelled.
- Utils.IsValidTime: takes a string. `RegExp.test` on a non-string (which converts it with
  `String(...)`) is modelled only through `DoctorRoutes.IsValidTimeValue`, which refuses
  every non-string.
- EmployeeRoutes.ListEmployees: what Mongoose does with the unknown `page` option, which it
  does not apply as an offset, is not modelled. The lemmas state only that no `skip` is passed.
- EmployeeRoutes.Login: a throw inside `validateLogin`'s callbacks never answers. It is
  modelled as None, not as the hung request.

## Findings

| source | as written | input that shows it | evidently intended | confidence | as-written member | corrected member |
|---|---|---|---|---|---|---|
| express_server/routes/booking.js:5,57,65,70 | `generateBookingId` is imported from `schemas/booking.js`, which exports only `Booking` and `validateBookingEntry` (schemas/booking.js:91-92), so calling it throws; both refusals log through the undeclared `baseUrl`, which throws before their 400 is sent; every throw is answered 500 | any POST /bookings request, e.g. one whose receptionistId is "abc" | a generated booking id; a Joi failure or an invalid receptionistId answered 400 with its message; a valid request builds the booking | not executed | BookingRoutes.CreateBookingAsWritten, BookingRoutes.BookingCreateAlwaysFails | BookingRoutes.CreateBooking |
