/** express_server/routes/specialization.js: the list-query normalisation of `GET /` and
    the id generated before validation in `POST /`. The Joi schema `validateSpecialEntry`
    is the parameter `validate`, as for services. */
module SpecializationRoutes {
  import opened JsValues
  import opened JsNumbers
  import opened Http
  import opened Utils
  import opened ListQuery
  import SpecializationSchema

  /** Ten specializations per page, first page, by name, ascending. */
  const SpecializationDefaults := Defaults("name", 1)

  /** `GET /`: the shared statements with the specialization defaults. */
  method ListSpecializations(query: Query) returns (args: FindArgs)
    ensures args == ListSpec(query, SpecializationDefaults)
  {
    args := NormaliseListQuery(query, SpecializationDefaults);
  }

  /** `POST /`: `specialId = generateId('sp')` at instant `d`, merged into the body, then
      the merged body is validated; a valid request builds the specialization from the id
      and the body's name and remarks. */
  function CreateSpecialization(body: Document, validate: Document -> Option<string>,
                                d: DateFields): (o: Outcome)
    ensures var requestBody := WithProperty(body, "specialId", Str(GenerateId("sp", d)));
      && (o.Refused? <==> validate(requestBody).Some?)
      && (o.Refused? ==> o.response == Response(400, Message(validate(requestBody).value)))
    ensures o.Created? ==>
              && o.doc.Keys == {"specialId", "name", "remarks"}
              && o.doc["specialId"] == Str(GenerateId("sp", d))
              && o.doc["name"] == Field(body, "name") && o.doc["remarks"] == Field(body, "remarks")
  {
    var specialId := GenerateId("sp", d);
    var requestBody := WithProperty(body, "specialId", Str(specialId));
    match validate(requestBody)
    case Some(message) => Refused(Response(400, Message(message)))
    case None =>
      Created(map["specialId" := Str(specialId), "name" := Field(body, "name"),
                  "remarks" := Field(body, "remarks")])
  }

  /** The route's ids start with "sp_", while the schema's own generator, which the route
      does not call, writes "sv_": the two never produce the same id. */
  lemma RouteIdIsNotSchemaId(body: Document, validate: Document -> Option<string>, d: DateFields)
    requires CreateSpecialization(body, validate, d).Created?
    ensures var id := CreateSpecialization(body, validate, d).doc["specialId"].s;
      && |id| > 3 && id[..3] == "sp_" && AllDigits(id[3..])
      && id != SpecializationSchema.GenerateSpecializationId(d)
  {
    GenerateIdShape("sp", d);
    var id := GenerateId("sp", d);
    var schemaId := SpecializationSchema.GenerateSpecializationId(d);
    assert id[1] == 'p' && schemaId[1] == 'v';
  }

  /** A specialId sent by the client never changes the outcome. */
  lemma CreateSpecializationIgnoresClientId(body: Document, sent: JsValue,
                                            validate: Document -> Option<string>, d: DateFields)
    ensures CreateSpecialization(body["specialId" := sent], validate, d)
         == CreateSpecialization(body, validate, d)
  {
    var id := Str(GenerateId("sp", d));
    assert WithProperty(body["specialId" := sent], "specialId", id) == WithProperty(body, "specialId", id);
    assert Field(body["specialId" := sent], "name") == Field(body, "name");
    assert Field(body["specialId" := sent], "remarks") == Field(body, "remarks");
  }
}
