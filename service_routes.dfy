/** express_server/routes/service.js: the list-query normalisation of `GET /` and the
    id generated before validation in `POST /`. The Joi schema `validateServiceEntry` is not
    part of the model: it is the parameter `validate`, which answers the first detail
    message of a failed validation, or None. */
module ServiceRoutes {
  import opened JsValues
  import opened JsNumbers
  import opened Http
  import opened Utils
  import opened ListQuery
  import ServiceSchema

  /** Ten services per page, first page, by name, ascending. */
  const ServiceDefaults := Defaults("name", 1)

  /** `GET /`: the shared statements with the service defaults. */
  method ListServices(query: Query) returns (args: FindArgs)
    ensures args == ListSpec(query, ServiceDefaults)
  {
    args := NormaliseListQuery(query, ServiceDefaults);
  }

  /** `POST /`: `serviceId = generateId('sv')` at instant `d`, merged into the body, then
      the merged body is validated; a valid request builds the service from the id and the
      body's name, price and remarks. */
  function CreateService(body: Document, validate: Document -> Option<string>, d: DateFields): (o: Outcome)
    ensures var requestBody := WithProperty(body, "serviceId", Str(GenerateId("sv", d)));
      && (o.Refused? <==> validate(requestBody).Some?)
      && (o.Refused? ==> o.response == Response(400, Message(validate(requestBody).value)))
    ensures o.Created? ==>
              && o.doc.Keys == {"serviceId", "name", "price", "remarks"}
              && o.doc["serviceId"] == Str(ServiceSchema.GenerateServiceId(d))
              && o.doc["name"] == Field(body, "name") && o.doc["price"] == Field(body, "price")
              && o.doc["remarks"] == Field(body, "remarks")
  {
    var serviceId := GenerateId("sv", d);
    var requestBody := WithProperty(body, "serviceId", Str(serviceId));
    match validate(requestBody)
    case Some(message) => Refused(Response(400, Message(message)))
    case None =>
      Created(map["serviceId" := Str(serviceId), "name" := Field(body, "name"),
                  "price" := Field(body, "price"), "remarks" := Field(body, "remarks")])
  }

  /** The body that gets validated always carries the generated id, so a serviceId sent by
      the client can neither be missing nor take its place: the outcome is the same with or
      without it. */
  lemma CreateServiceIgnoresClientId(body: Document, sent: JsValue,
                                     validate: Document -> Option<string>, d: DateFields)
    ensures CreateService(body["serviceId" := sent], validate, d) == CreateService(body, validate, d)
  {
    var id := Str(GenerateId("sv", d));
    assert WithProperty(body["serviceId" := sent], "serviceId", id) == WithProperty(body, "serviceId", id);
    assert Field(body["serviceId" := sent], "name") == Field(body, "name");
    assert Field(body["serviceId" := sent], "price") == Field(body, "price");
    assert Field(body["serviceId" := sent], "remarks") == Field(body, "remarks");
  }
}
