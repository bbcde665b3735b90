/** express_server/schemas/specialization.js: `generateSpecializationId` and its copy of
    `zeroPadding`. The copy is the same code as the one in utils.js and is modelled by
    Utils.ZeroPadding. */
module SpecializationSchema {
  import opened JsValues
  import opened JsNumbers
  import opened Utils
  import ServiceSchema

  /** `generateSpecializationId()`: the template carries the prefix "sv", not "sp", so a
      specialization id taken at the same instant as a service id is the same string. */
  function GenerateSpecializationId(d: DateFields): (id: string)
    ensures |id| > 3 && id[..3] == "sv_" && AllDigits(id[3..])
  {
    ServiceSchema.GenerateServiceId(d)
  }

  /** Field order is year, month, day, hour, minute, second, millisecond, each read back
      from its place, and the millisecond field has two digits below 100 ms. */
  lemma SpecializationIdFields(d: DateFields)
    requires ValidDate(d) && 1000 <= d.year <= 9999
    ensures DecodeIdSuffix(GenerateSpecializationId(d)[3..]) == Some(d)
    ensures |GenerateSpecializationId(d)| == if d.milliseconds < 100 then 19 else 20
  {
    assert GenerateSpecializationId(d)[3..] == GenerateId("sv", d)[3..] == IdSuffix(d);
    IdSuffixRoundTrip(d);
    IdSuffixLength(d);
  }
}
