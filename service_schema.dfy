/** express_server/schemas/service.js: `generateServiceId` and its copy of `zeroPadding`.
    The copy is the same code as the one in utils.js and is modelled by Utils.ZeroPadding. */
module ServiceSchema {
  import opened JsValues
  import opened JsNumbers
  import opened Utils

  /** `generateServiceId()`: the same template as `generateId("sv")`. */
  function GenerateServiceId(d: DateFields): (id: string)
    ensures |id| > 3 && id[..3] == "sv_" && AllDigits(id[3..])
  {
    GenerateIdShape("sv", d);
    GenerateId("sv", d)
  }

  /** Every field after the year has at least two digits, and the millisecond field has
      exactly two below 100 ms, not three. */
  lemma ServiceIdFields(d: DateFields)
    requires ValidDate(d) && 1000 <= d.year <= 9999
    ensures DecodeIdSuffix(GenerateServiceId(d)[3..]) == Some(d)
    ensures |GenerateServiceId(d)| == if d.milliseconds < 100 then 19 else 20
  {
    assert GenerateServiceId(d)[3..] == IdSuffix(d);
    IdSuffixRoundTrip(d);
    IdSuffixLength(d);
  }
}
