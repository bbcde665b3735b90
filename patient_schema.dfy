/** express_server/schemas/patient.js: `generatePatientId` and its copy of `zeroPadding`.
    The copy is the same code as the one in utils.js and is modelled by Utils.ZeroPadding. */
module PatientSchema {
  import opened JsValues
  import opened JsNumbers
  import opened Utils

  /** `generatePatientId()`: the same template as `generateId("pt")`. */
  function GeneratePatientId(d: DateFields): (id: string)
    ensures |id| > 3 && id[..3] == "pt_" && AllDigits(id[3..])
    ensures |id| >= 10
  {
    GenerateIdShape("pt", d);
    YearDigitsAndPadding(d);
    GenerateId("pt", d)
  }

  /** The suffix has at least a year digit and six two-digit fields. */
  lemma YearDigitsAndPadding(d: DateFields)
    ensures |GenerateId("pt", d)| >= 3 + 1 + 6 * 2
  {
    PaddedAtLeastTwo(d.monthIndex + 1);
    PaddedAtLeastTwo(d.date);
    PaddedAtLeastTwo(d.hours);
    PaddedAtLeastTwo(d.minutes);
    PaddedAtLeastTwo(d.seconds);
    PaddedAtLeastTwo(d.milliseconds);
    assert |IdSuffix(d)| == |DateDigits(d)| + |Padded(d.milliseconds)|;
  }

  /** For a valid date with a four-digit year the id reads back as the date: in particular
      characters 7..8 hold the month, getMonth() + 1, as "01".."12". */
  lemma PatientIdDecodes(d: DateFields)
    requires ValidDate(d) && 1000 <= d.year <= 9999
    ensures DecodeIdSuffix(GeneratePatientId(d)[3..]) == Some(d)
    ensures 1 <= Value(GeneratePatientId(d)[7..9], 10) <= 12
  {
    var id := GeneratePatientId(d);
    assert id[3..] == IdSuffix(d);
    IdSuffixRoundTrip(d);
    assert id[7..9] == id[3..][4..6];
  }

  /** The millisecond field is padded to two places only: the id has 19 characters below
      100 ms and 20 from 100 ms on. */
  lemma PatientIdLength(d: DateFields)
    requires ValidDate(d) && 1000 <= d.year <= 9999
    ensures |GeneratePatientId(d)| == if d.milliseconds < 100 then 19 else 20
  {
    IdSuffixLength(d);
  }
}
