/** The three severity levels a patient can attach to a reported symptom
    (backend/app.py:46, 60 and 155). Requests carry them as free strings;
    the handler accepts exactly the three spellings below. */
module Severities {
  import opened Results

  datatype Severity = Mild | Moderate | Severe

  /** The spellings the handler accepts, in the order it lists them. */
  const Accepted: seq<string> := ["Mild", "Moderate", "Severe"]

  function Name(s: Severity): string {
    match s
    case Mild => "Mild"
    case Moderate => "Moderate"
    case Severe => "Severe"
  }

  /** Reads a submitted severity: it is valid exactly when it is one of the
      accepted spellings, and the level read back is spelled as submitted. */
  function Parse(t: string): (r: Option<Severity>)
    ensures r.Some? <==> t in Accepted
    ensures r.Some? ==> Name(r.value) == t
  {
    if t == "Mild" then Some(Mild)
    else if t == "Moderate" then Some(Moderate)
    else if t == "Severe" then Some(Severe)
    else None
  }

  /** Every level's spelling is accepted and reads back as that level. */
  lemma ParseName(s: Severity)
    ensures Parse(Name(s)) == Some(s)
  {
  }
}
