/** Settlement states of an order status record, as strings on the wire and as
    an enumeration in the model, and the colour family each screen gives them. */
module Status {

  /** `pending | success | failed`, plus any other string a record might hold. */
  datatype Status = Pending | Success | Failed | Other(text: string)

  /** The wire spelling of a status. */
  function StatusText(st: Status): string {
    match st
    case Pending => "pending"
    case Success => "success"
    case Failed => "failed"
    case Other(t) => t
  }

  /** A status in its one canonical form: `Other` never carries a known keyword. */
  predicate Canonical(st: Status) {
    st.Other? ==> st.text != "pending" && st.text != "success" && st.text != "failed"
  }

  /** Reads a wire string, matching the three keywords exactly (case-sensitively). */
  function ParseStatus(s: string): (st: Status)
    ensures Canonical(st)
    ensures StatusText(st) == s
    ensures st == Success <==> s == "success"
    ensures st == Pending <==> s == "pending"
    ensures st == Failed <==> s == "failed"
  {
    if s == "pending" then Pending
    else if s == "success" then Success
    else if s == "failed" then Failed
    else Other(s)
  }

  /** Printing and then reading a canonical status gives it back. */
  lemma ParseStatusText(st: Status)
    requires Canonical(st)
    ensures ParseStatus(StatusText(st)) == st
  {
  }

  /** The colour family a status is drawn in (green, red, yellow, or the neutral gray). */
  datatype Tone = Green | Red | Yellow | Gray
}
