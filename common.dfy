/** Values shared by every part of the model. */
module Common {

  /** A nullable value: a form field that may be absent, a nullable column. */
  datatype Option<+T> = None | Some(value: T)

  /** Python truthiness of a form value: present and not the empty string. */
  predicate Filled(s: Option<string>) {
    s.Some? && s.value != ""
  }

  /** The `x or None` idiom: an empty or absent form value is stored as NULL. */
  function OrNone(s: Option<string>): (r: Option<string>)
    ensures r.Some? <==> Filled(s)
    ensures r.Some? ==> r == s
  {
    if Filled(s) then s else None
  }
}
