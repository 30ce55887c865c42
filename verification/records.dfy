/** Stored documents as the screens hand them to session storage: a list of
    named values, any of which may be `null` or `undefined`. */
module Records {

  import Lists

  /** A field's value; `Present` carries its serialised form. */
  datatype Value = Undefined | Null | Present(text: string)

  type Record = seq<(string, Value)>

  predicate Kept(e: (string, Value)) {
    e.1.Present?
  }

  /** `sanitize` / `sanitizeFormData`: the entries whose value is neither
      `null` nor `undefined`, in their order. */
  function Sanitize(rec: Record): (r: Record)
    ensures forall i :: 0 <= i < |r| ==> r[i].1.Present?
    ensures forall k, v :: (k, v) in r <==> (k, v) in rec && v.Present?
    ensures Lists.IsSubsequence(r, rec)
  {
    Lists.Filter(rec, Kept)
  }

  /** A record without `null` or `undefined` values is left as it is, so
      sanitising twice is sanitising once. */
  lemma SanitizeIdempotent(rec: Record)
    ensures Sanitize(Sanitize(rec)) == Sanitize(rec)
  {
  }
}
