/** Patient look-up shared by the appointment booking form, the add-lab-work
    form and the patient records page: the patient record as these screens
    use it, the type-ahead suggestions and the records page's search mode
    and selection (`src/app/dashboard/pages/Doctor/patientRecords/page.tsx`). */
module Patients {

  import opened Wrappers
  import Text
  import Lists

  /** `_id` is the database key, `patientCode` the clinic's printed id
      (`PatientId`, e.g. "ES0042"). */
  datatype Patient = Patient(id: string, patientCode: string, fullName: string, contactNumber: Option<string>)

  /** Name or printed id contains the query, ignoring case. */
  predicate NameOrCodeMatches(p: Patient, query: string) {
    Text.ContainsIgnoringCase(p.fullName, query) || Text.ContainsIgnoringCase(p.patientCode, query)
  }

  /** The type-ahead list of the booking and add-lab-work forms: nothing
      for an empty query, otherwise the matching patients in order. */
  function Suggestions(patients: seq<Patient>, query: string): (r: seq<Patient>)
    ensures query == "" ==> r == []
    ensures query != "" ==> forall p :: p in r <==> p in patients && NameOrCodeMatches(p, query)
    ensures Lists.IsSubsequence(r, patients)
  {
    if query == "" then [] else Lists.Filter(patients, (p: Patient) => NameOrCodeMatches(p, query))
  }

  /** A non-empty query suggests every patient whose name it occurs in. */
  lemma SuggestionsKeepNameMatches(patients: seq<Patient>, query: string, p: Patient)
    requires query != "" && p in patients && Text.ContainsIgnoringCase(p.fullName, query)
    ensures p in Suggestions(patients, query)
  {
  }

  /** The records page searches by printed id when the input starts with
      "ES" or with a digit, and by name otherwise. */
  predicate IdMode(input: string) {
    Text.StartsWith(input, "ES") || (|input| > 0 && Text.IsDigit(input[0]))
  }

  predicate RecordMatches(p: Patient, input: string) {
    if IdMode(input) then Text.ContainsIgnoringCase(p.patientCode, input)
    else Text.ContainsIgnoringCase(p.fullName, input)
  }

  /** The records page's state. */
  datatype RecordsPage = RecordsPage(input: string, suggestions: seq<Patient>, selected: Option<Patient>)

  const InitialRecordsPage := RecordsPage("", [], None)

  /** `handleSearchChange`: the input is replaced and the suggestions are
      the patients matching in the mode the input selects. */
  function SearchChange(page: RecordsPage, patients: seq<Patient>, input: string): (r: RecordsPage)
    ensures r.input == input && r.selected == page.selected
    ensures forall p :: p in r.suggestions <==> p in patients && RecordMatches(p, input)
    ensures IdMode(input) ==> forall p :: p in r.suggestions ==> Text.ContainsIgnoringCase(p.patientCode, input)
    ensures !IdMode(input) ==> forall p :: p in r.suggestions ==> Text.ContainsIgnoringCase(p.fullName, input)
    ensures Lists.IsSubsequence(r.suggestions, patients)
  {
    page.(input := input, suggestions := Lists.Filter(patients, (p: Patient) => RecordMatches(p, input)))
  }

  /** An input in id mode never matches on the name alone. */
  lemma IdModeIgnoresNames(patients: seq<Patient>, page: RecordsPage, p: Patient)
    requires p in patients && Text.StartsWith(p.fullName, "ES")
    requires !Text.ContainsIgnoringCase(p.patientCode, p.fullName)
    ensures p !in SearchChange(page, patients, p.fullName).suggestions
  {
  }

  /** `handleSelectSuggestion`. */
  function SelectSuggestion(page: RecordsPage, p: Patient): (r: RecordsPage)
    ensures r.selected == Some(p) && r.input == p.fullName && r.suggestions == []
  {
    RecordsPage(p.fullName, [], Some(p))
  }

  /** The `patientId` query parameter selects the patient with that `_id`
      (the first, should there be several); an empty parameter, an empty
      list or no match leaves the selection alone. */
  function SelectFromQuery(page: RecordsPage, patients: seq<Patient>, patientId: Option<string>): (r: RecordsPage)
    ensures r.input == page.input && r.suggestions == page.suggestions
    ensures r.selected != page.selected ==>
      patientId.Some? && exists i :: 0 <= i < |patients| && patients[i].id == patientId.value && r.selected == Some(patients[i])
    ensures patientId.Some? && patientId.value != "" && (exists i :: 0 <= i < |patients| && patients[i].id == patientId.value) ==>
      r.selected.Some? && r.selected.value in patients && r.selected.value.id == patientId.value
  {
    if patientId.None? || patientId.value == "" || |patients| == 0 then page
    else
      match FindById(patients, patientId.value)
      case Some(p) => page.(selected := Some(p))
      case None => page
  }

  /** The first patient with the given `_id`. */
  function FindById(patients: seq<Patient>, id: string): (r: Option<Patient>)
    ensures r.Some? ==> r.value in patients && r.value.id == id
    ensures r.Some? ==> exists i :: 0 <= i < |patients| && patients[i] == r.value && forall j :: 0 <= j < i ==> patients[j].id != id
    ensures r.None? <==> forall i :: 0 <= i < |patients| ==> patients[i].id != id
  {
    if patients == [] then None
    else if patients[0].id == id then Some(patients[0])
    else
      var rest := FindById(patients[1..], id);
      if rest.Some? then
        var i :| 0 <= i < |patients[1..]| && patients[1..][i] == rest.value && forall j :: 0 <= j < i ==> patients[1..][j].id != id;
        assert patients[i + 1] == rest.value;
        rest
      else rest
  }

  /** "Back to List" clears the selection and the input. */
  function BackToList(page: RecordsPage): (r: RecordsPage)
    ensures r.selected.None? && r.input == "" && r.suggestions == page.suggestions
  {
    page.(selected := None, input := "")
  }
}
