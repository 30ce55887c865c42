/** The billing form (`src/app/components/doctor/PatientBillingForm.tsx`):
    the treatment rows, the subtotal, total and balance, the invoice number
    drawn for a chosen patient and the patient's latest three bills kept
    for the invoice preview. */
module BillingForm {

  import opened Wrappers
  import Text
  import Lists
  import Sorting
  import Records

  /** One treatment line; prices and quantities are whole amounts. */
  datatype Row = Row(treatment: string, price: int, quantity: int)

  const BlankRow := Row("", 0, 1)

  /** The form opens with one blank row. */
  const InitialRows: seq<Row> := [BlankRow]

  /** `handleAddField`: a blank row at the end. */
  function AddRow(rows: seq<Row>): (r: seq<Row>)
    ensures |r| == |rows| + 1 && r[..|rows|] == rows && r[|rows|] == BlankRow
  {
    rows + [BlankRow]
  }

  /** `filter((_, i) => i !== index)`: the entry at `index`, if there is
      one, is dropped and the rest keep their order. */
  function RemoveAt<T>(xs: seq<T>, index: int): (r: seq<T>)
    ensures 0 <= index < |xs| ==> r == xs[..index] + xs[index + 1..]
    ensures !(0 <= index < |xs|) ==> r == xs
    decreases |xs|
  {
    if xs == [] then []
    else if index == 0 then xs[1..]
    else
      var rest := RemoveAt(xs[1..], index - 1);
      assert 0 <= index < |xs| ==> [xs[0]] + xs[1..][..index - 1] == xs[..index];
      [xs[0]] + rest
  }

  /** `handleRemoveField`: the last remaining row cannot be removed. */
  function RemoveRow(rows: seq<Row>, index: int): (r: seq<Row>)
    ensures |rows| <= 1 ==> r == rows
    ensures |rows| > 1 && 0 <= index < |rows| ==>
      |r| == |rows| - 1 && forall j :: 0 <= j < |r| ==> r[j] == rows[if j < index then j else j + 1]
    ensures |rows| > 1 && !(0 <= index < |rows|) ==> r == rows
    ensures |rows| >= 1 ==> |r| >= 1
  {
    if |rows| > 1 then RemoveAt(rows, index) else rows
  }

  /** What a change handler writes into a row. */
  datatype RowEdit = SetTreatment(text: string) | SetPrice(price: int) | SetQuantity(quantity: int)

  function Edited(row: Row, e: RowEdit): Row {
    match e
    case SetTreatment(t) => row.(treatment := t)
    case SetPrice(p) => row.(price := p)
    case SetQuantity(q) => row.(quantity := q)
  }

  /** `handleTreatmentChange`, `handlePriceChange`, `handleQuantityChange`:
      one field of one row changes, every other row and field stays. */
  function ChangeRow(rows: seq<Row>, index: int, e: RowEdit): (r: seq<Row>)
    requires 0 <= index < |rows|
    ensures |r| == |rows|
    ensures forall j :: 0 <= j < |r| && j != index ==> r[j] == rows[j]
    ensures e.SetTreatment? ==> r[index] == Row(e.text, rows[index].price, rows[index].quantity)
    ensures e.SetPrice? ==> r[index] == Row(rows[index].treatment, e.price, rows[index].quantity)
    ensures e.SetQuantity? ==> r[index] == Row(rows[index].treatment, rows[index].price, e.quantity)
  {
    rows[index := Edited(rows[index], e)]
  }

  /** The row buttons and inputs. */
  datatype Event = Add | Remove(index: int) | Change(index: int, edit: RowEdit)

  /** The inputs only exist for existing rows, so a change names one. */
  function Apply(rows: seq<Row>, e: Event): seq<Row> {
    match e
    case Add => AddRow(rows)
    case Remove(i) => RemoveRow(rows, i)
    case Change(i, edit) => if 0 <= i < |rows| then ChangeRow(rows, i, edit) else rows
  }

  function ApplyAll(rows: seq<Row>, es: seq<Event>): seq<Row>
    decreases |es|
  {
    if es == [] then rows else ApplyAll(Apply(rows, es[0]), es[1..])
  }

  /** Whatever the user does, the form keeps at least one treatment row. */
  lemma {:induction false} NeverBelowOneRow(rows: seq<Row>, es: seq<Event>)
    requires |rows| >= 1
    ensures |ApplyAll(rows, es)| >= 1
    decreases |es|
  {
    if es != [] {
      NeverBelowOneRow(Apply(rows, es[0]), es[1..]);
    }
  }

  /** Starting from the initial form in particular. */
  lemma InitialFormNeverEmpty(es: seq<Event>)
    ensures |ApplyAll(InitialRows, es)| >= 1
  {
    NeverBelowOneRow(InitialRows, es);
  }

  function LineAmount(row: Row): int {
    row.price * row.quantity
  }

  /** `subtotal`: the sum of price times quantity over the rows. */
  function Subtotal(rows: seq<Row>): int {
    Lists.SumOf(rows, LineAmount)
  }

  /** A subtotal splits at any row. */
  lemma SubtotalAt(rows: seq<Row>, i: int)
    requires 0 <= i < |rows|
    ensures Subtotal(rows) == Subtotal(rows[..i]) + LineAmount(rows[i]) + Subtotal(rows[i + 1..])
  {
    assert rows == rows[..i] + ([rows[i]] + rows[i + 1..]);
    Lists.SumAppend(rows[..i], [rows[i]] + rows[i + 1..], LineAmount);
    Lists.SumAppend([rows[i]], rows[i + 1..], LineAmount);
  }

  /** Adding a blank row leaves the subtotal unchanged. */
  lemma AddRowKeepsSubtotal(rows: seq<Row>)
    ensures Subtotal(AddRow(rows)) == Subtotal(rows)
  {
    Lists.SumAppend(rows, [BlankRow], LineAmount);
  }

  /** Removing a row takes exactly its amount off the subtotal. */
  lemma RemoveRowSubtotal(rows: seq<Row>, i: int)
    requires |rows| > 1 && 0 <= i < |rows|
    ensures Subtotal(RemoveRow(rows, i)) == Subtotal(rows) - LineAmount(rows[i])
  {
    SubtotalAt(rows, i);
    Lists.SumAppend(rows[..i], rows[i + 1..], LineAmount);
  }

  /** Changing a row replaces its amount in the subtotal and nothing else. */
  lemma ChangeRowSubtotal(rows: seq<Row>, i: int, e: RowEdit)
    requires 0 <= i < |rows|
    ensures var r := ChangeRow(rows, i, e);
      Subtotal(r) == Subtotal(rows) - LineAmount(rows[i]) + LineAmount(r[i])
  {
    var r := ChangeRow(rows, i, e);
    SubtotalAt(rows, i);
    SubtotalAt(r, i);
    assert r[..i] == rows[..i];
    assert r[i + 1..] == rows[i + 1..];
  }

  /** Removing the row just added restores the rows. */
  lemma RemoveAddedRow(rows: seq<Row>)
    requires |rows| >= 1
    ensures RemoveRow(AddRow(rows), |rows|) == rows
  {
  }

  /** `watch(x) || 0`: an empty or zero field reads as 0. */
  function OrZero(x: Option<int>): (r: int)
    ensures x.None? ==> r == 0
    ensures x.Some? ==> r == x.value
  {
    match x
    case None => 0
    case Some(v) => if v == 0 then 0 else v
  }

  /** `total`: the subtotal less the discount. */
  function Total(rows: seq<Row>, discount: Option<int>): int {
    Subtotal(rows) - OrZero(discount)
  }

  /** The balance shown: the total less the amount received. */
  function BalanceDue(rows: seq<Row>, discount: Option<int>, received: Option<int>): (b: int)
    ensures b + OrZero(received) + OrZero(discount) == Subtotal(rows)
    ensures b == Subtotal(rows) - OrZero(discount) - OrZero(received)
  {
    Total(rows, discount) - OrZero(received)
  }

  /** With non-negative prices and quantities and nothing deducted, nothing is
      owed back: the balance is the subtotal and not negative. */
  lemma BalanceOfUndiscounted(rows: seq<Row>)
    requires forall i :: 0 <= i < |rows| ==> rows[i].price >= 0 && rows[i].quantity >= 0
    ensures BalanceDue(rows, None, None) == Subtotal(rows) >= 0
  {
    Lists.SumNonNegative(rows, LineAmount);
  }

  /** The invoice number: the patient's printed id, a dash and a six-digit
      number `draw + 100000`, where `draw` is the random draw
      `Math.floor(Math.random() * 900000)`. */
  function InvoiceId(code: string, draw: nat): (r: string)
    requires draw < 900000
    ensures |r| == |code| + 7 && r[..|code|] == code && r[|code|] == '-'
    ensures forall i :: |code| < i < |r| ==> Text.IsDigit(r[i])
    ensures Text.DigitsValue(r[|code| + 1..]) == draw + 100000
  {
    var n := draw + 100000;
    Text.SixDigits(n);
    Text.NatToStringRoundTrip(n);
    var r := code + "-" + Text.NatToString(n);
    assert r[|code| + 1..] == Text.NatToString(n);
    r
  }

  /** Two draws give the same invoice number for a patient only when they
      are the same draw. */
  lemma InvoiceIdInjective(code: string, a: nat, b: nat)
    requires a < 900000 && b < 900000
    requires InvoiceId(code, a) == InvoiceId(code, b)
    ensures a == b
  {
    var x := InvoiceId(code, a);
    assert x[|code| + 1..] == InvoiceId(code, b)[|code| + 1..];
  }

  datatype Address = Address(street: string, city: string, state: string, postalCode: string)

  /** The address line: street, city, state, then a dash and the postal code. */
  function AddressLine(a: Address): (r: string)
    ensures Text.StartsWith(r, a.street + ", ")
    ensures Text.EndsWith(r, " - " + a.postalCode)
    ensures |r| == |a.street| + |a.city| + |a.state| + |a.postalCode| + 7
  {
    var r := a.street + ", " + a.city + ", " + a.state + " - " + a.postalCode;
    assert r[..|a.street + ", "|] == a.street + ", ";
    assert r[|r| - |" - " + a.postalCode|..] == " - " + a.postalCode;
    r
  }

  /** The patient as the billing form reads it. */
  datatype Patient = Patient(
    id: string,
    patientCode: string,
    fullName: string,
    contactNumber: string,
    gender: string,
    email: string,
    address: Option<Address>)

  /** The header fields of the form. */
  datatype Header = Header(
    patientName: string,
    contactNumber: string,
    patientId: string,
    hiddenPatientId: string,
    gender: string,
    email: string,
    address: string,
    invoiceId: string)

  /** What choosing a patient writes into the header; the address is only
      overwritten when the patient has one. */
  function FillHeader(h: Header, p: Patient, draw: nat): (r: Header)
    requires draw < 900000
    ensures r.patientName == p.fullName && r.patientId == p.patientCode && r.hiddenPatientId == p.id
    ensures p.address.None? ==> r.address == h.address
    ensures p.address.Some? ==> r.address == AddressLine(p.address.value)
    ensures r.contactNumber == p.contactNumber && r.gender == p.gender && r.email == p.email
    ensures Text.StartsWith(r.invoiceId, p.patientCode + "-")
    ensures r.invoiceId == InvoiceId(p.patientCode, draw)
  {
    var inv := InvoiceId(p.patientCode, draw);
    assert inv[..|p.patientCode + "-"|] == p.patientCode + "-";
    Header(p.fullName, p.contactNumber, p.patientCode, p.id, p.gender, p.email,
           if p.address.Some? then AddressLine(p.address.value) else h.address,
           inv)
  }

  /** A stored bill: its patient's `_id`, its creation time in milliseconds
      and its fields. */
  datatype Bill = Bill(patientId: string, createdAt: int, fields: Records.Record)

  function CreatedKey(b: Bill): Sorting.Key {
    Sorting.Num(b.createdAt)
  }

  function Mine(bills: seq<Bill>, patientId: string): (r: seq<Bill>)
    ensures forall b :: b in r <==> b in bills && b.patientId == patientId
  {
    Lists.Filter(bills, (b: Bill) => b.patientId == patientId)
  }

  /** `latestThreeBillings`: the patient's bills, newest first, at most three. */
  function LatestThree(bills: seq<Bill>, patientId: string): (r: seq<Bill>)
    ensures |r| == if |Mine(bills, patientId)| < 3 then |Mine(bills, patientId)| else 3
    ensures forall b :: b in r ==> b in bills && b.patientId == patientId
    ensures forall i, j :: 0 <= i < j < |r| ==> r[i].createdAt >= r[j].createdAt
    ensures forall b, k :: b in bills && b.patientId == patientId && b !in r && 0 <= k < |r| ==> b.createdAt <= r[k].createdAt
    ensures multiset(r) <= multiset(Mine(bills, patientId))
    ensures r == Sorting.SortBy(Mine(bills, patientId), CreatedKey, true)[..|r|]
  {
    var mine := Mine(bills, patientId);
    var r := Sorting.Top(mine, CreatedKey, 3);
    NewestFirst(mine, r);
    r
  }

  /** Keys compared as `createdAt` timestamps. */
  lemma NewestFirst(mine: seq<Bill>, r: seq<Bill>)
    requires forall i, j :: 0 <= i < j < |r| ==> Sorting.Le(CreatedKey(r[j]), CreatedKey(r[i]))
    requires forall x, k :: x in mine && x !in r && 0 <= k < |r| ==> Sorting.Le(CreatedKey(x), CreatedKey(r[k]))
    ensures forall i, j :: 0 <= i < j < |r| ==> r[i].createdAt >= r[j].createdAt
    ensures forall x, k :: x in mine && x !in r && 0 <= k < |r| ==> x.createdAt <= r[k].createdAt
  {
  }

  /** The history saved for the preview: the latest three bills with their
      `null` and `undefined` fields dropped. */
  function History(bills: seq<Bill>, patientId: string): (r: seq<Records.Record>)
    ensures |r| <= 3
    ensures |r| == |LatestThree(bills, patientId)|
    ensures forall i :: 0 <= i < |r| ==> r[i] == Records.Sanitize(LatestThree(bills, patientId)[i].fields)
  {
    SanitizeAll(LatestThree(bills, patientId))
  }

  function SanitizeAll(bills: seq<Bill>): (r: seq<Records.Record>)
    ensures |r| == |bills|
    ensures forall i :: 0 <= i < |r| ==> r[i] == Records.Sanitize(bills[i].fields)
  {
    if bills == [] then [] else [Records.Sanitize(bills[0].fields)] + SanitizeAll(bills[1..])
  }
}
