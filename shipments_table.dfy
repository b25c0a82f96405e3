/** The daily shipments table (`DailyShipmentsTable`): the search over the
    listed shipments, the two ways of adding one (a scanned barcode and the
    manual form), the status badge and the counts of the printed report. */
module ShipmentsTable {
  import opened Common
  import opened Folds
  import Schema
  import Text
  import Calendar

  /** A shipment as the table receives it. */
  datatype ClientShipment = ClientShipment(customerName: string, address: string, phone: Option<string>, status: string)

  /** A customer of the manual form's selector. */
  datatype DirectoryCustomer = DirectoryCustomer(id: Id, name: string, address: Option<string>, phone: Option<string>)

  /** The body the table posts to `/api/shipments`. */
  datatype ShipmentRequest = ShipmentRequest(customerName: string, address: string, phone: Option<string>,
                                             status: string, createdAt: Instant)

  /** Why the manual form posts nothing: no customer is selected (a toast), or
      the selected id is not in the list (the mutation throws). */
  datatype ManualError = NoCustomerSelected | CustomerNotFound

  const BarcodeAddress: string := "عنوان تم الحصول عليه من الباركود"
  const UnknownAddress: string := "عنوان غير محدد"

  // ---------------------------------------------------------------------------
  // Search

  /** The filter's test: the name or the address contains the search ignoring
      ASCII letter case, or the phone contains it as typed. */
  predicate Matches(x: ClientShipment, search: string) {
    || Text.Contains(Text.ToLower(x.customerName), Text.ToLower(search))
    || Text.Contains(Text.ToLower(x.address), Text.ToLower(search))
    || (x.phone.Some? && Text.Contains(x.phone.value, search))
  }

  function MatchFilter(search: string): ClientShipment -> bool {
    (x: ClientShipment) => Matches(x, search)
  }

  /** The query function's search step: a blank search keeps every shipment,
      any other keeps the matching ones. */
  function Search(shipments: seq<ClientShipment>, search: string): (r: seq<ClientShipment>)
    ensures Text.IsBlank(search) ==> r == shipments
    ensures !Text.IsBlank(search) ==> forall x :: x in r <==> x in shipments && Matches(x, search)
    ensures |r| <= |shipments|
  {
    if Text.IsBlank(search) then shipments else Filter(shipments, MatchFilter(search))
  }

  /** The search keeps the listed order: its result is the input at strictly
      increasing positions. */
  lemma SearchKeepsOrder(shipments: seq<ClientShipment>, search: string)
    requires !Text.IsBlank(search)
    ensures var r := Search(shipments, search);
      var idx := FilterIndices(shipments, MatchFilter(search));
      && |idx| == |r|
      && (forall i :: 0 <= i < |idx| ==> idx[i] < |shipments| && r[i] == shipments[idx[i]])
      && (forall i, j :: 0 <= i < j < |idx| ==> idx[i] < idx[j])
  {
    FilterIndicesMeaning(shipments, MatchFilter(search));
  }

  /** Lower-casing after upper-casing is lower-casing. */
  lemma LowerOfUpper(q: string)
    ensures Text.ToLower(Text.ToUpper(q)) == Text.ToLower(q)
  {
    assert forall i :: 0 <= i < |q| ==> Text.LowerChar(Text.UpperChar(q[i])) == Text.LowerChar(q[i]);
  }

  /** Typing the search in capitals finds the same shipments by name and
      address. */
  lemma NameSearchIgnoresCase(x: ClientShipment, q: string)
    ensures Text.Contains(Text.ToLower(x.customerName), Text.ToLower(Text.ToUpper(q)))
        <==> Text.Contains(Text.ToLower(x.customerName), Text.ToLower(q))
    ensures Text.Contains(Text.ToLower(x.address), Text.ToLower(Text.ToUpper(q)))
        <==> Text.Contains(Text.ToLower(x.address), Text.ToLower(q))
  {
    LowerOfUpper(q);
  }

  /** Searching for a shipment's full customer name finds it. */
  lemma FullNameFound(shipments: seq<ClientShipment>, i: nat)
    requires i < |shipments| && !Text.IsBlank(shipments[i].customerName)
    ensures shipments[i] in Search(shipments, shipments[i].customerName)
  {
    var x := shipments[i];
    ContainsItself(Text.ToLower(x.customerName));
    assert Matches(x, x.customerName);
  }

  lemma ContainsItself(s: string)
    ensures Text.Contains(s, s)
  {
    assert s[..|s|] == s;
  }

  // ---------------------------------------------------------------------------
  // Adding a shipment

  /** `handleBarcodeScan` and the barcode mutation: nothing for a blank input,
      else an unpaid shipment under the trimmed input with the placeholder
      address, no phone, stamped now. */
  function BarcodeRequest(input: string, now: Instant): (r: Option<ShipmentRequest>)
    ensures r.None? <==> Text.IsBlank(input)
    ensures r.Some? ==>
      && r.value.customerName == Text.Trim(input) && r.value.customerName != ""
      && r.value.address == BarcodeAddress && r.value.phone == None
      && r.value.status == "unpaid" && r.value.createdAt == now
  {
    if Text.IsBlank(input) then None
    else Some(ShipmentRequest(Text.Trim(input), BarcodeAddress, None, "unpaid", now))
  }

  /** A barcode request passes the server's name-and-address check, and the
      server's own trimming stores the name and address as sent. */
  lemma BarcodeAccepted(input: string, now: Instant)
    requires !Text.IsBlank(input)
    ensures var r := BarcodeRequest(input, now).value;
      && Schema.Truthy(Some(r.customerName)) && Schema.Truthy(Some(r.address))
      && Text.Trim(r.customerName) == r.customerName
      && Text.Trim(r.address) == r.address
  {
    var r := BarcodeRequest(input, now).value;
    assert r.customerName == Text.Trim(input) && r.address == BarcodeAddress;
    TrimmedNameKept(input);
    BarcodeAddressTrimmed();
  }

  lemma TrimmedNameKept(input: string)
    requires !Text.IsBlank(input)
    ensures Schema.Truthy(Some(Text.Trim(input))) && Text.Trim(Text.Trim(input)) == Text.Trim(input)
  {
    Text.TrimIdempotent(input);
  }

  lemma BarcodeAddressTrimmed()
    ensures Schema.Truthy(Some(BarcodeAddress)) && Text.Trim(BarcodeAddress) == BarcodeAddress
  {
    var a := BarcodeAddress;
    assert a[0] == 'ع' && a[|a| - 1] == 'د';
    Text.TrimUnchanged(a);
  }

  /** `customers.find((c) => c.id === customerId)`: the first customer with
      the id. */
  function FindCustomer(customers: seq<DirectoryCustomer>, id: Id): (r: Option<DirectoryCustomer>)
    ensures r.None? <==> forall c :: c in customers ==> c.id != id
    ensures r.Some? ==> exists i :: 0 <= i < |customers| && customers[i] == r.value && r.value.id == id
                          && forall j :: 0 <= j < i ==> customers[j].id != id
  {
    if customers == [] then None
    else if customers[0].id == id then
      assert customers[0] == customers[0];
      Some(customers[0])
    else
      var r := FindCustomer(customers[1..], id);
      assert forall c :: c in customers ==> c == customers[0] || c in customers[1..];
      if r.Some? then
        var i :| 0 <= i < |customers| - 1 && customers[1..][i] == r.value && r.value.id == id
                  && forall j :: 0 <= j < i ==> customers[1..][j].id != id;
        assert customers[i + 1] == r.value;
        r
      else r
  }

  /** `handleManualShipmentAdd` and the manual mutation. `selected` is the
      selector's value (`None` for the empty string), `date` the day number of
      the date field, which `new Date("YYYY-MM-DD")` reads as UTC midnight. */
  function ManualRequest(customers: seq<DirectoryCustomer>, selected: Option<Id>, status: string, date: int): (r: Result<ShipmentRequest, ManualError>)
    ensures r == Err(NoCustomerSelected) <==> selected.None?
    ensures r == Err(CustomerNotFound) <==>
      selected.Some? && forall c :: c in customers ==> c.id != selected.value
    ensures r.Ok? ==>
      var c := FindCustomer(customers, selected.value).value;
      && c in customers && c.id == selected.value
      && r.value.customerName == c.name
      && (Schema.Truthy(c.address) ==> r.value.address == c.address.value)
      && (!Schema.Truthy(c.address) ==> r.value.address == UnknownAddress)
      && r.value.phone == (if Schema.Truthy(c.phone) then c.phone else None)
      && r.value.status == status
      && r.value.createdAt == Calendar.Midnight(date)
  {
    if selected.None? then Err(NoCustomerSelected)
    else
      match FindCustomer(customers, selected.value)
      case None => Err(CustomerNotFound)
      case Some(c) =>
        Ok(ShipmentRequest(c.name,
                           if Schema.Truthy(c.address) then c.address.value else UnknownAddress,
                           if Schema.Truthy(c.phone) then c.phone else None,
                           status, Calendar.Midnight(date)))
  }

  /** A manual request always carries an address the server accepts, so the
      server refuses it only for a customer with an empty name. */
  lemma ManualAddressAccepted(customers: seq<DirectoryCustomer>, selected: Option<Id>, status: string, date: int)
    requires ManualRequest(customers, selected, status, date).Ok?
    ensures var r := ManualRequest(customers, selected, status, date).value;
      && Schema.Truthy(Some(r.address))
      && (Schema.Truthy(Some(r.customerName)) <==> r.customerName != "")
  {
  }

  /** The date field starts on today's UTC date, so a manual shipment added
      without changing it is stamped at most a day before now. */
  lemma DefaultDateIsToday(customers: seq<DirectoryCustomer>, selected: Option<Id>, status: string, now: Instant)
    requires ManualRequest(customers, selected, status, Calendar.DayOf(now, 0)).Ok?
    ensures var t := ManualRequest(customers, selected, status, Calendar.DayOf(now, 0)).value.createdAt;
      t <= now < t + Calendar.MsPerDay
  {
  }

  // ---------------------------------------------------------------------------
  // Status badge and counts

  const PaidText: string := "دفع"
  const UnpaidText: string := "لم يدفع بعد"

  /** `getStatusText`: the label of the two known statuses, any other shown
      as stored. */
  function StatusText(status: string): (text: string)
    ensures status == "paid" ==> text == PaidText
    ensures status == "unpaid" ==> text == UnpaidText
    ensures status != "paid" && status != "unpaid" ==> text == status
  {
    if status == "paid" then PaidText
    else if status == "unpaid" then UnpaidText
    else status
  }

  /** Reading a label back: the inverse of `StatusText`. */
  function StatusOfText(text: string): string {
    if text == PaidText then "paid"
    else if text == UnpaidText then "unpaid"
    else text
  }

  /** The label determines the status, except for a stored status that is
      itself one of the two labels. */
  lemma StatusTextRoundTrip(status: string)
    requires status != PaidText && status != UnpaidText
    ensures StatusOfText(StatusText(status)) == status
  {
  }

  /** `getStatusColor`. */
  function StatusColor(status: string): (color: string)
    ensures color == "bg-green-100 text-green-800" <==> status == "paid"
    ensures color == "bg-red-100 text-red-800" <==> status == "unpaid"
    ensures color == "bg-gray-100 text-gray-800" <==> status != "paid" && status != "unpaid"
  {
    if status == "paid" then "bg-green-100 text-green-800"
    else if status == "unpaid" then "bg-red-100 text-red-800"
    else "bg-gray-100 text-gray-800"
  }

  predicate IsPaid(x: ClientShipment) { x.status == "paid" }
  predicate IsUnpaid(x: ClientShipment) { x.status == "unpaid" }
  function PaidFilter(): ClientShipment -> bool { (x: ClientShipment) => IsPaid(x) }
  function UnpaidFilter(): ClientShipment -> bool { (x: ClientShipment) => IsUnpaid(x) }

  /** The printed report's paid and unpaid counts never exceed the total, and
      add up to it when every status is one of the two. */
  lemma ReportCounts(shipments: seq<ClientShipment>)
    ensures Count(shipments, PaidFilter()) + Count(shipments, UnpaidFilter()) <= |shipments|
    ensures (forall i :: 0 <= i < |shipments| ==> IsPaid(shipments[i]) || IsUnpaid(shipments[i])) ==>
      Count(shipments, PaidFilter()) + Count(shipments, UnpaidFilter()) == |shipments|
  {
    CountDisjoint(shipments, PaidFilter(), UnpaidFilter());
  }
}
