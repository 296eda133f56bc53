/**
  From the accounting program's bill reports to the shop's server
  (server/bridge/tally_sender.py: parse_bills, build_payload, send).

  A report is the run of its elements in document order, each with its text already read:
  dates as day numbers, amounts as reals, None where reading fails. Names and bill numbers
  are opaque; BLANK is the empty one.
*/
module TallySync {
  import opened Basics

  const BLANK: nat := 0

  /** BILLFIXED, BILLCL and BILLDUE elements; all others are Plain. */
  datatype Element =
    | Fixed(date: Option<int>, number: nat, party: nat)
    | Closing(amount: Option<real>)
    | Due(date: Option<int>)
    | Plain

  datatype Bill = Bill(date: Option<int>, number: nat, party: nat, amount: real, due: Option<int>)

  function Abs(x: real): real {
    if x >= 0.0 then x else -x
  }

  predicate Usable(b: Bill) {
    b.party != BLANK && b.number != BLANK && b.amount > 0.0 && b.date.Some?
  }

  // ---------------------------------------------------------------- reading a report

  predicate AllUsable(bills: seq<Bill>) {
    forall b <- bills :: Usable(b)
  }

  function Usables(bills: seq<Bill>): seq<Bill> {
    if bills == [] then []
    else
      var n := |bills| - 1;
      Usables(bills[..n]) + if Usable(bills[n]) then [bills[n]] else []
  }

  /** The amount of the last closing balance between two places, or zero. */
  function LastAmount(report: seq<Element>, from: nat, end: nat): real
    requires from <= end <= |report|
  {
    if from == end then 0.0
    else
      match report[end - 1]
      case Closing(Some(x)) => Abs(x)
      case Closing(None) => 0.0
      case _ => LastAmount(report, from, end - 1)
  }

  function LastDue(report: seq<Element>, from: nat, end: nat): Option<int>
    requires from <= end <= |report|
  {
    if from == end then None
    else
      match report[end - 1]
      case Due(d) => d
      case _ => LastDue(report, from, end - 1)
  }

  /** The first marker at or after a place, or the end. */
  function NextMarker(report: seq<Element>, from: nat, end: nat): (j: nat)
    requires from <= end <= |report|
    ensures from <= j <= end && (j < end ==> report[j].Fixed?)
    ensures forall k :: from <= k < j ==> !report[k].Fixed?
    decreases end - from
  {
    if from == end || report[from].Fixed? then from else NextMarker(report, from + 1, end)
  }

  /** The bill of a marker: what it says itself and what follows it up to the next marker. */
  function BillAt(report: seq<Element>, i: nat, end: nat): Bill
    requires i < end <= |report| && report[i].Fixed?
  {
    var stop := NextMarker(report, i + 1, end);
    Bill(report[i].date, report[i].number, report[i].party,
         LastAmount(report, i + 1, stop), LastDue(report, i + 1, stop))
  }

  /** One bill for each marker, in order; what comes before the first marker belongs to none. */
  function Split(report: seq<Element>, from: nat, end: nat): seq<Bill>
    requires from <= end <= |report|
    decreases end - from
  {
    if from == end then []
    else if report[from].Fixed? then [BillAt(report, from, end)] + Split(report, from + 1, end)
    else Split(report, from + 1, end)
  }

  /** The effect of an element on the bill that is being read. */
  function Amend(b: Bill, e: Element): Bill {
    match e
    case Closing(Some(x)) => b.(amount := Abs(x))
    case Closing(None) => b.(amount := 0.0)
    case Due(d) => b.(due := d)
    case _ => b
  }

  function AmendLast(bills: seq<Bill>, e: Element): seq<Bill> {
    if bills == [] then [] else bills[..|bills| - 1] + [Amend(bills[|bills| - 1], e)]
  }

  /** The bills read so far after one element more. */
  function Extend(bills: seq<Bill>, e: Element): seq<Bill> {
    match e
    case Fixed(d, n, p) => bills + [Bill(d, n, p, 0.0, None)]
    case _ => AmendLast(bills, e)
  }

  /** The reference reading of a whole report. */
  function Read(report: seq<Element>): seq<Bill> {
    Split(report, 0, |report|)
  }

  lemma BillAtGrows(report: seq<Element>, i: nat, end: nat)
    requires i < end < |report| && report[i].Fixed?
    ensures BillAt(report, i, end + 1)
            == if NextMarker(report, i + 1, end) < end then BillAt(report, i, end)
               else if report[end].Fixed? then BillAt(report, i, end)
               else Amend(BillAt(report, i, end), report[end])
  {
    NextMarkerGrows(report, i + 1, end);
  }

  lemma {:induction false} NextMarkerGrows(report: seq<Element>, from: nat, end: nat)
    requires from <= end < |report|
    ensures NextMarker(report, from, end + 1)
            == if NextMarker(report, from, end) < end then NextMarker(report, from, end)
               else if report[end].Fixed? then end else end + 1
    decreases end - from
  {
    if from < end && !report[from].Fixed? {
      NextMarkerGrows(report, from + 1, end);
    }
  }

  lemma {:induction false} NoMarkerNoBill(report: seq<Element>, from: nat, end: nat)
    requires from <= end <= |report|
    ensures Split(report, from, end) == [] <==> NextMarker(report, from, end) == end
    decreases end - from
  {
    if from < end && !report[from].Fixed? {
      NoMarkerNoBill(report, from + 1, end);
    }
  }

  lemma SplitHead(report: seq<Element>, from: nat, end: nat)
    requires from < end <= |report|
    ensures Split(report, from, end)
            == if report[from].Fixed? then [BillAt(report, from, end)] + Split(report, from + 1, end)
               else Split(report, from + 1, end)
  {
  }

  lemma ExtendCons(b: Bill, bills: seq<Bill>, e: Element)
    ensures Extend([b] + bills, e)
            == if bills == [] && !e.Fixed? then [Amend(b, e)] else [b] + Extend(bills, e)
  {
    if bills != [] && !e.Fixed? {
      assert ([b] + bills)[..|bills|] == [b] + bills[..|bills| - 1];
    }
  }

  /** One element more: a marker opens a bill, anything else touches the last bill only. */
  lemma {:induction false} SplitGrows(report: seq<Element>, from: nat, end: nat)
    requires from <= end < |report|
    ensures Split(report, from, end + 1) == Extend(Split(report, from, end), report[end])
    decreases end - from
  {
    if from == end {
      OneElement(report, end);
    } else {
      hide Split, Extend;
      SplitGrows(report, from + 1, end);
      SplitHead(report, from, end);
      SplitHead(report, from, end + 1);
      if report[from].Fixed? {
        GrowsAfterMarker(report, from, end);
      }
    }
  }

  lemma OneElement(report: seq<Element>, end: nat)
    requires end < |report|
    ensures Split(report, end, end) == [] && Split(report, end, end + 1) == Extend([], report[end])
  {
    assert Split(report, end + 1, end + 1) == [];
  }

  lemma GrowsAfterMarker(report: seq<Element>, from: nat, end: nat)
    requires from < end < |report| && report[from].Fixed?
    requires Split(report, from + 1, end + 1) == Extend(Split(report, from + 1, end), report[end])
    ensures [BillAt(report, from, end + 1)] + Split(report, from + 1, end + 1)
            == Extend([BillAt(report, from, end)] + Split(report, from + 1, end), report[end])
  {
    var b, rest, e := BillAt(report, from, end), Split(report, from + 1, end), report[end];
    BillGrows(report, from, end);
    ExtendCons(b, rest, e);
    NothingExtended(e);
    hide Split, Extend, BillAt, Amend;
  }

  lemma NothingExtended(e: Element)
    ensures !e.Fixed? ==> Extend([], e) == []
  {
  }

  /** A bill is amended exactly while it is the last one. */
  lemma BillGrows(report: seq<Element>, from: nat, end: nat)
    requires from < end < |report| && report[from].Fixed?
    ensures BillAt(report, from, end + 1)
            == if Split(report, from + 1, end) == [] && !report[end].Fixed?
               then Amend(BillAt(report, from, end), report[end])
               else BillAt(report, from, end)
  {
    hide Split, BillAt, Amend;
    BillAtGrows(report, from, end);
    NoMarkerNoBill(report, from + 1, end);
  }

  method ParseBills(report: seq<Element>) returns (bills: seq<Bill>)
    ensures bills == Usables(Read(report))
  {
    var all: seq<Bill> := [];
    for i := 0 to |report|
      invariant all == Split(report, 0, i)
    {
      SplitGrows(report, 0, i);
      match report[i] {
        case Fixed(date, number, party) =>
          all := all + [Bill(date, number, party, 0.0, None)];
        case Closing(amount) =>
          if all != [] {
            var last := |all| - 1;
            all := all[..last] + [all[last].(amount := if amount.Some? then Abs(amount.value) else 0.0)];
          }
        case Due(date) =>
          if all != [] {
            var last := |all| - 1;
            all := all[..last] + [all[last].(due := date)];
          }
        case Plain =>
          assert all != [] ==> all[..|all| - 1] + [all[|all| - 1]] == all;
      }
    }
    bills := [];
    for i := 0 to |all|
      invariant bills == Usables(all[..i])
    {
      assert all[..i + 1][..i] == all[..i];
      if Usable(all[i]) {
        bills := bills + [all[i]];
      }
    }
    assert all[..|all|] == all;
  }

  /** Exactly the usable bills are kept. */
  lemma {:induction false} UsablesMeaning(bills: seq<Bill>)
    ensures forall b :: b in Usables(bills) <==>
              b in bills && b.party != BLANK && b.number != BLANK && b.amount > 0.0 && b.date != None
    ensures AllUsable(bills) ==> Usables(bills) == bills
    decreases |bills|
  {
    if bills != [] {
      var n := |bills| - 1;
      UsablesMeaning(bills[..n]);
      assert bills == bills[..n] + [bills[n]];
    }
  }

  /** Usable bills keep their order. */
  lemma {:induction false} UsablesAppend(a: seq<Bill>, b: seq<Bill>)
    ensures Usables(a + b) == Usables(a) + Usables(b)
    decreases |b|
  {
    hide Usable;
    if b == [] {
      assert a + b == a;
    } else {
      assert (a + b)[..|a + b| - 1] == a + b[..|b| - 1];
      UsablesAppend(a, b[..|b| - 1]);
    }
  }

  // ---------------------------------------------------------------- what a reading says

  /** How many bills begin before a place. */
  function Markers(report: seq<Element>, end: nat): nat
    requires end <= |report|
  {
    if end == 0 then 0 else Markers(report, end - 1) + if report[end - 1].Fixed? then 1 else 0
  }

  /** The amount is the size of the last closing balance in a stretch, zero without one or if it cannot be read. */
  ghost predicate LastBalance(report: seq<Element>, from: nat, stop: nat, amount: real)
    requires from <= stop <= |report|
  {
    || (amount == 0.0 && forall k :: from <= k < stop ==> !report[k].Closing?)
    || exists k :: from <= k < stop && report[k].Closing? && (forall j :: k < j < stop ==> !report[j].Closing?)
                   && match report[k].amount
                      case None => amount == 0.0
                      case Some(x) => amount >= 0.0 && (amount == x || amount == -x)
  }

  /** The date is that of the last due element in a stretch, none without one or if it cannot be read. */
  ghost predicate LastDate(report: seq<Element>, from: nat, stop: nat, due: Option<int>)
    requires from <= stop <= |report|
  {
    || (due == None && forall k :: from <= k < stop ==> !report[k].Due?)
    || exists k :: from <= k < stop && report[k] == Due(due) && forall j :: k < j < stop ==> !report[j].Due?
  }

  lemma {:induction false} LastAmountMeaning(report: seq<Element>, from: nat, end: nat)
    requires from <= end <= |report|
    ensures LastBalance(report, from, end, LastAmount(report, from, end))
    decreases end - from
  {
    if from < end && !report[end - 1].Closing? {
      LastAmountMeaning(report, from, end - 1);
    }
  }

  lemma {:induction false} LastDueMeaning(report: seq<Element>, from: nat, end: nat)
    requires from <= end <= |report|
    ensures LastDate(report, from, end, LastDue(report, from, end))
    decreases end - from
  {
    if from < end && !report[end - 1].Due? {
      LastDueMeaning(report, from, end - 1);
    }
  }

  lemma {:induction false} SplitAt(report: seq<Element>, from: nat, i: nat)
    requires from <= i <= |report|
    ensures |Split(report, from, |report|)| == Markers(report, |report|) - Markers(report, from)
    ensures Markers(report, from) <= Markers(report, i) <= Markers(report, |report|)
    ensures i < |report| && report[i].Fixed? ==>
              var k := Markers(report, i) - Markers(report, from);
              k < |Split(report, from, |report|)| && Split(report, from, |report|)[k] == BillAt(report, i, |report|)
    decreases |report| - from
  {
    hide BillAt;
    if from < |report| {
      assert Markers(report, from + 1) == Markers(report, from) + if report[from].Fixed? then 1 else 0;
      SplitAt(report, from + 1, if i == from then from + 1 else i);
    }
  }

  /**
    A whole report reads as one bill for each marker, in order: what the marker says, with the
    last balance and the last due date before the next marker or the end.
  */
  lemma ReadMeaning(report: seq<Element>, i: nat, stop: nat)
    requires i < stop <= |report| && report[i].Fixed?
    requires (stop == |report| || report[stop].Fixed?) && forall k :: i < k < stop ==> !report[k].Fixed?
    ensures |Read(report)| == Markers(report, |report|) && Markers(report, i) < |Read(report)|
    ensures var b := Read(report)[Markers(report, i)];
            && Fixed(b.date, b.number, b.party) == report[i]
            && LastBalance(report, i + 1, stop, b.amount) && LastDate(report, i + 1, stop, b.due)
  {
    SplitAt(report, 0, i);
    assert NextMarker(report, i + 1, |report|) == stop;
    LastAmountMeaning(report, i + 1, stop);
    LastDueMeaning(report, i + 1, stop);
    hide Split, LastAmount, LastDue, LastBalance, LastDate;
  }

  // ---------------------------------------------------------------- writing and reading back

  /** What is read up to a place depends on nothing after it. */
  lemma {:induction false} SplitOfPrefix(report: seq<Element>, more: seq<Element>, from: nat)
    requires from <= |report|
    ensures Split(report + more, from, |report|) == Split(report, from, |report|)
    decreases |report| - from
  {
    if from < |report| {
      SplitOfPrefix(report, more, from + 1);
      if report[from].Fixed? {
        MarkerOfPrefix(report, more, from + 1);
        var stop := NextMarker(report, from + 1, |report|);
        LastsOfPrefix(report, more, from + 1, stop);
        hide NextMarker, LastAmount, LastDue;
      }
    }
  }

  lemma {:induction false} MarkerOfPrefix(report: seq<Element>, more: seq<Element>, from: nat)
    requires from <= |report|
    ensures NextMarker(report + more, from, |report|) == NextMarker(report, from, |report|)
    decreases |report| - from
  {
    if from < |report| {
      MarkerOfPrefix(report, more, from + 1);
    }
  }

  lemma {:induction false} LastsOfPrefix(report: seq<Element>, more: seq<Element>, from: nat, end: nat)
    requires from <= end <= |report|
    ensures LastAmount(report + more, from, end) == LastAmount(report, from, end)
    ensures LastDue(report + more, from, end) == LastDue(report, from, end)
    decreases end - from
  {
    if from < end {
      LastsOfPrefix(report, more, from, end - 1);
    }
  }

  lemma ReadSnoc(report: seq<Element>, e: Element)
    ensures Read(report + [e]) == Extend(Read(report), e)
  {
    SplitGrows(report + [e], 0, |report|);
    SplitOfPrefix(report, [e], 0);
    hide Split, Extend;
  }

  lemma ExtendThrice(before: seq<Bill>, b: Bill, balance: real)
    requires b.amount > 0.0 && (balance == b.amount || balance == -b.amount)
    ensures Extend(Extend(Extend(before, Fixed(b.date, b.number, b.party)), Closing(Some(balance))), Due(b.due))
            == before + [b]
  {
    var first := Bill(b.date, b.number, b.party, 0.0, None);
    AmendAppended(before, first, Closing(Some(balance)));
    AmendAppended(before, first.(amount := b.amount), Due(b.due));
    hide AmendLast;
  }

  lemma AmendAppended(before: seq<Bill>, b: Bill, e: Element)
    ensures AmendLast(before + [b], e) == before + [Amend(b, e)]
  {
    assert (before + [b])[..|before|] == before;
  }

  lemma ReadOneBill(report: seq<Element>, b: Bill, credit: bool)
    requires b.amount > 0.0
    ensures Read(report + OneBill(b, credit)) == Read(report) + [b]
  {
    var balance := if credit then -b.amount else b.amount;
    var one := report + [Fixed(b.date, b.number, b.party)];
    var two := one + [Closing(Some(balance))];
    var three := two + [Due(b.due)];
    hide Read, Extend;
    ReadSnoc(report, one[|report|]);
    ReadSnoc(one, two[|one|]);
    ReadSnoc(two, three[|two|]);
    ExtendThrice(Read(report), b, balance);
    assert three == report + OneBill(b, credit);
  }

  /** The elements of one bill; a balance in the party's favour has a minus sign. */
  function OneBill(b: Bill, credit: bool): seq<Element> {
    [Fixed(b.date, b.number, b.party), Closing(Some(if credit then -b.amount else b.amount)), Due(b.due)]
  }

  function Written(bills: seq<Bill>, credit: nat -> bool): seq<Element> {
    if bills == [] then []
    else
      var n := |bills| - 1;
      Written(bills[..n], credit) + OneBill(bills[n], credit(n))
  }

  /** Writing usable bills as a report, with any signs of their balances, and reading it gives them back. */
  lemma {:induction false} WrittenReadsBack(bills: seq<Bill>, credit: nat -> bool)
    requires AllUsable(bills)
    ensures Read(Written(bills, credit)) == bills && Usables(Read(Written(bills, credit))) == bills
    decreases |bills|
  {
    UsablesMeaning(bills);
    if bills != [] {
      hide Usables, Read;
      var n := |bills| - 1;
      assert bills[n] in bills && Usable(bills[n]);
      assert forall b <- bills[..n] :: b in bills;
      WrittenReadsBack(bills[..n], credit);
      ReadOneBill(Written(bills[..n], credit), bills[n], credit(n));
      assert bills == bills[..n] + [bills[n]];
    }
  }

  // ---------------------------------------------------------------- the payload

  /** A phone number: how many characters it has, and which. */
  datatype Phone = Phone(length: nat, text: nat)

  datatype Party = Party(phone: Phone, gstin: Option<nat>)

  datatype Receivable =
    Receivable(party: nat, phone: Phone, number: nat, amount: real, dueDate: int, gstin: Option<nat>)

  datatype Payable =
    Payable(supplier: nat, number: nat, billDate: int, amount: real, gstin: Option<nat>, msmeClass: Option<nat>)

  type Directory = map<nat, Party>

  function PhoneOf(parties: Directory, party: nat): Phone {
    if party in parties then parties[party].phone else Phone(0, BLANK)
  }

  function GstinOf(parties: Directory, party: nat): Option<nat> {
    if party in parties then parties[party].gstin else None
  }

  predicate Reachable(parties: Directory, b: Bill) {
    PhoneOf(parties, b.party).length >= 10
  }

  predicate AllDated(bills: seq<Bill>) {
    forall b <- bills :: b.date.Some?
  }

  function ReceivableOf(parties: Directory, creditDays: int, b: Bill): Receivable
    requires b.date.Some?
  {
    Receivable(b.party, PhoneOf(parties, b.party), b.number, b.amount,
               if b.due.Some? then b.due.value else b.date.value + creditDays, GstinOf(parties, b.party))
  }

  function PayableOf(parties: Directory, classOf: nat -> Option<nat>, b: Bill): Payable
    requires b.date.Some?
  {
    Payable(b.party, b.number, b.date.value, b.amount, GstinOf(parties, b.party), classOf(b.party))
  }

  /** The bills of parties with a phone number, or of those without, in order. */
  function Having(parties: Directory, bills: seq<Bill>, phone: bool): seq<Bill> {
    if bills == [] then []
    else
      var n := |bills| - 1;
      Having(parties, bills[..n], phone) + if Reachable(parties, bills[n]) == phone then [bills[n]] else []
  }

  /** The row asks for the bill: by name, at its own number, with a due date or the credit days after its date. */
  ghost predicate AsksFor(parties: Directory, creditDays: int, row: Receivable, b: Bill) {
    && row.party == b.party && row.number == b.number && row.amount == b.amount
    && b.party in parties && row.phone == parties[b.party].phone && row.gstin == parties[b.party].gstin
    && b.date.Some? && row.dueDate == (match b.due case Some(day) => day case None => creditDays + b.date.value)
  }

  /** The row owes the bill. */
  ghost predicate Owes(parties: Directory, classOf: nat -> Option<nat>, row: Payable, b: Bill) {
    && row.supplier == b.party && row.number == b.number && row.amount == b.amount && Some(row.billDate) == b.date
    && row.gstin == (if b.party in parties then parties[b.party].gstin else None)
    && row.msmeClass == classOf(b.party)
  }

  /** One row with all its terms for each bill, in order. */
  ghost predicate RowsFor(parties: Directory, creditDays: int, rows: seq<Receivable>, bills: seq<Bill>) {
    |rows| == |bills| && forall i :: 0 <= i < |rows| ==> AsksFor(parties, creditDays, rows[i], bills[i])
  }

  lemma RowsSnoc(parties: Directory, creditDays: int, rows: seq<Receivable>, bills: seq<Bill>, b: Bill)
    requires RowsFor(parties, creditDays, rows, bills) && b.date.Some? && Reachable(parties, b)
    ensures RowsFor(parties, creditDays, rows + [ReceivableOf(parties, creditDays, b)], bills + [b])
  {
    assert AsksFor(parties, creditDays, ReceivableOf(parties, creditDays, b), b);
    hide ReceivableOf, AsksFor;
  }

  lemma PartiesSnoc(bills: seq<Bill>, b: Bill)
    ensures PartiesOf(bills + [b]) == PartiesOf(bills) + {b.party}
  {
    assert forall x :: x in bills + [b] <==> x in bills || x == b;
  }

  lemma ByPhone(parties: Directory, b: Bill)
    ensures Reachable(parties, b) <==> PhoneOf(parties, b.party).length >= 10
  {
  }

  function PartiesOf(bills: seq<Bill>): set<nat> {
    set b <- bills :: b.party
  }

  /**
    One row for each bill of a party with a phone number, in order and with all its terms;
    the other parties are listed; one row for each payable.
  */
  method BuildPayload(receivables: seq<Bill>, payables: seq<Bill>, parties: Directory,
                      classOf: nat -> Option<nat>, creditDays: int)
    returns (recv: seq<Receivable>, pay: seq<Payable>, skipped: set<nat>)
    requires AllDated(receivables) && AllDated(payables)
    ensures RowsFor(parties, creditDays, recv, Having(parties, receivables, true))
    ensures |pay| == |payables|
    ensures forall i :: 0 <= i < |pay| ==> Owes(parties, classOf, pay[i], payables[i])
    ensures skipped == PartiesOf(Having(parties, receivables, false))
    ensures forall p :: p in skipped <==>
              (exists b <- receivables :: b.party == p) && !(p in parties && parties[p].phone.length >= 10)
  {
    recv, pay, skipped := [], [], {};
    ghost var chosen, kept: seq<Bill> := [], [];
    for i := 0 to |receivables|
      invariant chosen == Having(parties, receivables[..i], true) && kept == Having(parties, receivables[..i], false)
      invariant RowsFor(parties, creditDays, recv, chosen) && skipped == PartiesOf(kept)
    {
      hide Having, ReceivableOf, RowsFor, PartiesOf, Reachable;
      var b := receivables[i];
      assert receivables[..i + 1] == receivables[..i] + [b];
      HavingSnoc(parties, receivables[..i], b, true);
      HavingSnoc(parties, receivables[..i], b, false);
      ByPhone(parties, b);
      if PhoneOf(parties, b.party).length < 10 {
        PartiesSnoc(kept, b);
        skipped := skipped + {b.party};
        kept := kept + [b];
      } else {
        assert b in receivables && b.date.Some?;
        RowsSnoc(parties, creditDays, recv, chosen, b);
        recv := recv + [ReceivableOf(parties, creditDays, b)];
        chosen := chosen + [b];
      }
    }
    assert receivables[..|receivables|] == receivables;
    WithoutPhone(parties, receivables);
    pay := PayableRows(payables, parties, classOf);
  }

  method PayableRows(payables: seq<Bill>, parties: Directory, classOf: nat -> Option<nat>) returns (pay: seq<Payable>)
    requires AllDated(payables)
    ensures |pay| == |payables|
    ensures forall i :: 0 <= i < |pay| ==> Owes(parties, classOf, pay[i], payables[i])
  {
    pay := [];
    for i := 0 to |payables|
      invariant |pay| == i && forall k :: 0 <= k < i ==> Owes(parties, classOf, pay[k], payables[k])
    {
      pay := pay + [PayableOf(parties, classOf, payables[i])];
    }
  }

  function Total(bills: seq<Bill>): real {
    if bills == [] then 0.0 else Total(bills[..|bills| - 1]) + bills[|bills| - 1].amount
  }

  lemma TotalSnoc(bills: seq<Bill>, b: Bill)
    ensures Total(bills + [b]) == Total(bills) + b.amount
  {
    assert (bills + [b])[..|bills|] == bills;
  }

  /** Bills are parted by whether the directory has a number of ten digits or more for the party. */
  lemma {:induction false} HavingMeaning(parties: Directory, bills: seq<Bill>, phone: bool)
    ensures forall b :: b in Having(parties, bills, phone) <==>
              b in bills && (b.party in parties && parties[b.party].phone.length >= 10) == phone
    decreases |bills|
  {
    if bills != [] {
      var n := |bills| - 1;
      HavingMeaning(parties, bills[..n], phone);
      assert bills == bills[..n] + [bills[n]];
    }
  }

  /** Parting keeps the order. */
  lemma {:induction false} HavingAppend(parties: Directory, a: seq<Bill>, b: seq<Bill>, phone: bool)
    ensures Having(parties, a + b, phone) == Having(parties, a, phone) + Having(parties, b, phone)
    decreases |b|
  {
    hide Reachable;
    if b == [] {
      assert a + b == a;
    } else {
      assert (a + b)[..|a + b| - 1] == a + b[..|b| - 1];
      HavingAppend(parties, a, b[..|b| - 1], phone);
    }
  }

  lemma WithoutPhone(parties: Directory, bills: seq<Bill>)
    ensures forall p :: p in PartiesOf(Having(parties, bills, false)) <==>
              (exists b <- bills :: b.party == p) && !(p in parties && parties[p].phone.length >= 10)
  {
    HavingMeaning(parties, bills, false);
    hide Having;
  }

  /** No party is both sent to and listed as without a phone number. */
  lemma PartiesApart(parties: Directory, bills: seq<Bill>)
    ensures PartiesOf(Having(parties, bills, true)) !! PartiesOf(Having(parties, bills, false))
  {
    var sent, kept := Having(parties, bills, true), Having(parties, bills, false);
    HavingMeaning(parties, bills, true);
    HavingMeaning(parties, bills, false);
    hide Having;
    forall p | p in PartiesOf(sent)
      ensures p !in PartiesOf(kept)
    {
      var b :| b in sent && b.party == p;
    }
  }

  lemma HavingSnoc(parties: Directory, bills: seq<Bill>, b: Bill, phone: bool)
    ensures Having(parties, bills + [b], phone)
            == if Reachable(parties, b) == phone then Having(parties, bills, phone) + [b]
               else Having(parties, bills, phone)
  {
    assert (bills + [b])[..|bills|] == bills;
  }

  /** No money is lost between the bills that are sent and those that are not. */
  lemma {:induction false} SplittingKeepsMoney(parties: Directory, bills: seq<Bill>)
    ensures Total(Having(parties, bills, true)) + Total(Having(parties, bills, false)) == Total(bills)
    decreases |bills|
  {
    if bills != [] {
      var n := |bills| - 1;
      var before, b := bills[..n], bills[n];
      SplittingKeepsMoney(parties, before);
      assert bills == before + [b];
      HavingSnoc(parties, before, b, true);
      HavingSnoc(parties, before, b, false);
      hide Having, Total, Reachable;
      TotalSnoc(before, b);
      TotalSnoc(Having(parties, before, Reachable(parties, b)), b);
    }
  }

  /** Every bill is sent or kept back, as often as it was there. */
  lemma {:induction false} SplittingKeepsBills(parties: Directory, bills: seq<Bill>)
    ensures multiset(Having(parties, bills, true)) + multiset(Having(parties, bills, false)) == multiset(bills)
    decreases |bills|
  {
    if bills != [] {
      var n := |bills| - 1;
      var before, b := bills[..n], bills[n];
      SplittingKeepsBills(parties, before);
      assert bills == before + [b];
      HavingSnoc(parties, before, b, true);
      HavingSnoc(parties, before, b, false);
      hide Having, Reachable;
    }
  }

  // ---------------------------------------------------------------- sending in parts

  const CHUNK := 5000

  datatype Part = Part(receivables: seq<Receivable>, payables: seq<Payable>)

  function Longest(recv: seq<Receivable>, pay: seq<Payable>): nat {
    MaxInt(|recv|, |pay|)
  }

  /** Python's xs[i:i + CHUNK]. */
  function Slice<T>(xs: seq<T>, i: nat): (s: seq<T>)
    ensures |s| <= CHUNK
  {
    if i >= |xs| then [] else if i + CHUNK >= |xs| then xs[i..] else xs[i..i + CHUNK]
  }

  function PartAt(recv: seq<Receivable>, pay: seq<Payable>, i: nat): Part {
    Part(Slice(recv, i * CHUNK), Slice(pay, i * CHUNK))
  }

  /** How many parts there are to send: at least one. */
  function Count(recv: seq<Receivable>, pay: seq<Payable>): (n: nat)
    ensures n >= 1 && |recv| <= n * 5000 && |pay| <= n * 5000
    ensures n == 1 || |recv| > (n - 1) * 5000 || |pay| > (n - 1) * 5000
  {
    (MaxInt(1, Longest(recv, pay)) + CHUNK - 1) / CHUNK
  }

  /**
    Posts part after part; `replies` is what the posts bring, None for one that raises.
    Stops at the first that does.
  */
  method Send(recv: seq<Receivable>, pay: seq<Payable>, replies: nat -> Option<nat>)
    returns (posted: seq<Part>, r: Result<nat, nat>)
    ensures 1 <= |posted| <= Count(recv, pay)
    ensures forall i :: 0 <= i < |posted| ==> posted[i] == PartAt(recv, pay, i)
    ensures forall i :: 0 <= i < |posted| - 1 ==> replies(i).Some?
    ensures match r
            case Returned(last) => |posted| == Count(recv, pay) && replies(|posted| - 1) == Some(last)
            case Raised(i) => i == |posted| - 1 && replies(i) == None
  {
    hide Count, Slice;
    posted := [];
    var last := 0;
    var total := MaxInt(MaxInt(|recv|, |pay|), 1);
    var i, n := 0, 0;
    while i < total
      invariant i == n * CHUNK && n == |posted| && n <= Count(recv, pay)
      invariant forall k :: 0 <= k < n ==> posted[k] == PartAt(recv, pay, k) && replies(k).Some?
      invariant n > 0 ==> replies(n - 1) == Some(last)
      decreases total - i
    {
      posted := posted + [Part(Slice(recv, i), Slice(pay, i))];
      if replies(n).None? {
        return posted, Raised(n);
      }
      last := replies(n).value;
      i, n := i + CHUNK, n + 1;
    }
    r := Returned(last);
  }

  function Taken<T>(xs: seq<T>, n: nat): seq<T> {
    if n * CHUNK >= |xs| then xs else xs[..n * CHUNK]
  }

  function ReceivablesOf(parts: seq<Part>): seq<Receivable> {
    if parts == [] then [] else ReceivablesOf(parts[..|parts| - 1]) + parts[|parts| - 1].receivables
  }

  function PayablesOf(parts: seq<Part>): seq<Payable> {
    if parts == [] then [] else PayablesOf(parts[..|parts| - 1]) + parts[|parts| - 1].payables
  }

  lemma TakenMore<T>(xs: seq<T>, n: nat)
    ensures Taken(xs, n + 1) == Taken(xs, n) + Slice(xs, n * CHUNK)
  {
  }

  /** The first parts together are the beginning of both lists: all of them once all are posted. */
  lemma {:induction false} PartsMakeUpTheLists(recv: seq<Receivable>, pay: seq<Payable>, posted: seq<Part>)
    requires forall i :: 0 <= i < |posted| ==> posted[i] == PartAt(recv, pay, i)
    ensures ReceivablesOf(posted) == Taken(recv, |posted|) && PayablesOf(posted) == Taken(pay, |posted|)
    ensures |posted| == Count(recv, pay) ==> ReceivablesOf(posted) == recv && PayablesOf(posted) == pay
    ensures forall p <- posted :: |p.receivables| <= 5000 && |p.payables| <= 5000
    decreases |posted|
  {
    if posted != [] {
      var n := |posted| - 1;
      PartsMakeUpTheLists(recv, pay, posted[..n]);
      TakenMore(recv, n);
      TakenMore(pay, n);
    }
  }

  function Asked(rows: seq<Receivable>): real {
    if rows == [] then 0.0 else Asked(rows[..|rows| - 1]) + rows[|rows| - 1].amount
  }

  lemma {:induction false} RowsAskTheBills(parties: Directory, creditDays: int, rows: seq<Receivable>, bills: seq<Bill>)
    requires RowsFor(parties, creditDays, rows, bills)
    ensures Asked(rows) == Total(bills)
    decreases |rows|
  {
    if rows != [] {
      var n := |rows| - 1;
      RowsAskTheBills(parties, creditDays, rows[..n], bills[..n]);
      assert rows[n].amount == bills[n].amount;
    }
  }

  /**
    The whole way: once every part is posted, the money asked for on the server and the
    money of the bills kept back for want of a phone number are the money of the report.
  */
  lemma SyncConserves(parties: Directory, creditDays: int, report: seq<Element>,
                      recv: seq<Receivable>, pay: seq<Payable>, posted: seq<Part>)
    requires RowsFor(parties, creditDays, recv, Having(parties, Usables(Read(report)), true))
    requires |posted| == Count(recv, pay) && forall i :: 0 <= i < |posted| ==> posted[i] == PartAt(recv, pay, i)
    ensures Asked(ReceivablesOf(posted)) + Total(Having(parties, Usables(Read(report)), false))
            == Total(Usables(Read(report)))
  {
    var bills := Usables(Read(report));
    hide Usables, Read, Having, Asked, Total, PartAt, Count, AsksFor;
    PartsMakeUpTheLists(recv, pay, posted);
    RowsAskTheBills(parties, creditDays, recv, Having(parties, bills, true));
    SplittingKeepsMoney(parties, bills);
  }
}
