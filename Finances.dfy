/**
 The running-balance ledger of finance.py. Each saved transaction records the
 patient's previous balance plus its amount; the balance of a patient is that
 of the patient's latest row. Charges are negative amounts; a pending payment is
 a negative total of a patient's billing rows; profit is revenue less costs.
 */
module Finances {
  import opened Tables

  /** The fixed fee of an appointment, in EGP; it is charged as a negative amount. */
  const AppointmentFee: int := 200

  const DepositKind: string := "Deposit"
  const AppointmentKind: string := "Appointment Payment"
  const MedicationPrefix: string := "Medication Payment"

  /** The transaction type of a medication charge, tagged with the medication's name. */
  function MedicationKind(medication: string): (kind: string)
    ensures MedicationPrefix <= kind
  {
    MedicationPrefix + " (" + medication + ")"
  }

  /** Row `i` is `p`'s most recent row: no later row belongs to `p`. */
  ghost predicate LatestRow(ledger: seq<Entry>, p: string, i: int) {
    && 0 <= i < |ledger|
    && ledger[i].patient == p
    && forall j :: i < j < |ledger| ==> ledger[j].patient != p
  }

  /**
   `get_balance(p)`: the balance recorded on `p`'s most recent row, or 0 when
   `p` has none; rows of other patients never matter.
   */
  function Balance(ledger: seq<Entry>, p: string): (b: int)
    ensures (forall i :: 0 <= i < |ledger| ==> ledger[i].patient != p) ==> b == 0
  {
    if ledger == [] then 0
    else
      var n := |ledger| - 1;
      if ledger[n].patient == p then ledger[n].balance
      else Balance(ledger[..n], p)
  }

  /** The balance is the one recorded on the patient's most recent row. */
  lemma {:induction false} BalanceIsLatest(ledger: seq<Entry>, p: string, i: int)
    requires LatestRow(ledger, p, i)
    ensures Balance(ledger, p) == ledger[i].balance
  {
    var n := |ledger| - 1;
    if i < n {
      assert LatestRow(ledger[..n], p, i);
      BalanceIsLatest(ledger[..n], p, i);
    }
  }

  /** The ledger after `save_transaction(p, kind, amount)`. */
  function Saved(ledger: seq<Entry>, p: string, kind: string, amount: int): (r: seq<Entry>)
    ensures |r| == |ledger| + 1 && r[..|ledger|] == ledger
    ensures r[|ledger|].patient == p && r[|ledger|].kind == kind && r[|ledger|].amount == amount
    ensures Balance(r, p) == Balance(ledger, p) + amount
  {
    ledger + [Entry(p, kind, amount, Balance(ledger, p) + amount)]
  }

  /** The sum of the amounts of `p`'s rows. */
  function PatientTotal(ledger: seq<Entry>, p: string): int {
    if ledger == [] then 0
    else PatientTotal(ledger[..|ledger| - 1], p)
         + (if ledger[|ledger| - 1].patient == p then ledger[|ledger| - 1].amount else 0)
  }

  /** Every row of `p` records `p`'s balance before it plus its own amount. */
  ghost predicate RunningFor(ledger: seq<Entry>, p: string) {
    forall i :: 0 <= i < |ledger| && ledger[i].patient == p ==>
      ledger[i].balance == Balance(ledger[..i], p) + ledger[i].amount
  }

  /** A transaction of one patient leaves every other patient's balance as it was. */
  lemma {:induction false} SavedOtherBalance(ledger: seq<Entry>, p: string, kind: string, amount: int, q: string)
    requires q != p
    ensures Balance(Saved(ledger, p, kind, amount), q) == Balance(ledger, q)
  {
    assert Saved(ledger, p, kind, amount)[..|ledger|] == ledger;
  }

  /** Saving a transaction keeps every patient's running balances consistent. */
  lemma {:induction false} SavedKeepsRunning(ledger: seq<Entry>, p: string, kind: string, amount: int, q: string)
    requires RunningFor(ledger, q)
    ensures RunningFor(Saved(ledger, p, kind, amount), q)
  {
    var after := Saved(ledger, p, kind, amount);
    forall i | 0 <= i < |after| && after[i].patient == q
      ensures after[i].balance == Balance(after[..i], q) + after[i].amount
    {
      if i < |ledger| {
        assert after[..i] == ledger[..i];
      } else {
        assert after[..i] == ledger;
      }
    }
  }

  /** Consistent running balances stay consistent on every prefix of the ledger. */
  lemma RunningPrefix(ledger: seq<Entry>, p: string, n: nat)
    requires RunningFor(ledger, p) && n <= |ledger|
    ensures RunningFor(ledger[..n], p)
  {
    var front := ledger[..n];
    forall i | 0 <= i < |front| && front[i].patient == p
      ensures front[i].balance == Balance(front[..i], p) + front[i].amount
    {
      assert front[..i] == ledger[..i];
    }
  }

  /** Where a patient's running balances are consistent, the balance is the sum of the patient's amounts. */
  lemma {:induction false} BalanceIsTotal(ledger: seq<Entry>, p: string)
    requires RunningFor(ledger, p)
    ensures Balance(ledger, p) == PatientTotal(ledger, p)
  {
    if ledger != [] {
      var n := |ledger| - 1;
      RunningPrefix(ledger, p, n);
      BalanceIsTotal(ledger[..n], p);
    }
  }

  /** The ledger after saving transactions for `p` with the given kinds and amounts, in order. */
  function SavedAll(ledger: seq<Entry>, p: string, kind: string, amounts: seq<int>): seq<Entry>
    decreases |amounts|
  {
    if amounts == [] then ledger
    else SavedAll(Saved(ledger, p, kind, amounts[0]), p, kind, amounts[1..])
  }

  function Sum(amounts: seq<int>): int {
    if amounts == [] then 0 else amounts[0] + Sum(amounts[1..])
  }

  /**
   Starting from a ledger with no rows for `p`, saving amounts a1..an for `p`
   leaves `p`'s balance at a1 + ... + an.
   */
  lemma {:induction false} BalanceAfterSaves(ledger: seq<Entry>, p: string, kind: string, amounts: seq<int>)
    requires forall i :: 0 <= i < |ledger| ==> ledger[i].patient != p
    ensures Balance(SavedAll(ledger, p, kind, amounts), p) == Sum(amounts)
  {
    MovesBySum(ledger, p, kind, amounts);
  }

  lemma {:induction false} MovesBySum(ledger: seq<Entry>, p: string, kind: string, amounts: seq<int>)
    ensures Balance(SavedAll(ledger, p, kind, amounts), p) == Balance(ledger, p) + Sum(amounts)
    decreases |amounts|
  {
    if amounts != [] {
      MovesBySum(Saved(ledger, p, kind, amounts[0]), p, kind, amounts[1..]);
    }
  }

  /** The transaction types `track_pending_payments` adds up. */
  predicate IsBilling(kind: string) {
    kind == AppointmentKind || MedicationPrefix <= kind
  }

  /**
   The sum of the amounts of `p`'s appointment and medication payments: rows
   of other patients and rows of other types never count.
   */
  function BillingTotal(ledger: seq<Entry>, p: string): (t: int)
    ensures (forall i :: 0 <= i < |ledger| ==> ledger[i].patient != p || !IsBilling(ledger[i].kind)) ==> t == 0
  {
    if ledger == [] then 0
    else BillingTotal(ledger[..|ledger| - 1], p)
         + (var e := ledger[|ledger| - 1]; if e.patient == p && IsBilling(e.kind) then e.amount else 0)
  }

  /**
   `track_pending_payments`: exactly the patients whose billing rows sum to a
   negative amount, each with that sum.
   */
  function PendingPayments(ledger: seq<Entry>): (pending: map<string, int>)
    ensures forall p :: p in pending <==> BillingTotal(ledger, p) < 0
    ensures forall p :: p in pending ==> pending[p] == BillingTotal(ledger, p)
  {
    var patients := set i | 0 <= i < |ledger| :: ledger[i].patient;
    assert forall p :: BillingTotal(ledger, p) != 0 ==> p in patients by {
      forall p | p !in patients ensures BillingTotal(ledger, p) == 0 {
        assert forall i :: 0 <= i < |ledger| ==> ledger[i].patient != p;
      }
    }
    map p | p in patients && BillingTotal(ledger, p) < 0 :: BillingTotal(ledger, p)
  }

  /** A deposit is not a billing row: it never settles a pending payment. */
  lemma DepositKeepsPending(ledger: seq<Entry>, p: string, amount: int)
    ensures PendingPayments(Saved(ledger, p, DepositKind, amount)) == PendingPayments(ledger)
  {
    var after := Saved(ledger, p, DepositKind, amount);
    assert after[..|ledger|] == ledger;
    assert !IsBilling(DepositKind);
    forall q ensures BillingTotal(after, q) == BillingTotal(ledger, q) {
    }
  }

  /** An appointment payment lowers the patient's billing total by the fee. */
  lemma AppointmentPaymentPending(ledger: seq<Entry>, p: string)
    ensures var after := PendingPayments(Saved(ledger, p, AppointmentKind, -AppointmentFee));
            (p in after <==> BillingTotal(ledger, p) < AppointmentFee)
            && (p in after ==> after[p] == BillingTotal(ledger, p) - AppointmentFee)
  {
    assert Saved(ledger, p, AppointmentKind, -AppointmentFee)[..|ledger|] == ledger;
  }

  /** `SUM(Amount)` over a table, with the empty sum read as 0. */
  function Total(postings: seq<Posting>): (t: int)
    ensures (forall i :: 0 <= i < |postings| ==> postings[i].amount >= 0) ==> t >= 0
    ensures (forall i :: 0 <= i < |postings| ==> postings[i].amount == 0) ==> t == 0
  {
    if postings == [] then 0 else postings[0].amount + Total(postings[1..])
  }

  /** `analyze_profitability`: total revenue less total costs. */
  function Profit(revenue: seq<Posting>, costs: seq<Posting>): (profit: int)
    ensures costs == [] ==> profit == Total(revenue)
    ensures revenue == [] ==> profit == -Total(costs)
    ensures (forall i :: 0 <= i < |costs| ==> costs[i].amount >= 0) ==> profit <= Total(revenue)
  {
    Total(revenue) - Total(costs)
  }

  lemma {:induction false} TotalAppend(postings: seq<Posting>, x: Posting)
    ensures Total(postings + [x]) == Total(postings) + x.amount
  {
    if postings != [] {
      assert (postings + [x])[1..] == postings[1..] + [x];
      TotalAppend(postings[1..], x);
    }
  }

  /** Tracking revenue raises the profit by its amount; tracking a cost lowers it by its amount. */
  lemma ProfitAfterTracking(revenue: seq<Posting>, costs: seq<Posting>, x: Posting)
    ensures Profit(revenue + [x], costs) == Profit(revenue, costs) + x.amount
    ensures Profit(revenue, costs + [x]) == Profit(revenue, costs) - x.amount
  {
    TotalAppend(revenue, x);
    TotalAppend(costs, x);
  }

  class Finance {
    const db: Storage

    constructor (db: Storage)
      ensures this.db == db
    {
      this.db := db;
    }

    /** Appends one row for `patient` whose balance is the previous balance plus `amount`. */
    method SaveTransaction(patient: string, kind: string, amount: int)
      modifies db`ledger
      ensures db.ledger == Saved(old(db.ledger), patient, kind, amount)
    {
      var balance := Balance(db.ledger, patient) + amount;
      db.ledger := db.ledger + [Entry(patient, kind, amount, balance)];
    }

    /** Saves a deposit when the amount is positive; otherwise refuses and saves nothing. */
    method Deposit(patient: string, amount: int) returns (saved: bool)
      modifies db`ledger
      ensures saved <==> amount > 0
      ensures db.ledger == if saved then Saved(old(db.ledger), patient, DepositKind, amount) else old(db.ledger)
    {
      saved := amount > 0;
      if saved {
        SaveTransaction(patient, DepositKind, amount);
      }
    }

    /** Charges the fixed appointment fee. */
    method PayForAppointment(patient: string)
      modifies db`ledger
      ensures db.ledger == Saved(old(db.ledger), patient, AppointmentKind, -AppointmentFee)
    {
      SaveTransaction(patient, AppointmentKind, -AppointmentFee);
    }

    /** Charges `quantity * price` when both are positive; otherwise refuses and saves nothing. */
    method PayForMedication(patient: string, medication: string, quantity: int, price: int) returns (charged: bool)
      modifies db`ledger
      ensures charged <==> quantity > 0 && price > 0
      ensures db.ledger == if charged
        then Saved(old(db.ledger), patient, MedicationKind(medication), -quantity * price)
        else old(db.ledger)
    {
      charged := quantity > 0 && price > 0;
      if charged {
        SaveTransaction(patient, MedicationKind(medication), -quantity * price);
      }
    }

    /** Appends a Revenue row. */
    method TrackRevenue(source: string, amount: int)
      modifies db`revenue
      ensures db.revenue == old(db.revenue) + [Posting(source, amount)]
    {
      db.revenue := db.revenue + [Posting(source, amount)];
    }

    /** Appends a Costs row. */
    method TrackCosts(category: string, amount: int)
      modifies db`costs
      ensures db.costs == old(db.costs) + [Posting(category, amount)]
    {
      db.costs := db.costs + [Posting(category, amount)];
    }
  }
}
