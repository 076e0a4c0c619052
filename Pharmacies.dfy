/**
 The pharmacy of pharmacy.py: a PharmacyInventory table, an in-memory mirror
 of it that is reloaded after every change, restocking, and dispensing that
 charges the patient through the ledger.
 */
module Pharmacies {
  import opened Tables
  import opened Finances

  /**
   The inventory after `update_inventory(m, s)`: a known medication gains `s`
   units at its old price; an unknown one is inserted with `s` units at price 0.
   */
  function Restocked(inv: map<string, Item>, m: string, s: int): (r: map<string, Item>)
    ensures r.Keys == inv.Keys + {m}
    ensures m in inv ==> r[m] == Item(inv[m].stock + s, inv[m].price)
    ensures m !in inv ==> r[m] == Item(s, 0)
    ensures forall k :: k in inv && k != m ==> r[k] == inv[k]
  {
    if m in inv then inv[m := Item(inv[m].stock + s, inv[m].price)] else inv[m := Item(s, 0)]
  }

  /**
   The inventory after the stock update of `dispense_medication(p, m, q)`: the
   row of `m`, when there is one, loses `q` units; nothing else changes.
   */
  function Dispensed(inv: map<string, Item>, m: string, q: int): (r: map<string, Item>)
    ensures r.Keys == inv.Keys
    ensures m in inv ==> r[m] == Item(inv[m].stock - q, inv[m].price)
    ensures forall k :: k in inv && k != m ==> r[k] == inv[k]
  {
    if m in inv then inv[m := Item(inv[m].stock - q, inv[m].price)] else inv
  }

  /** Dispensing what was just restocked gives back the inventory as it was. */
  lemma RestockThenDispense(inv: map<string, Item>, m: string, s: int)
    requires m in inv
    ensures Dispensed(Restocked(inv, m, s), m, s) == inv
  {
    var after := Dispensed(Restocked(inv, m, s), m, s);
    assert after.Keys == inv.Keys;
    forall k | k in inv ensures after[k] == inv[k] {
    }
  }

  /**
   Dispensing a positive quantity that the stock covers leaves a stock between
   0 and the old stock; a quantity of 0 or less passes the stock check and
   leaves at least as much stock as before.
   */
  lemma DispensedStockBounds(inv: map<string, Item>, m: string, q: int)
    requires m in inv && inv[m].stock >= q
    ensures 0 < q ==> 0 <= Dispensed(inv, m, q)[m].stock < inv[m].stock
    ensures q <= 0 ==> Dispensed(inv, m, q)[m].stock >= inv[m].stock
  {
  }

  class Pharmacy {
    const db: Storage
    const finance: Finance
    /** The mirror of PharmacyInventory that `dispense_medication` checks stock against. */
    var inventory: map<string, Item>

    ghost predicate Valid()
      reads this
    {
      finance.db == db
    }

    /** Opens the pharmacy: loads the mirror and creates its own Finance on the same database. */
    constructor (db: Storage)
      ensures Valid() && this.db == db
      ensures inventory == db.inventory
    {
      this.db := db;
      finance := new Finance(db);
      new;
      inventory := LoadInventory();
    }

    /** Reads every PharmacyInventory row into a map from medication name to stock and price. */
    method LoadInventory() returns (inv: map<string, Item>)
      ensures inv == db.inventory
    {
      inv := map[];
      var rest := db.inventory.Keys;
      while rest != {}
        invariant rest <= db.inventory.Keys
        invariant inv.Keys == db.inventory.Keys - rest
        invariant forall m :: m in inv ==> inv[m] == db.inventory[m]
        decreases rest
      {
        var m :| m in rest;
        inv := inv[m := db.inventory[m]];
        rest := rest - {m};
      }
    }

    /** Restocks or inserts a medication, then reloads the mirror. */
    method UpdateInventory(medication: string, stock: int)
      modifies this`inventory, db`inventory
      ensures db.inventory == Restocked(old(db.inventory), medication, stock)
      ensures inventory == db.inventory
    {
      if medication in db.inventory {
        var item := db.inventory[medication];
        db.inventory := db.inventory[medication := Item(item.stock + stock, item.price)];
      } else {
        db.inventory := db.inventory[medication := Item(stock, 0)];
      }
      inventory := LoadInventory();
    }

    /**
     Dispenses when the mirror lists the medication with at least `quantity`
     units (a quantity of 0 or less always passes): the table's stock drops by
     `quantity`, the mirror is reloaded, and the patient is charged at the
     reloaded price, which the ledger refuses unless quantity and price are
     positive. When the check fails nothing changes. If the row vanished from
     the table after the mirror was loaded, the reload lacks it and the lookup
     of its price fails: nothing is charged and `dispensed` is false.
     */
    method DispenseMedication(patient: string, medication: string, quantity: int) returns (dispensed: bool)
      requires Valid()
      modifies this`inventory, db`inventory, db`ledger
      ensures Valid()
      ensures var passes := medication in old(inventory) && old(inventory)[medication].stock >= quantity;
        && (!passes ==> !dispensed && db.inventory == old(db.inventory) && db.ledger == old(db.ledger)
                        && inventory == old(inventory))
        && (passes ==> db.inventory == Dispensed(old(db.inventory), medication, quantity)
                       && inventory == db.inventory
                       && (dispensed <==> medication in old(db.inventory)))
        && (dispensed ==> var price := old(db.inventory)[medication].price;
              db.ledger == if quantity > 0 && price > 0
                           then Saved(old(db.ledger), patient, MedicationKind(medication), -quantity * price)
                           else old(db.ledger))
        && (passes && !dispensed ==> db.ledger == old(db.ledger))
    {
      dispensed := false;
      if medication in inventory && inventory[medication].stock >= quantity {
        if medication in db.inventory {
          var item := db.inventory[medication];
          db.inventory := db.inventory[medication := Item(item.stock - quantity, item.price)];
        }
        inventory := LoadInventory();
        if medication in inventory {
          var _ := finance.PayForMedication(patient, medication, quantity, inventory[medication].price);
          dispensed := true;
        }
      }
    }
  }
}
