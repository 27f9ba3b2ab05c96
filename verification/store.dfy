/**
 * The store context: one table per entity set, each holding its committed
 * rows and the changes staged on it since the last save. A save applies the
 * staged changes of all tables together or none of them.
 */
module Store {
  import opened Wrappers
  import opened Domain

  /** A staged change to one table. */
  datatype Change<T> = Added(entity: T) | Updated(entity: T) | Deleted(entity: T)

  /** The first row with the given key, if any. */
  function FindByKey<T, K(==)>(rows: seq<T>, keyOf: T -> K, k: K): (r: Option<T>)
    ensures r.Some? ==> r.value in rows && keyOf(r.value) == k
    ensures r.None? <==> forall x :: x in rows ==> keyOf(x) != k
  {
    if rows == [] then None
    else if keyOf(rows[0]) == k then Some(rows[0])
    else
      assert rows == [rows[0]] + rows[1..];
      FindByKey(rows[1..], keyOf, k)
  }

  /** The rows with every row of key k swapped for e. */
  function ReplaceKey<T, K(==)>(rows: seq<T>, keyOf: T -> K, k: K, e: T): (r: seq<T>)
    ensures |r| == |rows|
    ensures forall i :: 0 <= i < |rows| ==> r[i] == if keyOf(rows[i]) == k then e else rows[i]
  {
    seq(|rows|, i requires 0 <= i < |rows| => if keyOf(rows[i]) == k then e else rows[i])
  }

  /** The rows without those of key k, in their order. */
  function RemoveKey<T, K(==)>(rows: seq<T>, keyOf: T -> K, k: K): (r: seq<T>)
    ensures forall x :: x in r ==> x in rows && keyOf(x) != k
    ensures forall x :: x in rows && keyOf(x) != k ==> x in r
    ensures |r| <= |rows|
  {
    if rows == [] then []
    else
      assert rows == [rows[0]] + rows[1..];
      (if keyOf(rows[0]) == k then [] else [rows[0]]) + RemoveKey(rows[1..], keyOf, k)
  }

  /**
   * One staged change applied to committed rows. An insert of a key that is
   * already stored, or an update or delete of a key that is not, is refused.
   */
  function ApplyChange<T, K(==)>(rows: seq<T>, keyOf: T -> K, c: Change<T>): (r: Option<seq<T>>)
    ensures r.None? <==> (c.Added? == FindByKey(rows, keyOf, keyOf(c.entity)).Some?)
  {
    var k := keyOf(c.entity);
    match c
    case Added(e) => if FindByKey(rows, keyOf, k).Some? then None else Some(rows + [e])
    case Updated(e) => if FindByKey(rows, keyOf, k).None? then None else Some(ReplaceKey(rows, keyOf, k, e))
    case Deleted(_) => if FindByKey(rows, keyOf, k).None? then None else Some(RemoveKey(rows, keyOf, k))
  }

  /** The staged changes applied in order; refused if any one of them is. */
  function ApplyAll<T, K(==)>(rows: seq<T>, keyOf: T -> K, changes: seq<Change<T>>): (r: Option<seq<T>>)
    decreases |changes|
  {
    if changes == [] then Some(rows)
    else match ApplyChange(rows, keyOf, changes[0])
      case None => None
      case Some(next) => ApplyAll(next, keyOf, changes[1..])
  }

  lemma {:induction false} RemoveKeyKeepsKeysUnique<T, K>(rows: seq<T>, keyOf: T -> K, k: K)
    requires UniqueKeys(rows, keyOf)
    ensures UniqueKeys(RemoveKey(rows, keyOf, k), keyOf)
    decreases |rows|
  {
    if rows != [] {
      var rest := rows[1..];
      assert UniqueKeys(rest, keyOf) by {
        forall i, j | 0 <= i < j < |rest| ensures keyOf(rest[i]) != keyOf(rest[j]) {
          assert rest[i] == rows[i + 1] && rest[j] == rows[j + 1];
        }
      }
      RemoveKeyKeepsKeysUnique(rest, keyOf, k);
      var tail := RemoveKey(rest, keyOf, k);
      if keyOf(rows[0]) != k {
        var r := [rows[0]] + tail;
        forall j | 0 < j < |r| ensures keyOf(r[0]) != keyOf(r[j]) {
          assert r[j] in rest;
          var m :| 0 <= m < |rest| && rest[m] == r[j];
          assert rows[m + 1] == r[j];
        }
      }
    }
  }

  /** Every change that is accepted keeps the keys of the table unique. */
  lemma ApplyChangeKeepsKeysUnique<T, K>(rows: seq<T>, keyOf: T -> K, c: Change<T>)
    requires UniqueKeys(rows, keyOf)
    requires ApplyChange(rows, keyOf, c).Some?
    ensures UniqueKeys(ApplyChange(rows, keyOf, c).value, keyOf)
  {
    var k := keyOf(c.entity);
    match c
    case Added(e) =>
      var r := rows + [e];
      forall i, j | 0 <= i < j < |r| ensures keyOf(r[i]) != keyOf(r[j]) {
        if j == |rows| {
          assert r[i] in rows;
        }
      }
    case Updated(e) =>
      var r := ReplaceKey(rows, keyOf, k, e);
      forall i, j | 0 <= i < j < |r| ensures keyOf(r[i]) != keyOf(r[j]) {
        assert keyOf(r[i]) == keyOf(rows[i]) && keyOf(r[j]) == keyOf(rows[j]);
      }
    case Deleted(_) =>
      RemoveKeyKeepsKeysUnique(rows, keyOf, k);
  }

  /** A save that goes through leaves the keys of the table unique. */
  lemma {:induction false} ApplyAllKeepsKeysUnique<T, K>(rows: seq<T>, keyOf: T -> K, changes: seq<Change<T>>)
    requires UniqueKeys(rows, keyOf)
    requires ApplyAll(rows, keyOf, changes).Some?
    ensures UniqueKeys(ApplyAll(rows, keyOf, changes).value, keyOf)
    decreases |changes|
  {
    if changes != [] {
      ApplyChangeKeepsKeysUnique(rows, keyOf, changes[0]);
      ApplyAllKeepsKeysUnique(ApplyChange(rows, keyOf, changes[0]).value, keyOf, changes[1..]);
    }
  }

  /** An inserted row is found by its key once the insert is applied. */
  lemma AddedIsFound<T, K>(rows: seq<T>, keyOf: T -> K, e: T)
    requires UniqueKeys(rows, keyOf)
    requires ApplyChange(rows, keyOf, Added(e)).Some?
    ensures FindByKey(ApplyChange(rows, keyOf, Added(e)).value, keyOf, keyOf(e)) == Some(e)
    ensures forall x :: x in rows ==> x in ApplyChange(rows, keyOf, Added(e)).value
  {
    var r := rows + [e];
    ApplyChangeKeepsKeysUnique(rows, keyOf, Added(e));
  }

  /** One staged insert commits its row appended exactly when its key is new. */
  lemma ApplySingleInsert<T, K>(rows: seq<T>, keyOf: T -> K, e: T)
    ensures ApplyAll(rows, keyOf, [Added(e)]) ==
      if FindByKey(rows, keyOf, keyOf(e)).None? then Some(rows + [e]) else None
  {
    assert [Added(e)][1..] == [];
  }

  /** A table: committed rows and the changes staged on it. */
  class DbSet<T, K(==)> {
    const keyOf: T -> K
    var rows: seq<T>
    var pending: seq<Change<T>>

    ghost predicate Valid()
      reads this
    {
      UniqueKeys(rows, keyOf)
    }

    constructor (keyOf: T -> K, rows: seq<T>)
      requires UniqueKeys(rows, keyOf)
      ensures Valid()
      ensures this.keyOf == keyOf && this.rows == rows && pending == []
    {
      this.keyOf := keyOf;
      this.rows := rows;
      pending := [];
    }

    /** Records a change for the next save; the committed rows stay as they are. */
    method Stage(c: Change<T>)
      modifies this`pending
      ensures pending == old(pending) + [c]
      ensures rows == old(rows)
    {
      pending := pending + [c];
    }
  }

  /** The context the repositories share. */
  class StoreContext {
    const products: DbSet<Product, int>
    const deliveryMethods: DbSet<DeliveryMethod, int>
    const orders: DbSet<Order, Guid>
    /** How many saves have been attempted. */
    ghost var saves: nat

    ghost predicate Valid()
      reads this, products, deliveryMethods, orders
    {
      && products.keyOf == ProductId && products.Valid()
      && deliveryMethods.keyOf == DeliveryMethodId && deliveryMethods.Valid()
      && orders.keyOf == OrderId && orders.Valid()
    }

    constructor (products: seq<Product>, deliveryMethods: seq<DeliveryMethod>, orders: seq<Order>)
      requires UniqueKeys(products, ProductId)
      requires UniqueKeys(deliveryMethods, DeliveryMethodId)
      requires UniqueKeys(orders, OrderId)
      ensures Valid() && fresh(this.products) && fresh(this.deliveryMethods) && fresh(this.orders)
      ensures this.products.rows == products && this.products.pending == []
      ensures this.deliveryMethods.rows == deliveryMethods && this.deliveryMethods.pending == []
      ensures this.orders.rows == orders && this.orders.pending == []
      ensures saves == 0
    {
      this.products := new DbSet(ProductId, products);
      this.deliveryMethods := new DbSet(DeliveryMethodId, deliveryMethods);
      this.orders := new DbSet(OrderId, orders);
      saves := 0;
    }

    /** Whether every staged change of every table would be accepted. */
    ghost predicate Applicable()
      reads products, deliveryMethods, orders
    {
      && ApplyAll(products.rows, products.keyOf, products.pending).Some?
      && ApplyAll(deliveryMethods.rows, deliveryMethods.keyOf, deliveryMethods.pending).Some?
      && ApplyAll(orders.rows, orders.keyOf, orders.pending).Some?
    }

    ghost function PendingCount(): nat
      reads products, deliveryMethods, orders
    {
      |products.pending| + |deliveryMethods.pending| + |orders.pending|
    }

    /**
     * Commits the staged changes of all tables as one batch and reports how
     * many were written. If any change breaks a key, or the database refuses
     * the batch, nothing is committed and the changes stay staged.
     */
    method SaveChanges(dbAccepts: bool) returns (r: Result<nat, Error>)
      requires Valid()
      modifies products, deliveryMethods, orders, this`saves
      ensures Valid()
      ensures saves == old(saves) + 1
      ensures r.Ok? <==> dbAccepts && old(Applicable())
      ensures r.Ok? ==> r.value == old(PendingCount())
      ensures r.Ok? ==>
        && products.rows == ApplyAll(old(products.rows), products.keyOf, old(products.pending)).value
        && deliveryMethods.rows == ApplyAll(old(deliveryMethods.rows), deliveryMethods.keyOf, old(deliveryMethods.pending)).value
        && orders.rows == ApplyAll(old(orders.rows), orders.keyOf, old(orders.pending)).value
        && products.pending == [] && deliveryMethods.pending == [] && orders.pending == []
      ensures r.Err? ==> r.error == CommitRejected && unchanged(products, deliveryMethods, orders)
    {
      saves := saves + 1;
      var p := ApplyAll(products.rows, products.keyOf, products.pending);
      var d := ApplyAll(deliveryMethods.rows, deliveryMethods.keyOf, deliveryMethods.pending);
      var o := ApplyAll(orders.rows, orders.keyOf, orders.pending);
      if !dbAccepts || p.None? || d.None? || o.None? {
        return Err(CommitRejected);
      }
      ApplyAllKeepsKeysUnique(products.rows, products.keyOf, products.pending);
      ApplyAllKeepsKeysUnique(deliveryMethods.rows, deliveryMethods.keyOf, deliveryMethods.pending);
      ApplyAllKeepsKeysUnique(orders.rows, orders.keyOf, orders.pending);
      r := Ok(|products.pending| + |deliveryMethods.pending| + |orders.pending|);
      products.rows, products.pending := p.value, [];
      deliveryMethods.rows, deliveryMethods.pending := d.value, [];
      orders.rows, orders.pending := o.value, [];
    }
  }
}
