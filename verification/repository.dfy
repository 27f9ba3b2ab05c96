/**
 * The generic repository: reads go to the committed rows of the entity's
 * table, writes only stage a change on the shared context.
 */
module Repository {
  import opened Wrappers
  import opened Domain
  import opened Store
  import opened Specifications
  import opened StableSort
  import opened SpecificationsEvaluator

  class GenericRepository<T, K(==)> {
    /** The context every repository of a unit of work shares. */
    const context: StoreContext
    /** The context's table for this entity type. */
    const table: DbSet<T, K>

    constructor (context: StoreContext, table: DbSet<T, K>)
      ensures this.context == context && this.table == table
    {
      this.context := context;
      this.table := table;
    }

    /** Every committed row of the table. */
    function GetAll(): seq<T>
      reads table
    {
      table.rows
    }

    /** The committed row with the given key; its absence is not an error. */
    function GetById(id: K): (r: Option<T>)
      reads table
      ensures r.Some? ==> r.value in table.rows && table.keyOf(r.value) == id
      ensures r.None? <==> forall x :: x in table.rows ==> table.keyOf(x) != id
    {
      FindByKey(table.rows, table.keyOf, id)
    }

    /** Stages an insert; nothing is written until the context is saved. */
    method Add(entity: T)
      modifies table`pending
      ensures table.pending == old(table.pending) + [Added(entity)]
      ensures table.rows == old(table.rows)
    {
      table.Stage(Added(entity));
    }

    /** Stages an update; nothing is written until the context is saved. */
    method Update(entity: T)
      modifies table`pending
      ensures table.pending == old(table.pending) + [Updated(entity)]
      ensures table.rows == old(table.rows)
    {
      table.Stage(Updated(entity));
    }

    /** Stages a delete; nothing is written until the context is saved. */
    method Delete(entity: T)
      modifies table`pending
      ensures table.pending == old(table.pending) + [Deleted(entity)]
      ensures table.rows == old(table.rows)
    {
      table.Stage(Deleted(entity));
    }

    /** The evaluated specification over the whole table. */
    function GetAllWithSpecifications(spec: QuerySpec<T>): (r: seq<T>)
      reads table
      ensures forall x :: x in r ==> x in table.rows && (spec.criteria.None? || spec.criteria.value(x))
      ensures forall x :: x in table.rows && (spec.criteria.None? || spec.criteria.value(x)) ==> x in r
      ensures multiset(r) == multiset(Filtered(table.rows, spec))
    {
      CreateQueryPermutesFiltered(table.rows, spec);
      var rows := CreateQuery(table.rows, spec).rows;
      assert forall x :: x in rows ==> x in multiset(Filtered(table.rows, spec));
      rows
    }

    /** The first row of the evaluated specification, or nothing when it is empty. */
    function GetByIdWithSpecifications(spec: QuerySpec<T>): (r: Option<T>)
      reads table
      ensures r.Some? ==> r.value in table.rows && (spec.criteria.None? || spec.criteria.value(r.value))
      ensures r.None? <==> forall x :: x in table.rows ==> spec.criteria.Some? && !spec.criteria.value(x)
      ensures r.Some? && spec.orderByDesc.Some? ==>
        forall x :: x in table.rows && (spec.criteria.None? || spec.criteria.value(x)) ==>
          Before(spec.orderByDesc.value, true, r.value, x)
      ensures r.Some? && spec.orderBy.Some? && spec.orderByDesc.None? ==>
        forall x :: x in table.rows && (spec.criteria.None? || spec.criteria.value(x)) ==>
          Before(spec.orderBy.value, false, r.value, x)
      ensures r.Some? && spec.orderBy.None? && spec.orderByDesc.None? ==>
        exists i :: 0 <= i < |table.rows| && table.rows[i] == r.value
          && forall j :: 0 <= j < i ==> spec.criteria.Some? && !spec.criteria.value(table.rows[j])
    {
      var rows := GetAllWithSpecifications(spec);
      if rows == [] then None
      else
        CreateQueryFirstRow(table.rows, spec);
        Some(rows[0])
    }
  }

  /** A specification with no criteria and no sort key reads the same rows as GetAll. */
  lemma UnfilteredIsGetAll<T, K>(repo: GenericRepository<T, K>, spec: QuerySpec<T>)
    requires spec.criteria.None? && spec.orderBy.None? && spec.orderByDesc.None?
    ensures repo.GetAllWithSpecifications(spec) == repo.GetAll()
  {
    CreateQueryUnfiltered(repo.table.rows, spec);
  }

  /**
   * Over a table with unique keys, a specification whose criteria selects one
   * key finds what the lookup by that key finds, whatever its sort keys.
   */
  lemma SpecificationByKeyIsGetById<T, K>(repo: GenericRepository<T, K>, spec: QuerySpec<T>, id: K)
    requires repo.table.Valid()
    requires spec.criteria.Some? && forall x :: spec.criteria.value(x) <==> repo.table.keyOf(x) == id
    ensures repo.GetByIdWithSpecifications(spec) == repo.GetById(id)
  {
    var rows := repo.table.rows;
    WhereUniqueKey(rows, spec.criteria.value, repo.table.keyOf, id);
    CreateQueryPermutesFiltered(rows, spec);
    var found := repo.GetById(id);
    var r := repo.GetAllWithSpecifications(spec);
    if found.Some? {
      assert multiset(r) == multiset{found.value};
      assert r == [found.value] by {
        assert |r| == 1;
        assert r[0] in multiset(r);
      }
    }
  }
}
