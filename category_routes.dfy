/** The category routes (server/routes/categories.routes.ts): five handlers
    over the category table. The two reads are functions of the table; the
    three writes are methods of `CategoryTable`, each proved equal to the
    function that states its outcome. */
module CategoryRoutes {
  import opened Replies
  import opened Store

  /** A stored category; its id is the key it is stored under. */
  datatype Category = Category(name: string, description: string, supplierId: int)

  type Table = map<int, Category>

  /** A write handler's reply together with the table it leaves behind. */
  datatype Outcome = Outcome(reply: Reply<()>, table: Table)

  /** Whether `/getCategories` lists a record for the given supplier filter. */
  predicate Listed(filter: Option<int>, c: Category) {
    filter.None? || c.supplierId == filter.value
  }

  /** Ids of the records called `name`, whoever owns them. */
  function Named(t: Table, name: string): set<int> {
    set id | id in t && t[id].name == name
  }

  predicate NameTaken(t: Table, name: string) {
    Named(t, name) != {}
  }

  /** No two categories share a name, across all suppliers: what the
      duplicate check of `/create` keeps true. */
  ghost predicate UniqueNames(t: Table) {
    forall i, j :: i in t && j in t && i != j ==> t[i].name != t[j].name
  }

  /** The store's lookup by name: every record called `name`, over all
      suppliers, in ascending id order. */
  function ByName(t: Table, name: string): (rows: seq<Row<Category>>)
    ensures rows == [] <==> !NameTaken(t, name)
    ensures |rows| == |Named(t, name)|
    ensures forall row :: row in rows ==> row.id in t && t[row.id] == row.record && row.record.name == name
    ensures forall id :: id in t && t[id].name == name ==> Row(id, t[id]) in rows
    ensures rows != [] ==> IsLeast(rows[0].id, Named(t, name))
  {
    RowsOf(t, Named(t, name))
  }

  /** The record that `category[0]` denotes after a lookup by `name`: the
      lowest id among the records with that name. */
  function FirstNamed(t: Table, name: string): (id: int)
    requires NameTaken(t, name)
    ensures id in t && t[id].name == name
    ensures forall other :: other in t && t[other].name == name ==> id <= other
  {
    var named := Named(t, name);
    assert forall other :: other in t && t[other].name == name ==> other in named;
    Least(named)
  }

  /** GET /getCategories: the records of the given supplier, or all of them
      when the query carries no supplier. */
  function GetCategories(t: Table, filter: Option<int>): (r: Reply<seq<Row<Category>>>)
    ensures r.Ok?
    ensures forall row :: row in r.value ==> row.id in t && t[row.id] == row.record && Listed(filter, row.record)
    ensures forall id :: id in t && Listed(filter, t[id]) ==> Row(id, t[id]) in r.value
    ensures |r.value| == |set id | id in t && Listed(filter, t[id])|
  {
    Ok(RowsOf(t, set id | id in t && Listed(filter, t[id])))
  }

  /** GET /getCategory/:id. The route has no auth middleware, so the caller's
      identity may be absent; a missing record makes the handler read a field
      of `undefined`, which the catch turns into a 500. */
  function GetCategory(t: Table, id: int, caller: Option<int>): (r: Reply<Row<Category>>)
    ensures r.Ok? <==> id in t && caller == Some(t[id].supplierId)
    ensures r.Ok? ==> r.value == Row(id, t[id])
    ensures id !in t ==> r == Failure(500, Internal, MissingRecord)
    ensures id in t && caller != Some(t[id].supplierId) ==> r == Failure(401, NotAllowed, NotOwner)
    ensures caller.None? ==> !r.Ok?
  {
    if id !in t then Failure(500, Internal, MissingRecord)
    else if Some(t[id].supplierId) != caller then Failure(401, NotAllowed, NotOwner)
    else Ok(Row(id, t[id]))
  }

  /** POST /create: the outcome when the store would assign `newId`. */
  function CreateCategory(t: Table, newId: int, caller: int, name: Option<string>, description: Option<string>): (r: Outcome)
    ensures r.reply.Ok? <==> Truthy(name) && Truthy(description) && !NameTaken(t, name.value)
    ensures !Truthy(name) || !Truthy(description) ==> r == Outcome(Failure(422, Validation, MissingField), t)
    ensures Truthy(name) && Truthy(description) && NameTaken(t, name.value) ==>
              r == Outcome(Failure(422, Validation, DuplicateName), t)
    ensures r.reply.Ok? ==> r.table == t[newId := Category(name.value, description.value, caller)]
  {
    if !Truthy(name) || !Truthy(description) then
      Outcome(Failure(422, Validation, MissingField), t)
    else if |ByName(t, name.value)| > 0 then
      Outcome(Failure(422, Validation, DuplicateName), t)
    else
      Outcome(Ok(()), t[newId := Category(name.value, description.value, caller)])
  }

  /** PUT /update/:id. Ownership and duplication are both judged on the first
      record the name lookup returns, not on record `id`; an empty lookup
      makes the handler read a field of `undefined` and answer 500. */
  function UpdateCategory(t: Table, id: int, caller: int, name: Option<string>, description: Option<string>): (r: Outcome)
    ensures !r.reply.Ok? ==> r.table == t
    ensures !Truthy(name) || !Truthy(description) ==> r.reply == Failure(402, Validation, MissingField)
    ensures Truthy(name) && Truthy(description) && !NameTaken(t, name.value) ==>
              r.reply == Failure(500, Internal, MissingRecord)
    ensures Truthy(name) && Truthy(description) && NameTaken(t, name.value) ==>
              var first := FirstNamed(t, name.value);
              r.reply == if t[first].supplierId != caller then Failure(401, NotAllowed, NotOwner)
                         else if first != id then Failure(402, Validation, DuplicateName)
                         else Ok(())
    ensures r.reply.Ok? ==> id in t && r.table == t[id := t[id].(description := description.value)]
  {
    if !Truthy(name) || !Truthy(description) then
      Outcome(Failure(402, Validation, MissingField), t)
    else
      var matches := ByName(t, name.value);
      if |matches| == 0 then
        Outcome(Failure(500, Internal, MissingRecord), t)
      else if matches[0].record.supplierId != caller then
        Outcome(Failure(401, NotAllowed, NotOwner), t)
      else if matches[0].id != id then
        Outcome(Failure(402, Validation, DuplicateName), t)
      else
        Outcome(Ok(()), t[id := Category(name.value, description.value, t[id].supplierId)])
  }

  /** DELETE /delete/:id. */
  function DeleteCategory(t: Table, id: int, caller: int): (r: Outcome)
    ensures r.reply.Ok? <==> id in t && t[id].supplierId == caller
    ensures id !in t ==> r.reply == Failure(500, Internal, MissingRecord)
    ensures id in t && t[id].supplierId != caller ==> r.reply == Failure(401, NotAllowed, NotOwner)
    ensures !r.reply.Ok? ==> r.table == t
    ensures r.reply.Ok? ==> r.table.Keys == t.Keys - {id} && forall k :: k in r.table ==> r.table[k] == t[k]
  {
    if id !in t then Outcome(Failure(500, Internal, MissingRecord), t)
    else if t[id].supplierId != caller then Outcome(Failure(401, NotAllowed, NotOwner), t)
    else Outcome(Ok(()), t - {id})
  }

  /** The category table of the store, with its auto-increment counter. The
      write routes run behind the auth middleware, which rejects a request
      without an identity before the handler runs, so `caller` is present. */
  class CategoryTable {
    var table: Table
    var nextId: int

    ghost predicate Valid()
      reads this
    {
      forall id :: id in table ==> id < nextId
    }

    constructor ()
      ensures Valid() && table == map[]
    {
      table := map[];
      nextId := 1;
    }

    method Create(caller: int, name: Option<string>, description: Option<string>) returns (reply: Reply<()>)
      requires Valid()
      modifies this
      ensures Valid()
      ensures old(nextId) !in old(table)
      ensures nextId == if reply.Ok? then old(nextId) + 1 else old(nextId)
      ensures Outcome(reply, table) == CreateCategory(old(table), old(nextId), caller, name, description)
      ensures UniqueNames(old(table)) ==> UniqueNames(table)
    {
      if !Truthy(name) || !Truthy(description) {
        return Failure(422, Validation, MissingField);
      }
      var duplicates := ByName(table, name.value);
      if |duplicates| > 0 {
        return Failure(422, Validation, DuplicateName);
      }
      table := table[nextId := Category(name.value, description.value, caller)];
      nextId := nextId + 1;
      reply := Ok(());
    }

    method Update(id: int, caller: int, name: Option<string>, description: Option<string>) returns (reply: Reply<()>)
      requires Valid()
      modifies this
      ensures Valid() && nextId == old(nextId)
      ensures Outcome(reply, table) == UpdateCategory(old(table), id, caller, name, description)
      ensures UniqueNames(old(table)) ==> UniqueNames(table)
    {
      if !Truthy(name) || !Truthy(description) {
        return Failure(402, Validation, MissingField);
      }
      var category := ByName(table, name.value);
      if |category| == 0 {
        return Failure(500, Internal, MissingRecord);
      }
      if category[0].record.supplierId != caller {
        return Failure(401, NotAllowed, NotOwner);
      }
      if category[0].id != id {
        return Failure(402, Validation, DuplicateName);
      }
      table := table[id := Category(name.value, description.value, table[id].supplierId)];
      reply := Ok(());
    }

    method Delete(id: int, caller: int) returns (reply: Reply<()>)
      requires Valid()
      modifies this
      ensures Valid() && nextId == old(nextId)
      ensures Outcome(reply, table) == DeleteCategory(old(table), id, caller)
      ensures UniqueNames(old(table)) ==> UniqueNames(table)
    {
      if id !in table {
        return Failure(500, Internal, MissingRecord);
      }
      if table[id].supplierId != caller {
        return Failure(401, NotAllowed, NotOwner);
      }
      table := table - {id};
      reply := Ok(());
    }
  }
}
