/** The item routes (server/routes/item.routes.ts): two unchecked reads,
    a validating create, and `put`/`delete` handlers that do nothing. */
module ItemRoutes {
  import opened Replies
  import opened Store

  /** A stored item. `desc` and `picture` are present only when the request
      carried a non-empty value for them. */
  datatype Item = Item(name: string, desc: Option<string>, picture: Option<string>, price: real, inStock: int)

  /** The body of POST /create. */
  datatype ItemRequest = ItemRequest(
    name: string,
    desc: Option<string>,
    picture: Option<string>,
    price: real,
    inStock: int,
    categoriesIds: Option<seq<int>>)

  type ItemTable = map<int, Item>

  datatype ItemOutcome = ItemOutcome(reply: Reply<()>, table: ItemTable)

  /** The stock and price rule that create enforces on what it inserts. */
  predicate WellStocked(item: Item) {
    item.price > 0.0 && item.inStock >= 0
  }

  /** Every stored item has a positive price and a non-negative stock. */
  ghost predicate AllWellStocked(t: ItemTable) {
    forall id :: id in t ==> WellStocked(t[id])
  }

  /** An optional field as create keeps it: only when it is truthy. */
  function KeptIfTruthy(field: Option<string>): (kept: Option<string>)
    ensures kept.Some? <==> Truthy(field)
    ensures kept.Some? ==> kept == field
  {
    if Truthy(field) then field else None
  }

  /** The record create inserts for a request; the category ids are not part
      of it. */
  function Inserted(req: ItemRequest): (item: Item)
    ensures item.name == req.name && item.price == req.price && item.inStock == req.inStock
    ensures item.desc.Some? <==> Truthy(req.desc)
    ensures item.picture.Some? <==> Truthy(req.picture)
    ensures item.desc.Some? ==> item.desc == req.desc
    ensures item.picture.Some? ==> item.picture == req.picture
  {
    Item(req.name, KeptIfTruthy(req.desc), KeptIfTruthy(req.picture), req.price, req.inStock)
  }

  /** GET /getItems: every item, for anyone. */
  function GetItems(t: ItemTable): (r: Reply<seq<Row<Item>>>)
    ensures r.Ok?
    ensures forall row :: row in r.value ==> row.id in t && t[row.id] == row.record
    ensures forall id :: id in t ==> Row(id, t[id]) in r.value
    ensures |r.value| == |t|
  {
    Ok(RowsOf(t, t.Keys))
  }

  /** GET /getItem/:id: the item for anyone, and a 200 with an empty body
      (`None`) when no item has that id, since the handler reads no field of
      the lookup result. */
  function GetItem(t: ItemTable, id: int): (r: Reply<Option<Row<Item>>>)
    ensures r.Ok?
    ensures r.value.Some? <==> id in t
    ensures r.value.Some? ==> r.value.value == Row(id, t[id])
  {
    Ok(if id in t then Some(Row(id, t[id])) else None)
  }

  /** POST /create: the outcome when the store would assign `newId`. The
      price is checked before the stock. */
  function CreateItem(t: ItemTable, newId: int, req: ItemRequest): (r: ItemOutcome)
    ensures r.reply.Ok? <==> req.price > 0.0 && req.inStock >= 0
    ensures req.price <= 0.0 ==> r.reply == Failure(422, Validation, InvalidPrice)
    ensures req.price > 0.0 && req.inStock < 0 ==> r.reply == Failure(422, Validation, InvalidStock)
    ensures !r.reply.Ok? ==> r.table == t
    ensures r.reply.Ok? ==> r.table == t[newId := Inserted(req)] && WellStocked(r.table[newId])
  {
    if req.price <= 0.0 then ItemOutcome(Failure(422, Validation, InvalidPrice), t)
    else if req.inStock < 0 then ItemOutcome(Failure(422, Validation, InvalidStock), t)
    else ItemOutcome(Ok(()), t[newId := Inserted(req)])
  }

  /** The item table of the store, with its auto-increment counter. */
  class ItemStore {
    var table: ItemTable
    var nextId: int

    ghost predicate Valid()
      reads this
    {
      forall id :: id in table ==> id < nextId
    }

    constructor ()
      ensures Valid() && table == map[]
    {
      table := map[];
      nextId := 1;
    }

    /** Builds the record field by field before validating, as the handler
        does, then inserts it. */
    method Create(req: ItemRequest) returns (reply: Reply<()>)
      requires Valid()
      modifies this
      ensures Valid()
      ensures old(nextId) !in old(table)
      ensures nextId == if reply.Ok? then old(nextId) + 1 else old(nextId)
      ensures ItemOutcome(reply, table) == CreateItem(old(table), old(nextId), req)
      ensures AllWellStocked(old(table)) ==> AllWellStocked(table)
    {
      var item := Item(req.name, None, None, req.price, req.inStock);
      if Truthy(req.desc) {
        item := item.(desc := req.desc);
      }
      if Truthy(req.picture) {
        item := item.(picture := req.picture);
      }
      if req.price <= 0.0 {
        return Failure(422, Validation, InvalidPrice);
      }
      if req.inStock < 0 {
        return Failure(422, Validation, InvalidStock);
      }
      table := table[nextId := item];
      nextId := nextId + 1;
      reply := Ok(());
    }

    /** PUT /put/:id reads the id and sends no response. */
    method Put(id: int) returns (reply: Option<Reply<()>>)
      ensures reply.None?
    {
      reply := None;
    }

    /** DELETE /delete/:id reads the id and sends no response. */
    method Delete(id: int) returns (reply: Option<Reply<()>>)
      ensures reply.None?
    {
      reply := None;
    }
  }
}
