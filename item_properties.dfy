/** Properties of the item routes that relate several calls. */
module ItemProperties {
  import opened Replies
  import opened Store
  import opened ItemRoutes

  lemma CreatePreservesWellStocked(t: ItemTable, newId: int, req: ItemRequest)
    requires AllWellStocked(t)
    ensures AllWellStocked(CreateItem(t, newId, req).table)
  {
  }

  /** The category ids of the request have no effect on the outcome. */
  lemma CreateIgnoresCategoryIds(t: ItemTable, newId: int, req: ItemRequest, ids: Option<seq<int>>)
    ensures CreateItem(t, newId, req) == CreateItem(t, newId, req.(categoriesIds := ids))
  {
  }

  /** Item names are not unique: the same valid request, sent twice, inserts
      two items. */
  lemma CreateSameNameTwice(t: ItemTable, id1: int, id2: int, req: ItemRequest)
    requires id1 !in t && id2 !in t && id1 != id2
    requires req.price > 0.0 && req.inStock >= 0
    ensures var first := CreateItem(t, id1, req);
            var second := CreateItem(first.table, id2, req);
            && first.reply.Ok? && second.reply.Ok?
            && second.table.Keys == t.Keys + {id1, id2}
            && |second.table| == |t| + 2
            && second.table[id1] == second.table[id2] == Inserted(req)
  {
  }

  /** The boundaries of the two checks: a zero price and a stock of -1 are
      refused, a price of 0.01 with a stock of 0 is accepted. */
  lemma CreateBoundaries(t: ItemTable, newId: int, req: ItemRequest)
    ensures CreateItem(t, newId, req.(price := 0.0)).reply.cause == InvalidPrice
    ensures CreateItem(t, newId, req.(price := 0.01, inStock := -1)).reply.cause == InvalidStock
    ensures CreateItem(t, newId, req.(price := 0.01, inStock := 0)).reply.Ok?
  {
  }

  /** An empty description or picture is stored as absent. */
  lemma EmptyOptionalsDropped(req: ItemRequest)
    requires req.desc == Some("") && req.picture == Some("")
    ensures Inserted(req).desc.None? && Inserted(req).picture.None?
  {
  }
}
