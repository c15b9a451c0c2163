/** The five promo-code HTTP handlers. Each takes its request as already parsed
    (`None` where the schema check or `parseInt` fails), decides the status by
    pure validation, and only then calls the store. */
module Routes {
  import opened Options
  import opened Ascii
  import opened Storage

  /** The JSON bodies the handlers send. */
  datatype Body =
    | ActivePromo(id: int, code: string, rebate: int, description: string)  // status "Active"
    | RebateInfo(rebate: int, code: string)
    | PromoList(promos: seq<PromoCode>)
    | Promo(promo: PromoCode)
    | Message(text: string)
    | NoContent

  datatype Response = Response(status: int, body: Body)

  /** The largest rebate the server accepts on create and update. */
  const RebateCap := 1000

  const NotFoundOrInactive := "Promo code not found or inactive"
  const InvalidOrInactive := "Invalid or inactive promo code"
  const InvalidCreate := "Invalid promo code data"
  const CapExceeded := "Rebate capped at $1000"
  const AlreadyExists := "Promo code already exists"
  const InvalidId := "Invalid ID"
  const InvalidUpdate := "Invalid update data"
  const NotFound := "Promo code not found"

  /** A promo code that can be redeemed: found by code and active. */
  predicate Redeemable(found: Option<PromoCode>)
  {
    found.Some? && found.value.isActive
  }

  /** The create checks, in order: schema, cap, case-insensitive duplicate.
      `None` means the record is to be created. */
  function ValidateCreate(body: Option<InsertPromo>, existing: seq<PromoCode>): (err: Option<Response>)
    ensures err.None? <==>
      body.Some? && body.value.amount <= RebateCap && ByCode(existing, body.value.code).None?
    ensures body.None? ==> err == Some(Response(400, Message(InvalidCreate)))
    ensures body.Some? && body.value.amount > RebateCap ==> err == Some(Response(400, Message(CapExceeded)))
    ensures body.Some? && body.value.amount <= RebateCap && ByCode(existing, body.value.code).Some? ==>
      err == Some(Response(409, Message(AlreadyExists)))
  {
    if body.None? then Some(Response(400, Message(InvalidCreate)))
    else if body.value.amount > RebateCap then Some(Response(400, Message(CapExceeded)))
    else if ByCode(existing, body.value.code).Some? then Some(Response(409, Message(AlreadyExists)))
    else None
  }

  /** The update checks before the store is consulted: id, schema, cap on a supplied amount. */
  function ValidateUpdate(id: Option<int>, patch: Option<Patch>): (err: Option<Response>)
    ensures err.None? <==>
      id.Some? && patch.Some? && (patch.value.amount.None? || patch.value.amount.value <= RebateCap)
    ensures id.None? ==> err == Some(Response(400, Message(InvalidId)))
    ensures id.Some? && patch.None? ==> err == Some(Response(400, Message(InvalidUpdate)))
    ensures id.Some? && patch.Some? && patch.value.amount.Some? && patch.value.amount.value > RebateCap ==>
      err == Some(Response(400, Message(CapExceeded)))
  {
    if id.None? then Some(Response(400, Message(InvalidId)))
    else if patch.None? then Some(Response(400, Message(InvalidUpdate)))
    else if patch.value.amount.Some? && patch.value.amount.value > RebateCap then
      Some(Response(400, Message(CapExceeded)))
    else None
  }

  /** Only the upper bound is enforced: a rebate of exactly 1000, or a negative one,
      passes the create checks when the code is new. */
  lemma CreateBounds(code: string, amount: int, existing: seq<PromoCode>)
    requires ByCode(existing, code).None?
    ensures ValidateCreate(Some(InsertPromo(code, amount, None, None)), existing).None? <==> amount <= RebateCap
  {
  }

  /** After a 201, posting the same code again, in any letter case, is a 409 conflict. */
  lemma SecondPostConflicts(existing: seq<PromoCode>, first: InsertPromo, id: int, second: InsertPromo)
    requires ValidateCreate(Some(first), existing).None?
    requires Upper(second.code) == Upper(first.code) && second.amount <= RebateCap
    ensures ValidateCreate(Some(second), existing + [NewRecord(first, id)]) == Some(Response(409, Message(AlreadyExists)))
  {
    CreatedIsFound(existing, NewRecord(first, id), second.code);
  }

  /** GET /api/promoCodes/:code: 200 with the first case-insensitive match when it
      is active, 404 otherwise. The store is only read. */
  method GetByPathCode(store: MemStorage, code: string) returns (res: Response)
    requires store.Valid()
    ensures var found := ByCode(store.Records(), code);
      if Redeemable(found) then
        res == Response(200, ActivePromo(found.value.id, found.value.code, found.value.amount, found.value.description))
      else
        res == Response(404, Message(NotFoundOrInactive))
  {
    var promo := store.GetPromoCodeByCode(code);
    if promo.Some? && promo.value.isActive {
      var p := promo.value;
      res := Response(200, ActivePromo(p.id, p.code, p.amount, p.description));
    } else {
      res := Response(404, Message(NotFoundOrInactive));
    }
  }

  /** GET /api/promoCodes[?code=]: an absent or empty code lists every record;
      otherwise the rebate and stored code of an active match, or 404. */
  method GetWithQuery(store: MemStorage, code: Option<string>) returns (res: Response)
    requires store.Valid()
    ensures code.None? || code.value == "" ==> res == Response(200, PromoList(store.Records()))
    ensures code.Some? && code.value != "" ==>
      var found := ByCode(store.Records(), code.value);
      if Redeemable(found) then res == Response(200, RebateInfo(found.value.amount, found.value.code))
      else res == Response(404, Message(InvalidOrInactive))
  {
    if code.Some? && code.value != "" {
      var promo := store.GetPromoCodeByCode(code.value);
      if promo.None? || !promo.value.isActive {
        return Response(404, Message(InvalidOrInactive));
      }
      return Response(200, RebateInfo(promo.value.amount, promo.value.code));
    }
    var codes := store.GetPromoCodes();
    res := Response(200, PromoList(codes));
  }

  /** POST /api/promoCodes: 400, 400, 409 leave the store as it was; 201 creates
      the record with the next id and returns it. */
  method Post(store: MemStorage, body: Option<InsertPromo>) returns (res: Response)
    requires store.Valid()
    modifies store
    ensures store.Valid()
    ensures var err := ValidateCreate(body, old(store.Records()));
      if err.Some? then
        res == err.value && unchanged(store)
      else
        var promo := NewRecord(body.value, old(store.promoCodeIdCounter));
        && res == Response(201, Promo(promo))
        && store.Records() == old(store.Records()) + [promo]
        && store.promoCodes == old(store.promoCodes)[promo.id := promo]
        && store.promoCodeIdCounter == old(store.promoCodeIdCounter) + 1
    ensures res.status == 201 || unchanged(store)
  {
    if body.None? {
      return Response(400, Message(InvalidCreate));
    }
    if body.value.amount > RebateCap {
      return Response(400, Message(CapExceeded));
    }
    var existing := store.GetPromoCodeByCode(body.value.code);
    if existing.Some? {
      return Response(409, Message(AlreadyExists));
    }
    var promo := store.CreatePromoCode(body.value);
    res := Response(201, Promo(promo));
  }

  /** PUT /api/promoCodes/:id: 400 for a bad id, bad data or an amount over the cap,
      all without touching the store; 404 for an unknown id; else 200 with the merge. */
  method Put(store: MemStorage, id: Option<int>, patch: Option<Patch>) returns (res: Response)
    requires store.Valid()
    modifies store
    ensures store.Valid()
    ensures var err := ValidateUpdate(id, patch);
      if err.Some? then
        res == err.value && unchanged(store)
      else if id.value !in old(store.promoCodes) then
        res == Response(404, Message(NotFound)) && unchanged(store)
      else
        var merged := Merge(old(store.promoCodes)[id.value], patch.value);
        && res == Response(200, Promo(merged))
        && store.promoCodes == old(store.promoCodes)[id.value := merged]
        && store.order == old(store.order)
        && store.promoCodeIdCounter == old(store.promoCodeIdCounter)
  {
    if id.None? {
      return Response(400, Message(InvalidId));
    }
    if patch.None? {
      return Response(400, Message(InvalidUpdate));
    }
    if patch.value.amount.Some? && patch.value.amount.value > RebateCap {
      return Response(400, Message(CapExceeded));
    }
    var updated := store.UpdatePromoCode(id.value, patch.value);
    if updated.None? {
      return Response(404, Message(NotFound));
    }
    res := Response(200, Promo(updated.value));
  }

  /** DELETE /api/promoCodes/:id: 400 for a bad id, 404 for an unknown one (store
      untouched), else 204 and the record is gone. */
  method Delete(store: MemStorage, id: Option<int>) returns (res: Response)
    requires store.Valid()
    modifies store
    ensures store.Valid()
    ensures id.None? ==> res == Response(400, Message(InvalidId)) && unchanged(store)
    ensures id.Some? && id.value !in old(store.promoCodes) ==>
      res == Response(404, Message(NotFound)) && unchanged(store)
    ensures id.Some? && id.value in old(store.promoCodes) ==>
      && res == Response(204, NoContent)
      && store.promoCodes == old(store.promoCodes) - {id.value}
      && id.value !in store.order
      && store.promoCodeIdCounter == old(store.promoCodeIdCounter)
      && var i := IndexOf(old(store.order), id.value);
         && store.order == old(store.order)[..i] + old(store.order)[i + 1..]
         && store.Records() == old(store.Records())[..i] + old(store.Records())[i + 1..]
  {
    if id.None? {
      return Response(400, Message(InvalidId));
    }
    var success := store.DeletePromoCode(id.value);
    if !success {
      return Response(404, Message(NotFound));
    }
    res := Response(204, NoContent);
  }
}
