/** The server's in-memory promo-code store (`MemStorage`): a map from numeric id
    to record, an id counter that only grows, and an insertion order that
    `Map.values()` enumerates. */
module Storage {
  import opened Options
  import opened Ascii

  /** A stored promo code, with the fields of the `promo_codes` table. */
  datatype PromoCode = PromoCode(id: int, code: string, amount: int, description: string, isActive: bool)

  /** A validated create request: `description` and `isActive` may be omitted. */
  datatype InsertPromo = InsertPromo(code: string, amount: int, description: Option<string>, isActive: Option<bool>)

  /** A validated partial update: only the supplied fields are overwritten. */
  datatype Patch = Patch(code: Option<string>, amount: Option<int>, description: Option<string>, isActive: Option<bool>)

  /** A default code as listed before it receives an id. */
  datatype Seed = Seed(code: string, amount: int, description: string, isActive: bool)

  const Seeds: seq<Seed> := [
    Seed("Switch2Electric", 500, "Rebate for switching to electric heat pump", true),
    Seed("IAQBundle", 750, "Indoor Air Quality package discount", true),
    Seed("FastTrack", 500, "Expedited installation discount", true),
    Seed("FullSystem", 1000, "Complete system replacement rebate", true)
  ]

  /** `{ ...d, id }`: a default with its id attached. */
  function Stamp(s: Seed, id: int): (p: PromoCode)
    ensures p.id == id && p.code == s.code && p.amount == s.amount
    ensures p.description == s.description && p.isActive == s.isActive
  {
    PromoCode(id, s.code, s.amount, s.description, s.isActive)
  }

  /** The defaults in order, with consecutive ids from `first`. */
  function StampedFrom(first: int): (rs: seq<PromoCode>)
    ensures |rs| == |Seeds|
    ensures forall j :: 0 <= j < |rs| ==> rs[j] == Stamp(Seeds[j], first + j)
  {
    seq(|Seeds|, j requires 0 <= j < |Seeds| => Stamp(Seeds[j], first + j))
  }

  /** The records the constructor leaves behind, in insertion order, with ids 1 to 4. */
  function InitialRecords(): (rs: seq<PromoCode>)
    ensures |rs| == 4
    ensures forall j :: 0 <= j < 4 ==> rs[j].id == j + 1 && rs[j].code == Seeds[j].code && rs[j].isActive
    ensures [rs[0].amount, rs[1].amount, rs[2].amount, rs[3].amount] == [500, 750, 500, 1000]
  {
    StampedFrom(1)
  }

  /** createPromoCode's record: the omitted description becomes "" and the omitted
      flag becomes true; supplied values are kept. */
  function NewRecord(insert: InsertPromo, id: int): (p: PromoCode)
    ensures p.id == id && p.code == insert.code && p.amount == insert.amount
    ensures insert.description.None? ==> p.description == ""
    ensures insert.description.Some? ==> p.description == insert.description.value
    ensures insert.isActive.None? ==> p.isActive
    ensures insert.isActive.Some? ==> p.isActive == insert.isActive.value
  {
    PromoCode(id, insert.code, insert.amount, insert.description.GetOr(""), insert.isActive.GetOr(true))
  }

  /** `{ ...existing, ...updates }`: supplied fields win, the id is never touched. */
  function Merge(existing: PromoCode, patch: Patch): (p: PromoCode)
    ensures p.id == existing.id
    ensures p.code == patch.code.GetOr(existing.code)
    ensures p.amount == patch.amount.GetOr(existing.amount)
    ensures p.description == patch.description.GetOr(existing.description)
    ensures p.isActive == patch.isActive.GetOr(existing.isActive)
  {
    existing.(code := patch.code.GetOr(existing.code),
              amount := patch.amount.GetOr(existing.amount),
              description := patch.description.GetOr(existing.description),
              isActive := patch.isActive.GetOr(existing.isActive))
  }

  /** An update that supplies nothing leaves the record as it was. */
  lemma MergeNothing(existing: PromoCode)
    ensures Merge(existing, Patch(None, None, None, None)) == existing
  {
  }

  /** Applying the same update twice is the same as applying it once. */
  lemma MergeIdempotent(existing: PromoCode, patch: Patch)
    ensures Merge(Merge(existing, patch), patch) == Merge(existing, patch)
  {
  }

  /** A later update of a field overrides an earlier one; the others accumulate. */
  lemma MergeCompose(existing: PromoCode, first: Patch, second: Patch)
    ensures Merge(Merge(existing, first), second)
      == Merge(existing, Patch(
           if second.code.Some? then second.code else first.code,
           if second.amount.Some? then second.amount else first.amount,
           if second.description.Some? then second.description else first.description,
           if second.isActive.Some? then second.isActive else first.isActive))
  {
  }

  /** The comparison of getPromoCodeByCode: upper case against upper case, nothing stripped. */
  predicate SameCode(p: PromoCode, code: string)
  {
    Upper(p.code) == Upper(code)
  }

  /** `Array.find`: the position of the first record whose code matches. */
  function FindByCode(rs: seq<PromoCode>, code: string): (r: Option<nat>)
    ensures r.Some? ==> r.value < |rs| && SameCode(rs[r.value], code)
    ensures r.Some? ==> forall j :: 0 <= j < r.value ==> !SameCode(rs[j], code)
    ensures r.None? ==> forall j :: 0 <= j < |rs| ==> !SameCode(rs[j], code)
    decreases |rs|
  {
    if rs == [] then None
    else if SameCode(rs[0], code) then Some(0)
    else match FindByCode(rs[1..], code)
      case Some(i) => Some(i + 1)
      case None => None
  }

  /** The record found by code, if any. */
  function ByCode(rs: seq<PromoCode>, code: string): (r: Option<PromoCode>)
    ensures r.None? <==> forall j :: 0 <= j < |rs| ==> !SameCode(rs[j], code)
    ensures r.Some? ==> r.value in rs && SameCode(r.value, code)
  {
    match FindByCode(rs, code)
    case Some(i) => Some(rs[i])
    case None => None
  }

  /** Codes that differ only in letter case find the same record. */
  lemma {:induction false} ByCodeIgnoresCase(rs: seq<PromoCode>, a: string, b: string)
    requires Upper(a) == Upper(b)
    ensures FindByCode(rs, a) == FindByCode(rs, b)
    decreases |rs|
  {
    if rs != [] {
      ByCodeIgnoresCase(rs[1..], a, b);
    }
  }

  /** A record appended after the existing ones is found only when none of them matches. */
  lemma {:induction false} FindByCodeAppend(rs: seq<PromoCode>, p: PromoCode, code: string)
    ensures FindByCode(rs + [p], code) ==
      match FindByCode(rs, code)
      case Some(i) => Some(i)
      case None => if SameCode(p, code) then Some(|rs|) else None
    decreases |rs|
  {
    if rs != [] {
      assert (rs + [p])[1..] == rs[1..] + [p];
      FindByCodeAppend(rs[1..], p, code);
    }
  }

  /** A new code, once stored, is what a lookup of it in any letter case returns. */
  lemma CreatedIsFound(rs: seq<PromoCode>, p: PromoCode, code: string)
    requires ByCode(rs, p.code).None? && Upper(code) == Upper(p.code)
    ensures ByCode(rs + [p], code) == Some(p)
  {
    ByCodeIgnoresCase(rs, code, p.code);
    FindByCodeAppend(rs, p, code);
  }

  /** Whitespace is not stripped: a code of another length never matches. */
  lemma LengthMatters(p: PromoCode, code: string)
    requires |p.code| != |code|
    ensures !SameCode(p, code)
  {
    assert |Upper(p.code)| == |p.code|;
  }

  predicate AllIn(ids: seq<int>, m: map<int, PromoCode>)
  {
    forall i :: 0 <= i < |ids| ==> ids[i] in m
  }

  /** The records of `ids`, in that order. */
  function Listing(ids: seq<int>, m: map<int, PromoCode>): (rs: seq<PromoCode>)
    requires AllIn(ids, m)
    ensures |rs| == |ids| && forall i :: 0 <= i < |ids| ==> rs[i] == m[ids[i]]
  {
    seq(|ids|, i requires 0 <= i < |ids| => m[ids[i]])
  }

  /** The position of `x` in `s`. */
  function IndexOf(s: seq<int>, x: int): (r: nat)
    requires x in s
    ensures r < |s| && s[r] == x && forall j :: 0 <= j < r ==> s[j] != x
  {
    if s[0] == x then 0 else 1 + IndexOf(s[1..], x)
  }

  predicate Distinct(s: seq<int>)
  {
    forall i, j :: 0 <= i < j < |s| ==> s[i] != s[j]
  }

  /** Removing one position of a list without repeats keeps exactly the other values. */
  lemma RemoveAtDistinct(s: seq<int>, i: nat)
    requires Distinct(s) && i < |s|
    ensures Distinct(s[..i] + s[i + 1..])
    ensures forall y :: y in s[..i] + s[i + 1..] <==> y in s && y != s[i]
  {
    var r := s[..i] + s[i + 1..];
    assert forall k :: 0 <= k < |r| ==> r[k] == if k < i then s[k] else s[k + 1];
    forall y | y in s && y != s[i]
      ensures y in r
    {
      var k :| 0 <= k < |s| && s[k] == y;
      if k < i {
        assert r[k] == y;
      } else {
        assert r[k - 1] == y;
      }
    }
  }

  /** Dropping an id from the order and its record from the map drops that one
      position of the listing. */
  lemma ListingRemoveAt(ids: seq<int>, m: map<int, PromoCode>, i: nat)
    requires Distinct(ids) && i < |ids|
    requires AllIn(ids, m)
    ensures AllIn(ids[..i] + ids[i + 1..], m - {ids[i]})
    ensures Listing(ids[..i] + ids[i + 1..], m - {ids[i]}) == Listing(ids, m)[..i] + Listing(ids, m)[i + 1..]
  {
    var r := ids[..i] + ids[i + 1..];
    assert forall k :: 0 <= k < |r| ==> r[k] == if k < i then ids[k] else ids[k + 1];
  }

  class MemStorage {
    /** Ids in insertion order, the order `promoCodes.values()` yields. */
    var order: seq<int>
    var promoCodes: map<int, PromoCode>
    var promoCodeIdCounter: int

    /** Every key is listed once in `order`, is its record's id, and lies below the counter. */
    ghost predicate Valid()
      reads this
    {
      && 1 <= promoCodeIdCounter
      && Distinct(order)
      && (forall k :: k in promoCodes ==> k in order)
      && AllIn(order, promoCodes)
      && (forall k :: k in promoCodes ==> promoCodes[k].id == k && 1 <= k < promoCodeIdCounter)
    }

    /** The stored records in insertion order. */
    function Records(): (rs: seq<PromoCode>)
      reads this
      requires Valid()
      ensures |rs| == |order|
      ensures forall i :: 0 <= i < |rs| ==> rs[i] == promoCodes[order[i]] && rs[i].id == order[i]
    {
      Listing(order, promoCodes)
    }

    /** A new store holds the four default codes with ids 1 to 4; the counter is then 5. */
    constructor ()
      ensures Valid()
      ensures order == [1, 2, 3, 4] && promoCodeIdCounter == 5
      ensures Records() == InitialRecords()
    {
      order := [];
      promoCodes := map[];
      promoCodeIdCounter := 1;
      new;
      InitDefaults();
      assert forall j :: 0 <= j < |order| ==> order[j] == Records()[j].id == j + 1;
    }

    /** initDefaults: each default, in order, takes the next id from the counter. */
    method InitDefaults()
      requires Valid()
      modifies this
      ensures Valid()
      ensures promoCodeIdCounter == old(promoCodeIdCounter) + |Seeds|
      ensures Records() == old(Records()) + StampedFrom(old(promoCodeIdCounter))
    {
      var first := promoCodeIdCounter;
      var i := 0;
      while i < |Seeds|
        invariant 0 <= i <= |Seeds|
        invariant Valid()
        invariant promoCodeIdCounter == first + i
        invariant Records() == old(Records()) + StampedFrom(first)[..i]
      {
        var id := StoreSeed(Seeds[i]);
        assert StampedFrom(first)[..i + 1] == StampedFrom(first)[..i] + [Stamp(Seeds[i], id)];
        i := i + 1;
      }
      assert StampedFrom(first)[..i] == StampedFrom(first);
    }

    /** The `forEach` callback of initDefaults: take the next id and store the default under it. */
    method StoreSeed(d: Seed) returns (id: int)
      requires Valid()
      modifies this
      ensures Valid()
      ensures id == old(promoCodeIdCounter) && promoCodeIdCounter == id + 1
      ensures promoCodes == old(promoCodes)[id := Stamp(d, id)] && id !in old(promoCodes)
      ensures order == old(order) + [id]
      ensures Records() == old(Records()) + [Stamp(d, id)]
    {
      id := promoCodeIdCounter;
      assert id !in order;
      promoCodeIdCounter := promoCodeIdCounter + 1;
      promoCodes := promoCodes[id := Stamp(d, id)];
      order := order + [id];
    }

    /** getPromoCodes: every record, in insertion order. */
    method GetPromoCodes() returns (rs: seq<PromoCode>)
      requires Valid()
      ensures rs == Records()
    {
      rs := Listing(order, promoCodes);
    }

    /** getPromoCode: the record stored under `id`, if any. */
    method GetPromoCode(id: int) returns (r: Option<PromoCode>)
      requires Valid()
      ensures r.Some? <==> id in promoCodes
      ensures r.Some? ==> r.value == promoCodes[id] && r.value.id == id
    {
      if id in promoCodes {
        r := Some(promoCodes[id]);
      } else {
        r := None;
      }
    }

    /** getPromoCodeByCode: the first record, in insertion order, whose code equals
        `code` up to letter case. */
    method GetPromoCodeByCode(code: string) returns (r: Option<PromoCode>)
      requires Valid()
      ensures r == ByCode(Records(), code)
    {
      var key := Upper(code);
      var i := 0;
      while i < |order|
        invariant 0 <= i <= |order|
        invariant forall j :: 0 <= j < i ==> !SameCode(Records()[j], code)
      {
        var p := promoCodes[order[i]];
        if Upper(p.code) == key {
          assert Records()[i] == p;
          r := Some(p);
          return;
        }
        i := i + 1;
      }
      r := None;
    }

    /** createPromoCode: the record takes the counter's value as its id, which no
        stored record has, and the counter moves past it. */
    method CreatePromoCode(insert: InsertPromo) returns (promo: PromoCode)
      requires Valid()
      modifies this
      ensures Valid()
      ensures promo == NewRecord(insert, old(promoCodeIdCounter))
      ensures forall k :: k in old(promoCodes) ==> k < promo.id
      ensures promoCodeIdCounter == old(promoCodeIdCounter) + 1
      ensures order == old(order) + [promo.id]
      ensures promoCodes == old(promoCodes)[promo.id := promo]
      ensures Records() == old(Records()) + [promo]
    {
      var id := promoCodeIdCounter;
      assert id !in order;
      promoCodeIdCounter := promoCodeIdCounter + 1;
      promo := NewRecord(insert, id);
      promoCodes := promoCodes[id := promo];
      order := order + [id];
    }

    /** updatePromoCode: an unknown id changes nothing; otherwise the supplied
        fields overwrite the record in place, keeping its id and position. */
    method UpdatePromoCode(id: int, patch: Patch) returns (updated: Option<PromoCode>)
      requires Valid()
      modifies this
      ensures Valid()
      ensures id !in old(promoCodes) ==> updated == None && unchanged(this)
      ensures id in old(promoCodes) ==>
        updated == Some(Merge(old(promoCodes)[id], patch)) && promoCodes == old(promoCodes)[id := updated.value]
      ensures order == old(order) && promoCodeIdCounter == old(promoCodeIdCounter)
      ensures forall i :: 0 <= i < |order| ==>
        Records()[i] == if order[i] == id then updated.value else old(Records())[i]
    {
      if id !in promoCodes {
        return None;
      }
      var merged := Merge(promoCodes[id], patch);
      promoCodes := promoCodes[id := merged];
      updated := Some(merged);
    }

    /** deletePromoCode: true exactly when the id was stored; only that record goes. */
    method DeletePromoCode(id: int) returns (deleted: bool)
      requires Valid()
      modifies this
      ensures Valid()
      ensures deleted <==> id in old(promoCodes)
      ensures promoCodes == old(promoCodes) - {id}
      ensures promoCodeIdCounter == old(promoCodeIdCounter)
      ensures !deleted ==> unchanged(this)
      ensures deleted ==> var i := IndexOf(old(order), id);
        order == old(order)[..i] + old(order)[i + 1..] && Records() == old(Records())[..i] + old(Records())[i + 1..]
    {
      if id !in promoCodes {
        deleted := false;
        assert promoCodes - {id} == promoCodes;
        return;
      }
      var i := IndexOf(order, id);
      RemoveAtDistinct(order, i);
      ListingRemoveAt(order, promoCodes, i);
      promoCodes := promoCodes - {id};
      order := order[..i] + order[i + 1..];
      deleted := true;
    }
  }
}
