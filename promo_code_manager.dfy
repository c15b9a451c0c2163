/** The client-side promo-code table: a module-level object from code to rebate
    amount, seeded with four defaults, looked up case- and whitespace-insensitively
    and edited in place.  The object's keys are kept in insertion order. */
module PromoCodeManager {
  import opened Options
  import opened Ascii

  const MaxRebate := 1000

  /** One own property of the `promoCodes` object: the code exactly as stored, and its amount. */
  datatype Entry = Entry(key: string, amount: int)

  const DefaultCodes: seq<Entry> :=
    [Entry("Switch2Electric", 500), Entry("IAQBundle", 750), Entry("FastTrack", 500), Entry("FullSystem", 1000)]

  /** normalizeCode: upper-case, then drop every whitespace character. */
  function NormalizeCode(code: string): (r: string)
    ensures forall i :: 0 <= i < |r| ==> !IsSpace(r[i]) && !IsLower(r[i])
  {
    var upper := Upper(code);
    var r := RemoveSpaces(upper);
    assert forall i :: 0 <= i < |r| ==> r[i] in upper;
    r
  }

  lemma NormalizeIdempotent(code: string)
    ensures NormalizeCode(NormalizeCode(code)) == NormalizeCode(code)
  {
    var n := NormalizeCode(code);
    UpperOfUpperless(n);
    RemoveSpacesOfSpaceless(n);
  }

  /** Math.min(Math.max(0, amount), MAX_REBATE). */
  function Cap(amount: int): (r: int)
    ensures 0 <= r <= MaxRebate
    ensures 0 <= amount <= MaxRebate ==> r == amount
    ensures amount < 0 ==> r == 0
    ensures amount > MaxRebate ==> r == MaxRebate
  {
    if amount < 0 then 0 else if amount > MaxRebate then MaxRebate else amount
  }

  predicate KeysDistinct(es: seq<Entry>)
  {
    forall i, j :: 0 <= i < j < |es| ==> es[i].key != es[j].key
  }

  /** What the table always satisfies: an object has each key once, every amount is
      capped, and no key is empty (so a key found by `find` is always truthy). */
  predicate Consistent(es: seq<Entry>)
  {
    && KeysDistinct(es)
    && (forall i :: 0 <= i < |es| ==> 0 <= es[i].amount <= MaxRebate && es[i].key != "")
  }

  /** The position of the first key, in key order, whose normalised form is `normalized`. */
  function FirstMatch(es: seq<Entry>, normalized: string): (r: Option<nat>)
    ensures r.Some? ==> r.value < |es| && NormalizeCode(es[r.value].key) == normalized
    ensures r.Some? ==> forall j :: 0 <= j < r.value ==> NormalizeCode(es[j].key) != normalized
    ensures r.None? ==> forall j :: 0 <= j < |es| ==> NormalizeCode(es[j].key) != normalized
  {
    if es == [] then None
    else if NormalizeCode(es[0].key) == normalized then Some(0)
    else match FirstMatch(es[1..], normalized)
      case Some(i) => Some(i + 1)
      case None => None
  }

  /** The position of `key` itself (exact property access `promoCodes[key]`). */
  function KeyIndex(es: seq<Entry>, key: string): (r: Option<nat>)
    ensures r.Some? ==> r.value < |es| && es[r.value].key == key
    ensures r.Some? ==> forall j :: 0 <= j < r.value ==> es[j].key != key
    ensures r.None? ==> forall j :: 0 <= j < |es| ==> es[j].key != key
  {
    if es == [] then None
    else if es[0].key == key then Some(0)
    else match KeyIndex(es[1..], key)
      case Some(i) => Some(i + 1)
      case None => None
  }

  /** `promoCodes[key]`: the amount stored under exactly this key, if any. */
  function Lookup(es: seq<Entry>, key: string): Option<int>
  {
    match KeyIndex(es, key)
    case Some(i) => Some(es[i].amount)
    case None => None
  }

  lemma LookupAt(es: seq<Entry>, j: nat)
    requires KeysDistinct(es) && j < |es|
    ensures Lookup(es, es[j].key) == Some(es[j].amount)
  {
  }

  lemma LookupMissing(es: seq<Entry>, key: string)
    requires forall j :: 0 <= j < |es| ==> es[j].key != key
    ensures Lookup(es, key) == None
  {
  }

  /** getRebate, as a function of the table: 0 for an empty code, else the amount of
      the first key whose normalised form matches, else 0. */
  function Rebate(es: seq<Entry>, code: string): (r: int)
    ensures code == "" ==> r == 0
    ensures r != 0 ==> exists i :: 0 <= i < |es| && NormalizeCode(es[i].key) == NormalizeCode(code) && r == es[i].amount
    ensures Consistent(es) ==> 0 <= r <= MaxRebate
  {
    if code == "" then 0
    else match FirstMatch(es, NormalizeCode(code))
      case Some(i) => es[i].amount
      case None => 0
  }

  /** `promoCodes[key] = amount`: an existing key keeps its place, a new one goes last. */
  function AfterAdd(es: seq<Entry>, code: string, amount: int): (r: seq<Entry>)
    ensures code == "" ==> r == es
    ensures |es| <= |r| <= |es| + 1
    ensures forall j :: 0 <= j < |es| ==> r[j].key == es[j].key
    ensures forall j :: 0 <= j < |r| ==> r[j] in es || r[j] == Entry(code, Cap(amount))
  {
    if code == "" then es
    else match KeyIndex(es, code)
      case Some(i) => es[i := Entry(code, Cap(amount))]
      case None => es + [Entry(code, Cap(amount))]
  }

  /** removePromoCode: delete the first key whose normalised form matches, if any. */
  function AfterRemove(es: seq<Entry>, code: string): (r: seq<Entry>)
    ensures code == "" ==> r == es
    ensures r == es || |r| == |es| - 1
    ensures forall j :: 0 <= j < |r| ==> r[j] in es
  {
    if code == "" then es
    else match FirstMatch(es, NormalizeCode(code))
      case Some(i) => es[..i] + es[i + 1..]
      case None => es
  }

  /** updatePromoCode: re-amount the first key whose normalised form matches, if any.
      Unlike add and remove it does not reject an empty code. */
  function AfterUpdate(es: seq<Entry>, code: string, amount: int): (r: seq<Entry>)
    ensures |r| == |es|
    ensures forall j :: 0 <= j < |es| ==> r[j].key == es[j].key
    ensures forall j :: 0 <= j < |es| ==> r[j] == es[j] || r[j].amount == Cap(amount)
  {
    match FirstMatch(es, NormalizeCode(code))
    case Some(i) => es[i := Entry(es[i].key, Cap(amount))]
    case None => es
  }

  /** Adding stores the capped amount under the exact key given and changes no other
      key; keys keep their positions and at most one entry is appended.  An empty code
      changes nothing. */
  lemma AddSpec(es: seq<Entry>, code: string, amount: int)
    requires Consistent(es)
    ensures Consistent(AfterAdd(es, code, amount))
    ensures code == "" ==> AfterAdd(es, code, amount) == es
    ensures code != "" ==> Lookup(AfterAdd(es, code, amount), code) == Some(Cap(amount))
    ensures forall k :: k != code ==> Lookup(AfterAdd(es, code, amount), k) == Lookup(es, k)
    ensures |es| <= |AfterAdd(es, code, amount)| <= |es| + 1
    ensures forall j :: 0 <= j < |es| ==> AfterAdd(es, code, amount)[j].key == es[j].key
  {
    var r := AfterAdd(es, code, amount);
    if code != "" {
      var at := match KeyIndex(es, code) case Some(i) => i case None => |es|;
      assert r[at] == Entry(code, Cap(amount));
      assert KeysDistinct(r);
      forall k | k != code
        ensures Lookup(r, k) == Lookup(es, k)
      {
        if j :| 0 <= j < |es| && es[j].key == k {
          LookupAt(es, j);
          LookupAt(r, j);
        } else {
          LookupMissing(es, k);
          LookupMissing(r, k);
        }
      }
      LookupAt(r, at);
    }
  }

  /** Deleting the entry at position `i` leaves every other key's amount as it was. */
  lemma RemoveAtKeeps(es: seq<Entry>, i: nat, k: string)
    requires Consistent(es) && i < |es| && k != es[i].key
    ensures Lookup(es[..i] + es[i + 1..], k) == Lookup(es, k)
  {
    var r := es[..i] + es[i + 1..];
    if j :| 0 <= j < |es| && es[j].key == k {
      LookupAt(es, j);
      if j < i {
        assert r[j] == es[j];
        LookupAt(r, j);
      } else {
        assert r[j - 1] == es[j];
        LookupAt(r, j - 1);
      }
    } else {
      LookupMissing(es, k);
      LookupMissing(r, k);
    }
  }

  /** `r` is `es` with the entry at position `i` deleted: every other entry stays, in
      order, and only the key at `i` is gone. */
  ghost predicate DeletedAt(es: seq<Entry>, r: seq<Entry>, i: nat)
    requires i < |es|
  {
    && |r| == |es| - 1
    && (forall j :: 0 <= j < |r| ==> r[j] == if j < i then es[j] else es[j + 1])
    && Lookup(r, es[i].key) == None
    && (forall k :: k != es[i].key ==> Lookup(r, k) == Lookup(es, k))
  }

  lemma RemoveAtSpec(es: seq<Entry>, i: nat)
    requires Consistent(es) && i < |es|
    ensures Consistent(es[..i] + es[i + 1..])
    ensures DeletedAt(es, es[..i] + es[i + 1..], i)
  {
    var r := es[..i] + es[i + 1..];
    assert forall j :: 0 <= j < |r| ==> r[j] == if j < i then es[j] else es[j + 1];
    assert KeysDistinct(r) by {
      forall a, b | 0 <= a < b < |r|
        ensures r[a].key != r[b].key
      {
        var a', b' := if a < i then a else a + 1, if b < i then b else b + 1;
        assert r[a] == es[a'] && r[b] == es[b'] && a' < b';
      }
    }
    LookupMissing(r, es[i].key);
    forall k | k != es[i].key
      ensures Lookup(r, k) == Lookup(es, k)
    {
      RemoveAtKeeps(es, i, k);
    }
  }

  /** Removing deletes only the first normalised match; every other entry stays, in order.
      An empty code, or one that matches nothing, changes nothing. */
  lemma RemoveSpec(es: seq<Entry>, code: string)
    requires Consistent(es)
    ensures Consistent(AfterRemove(es, code))
    ensures code == "" || FirstMatch(es, NormalizeCode(code)).None? ==> AfterRemove(es, code) == es
    ensures code != "" && FirstMatch(es, NormalizeCode(code)).Some? ==>
      DeletedAt(es, AfterRemove(es, code), FirstMatch(es, NormalizeCode(code)).value)
  {
    if code != "" {
      var found := FirstMatch(es, NormalizeCode(code));
      if found.Some? {
        RemoveAtSpec(es, found.value);
      }
    }
  }

  /** Updating never adds or moves a key: it re-amounts the first normalised match to
      the capped amount and changes nothing else, or changes nothing at all. */
  lemma UpdateSpec(es: seq<Entry>, code: string, amount: int)
    requires Consistent(es)
    ensures Consistent(AfterUpdate(es, code, amount))
    ensures |AfterUpdate(es, code, amount)| == |es|
    ensures forall j :: 0 <= j < |es| ==> AfterUpdate(es, code, amount)[j].key == es[j].key
    ensures FirstMatch(es, NormalizeCode(code)).None? ==> AfterUpdate(es, code, amount) == es
    ensures FirstMatch(es, NormalizeCode(code)).Some? ==>
      var key := es[FirstMatch(es, NormalizeCode(code)).value].key;
      && Lookup(AfterUpdate(es, code, amount), key) == Some(Cap(amount))
      && (forall k :: k != key ==> Lookup(AfterUpdate(es, code, amount), k) == Lookup(es, k))
  {
    if FirstMatch(es, NormalizeCode(code)).Some? {
      var i := FirstMatch(es, NormalizeCode(code)).value;
      var r := AfterUpdate(es, code, amount);
      assert KeysDistinct(r);
      LookupAt(r, i);
      forall k | k != es[i].key
        ensures Lookup(r, k) == Lookup(es, k)
      {
        if j :| 0 <= j < |es| && es[j].key == k {
          LookupAt(es, j);
          LookupAt(r, j);
        } else {
          LookupMissing(es, k);
          LookupMissing(r, k);
        }
      }
    }
  }

  /** Two non-empty codes with the same normalised form get the same rebate. */
  lemma RebateIgnoresCaseAndSpace(es: seq<Entry>, a: string, b: string)
    requires a != "" && b != "" && NormalizeCode(a) == NormalizeCode(b)
    ensures Rebate(es, a) == Rebate(es, b)
  {
  }

  /** A code without whitespace normalises to its upper-case form. */
  lemma NormalizeSpaceless(code: string)
    requires forall i :: 0 <= i < |code| ==> !IsSpace(code[i])
    ensures NormalizeCode(code) == Upper(code)
  {
    RemoveSpacesOfSpaceless(Upper(code));
  }

  lemma {:induction false} RemoveSpacesConcat(a: string, b: string)
    ensures RemoveSpaces(a + b) == RemoveSpaces(a) + RemoveSpaces(b)
  {
    if a == [] {
      assert a + b == b;
    } else {
      assert (a + b)[1..] == a[1..] + b;
      RemoveSpacesConcat(a[1..], b);
    }
  }

  /** Normalisation works character by character. */
  lemma NormalizeConcat(a: string, b: string)
    ensures NormalizeCode(a + b) == NormalizeCode(a) + NormalizeCode(b)
  {
    assert Upper(a + b) == Upper(a) + Upper(b);
    RemoveSpacesConcat(Upper(a), Upper(b));
  }

  // The default keys contain no whitespace, so each normalises to a string as
  // long as itself; no two of the lengths 15, 9, 9 and 10 clash with FullSystem's.
  lemma SwitchKeyLength()
    ensures |NormalizeCode(DefaultCodes[0].key)| == 15
  {
    NormalizeSpaceless(DefaultCodes[0].key);
  }

  lemma BundleKeyLength()
    ensures |NormalizeCode(DefaultCodes[1].key)| == 9
  {
    NormalizeSpaceless(DefaultCodes[1].key);
  }

  lemma FastTrackKeyLength()
    ensures |NormalizeCode(DefaultCodes[2].key)| == 9
  {
    NormalizeSpaceless(DefaultCodes[2].key);
  }

  lemma FullSystemKeyLength()
    ensures |NormalizeCode(DefaultCodes[3].key)| == 10
  {
    NormalizeSpaceless(DefaultCodes[3].key);
  }

  /** Any spelling that normalises like "FullSystem" gets FullSystem's rebate from the defaults. */
  lemma FullSystemSpelling(code: string)
    requires NormalizeCode(code) == NormalizeCode(DefaultCodes[3].key)
    ensures Rebate(DefaultCodes, code) == DefaultCodes[3].amount == MaxRebate
  {
    SwitchKeyLength();
    BundleKeyLength();
    FastTrackKeyLength();
    FullSystemKeyLength();
    assert code != "";
    assert FirstMatch(DefaultCodes, NormalizeCode(code)) == Some(3);
  }

  /** No default key normalises to the empty string. */
  lemma NoBlankDefault()
    ensures FirstMatch(DefaultCodes, "") == None
  {
    SwitchKeyLength();
    BundleKeyLength();
    FastTrackKeyLength();
    FullSystemKeyLength();
  }

  lemma SameUpper(a: string, b: string)
    requires a == "fullsystem" && b == "FullSystem"
    ensures Upper(a) == Upper(b)
  {
    assert forall i :: 0 <= i < |a| ==> UpperChar(a[i]) == UpperChar(b[i]);
    UpperPointwise(a, b);
  }

  /** Strings that agree letter by letter up to case have the same upper-case form. */
  lemma UpperPointwise(a: string, b: string)
    requires |a| == |b| && forall i :: 0 <= i < |a| ==> UpperChar(a[i]) == UpperChar(b[i])
    ensures Upper(a) == Upper(b)
  {
  }

  lemma Spaceless(a: string)
    requires a == "fullsystem" || a == "FullSystem"
    ensures forall i :: 0 <= i < |a| ==> !IsSpace(a[i])
  {
  }

  /** Lower case normalises like the stored spelling. */
  lemma LowerCaseSpelling(a: string, b: string)
    requires a == "fullsystem" && b == "FullSystem"
    ensures NormalizeCode(a) == NormalizeCode(b)
  {
    Spaceless(a);
    Spaceless(b);
    NormalizeSpaceless(a);
    NormalizeSpaceless(b);
    SameUpper(a, b);
  }

  /** An inner space is dropped by normalisation. */
  lemma SpacedSpelling(a: string, b: string)
    requires a == "Full System" && b == "fullsystem"
    ensures NormalizeCode(a) == NormalizeCode(b)
  {
    var x, y := a[..4] + a[5..], a[4..5];
    assert a == a[..4] + (y + a[5..]);
    NormalizeConcat(a[..4], y + a[5..]);
    NormalizeConcat(y, a[5..]);
    NormalizeConcat(a[..4], a[5..]);
    assert NormalizeCode(y) == "";
    assert x == "FullSystem";
    LowerCaseSpelling(b, x);
  }

  /** With the defaults, "fullsystem" and "Full System" both find FullSystem's 1000. */
  lemma DefaultRebates(code: string)
    requires code == "fullsystem" || code == "Full System"
    ensures Rebate(DefaultCodes, code) == 1000
  {
    var key := DefaultCodes[3].key;
    assert key == "FullSystem";
    LowerCaseSpelling("fullsystem", key);
    if code != "fullsystem" {
      SpacedSpelling(code, "fullsystem");
    }
    FullSystemSpelling(code);
  }

  /** Appending an entry can only change a search that found nothing before. */
  lemma {:induction false} FirstMatchAppend(es: seq<Entry>, e: Entry, normalized: string)
    ensures FirstMatch(es + [e], normalized) ==
      match FirstMatch(es, normalized)
      case Some(i) => Some(i)
      case None => if NormalizeCode(e.key) == normalized then Some(|es|) else None
  {
    if es != [] {
      assert (es + [e])[1..] == es[1..] + [e];
      FirstMatchAppend(es[1..], e, normalized);
    }
  }

  lemma {:induction false} RemoveSpacesOfBlank(s: string)
    requires forall i :: 0 <= i < |s| ==> IsSpace(s[i])
    ensures RemoveSpaces(s) == ""
  {
    if s != [] {
      RemoveSpacesOfBlank(s[1..]);
    }
  }

  /** Only the empty code itself short-circuits to 0: a non-empty blank code
      normalises to "" and finds a stored blank key, which addPromoCode accepts. */
  lemma BlankCodeIsLookedUp(es: seq<Entry>, blank: string, amount: int)
    requires Consistent(es) && FirstMatch(es, "") == None
    requires blank != "" && forall i :: 0 <= i < |blank| ==> IsSpace(blank[i])
    requires 0 <= amount <= MaxRebate
    ensures Rebate(AfterAdd(es, blank, amount), "") == 0
    ensures Rebate(AfterAdd(es, blank, amount), blank) == amount
  {
    RemoveSpacesOfBlank(Upper(blank));
    assert KeyIndex(es, blank) == None;
    FirstMatchAppend(es, Entry(blank, amount), "");
  }

  /** Adding an exact key that is new but whose normalised form is already stored
      changes no rebate: the older key comes first in key order and wins. */
  lemma AddShadowedByNormalisedTwin(es: seq<Entry>, code: string, amount: int, query: string)
    requires Consistent(es) && code != ""
    requires KeyIndex(es, code).None? && FirstMatch(es, NormalizeCode(code)).Some?
    ensures Rebate(AfterAdd(es, code, amount), query) == Rebate(es, query)
  {
    if query != "" {
      FirstMatchAppend(es, Entry(code, Cap(amount)), NormalizeCode(query));
    }
  }

  class PromoCodeTable {
    /** The `promoCodes` object, its keys in insertion order. */
    var entries: seq<Entry>

    ghost predicate Valid()
      reads this
    {
      Consistent(entries)
    }

    /** `{ ...DEFAULT_CODES }`. */
    constructor ()
      ensures Valid() && entries == DefaultCodes
    {
      entries := DefaultCodes;
    }

    /** getRebate: scans the keys in order and returns the first normalised match's amount. */
    method GetRebate(code: string) returns (rebate: int)
      requires Valid()
      ensures rebate == Rebate(entries, code)
      ensures 0 <= rebate <= MaxRebate
    {
      if code == "" {
        return 0;
      }
      var normalizedInput := NormalizeCode(code);
      var i := 0;
      while i < |entries|
        invariant 0 <= i <= |entries|
        invariant forall j :: 0 <= j < i ==> NormalizeCode(entries[j].key) != normalizedInput
      {
        if NormalizeCode(entries[i].key) == normalizedInput {
          assert FirstMatch(entries, normalizedInput) == Some(i);
          return entries[i].amount;
        }
        i := i + 1;
      }
      assert FirstMatch(entries, normalizedInput) == None;
      return 0;
    }

    /** addPromoCode. */
    method AddPromoCode(code: string, amount: int)
      requires Valid()
      modifies this
      ensures Valid()
      ensures entries == AfterAdd(old(entries), code, amount)
    {
      AddSpec(entries, code, amount);
      if code == "" {
        return;
      }
      var cappedAmount := Cap(amount);
      match KeyIndex(entries, code)
      case Some(i) =>
        entries := entries[i := Entry(code, cappedAmount)];
      case None =>
        entries := entries + [Entry(code, cappedAmount)];
    }

    /** removePromoCode.  The key `find` returns is never empty, so "found" is "truthy". */
    method RemovePromoCode(code: string)
      requires Valid()
      modifies this
      ensures Valid()
      ensures entries == AfterRemove(old(entries), code)
    {
      RemoveSpec(entries, code);
      if code == "" {
        return;
      }
      var normalizedInput := NormalizeCode(code);
      var keyToDelete := FirstMatch(entries, normalizedInput);
      if keyToDelete.Some? {
        var i := keyToDelete.value;
        entries := entries[..i] + entries[i + 1..];
      }
    }

    /** updatePromoCode. */
    method UpdatePromoCode(code: string, amount: int)
      requires Valid()
      modifies this
      ensures Valid()
      ensures entries == AfterUpdate(old(entries), code, amount)
    {
      UpdateSpec(entries, code, amount);
      var normalizedInput := NormalizeCode(code);
      var existingKey := FirstMatch(entries, normalizedInput);
      if existingKey.Some? {
        var i := existingKey.value;
        entries := entries[i := Entry(entries[i].key, Cap(amount))];
      }
    }

    /** getAllPromoCodes: a copy of the table. */
    method GetAllPromoCodes() returns (codes: seq<Entry>)
      requires Valid()
      ensures codes == entries && Consistent(codes)
    {
      codes := entries;
    }
  }
}
