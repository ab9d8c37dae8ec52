/** The local custom-recipe store: one persistent slot, under the key "custom_cocktails",
    that holds the whole list of user-created recipes. Reading parses the whole slot and writes
    nothing. Adding, removing and updating read the list, change it and write the whole list
    back; removing and updating write nothing when no entry has the id. */
module Storage {
  import opened Wrappers
  import opened Types
  import Seqs
  import Text

  /** The prefix of every id the store issues. */
  const CustomIdPrefix := "custom-"

  /** What reading the slot yields: nothing (null or the empty string), text that does not
      parse to an array of recipes, or a stored list. */
  datatype Slot = Absent | Corrupt | Stored(items: seq<Cocktail>)

  /** `{...c, isCustom: true}`: the same recipe under the same id, marked custom; a recipe
      already marked is left as it is. */
  function Stamp(c: Cocktail): (r: Cocktail)
    ensures r.isCustom == Some(true) && r.id == c.id && DraftOf(r) == DraftOf(c)
    ensures c.isCustom == Some(true) ==> r == c
  {
    c.(isCustom := Some(true))
  }

  /** Every stored recipe is marked custom (vacuous for a slot that holds no list). */
  predicate AllCustom(slot: Slot) {
    slot.Stored? ==> forall i :: 0 <= i < |slot.items| ==> slot.items[i].isCustom == Some(true)
  }

  /** `getCustomCocktails`: the stored list, each entry re-marked custom; an absent or corrupt
      slot reads as the empty list rather than as an error. */
  function GetCustomCocktails(slot: Slot): (r: seq<Cocktail>)
    ensures forall i :: 0 <= i < |r| ==> r[i].isCustom == Some(true)
    ensures slot.Stored? ==> |r| == |slot.items|
    ensures slot.Stored? ==> forall i :: 0 <= i < |r| ==> r[i].(isCustom := slot.items[i].isCustom) == slot.items[i]
    ensures !slot.Stored? ==> r == []
  {
    match slot
    case Stored(items) => Seqs.Map(items, Stamp)
    case _ => []
  }

  function HasId(id: string): Cocktail -> bool {
    (c: Cocktail) => c.id == id
  }

  function LacksId(id: string): Cocktail -> bool {
    (c: Cocktail) => c.id != id
  }

  /** `getCustomCocktailById`: the first stored recipe whose id equals `id`, or `None`. */
  function GetCustomCocktailById(slot: Slot, id: string): (r: Option<Cocktail>)
    ensures r.Some? ==> r.value.id == id && r.value.isCustom == Some(true)
    ensures r.Some? ==> var list := GetCustomCocktails(slot);
      exists k :: 0 <= k < |list| && list[k] == r.value && forall j :: 0 <= j < k ==> list[j].id != id
    ensures r.None? <==> forall c :: c in GetCustomCocktails(slot) ==> c.id != id
  {
    Seqs.Find(GetCustomCocktails(slot), HasId(id))
  }

  /** The id `custom-${timestamp}`. The decimal part reads back as the timestamp. */
  function CustomId(timestamp: nat): (id: string)
    ensures Text.StartsWith(id, CustomIdPrefix)
    ensures Text.IsDigits(id[|CustomIdPrefix|..])
    ensures Text.DecimalValue(id[|CustomIdPrefix|..]) == timestamp
  {
    var id := CustomIdPrefix + Text.NatToString(timestamp);
    assert id[|CustomIdPrefix|..] == Text.NatToString(timestamp);
    Text.DecimalRoundTrip(timestamp);
    id
  }

  /** The record `addCustomCocktail` builds from a draft. */
  function NewCustomCocktail(d: Draft, timestamp: nat): (c: Cocktail)
    ensures DraftOf(c) == d && c.id == CustomId(timestamp) && c.isCustom == Some(true)
  {
    WithIdentity(d, CustomId(timestamp), Some(true))
  }

  /** The list `removeCustomCocktail` writes, or `None` when no entry has the id and nothing
      is written. */
  function Removed(slot: Slot, id: string): (r: Option<seq<Cocktail>>)
    ensures r.None? <==> forall c :: c in GetCustomCocktails(slot) ==> c.id != id
    ensures r.Some? ==> forall c :: c in r.value <==> c in GetCustomCocktails(slot) && c.id != id
    ensures r.Some? ==> |r.value| < |GetCustomCocktails(slot)|
    ensures r.Some? ==> r.value == Seqs.Filter(GetCustomCocktails(slot), LacksId(id))
  {
    var before := GetCustomCocktails(slot);
    var kept := Seqs.Filter(before, LacksId(id));
    Seqs.FilterMembers(before, LacksId(id));
    Seqs.FilterKeepsAll(before, LacksId(id));
    assert (forall c :: c in before ==> c.id != id) <==> (forall i :: 0 <= i < |before| ==> LacksId(id)(before[i]));
    if |kept| == |before| then None else Some(kept)
  }

  /** `after` is `before` with its first entry whose id is `c.id`, the one at `k`, replaced by
      the re-marked record, and nothing else changed. */
  predicate ReplacesFirstMatch(before: seq<Cocktail>, k: int, c: Cocktail, after: seq<Cocktail>) {
    0 <= k < |before| && before[k].id == c.id
    && (forall j :: 0 <= j < k ==> before[j].id != c.id)
    && after == before[k := Stamp(c)]
  }

  /** The list `updateCustomCocktail` writes, or `None` when no entry has the id: the first
      entry with the id is replaced by the re-marked record and nothing else changes. */
  function Updated(slot: Slot, c: Cocktail): (r: Option<seq<Cocktail>>)
    ensures r.None? <==> forall x :: x in GetCustomCocktails(slot) ==> x.id != c.id
    ensures r.Some? ==> exists k :: ReplacesFirstMatch(GetCustomCocktails(slot), k, c, r.value)
  {
    var before := GetCustomCocktails(slot);
    match Seqs.FindIndex(before, HasId(c.id))
    case None =>
      assert forall i :: 0 <= i < |before| ==> before[i].id != c.id;
      None
    case Some(k) =>
      assert before[k] in before;
      assert ReplacesFirstMatch(before, k, c, before[k := Stamp(c)]);
      Some(before[k := Stamp(c)])
  }

  /** Re-reading a list whose entries are all marked custom gives the same list: stamping is
      idempotent, so a write followed by a read is the identity. */
  lemma RereadStored(items: seq<Cocktail>)
    requires AllCustom(Stored(items))
    ensures GetCustomCocktails(Stored(items)) == items
  {
    var r := GetCustomCocktails(Stored(items));
    forall i | 0 <= i < |items| ensures r[i] == items[i] {
      assert r[i].(isCustom := items[i].isCustom) == items[i];
    }
  }

  /** After an append of a recipe whose id no earlier entry has, looking that id up yields
      the appended recipe. */
  lemma AddedIsFound(before: seq<Cocktail>, c: Cocktail)
    requires AllCustom(Stored(before)) && c.isCustom == Some(true)
    requires forall x :: x in before ==> x.id != c.id
    ensures GetCustomCocktailById(Stored(before + [c]), c.id) == Some(c)
  {
    RereadStored(before + [c]);
    Seqs.FindSkipsMisses(before, [c], HasId(c.id));
  }

  /** After a removal, no entry has the removed id. */
  lemma RemovedIsGone(slot: Slot, id: string)
    requires Removed(slot, id).Some?
    ensures GetCustomCocktailById(Stored(Removed(slot, id).value), id) == None
  {
    var kept := Removed(slot, id).value;
    RereadStored(kept);
  }

  /** Replacing the first entry with a given id by a record with that id makes the record
      the one a lookup finds. */
  lemma FirstMatchReplaced(before: seq<Cocktail>, k: nat, c: Cocktail)
    requires k < |before| && before[k].id == c.id
    requires forall j :: 0 <= j < k ==> before[j].id != c.id
    ensures Seqs.Find(before[k := c], HasId(c.id)) == Some(c)
  {
    var after := before[k := c];
    assert after[k] in after;
    var r := Seqs.Find(after, HasId(c.id));
    var k' :| 0 <= k' < |after| && after[k'] == r.value && forall j :: 0 <= j < k' ==> !HasId(c.id)(after[j]);
    assert HasId(c.id)(after[k]);
    assert forall j :: 0 <= j < k ==> after[j] == before[j];
  }

  /** Update never creates and never renames: the list keeps its length and the id at every
      position; looking the id up then yields the updated, re-marked record. */
  lemma UpdateKeepsIdentities(slot: Slot, c: Cocktail)
    requires Updated(slot, c).Some?
    ensures var before, after := GetCustomCocktails(slot), Updated(slot, c).value;
      |after| == |before| && forall j :: 0 <= j < |after| ==> after[j].id == before[j].id
    ensures GetCustomCocktailById(Stored(Updated(slot, c).value), c.id) == Some(Stamp(c))
  {
    var before, after := GetCustomCocktails(slot), Updated(slot, c).value;
    var k :| ReplacesFirstMatch(before, k, c, after);
    ReplacedAt(before, k, Stamp(c));
  }

  /** The seq-level content of `UpdateKeepsIdentities`, for an explicit first index `k`. */
  lemma ReplacedAt(before: seq<Cocktail>, k: nat, c: Cocktail)
    requires AllCustom(Stored(before)) && c.isCustom == Some(true)
    requires k < |before| && before[k].id == c.id
    requires forall j :: 0 <= j < k ==> before[j].id != c.id
    ensures var after := before[k := c];
      |after| == |before| && forall j :: 0 <= j < |after| ==> after[j].id == before[j].id
    ensures GetCustomCocktailById(Stored(before[k := c]), c.id) == Some(c)
  {
    RereadStored(before[k := c]);
    FirstMatchReplaced(before, k, c);
  }

  /** The store: the persistent slot and whether the browser refuses writes. */
  class CustomStore {
    var slot: Slot
    /** `Some(message)` when `localStorage.setItem` throws (quota exceeded, storage disabled)
        with that message. */
    var writeError: Option<string>

    constructor (slot: Slot, writeError: Option<string>)
      ensures this.slot == slot && this.writeError == writeError
    {
      this.slot := slot;
      this.writeError := writeError;
    }

    /** `localStorage.setItem(key, JSON.stringify(items))`: replaces the slot, or throws and
        leaves it as it was. */
    method SetItem(items: seq<Cocktail>) returns (r: Result<(), string>)
      modifies this`slot
      ensures writeError.None? ==> r == Ok(()) && slot == Stored(items)
      ensures writeError.Some? ==> r == Err(writeError.value) && slot == old(slot)
    {
      if writeError.Some? {
        return Err(writeError.value);
      }
      slot := Stored(items);
      return Ok(());
    }

    /** `addCustomCocktail`: appends the new record and returns it; a failed write is
        rethrown. */
    method AddCustomCocktail(d: Draft, timestamp: nat) returns (r: Result<Cocktail, string>)
      modifies this`slot
      ensures var c := NewCustomCocktail(d, timestamp);
        match writeError
        case None => r == Ok(c) && slot == Stored(GetCustomCocktails(old(slot)) + [c])
        case Some(m) => r == Err(m) && slot == old(slot)
    {
      var customCocktails := GetCustomCocktails(slot);
      var newCocktail := NewCustomCocktail(d, timestamp);
      customCocktails := customCocktails + [newCocktail];
      var written := SetItem(customCocktails);
      if written.Err? {
        return Err(written.error);
      }
      return Ok(newCocktail);
    }

    /** `removeCustomCocktail`: drops every entry with the id and reports true; false when no
        entry has it (nothing is written) or when the write fails (the error is swallowed). */
    method RemoveCustomCocktail(id: string) returns (removed: bool)
      modifies this`slot
      ensures var next := Removed(old(slot), id);
        removed == (next.Some? && writeError.None?)
        && slot == (if removed then Stored(next.value) else old(slot))
    {
      var customCocktails := GetCustomCocktails(slot);
      var filtered := Seqs.Filter(customCocktails, LacksId(id));
      if |filtered| == |customCocktails| {
        return false;
      }
      var written := SetItem(filtered);
      if written.Err? {
        return false;
      }
      return true;
    }

    /** `updateCustomCocktail`: replaces the first entry with the record's id; false when no
        entry has it (nothing is written) or when the write fails (the error is swallowed). */
    method UpdateCustomCocktail(c: Cocktail) returns (updated: bool)
      modifies this`slot
      ensures var next := Updated(old(slot), c);
        updated == (next.Some? && writeError.None?)
        && slot == (if updated then Stored(next.value) else old(slot))
    {
      var customCocktails := GetCustomCocktails(slot);
      var index := Seqs.FindIndex(customCocktails, HasId(c.id));
      if index.None? {
        return false;
      }
      customCocktails := customCocktails[index.value := Stamp(c)];
      var written := SetItem(customCocktails);
      if written.Err? {
        return false;
      }
      return true;
    }
  }
}
