/** The observation archive (lib/storage.ts): one storage slot holding the
    list of saved observations, newest first, at most one per id. */
module Storage {
  import opened Types

  /** What the `skyverse_observations` slot holds: nothing (or the empty
      string), text that does not parse, or a parsed list. */
  datatype Slot = Absent | Corrupt | Holds(list: seq<SavedObservation>)

  /** `getObservations` on a slot: an absent or unparsable slot reads as []. */
  function Read(slot: Slot): (list: seq<SavedObservation>)
    ensures slot.Holds? ==> list == slot.list
    ensures !slot.Holds? ==> list == []
  {
    if slot.Holds? then slot.list else []
  }

  /** `list.filter((o) => o.id !== id)`. */
  function Without(list: seq<SavedObservation>, id: string): (r: seq<SavedObservation>)
    ensures |r| <= |list|
    ensures forall o :: o in r <==> o in list && o.id != id
  {
    if |list| == 0 then []
    else (if list[0].id == id then [] else [list[0]]) + Without(list[1..], id)
  }

  /** The list after saving `o`: `o` in front of every entry with another id. */
  function Saved(list: seq<SavedObservation>, o: SavedObservation): seq<SavedObservation> {
    [o] + Without(list, o.id)
  }

  /** `list.find((o) => o.id === id) || null`. */
  function Find(list: seq<SavedObservation>, id: string): (r: Option<SavedObservation>)
    ensures r.Some? ==> r.value in list && r.value.id == id
    ensures r.None? <==> forall o :: o in list ==> o.id != id
  {
    if |list| == 0 then None
    else if list[0].id == id then Some(list[0])
    else Find(list[1..], id)
  }

  /** The number of entries with the given id. */
  function IdCount(list: seq<SavedObservation>, id: string): nat {
    if |list| == 0 then 0
    else (if list[0].id == id then 1 else 0) + IdCount(list[1..], id)
  }

  /** `s` is `t` with some entries removed, the rest in their order. */
  predicate Subsequence(s: seq<SavedObservation>, t: seq<SavedObservation>)
    decreases |t|
  {
    if |s| == 0 then true
    else if |t| == 0 then false
    else if s[0] == t[0] then Subsequence(s[1..], t[1..])
    else Subsequence(s, t[1..])
  }

  /** The storage slot with its three operations. */
  class ObservationStore {
    var slot: Slot

    constructor ()
      ensures slot == Absent
    {
      slot := Absent;
    }

    function Observations(): (list: seq<SavedObservation>)
      reads this
      ensures slot.Holds? ==> list == slot.list
      ensures !slot.Holds? ==> list == []
    {
      Read(slot)
    }

    /** `saveObservation`; `writable` is false when `setItem` throws (the
        error is logged and the slot keeps its old content). */
    method SaveObservation(o: SavedObservation, writable: bool)
      modifies this
      ensures writable ==> slot == Holds(Saved(old(Observations()), o))
      ensures !writable ==> slot == old(slot)
    {
      var existing := Observations();
      var updated := [o] + Without(existing, o.id);
      if writable {
        slot := Holds(updated);
      }
    }

    /** `getObservation`: the first entry with that id. */
    method GetObservation(id: string) returns (r: Option<SavedObservation>)
      ensures r == Find(Observations(), id)
    {
      r := Find(Observations(), id);
    }

    /** `deleteObservation`. */
    method DeleteObservation(id: string, writable: bool)
      modifies this
      ensures writable ==> slot == Holds(Without(old(Observations()), id))
      ensures !writable ==> slot == old(slot)
    {
      var existing := Observations();
      if writable {
        slot := Holds(Without(existing, id));
      }
    }
  }

  // ---------------------------------------------------------------------
  // Properties of the list operations

  /** Removing entries keeps the others in order. */
  lemma {:induction false} WithoutIsSubsequence(list: seq<SavedObservation>, id: string)
    ensures Subsequence(Without(list, id), list)
  {
    if |list| > 0 {
      var rest := Without(list[1..], id);
      WithoutIsSubsequence(list[1..], id);
      if list[0].id != id {
        assert Without(list, id) == [list[0]] + rest;
        assert ([list[0]] + rest)[1..] == rest;
      } else {
        assert Without(list, id) == rest;
        if |rest| > 0 {
          assert rest[0] in rest;
          assert rest[0] != list[0];
        }
      }
    }
  }

  /** No entry has the removed id. */
  lemma {:induction false} WithoutRemovesAll(list: seq<SavedObservation>, id: string)
    ensures IdCount(Without(list, id), id) == 0
  {
    if |list| > 0 {
      WithoutRemovesAll(list[1..], id);
      var rest := Without(list[1..], id);
      if list[0].id != id {
        assert Without(list, id) == [list[0]] + rest;
        assert ([list[0]] + rest)[1..] == rest;
      } else {
        assert Without(list, id) == rest;
      }
    }
  }

  /** Deleting an id no entry has changes nothing. */
  lemma {:induction false} WithoutAbsentId(list: seq<SavedObservation>, id: string)
    requires forall o :: o in list ==> o.id != id
    ensures Without(list, id) == list
  {
    if |list| > 0 {
      assert list[0] in list;
      WithoutAbsentId(list[1..], id);
      assert [list[0]] + list[1..] == list;
    }
  }

  /** Deleting twice is deleting once. */
  lemma WithoutIdempotent(list: seq<SavedObservation>, id: string)
    ensures Without(Without(list, id), id) == Without(list, id)
  {
    WithoutAbsentId(Without(list, id), id);
  }

  /** After a save, `o` is the head, it is the only entry with its id, and
      every other entry follows in its old order. */
  lemma SaveShape(list: seq<SavedObservation>, o: SavedObservation)
    ensures Saved(list, o)[0] == o
    ensures IdCount(Saved(list, o), o.id) == 1
    ensures Saved(list, o)[1..] == Without(list, o.id)
    ensures Subsequence(Saved(list, o)[1..], list)
    ensures forall x :: x in list && x.id != o.id ==> x in Saved(list, o)
  {
    var r := Saved(list, o);
    WithoutRemovesAll(list, o.id);
    assert r[1..] == Without(list, o.id);
    WithoutIsSubsequence(list, o.id);
  }

  /** Saving the same observation twice gives the list of saving it once. */
  lemma SaveIdempotent(list: seq<SavedObservation>, o: SavedObservation)
    ensures Saved(Saved(list, o), o) == Saved(list, o)
  {
    var once := Saved(list, o);
    assert Without(once, o.id) == Without(Without(list, o.id), o.id);
    WithoutIdempotent(list, o.id);
  }

  /** A saved observation is found again by its id; other ids find what they found before. */
  lemma FindAfterSave(list: seq<SavedObservation>, o: SavedObservation, id: string)
    ensures Find(Saved(list, o), o.id) == Some(o)
    ensures id != o.id ==> Find(Saved(list, o), id) == Find(list, id)
  {
    var r := Saved(list, o);
    assert r[1..] == Without(list, o.id);
    if id != o.id {
      FindWithoutOther(list, o.id, id);
    }
  }

  /** Removing one id does not change what another id finds. */
  lemma {:induction false} FindWithoutOther(list: seq<SavedObservation>, removed: string, id: string)
    requires removed != id
    ensures Find(Without(list, removed), id) == Find(list, id)
  {
    if |list| > 0 {
      FindWithoutOther(list[1..], removed, id);
      var rest := Without(list[1..], removed);
      if list[0].id != removed {
        assert Without(list, removed) == [list[0]] + rest;
        assert ([list[0]] + rest)[1..] == rest;
      } else {
        assert Without(list, removed) == rest;
      }
    }
  }

  /** `Find` returns the first entry with the id. */
  lemma {:induction false} FindIsFirst(list: seq<SavedObservation>, id: string)
    requires Find(list, id).Some?
    ensures exists k :: (0 <= k < |list| && list[k] == Find(list, id).value &&
      forall j :: 0 <= j < k ==> list[j].id != id)
  {
    if list[0].id != id {
      FindIsFirst(list[1..], id);
      var k :| 0 <= k < |list[1..]| && list[1..][k] == Find(list[1..], id).value &&
        forall j :: 0 <= j < k ==> list[1..][j].id != id;
      assert list[k + 1] == list[1..][k];
      forall j | 0 <= j < k + 1 ensures list[j].id != id {
        if j > 0 {
          assert list[j] == list[1..][j - 1];
        }
      }
    } else {
      assert list[0] == Find(list, id).value;
    }
  }

  /** After a delete nothing is found under that id. */
  lemma FindAfterDelete(list: seq<SavedObservation>, id: string)
    ensures Find(Without(list, id), id) == None
  {
  }
}
