/**
 * The saved-looks and saved-measurements lists of App.tsx: newest-first sequences where saving
 * prepends one entry and deleting keeps every entry whose id differs, in order.
 */
module SavedCollections {
  import opened Types

  function LookId(l: SavedLook): int { l.id }

  function MeasurementId(m: SavedMeasurement): int { m.id }

  /** `entries.filter(e => e.id !== id)`, for any entry type with an integer id. */
  function WithoutId<T(!new)>(entries: seq<T>, id: int, idOf: T -> int): (kept: seq<T>)
    ensures |kept| <= |entries|
    ensures forall x :: x in kept <==> x in entries && idOf(x) != id
    ensures forall k :: 0 <= k < |kept| ==> idOf(kept[k]) != id
  {
    if entries == [] then []
    else (if idOf(entries[0]) == id then [] else [entries[0]]) + WithoutId(entries[1..], id, idOf)
  }

  /** Every entry of `entries` has an id other than `id`. */
  predicate IdAbsent<T(!new)>(entries: seq<T>, id: int, idOf: T -> int) {
    forall k :: 0 <= k < |entries| ==> idOf(entries[k]) != id
  }

  /** Deleting works segment by segment, so the kept entries stay in their original order. */
  lemma {:induction false} WithoutIdAppend<T(!new)>(a: seq<T>, b: seq<T>, id: int, idOf: T -> int)
    ensures WithoutId(a + b, id, idOf) == WithoutId(a, id, idOf) + WithoutId(b, id, idOf)
    decreases |a|
  {
    if a != [] {
      assert (a + b)[0] == a[0] && (a + b)[1..] == a[1..] + b;
      WithoutIdAppend(a[1..], b, id, idOf);
    } else {
      assert a + b == b;
    }
  }

  /** Deleting an id nobody carries changes nothing. */
  lemma {:induction false} WithoutAbsentId<T(!new)>(entries: seq<T>, id: int, idOf: T -> int)
    requires IdAbsent(entries, id, idOf)
    ensures WithoutId(entries, id, idOf) == entries
    decreases |entries|
  {
    if entries != [] {
      WithoutAbsentId(entries[1..], id, idOf);
      assert [entries[0]] + entries[1..] == entries;
    }
  }

  /** A delete leaves no entry with that id, so a second delete of the same id is a no-op. */
  lemma WithoutIdIdempotent<T(!new)>(entries: seq<T>, id: int, idOf: T -> int)
    ensures WithoutId(WithoutId(entries, id, idOf), id, idOf) == WithoutId(entries, id, idOf)
  {
    WithoutAbsentId(WithoutId(entries, id, idOf), id, idOf);
  }

  /** Deleting the entry that was just saved under a fresh id gives the list before the save back. */
  lemma SaveThenDelete<T(!new)>(entry: T, entries: seq<T>, idOf: T -> int)
    requires IdAbsent(entries, idOf(entry), idOf)
    ensures WithoutId([entry] + entries, idOf(entry), idOf) == entries
  {
    assert ([entry] + entries)[1..] == entries;
    WithoutAbsentId(entries, idOf(entry), idOf);
  }

  /** Deleting another id from a list with a new entry in front keeps that entry in front. */
  lemma DeleteKeepsNewest<T(!new)>(entry: T, entries: seq<T>, id: int, idOf: T -> int)
    requires idOf(entry) != id
    ensures WithoutId([entry] + entries, id, idOf) == [entry] + WithoutId(entries, id, idOf)
  {
    assert ([entry] + entries)[1..] == entries;
  }
}
