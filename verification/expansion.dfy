/** The per-accordion "expanded" flags shared by the bus list
    (src/components/BusResults/BusResults.tsx) and the metro list
    (src/components/MetroResults/MetroResults.tsx): one entry per stop or
    station, keyed by its id. */
module Expansion {
  import opened Wrappers

  datatype Entry = Entry(id: string, expanded: bool)

  /** One collapsed entry per id, in the given order. */
  function Collapsed(ids: seq<string>): (r: seq<Entry>)
    ensures |r| == |ids|
    ensures forall i :: 0 <= i < |ids| ==> r[i].id == ids[i] && !r[i].expanded
  {
    if |ids| == 0 then [] else [Entry(ids[0], false)] + Collapsed(ids[1..])
  }

  function Flip(e: Entry, id: string): Entry {
    if e.id == id then Entry(e.id, !e.expanded) else e
  }

  /** Flips the entries whose id is `id` and keeps every other entry. */
  function Toggle(entries: seq<Entry>, id: string): (r: seq<Entry>)
    ensures |r| == |entries|
    ensures forall i :: 0 <= i < |entries| ==> r[i].id == entries[i].id
    ensures forall i :: 0 <= i < |entries| ==>
      r[i].expanded == (if entries[i].id == id then !entries[i].expanded else entries[i].expanded)
  {
    if |entries| == 0 then [] else [Flip(entries[0], id)] + Toggle(entries[1..], id)
  }

  /** `entries.find((e) => e.id === id)?.expanded`. */
  function Lookup(entries: seq<Entry>, id: string): (r: Option<bool>)
    ensures r.Some? <==> exists i :: 0 <= i < |entries| && entries[i].id == id
  {
    if |entries| == 0 then None
    else if entries[0].id == id then Some(entries[0].expanded)
    else
      assert forall i :: 1 <= i < |entries| ==> entries[i] == entries[1..][i - 1];
      Lookup(entries[1..], id)
  }

  function Negated(b: Option<bool>): Option<bool> {
    match b
    case Some(v) => Some(!v)
    case None => None
  }

  /** Toggling twice restores the flags. */
  lemma ToggleTwice(entries: seq<Entry>, id: string)
    ensures Toggle(Toggle(entries, id), id) == entries
  {
    var r := Toggle(Toggle(entries, id), id);
    assert |r| == |entries|;
    forall i | 0 <= i < |entries| ensures r[i] == entries[i] {
    }
  }

  /** After a toggle, the looked-up flag of `id` is negated and the flag of
      every other id is unchanged. */
  lemma {:induction false} ToggleLookup(entries: seq<Entry>, id: string, other: string)
    ensures Lookup(Toggle(entries, id), id) == Negated(Lookup(entries, id))
    ensures other != id ==> Lookup(Toggle(entries, id), other) == Lookup(entries, other)
    decreases |entries|
  {
    if |entries| > 0 {
      var r := Toggle(entries, id);
      assert r[1..] == Toggle(entries[1..], id);
      ToggleLookup(entries[1..], id, other);
    }
  }

  /** Initially every listed id reads as collapsed and any other id as absent. */
  lemma {:induction false} CollapsedLookup(ids: seq<string>, id: string)
    ensures Lookup(Collapsed(ids), id) == (if id in ids then Some(false) else None)
    decreases |ids|
  {
    if |ids| > 0 {
      var r := Collapsed(ids);
      assert r[1..] == Collapsed(ids[1..]);
      CollapsedLookup(ids[1..], id);
      assert id in ids <==> id == ids[0] || id in ids[1..];
    }
  }
}
