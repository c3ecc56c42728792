/** Parsed assignments, in input order, as both import parsers return them. */
module Entries {
  import opened Format

  /** Where an entry came from. */
  datatype Loc = Line(n: nat) | Record(n: nat)

  datatype Entry = Entry(key: string, value: string, loc: Loc)

  predicate HasKey(entries: seq<Entry>, key: string) {
    exists i :: 0 <= i < |entries| && entries[i].key == key
  }

  function EntryOf(entries: seq<Entry>, key: string): (e: Entry)
    requires HasKey(entries, key)
    ensures e.key == key && e in entries
  {
    if entries[|entries| - 1].key == key then entries[|entries| - 1] else EntryOf(entries[..|entries| - 1], key)
  }

  predicate Distinct(entries: seq<Entry>) {
    forall i, j :: 0 <= i < j < |entries| ==> entries[i].key != entries[j].key
  }

  predicate ValidKeys(entries: seq<Entry>) {
    forall i :: 0 <= i < |entries| ==> ValidKey(entries[i].key)
  }

  lemma HasKeySnoc(entries: seq<Entry>, e: Entry)
    ensures forall k :: HasKey(entries + [e], k) <==> k == e.key || HasKey(entries, k)
    ensures forall k :: k != e.key && HasKey(entries, k) ==> EntryOf(entries + [e], k) == EntryOf(entries, k)
    ensures EntryOf(entries + [e], e.key) == e
  {
    var es := entries + [e];
    assert es[..|es| - 1] == entries && es[|es| - 1] == e;
    forall k
      ensures HasKey(es, k) <==> k == e.key || HasKey(entries, k)
    {
      if k == e.key { assert es[|entries|].key == k; }
      if HasKey(entries, k) {
        var i :| 0 <= i < |entries| && entries[i].key == k;
        assert es[i].key == k;
      }
    }
  }
}
