/**
 * `serialize` (main.py:37-45): the in-place rewrite that makes a stored
 * document JSON-ready before an endpoint returns it. `_id` becomes its
 * text and every `datetime` value becomes its ISO 8601 text.
 *
 * Python's `str` on a value and `datetime.isoformat` are library code and
 * are parameters here.
 */
module Serialization {

  import opened Values

  const IdKey: string := "_id"

  /** `doc.get("_id")`: the stored id, or `None` when the key is absent. */
  function IdOf(m: map<string, Value>): (v: Value)
    ensures IdKey in m ==> v == m[IdKey]
    ensures IdKey !in m ==> v == Null
  {
    if IdKey in m then m[IdKey] else Null
  }

  /** One entry after the datetime pass: a `datetime` becomes its ISO text, anything else stays. */
  function IsoEntry(v: Value, iso: Instant -> string): (w: Value)
    ensures !w.Stamp?
    ensures v.Stamp? ==> w == Str(iso(v.at))
    ensures !v.Stamp? ==> w == v
  {
    if v.Stamp? then Str(iso(v.at)) else v
  }

  /**
   * The document `serialize` leaves behind. An empty document is left as
   * it is; otherwise `_id` is replaced by (or added as) the text of the
   * old id, every `datetime` by its ISO text, and nothing else changes.
   */
  function Serialized(m: map<string, Value>, str: Value -> string, iso: Instant -> string): (r: map<string, Value>)
    ensures m == map[] ==> r == m
    ensures m != map[] ==> r.Keys == m.Keys + {IdKey}
    ensures m != map[] ==> r[IdKey] == Str(str(IdOf(m)))
    ensures forall k :: k in m && k != IdKey && m[k].Stamp? ==> r[k] == Str(iso(m[k].at))
    ensures forall k :: k in m && k != IdKey && !m[k].Stamp? ==> r[k] == m[k]
    ensures forall k :: k in r ==> !r[k].Stamp?
  {
    if m == map[] then m
    else
      var withId := m[IdKey := Str(str(IdOf(m)))];
      map k | k in withId :: IsoEntry(withId[k], iso)
  }

  /**
   * Serialising twice is serialising once, as long as `str` gives a
   * string back unchanged (Python's `str` does).
   */
  lemma SerializedIdempotent(m: map<string, Value>, str: Value -> string, iso: Instant -> string)
    requires forall s :: str(Str(s)) == s
    ensures Serialized(Serialized(m, str, iso), str, iso) == Serialized(m, str, iso)
  {
  }

  /** A document whose `_id` is already text and that holds no `datetime` is a fixed point. */
  lemma SerializedFixed(m: map<string, Value>, str: Value -> string, iso: Instant -> string)
    requires IdKey in m && m[IdKey].Str? && str(m[IdKey]) == m[IdKey].s
    requires forall k :: k in m ==> !m[k].Stamp?
    ensures Serialized(m, str, iso) == m
  {
  }

  /** A stored document, a Python `dict` the endpoints update in place. */
  class Document {
    var entries: map<string, Value>

    constructor (entries: map<string, Value>)
      ensures this.entries == entries
    {
      this.entries := entries;
    }
  }

  /**
   * `serialize(doc)`: returns `doc` itself; a `None` or empty document is
   * left untouched, any other one is rewritten in place to `Serialized`.
   * The datetime pass visits the keys in an arbitrary order, so the
   * result does not depend on the dictionary's order.
   */
  method Serialize(doc: Document?, str: Value -> string, iso: Instant -> string) returns (r: Document?)
    modifies doc
    ensures r == doc
    ensures doc != null ==> doc.entries == Serialized(old(doc.entries), str, iso)
  {
    if doc == null || doc.entries == map[] {
      return doc;
    }
    ghost var before := doc.entries;
    doc.entries := doc.entries[IdKey := Str(str(IdOf(doc.entries)))];
    ghost var start := doc.entries;
    var pending := doc.entries.Keys;
    while pending != {}
      invariant pending <= start.Keys
      invariant doc.entries.Keys == start.Keys
      invariant forall k :: k in start && k !in pending ==> doc.entries[k] == IsoEntry(start[k], iso)
      invariant forall k :: k in pending ==> doc.entries[k] == start[k]
      decreases pending
    {
      var k :| k in pending;
      var v := doc.entries[k];
      if v.Stamp? {
        doc.entries := doc.entries[k := Str(iso(v.at))];
      }
      pending := pending - {k};
    }
    assert doc.entries == Serialized(before, str, iso);
    return doc;
  }
}
