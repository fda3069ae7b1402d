/** The `useLocalStorage` hook: the journal's entry list, replaced by a new
    list on every change and saved after each one. */
module EntryStore {
  import opened Wrappers
  import Seqs

  /** A journal entry as stored. Entries are read back from JSON, so every
      field but the id may be missing. */
  datatype Entry = Entry(
    id: string,
    title: Option<string>,
    category: Option<string>,
    content: Option<string>,
    revised: Option<string>,
    media: Option<seq<string>>,
    createdAt: Option<string>)

  predicate HasId(e: Entry, id: string) {
    e.id == id
  }

  /** `entries.filter((e) => e.id !== id)` */
  function RemoveById(xs: seq<Entry>, id: string): (r: seq<Entry>)
    ensures forall e :: e in r <==> e in xs && e.id != id
    ensures forall e :: multiset(r)[e] == if e.id != id then multiset(xs)[e] else 0
    ensures Seqs.IsSubsequence(r, xs)
    ensures (forall k :: 0 <= k < |xs| ==> xs[k].id != id) ==> r == xs
  {
    var keep := (e: Entry) => e.id != id;
    Seqs.FilterCount(xs, keep);
    if forall k :: 0 <= k < |xs| ==> xs[k].id != id then
      Seqs.FilterKeepsAll(xs, keep);
      Seqs.Filter(xs, keep)
    else Seqs.Filter(xs, keep)
  }

  /** `entries.map((e) => (e.id === updated.id ? updated : e))` */
  function ReplaceById(xs: seq<Entry>, u: Entry): (r: seq<Entry>)
    ensures |r| == |xs|
    ensures forall k :: 0 <= k < |xs| && xs[k].id == u.id ==> r[k] == u
    ensures forall k :: 0 <= k < |xs| && xs[k].id != u.id ==> r[k] == xs[k]
    ensures (forall k :: 0 <= k < |xs| ==> xs[k].id != u.id) ==> r == xs
  {
    Seqs.Map(xs, (e: Entry) => if e.id == u.id then u else e)
  }

  /** Replacing twice with the same entry is replacing once. */
  lemma ReplaceIdempotent(xs: seq<Entry>, u: Entry)
    ensures ReplaceById(ReplaceById(xs, u), u) == ReplaceById(xs, u)
  {
  }

  /** Removing twice is removing once. */
  lemma RemoveIdempotent(xs: seq<Entry>, id: string)
    ensures RemoveById(RemoveById(xs, id), id) == RemoveById(xs, id)
  {
  }

  /** Removing the id of an entry just added drops that entry and every older one with its id. */
  lemma {:induction false} RemoveAfterAdd(e: Entry, xs: seq<Entry>)
    ensures RemoveById([e] + xs, e.id) == RemoveById(xs, e.id)
  {
    Seqs.FilterCons(e, xs, (x: Entry) => x.id != e.id);
  }

  /** The hook's state: `entries`, and the copy last written to storage. */
  class EntryStore {
    var entries: seq<Entry>
    ghost var persisted: seq<Entry>

    /** The initial state is whatever was loaded, which is also what storage holds. */
    constructor (loaded: seq<Entry>)
      ensures entries == loaded && persisted == loaded
    {
      entries := loaded;
      persisted := loaded;
    }

    /** `addEntry`: the new entry goes first, the others follow in order. */
    method AddEntry(e: Entry)
      modifies this
      ensures entries == [e] + old(entries)
      ensures persisted == entries
    {
      var next := [e] + entries;
      entries := next;
      persisted := next;
    }

    /** `removeEntry` */
    method RemoveEntry(id: string)
      modifies this
      ensures entries == RemoveById(old(entries), id)
      ensures persisted == entries
    {
      var next := RemoveById(entries, id);
      entries := next;
      persisted := next;
    }

    /** `updateEntry` */
    method UpdateEntry(u: Entry)
      modifies this
      ensures entries == ReplaceById(old(entries), u)
      ensures persisted == entries
    {
      var next := ReplaceById(entries, u);
      entries := next;
      persisted := next;
    }
  }
}
