/** The `EnglishJournal` page: the editor's state fields, its handlers, and
    the search filter over the stored entries. */
module Journal {
  import opened Wrappers
  import opened Text
  import Seqs
  import opened EnglishAnalyzer
  import opened AnalyzerHook
  import opened EntryStore

  datatype Tab = Write | Entries

  /** `x || ""` for an optional text field. */
  function OrEmpty(o: Option<string>): string {
    o.GetOr("")
  }

  /** `x || d`: a missing or empty string is falsy, so both give `d`. */
  function OrElse(o: Option<string>, d: string): (r: string)
    ensures o.Some? && o.value != "" ==> r == o.value
    ensures o.None? || o.value == "" ==> r == d
  {
    if o.Some? && o.value != "" then o.value else d
  }

  /** `search.trim().toLowerCase()` */
  function Query(search: string): string {
    Lower(Trim(search))
  }

  /** The lower-cased title, category or content contains `q`. */
  predicate Matches(e: Entry, q: string) {
    Contains(Lower(OrEmpty(e.title)), q) ||
    Contains(Lower(OrEmpty(e.category)), q) ||
    Contains(Lower(OrEmpty(e.content)), q)
  }

  /** `filteredEntries`: all entries for a blank search, otherwise those
      matching the trimmed, lower-cased query, in their order. */
  function FilterEntries(entries: seq<Entry>, search: string): (r: seq<Entry>)
    ensures AllSpace(search) ==> r == entries
    ensures !AllSpace(search) ==> forall e :: e in r <==> e in entries && Matches(e, Query(search))
    ensures !AllSpace(search) ==>
      forall e :: multiset(r)[e] == if Matches(e, Query(search)) then multiset(entries)[e] else 0
    ensures Seqs.IsSubsequence(r, entries)
  {
    var q := Query(search);
    if q == [] then
      assert Trim(search) == [];
      IsSubsequenceRefl(entries);
      entries
    else
      assert Trim(search) != [];
      Seqs.FilterCount(entries, (e: Entry) => Matches(e, q));
      Seqs.Filter(entries, (e: Entry) => Matches(e, q))
  }

  lemma {:induction false} IsSubsequenceRefl<T>(s: seq<T>)
    ensures Seqs.IsSubsequence(s, s)
    decreases |s|
  {
    if s != [] {
      IsSubsequenceRefl(s[1..]);
    }
  }

  /** Filtering an already filtered list with the same search changes nothing. */
  lemma FilterTwice(entries: seq<Entry>, search: string)
    ensures FilterEntries(FilterEntries(entries, search), search) == FilterEntries(entries, search)
  {
    var q := Query(search);
    if q != [] {
      Seqs.FilterIdempotent(entries, (e: Entry) => Matches(e, q));
    }
  }

  /** The page's state: the active tab, the editor fields, the analyzer
      hook's `issues` and `revised`, the search box and the entry store. */
  class JournalEditor {
    var activeTab: Tab
    var title: string
    var content: string
    var category: string
    var media: seq<string>
    var revised: string
    var issues: seq<Issue>
    var search: string
    const store: EntryStore

    constructor (loaded: seq<Entry>)
      ensures activeTab == Write && title == "" && content == "" && category == "Toastmasters"
      ensures media == [] && revised == "" && issues == [] && search == ""
      ensures fresh(store) && store.entries == loaded && store.persisted == loaded
    {
      activeTab := Write;
      title := "";
      content := "";
      category := "Toastmasters";
      media := [];
      revised := "";
      issues := [];
      search := "";
      store := new EntryStore(loaded);
    }

    /** The list shown on the entries tab. */
    function Filtered(): seq<Entry>
      reads this, store
    {
      FilterEntries(store.entries, search)
    }

    /** `handleAddEntry`, with the fresh id and the timestamp as parameters.
        A blank title or content adds nothing and changes nothing. */
    method AddEntry(id: string, createdAt: string) returns (added: bool)
      modifies this, store
      ensures added <==> !AllSpace(old(title)) && !AllSpace(old(content))
      ensures !added ==> unchanged(this) && unchanged(store)
      ensures added ==> (store.entries ==
        [Entry(id, Some(Trim(old(title))), Some(old(category)), Some(old(content)),
               Some(old(revised)), Some(old(media)), Some(createdAt))] + old(store.entries))
      ensures added ==> store.persisted == store.entries
      ensures added ==> title == "" && content == "" && revised == "" && media == [] && activeTab == Entries
      ensures added ==> category == old(category) && issues == old(issues) && search == old(search)
    {
      var t, c := Trim(title), Trim(content);
      if t == [] || c == [] {
        return false;
      }
      SaveAndClear(Entry(id, Some(t), Some(category), Some(content), Some(revised), Some(media), Some(createdAt)));
      added := true;
    }

    /** The second half of `handleAddEntry`: store the entry, clear the
        editor and show the entries tab. */
    method SaveAndClear(entry: Entry)
      modifies this, store
      ensures store.entries == [entry] + old(store.entries) && store.persisted == store.entries
      ensures title == "" && content == "" && revised == "" && media == [] && activeTab == Entries
      ensures category == old(category) && issues == old(issues) && search == old(search)
    {
      store.AddEntry(entry);
      title := "";
      content := "";
      revised := "";
      media := [];
      activeTab := Entries;
    }

    /** `handleEditEntry`: load an entry into the editor, with defaults for
      missing fields, and switch to the write tab. */
    method EditEntry(e: Entry)
      modifies this
      ensures title == OrEmpty(e.title) && content == OrEmpty(e.content) && revised == OrEmpty(e.revised)
      ensures category == OrElse(e.category, "Others")
      ensures media == e.media.GetOr([])
      ensures activeTab == Write
      ensures issues == old(issues) && search == old(search)
    {
      title := OrEmpty(e.title);
      category := OrElse(e.category, "Others");
      content := OrEmpty(e.content);
      revised := OrEmpty(e.revised);
      media := e.media.GetOr([]);
      activeTab := Write;
    }

    /** `handleRemoveEntry` */
    method RemoveEntry(id: string)
      modifies store
      ensures store.entries == RemoveById(old(store.entries), id)
      ensures store.persisted == store.entries
    {
      store.RemoveEntry(id);
    }

    /** `handleUpload`, with the files' data URLs as a parameter: they go
      before the media already attached, in file order. */
    method Upload(urls: seq<string>)
      modifies this
      ensures media == urls + old(media)
      ensures title == old(title) && content == old(content) && revised == old(revised)
      ensures category == old(category) && activeTab == old(activeTab) && issues == old(issues) && search == old(search)
    {
      media := urls + media;
    }

    /** The debounced effect of the analyzer hook: re-analyse the content. */
    method Reanalyze()
      modifies this
      ensures issues == Analysis(content)
      ensures content == old(content)
      ensures title == old(title) && category == old(category) && media == old(media)
      ensures revised == old(revised) && activeTab == old(activeTab) && search == old(search)
    {
      issues := PseudoAnalyze(content);
    }

    /** `handleApplySingleClick`: the content changes only when the hook
      returns a non-empty string. */
    method ApplySingleClick(idx: int)
      modifies this
      ensures !(0 <= idx < |issues|) ==> content == old(content)
      ensures var u := ApplySingle(old(content), issues, idx);
        content == if u.Some? && u.value != "" then u.value else old(content)
      ensures issues == old(issues)
      ensures title == old(title) && category == old(category) && media == old(media)
      ensures revised == old(revised) && activeTab == old(activeTab) && search == old(search)
    {
      var updated := ApplySingle(content, issues, idx);
      if updated.Some? && updated.value != "" {
        content := updated.value;
      }
    }

    /** `handleApplyAllClick`: an all-empty result is falsy and is dropped. */
    method ApplyAllClick()
      modifies this
      ensures var u := ApplyBackToFront(old(content), issues);
        content == if u != "" then u else old(content)
      ensures issues == old(issues)
      ensures title == old(title) && category == old(category) && media == old(media)
      ensures revised == old(revised) && activeTab == old(activeTab) && search == old(search)
    {
      var updated := ApplyAll(content, issues);
      if updated != "" {
        content := updated;
      }
    }

    /** `handleReviseClick` */
    method ReviseClick()
      modifies this
      ensures revised == Revise(content)
      ensures content == old(content)
      ensures title == old(title) && category == old(category) && media == old(media)
      ensures issues == old(issues) && activeTab == old(activeTab) && search == old(search)
    {
      revised := Revise(content);
    }
  }
}
