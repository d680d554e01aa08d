/** Writing a component's entries to the database, skipping the write when they equal the ones written last. */
module StoreCache {
  import opened Wrappers
  import opened Persistence

  type Doc = seq<PType>

  /** What is remembered of the entries written last, and what the database holds for the component. */
  datatype Saved = Saved(cache: Option<Doc>, entry: Option<Doc>)

  datatype Answer = Done | UpdateFailed

  /** The database: the document of each collection. */
  class Database {
    var documents: map<string, Doc>

    constructor ()
      ensures documents == map[]
    {
      documents := map[];
    }

    /** Overwrites the document unless the update fails. */
    method Update(collection: string, document: Doc, works: bool) returns (answer: Answer)
      modifies this
      ensures documents == if works then old(documents)[collection := document] else old(documents)
      ensures answer.Done? <==> works
    {
      if works {
        documents := documents[collection := document];
        answer := Done;
      } else {
        answer := UpdateFailed;
      }
    }

    function EntryOf(collection: string): Option<Doc>
      reads this
    {
      if collection in documents then Some(documents[collection]) else None
    }
  }

  /** One call of persist: `doc` is what the component flattens to, `works` whether an update would succeed. */
  function Persisted(s: Saved, doc: Doc, works: bool): Saved {
    if doc == [] || s.cache == Some(doc) then s
    else Saved(Some(doc), if works then Some(doc) else s.entry)
  }

  function Reply(s: Saved, doc: Doc, works: bool): Answer {
    if doc == [] || s.cache == Some(doc) || works then Done else UpdateFailed
  }

  /** A component as persist sees it, the only writer of its collection. */
  class Persister {
    const name: string
    const db: Database
    var persistanceCache: Option<Doc>

    ghost function View(): Saved
      reads this, db
    {
      Saved(persistanceCache, db.EntryOf(name))
    }

    constructor (name: string, db: Database)
      ensures this.name == name && this.db == db && persistanceCache == None
    {
      this.name, this.db, persistanceCache := name, db, None;
    }

    method Persist(doc: Doc, works: bool) returns (answer: Answer)
      modifies this, db
      ensures View() == Persisted(old(View()), doc, works) && answer == Reply(old(View()), doc, works)
      ensures forall other :: other != name ==> db.EntryOf(other) == old(db.EntryOf(other))
    {
      if |doc| <= 0 {
        return Done;
      }
      if persistanceCache == Some(doc) {
        return Done;
      }
      persistanceCache := Some(doc);
      answer := db.Update(name, doc, works);
    }
  }

  // ---------- runs of calls ----------

  datatype Attempt = Attempt(doc: Doc, works: bool)

  function PersistedAll(s: Saved, run: seq<Attempt>): Saved {
    if run == [] then s
    else Persisted(PersistedAll(s, run[..|run| - 1]), run[|run| - 1].doc, run[|run| - 1].works)
  }

  /** The plain way: write every time there is something to write. */
  function WrittenAll(entry: Option<Doc>, run: seq<Attempt>): Option<Doc> {
    if run == [] then entry
    else
      var before, last := WrittenAll(entry, run[..|run| - 1]), run[|run| - 1];
      if last.doc != [] && last.works then Some(last.doc) else before
  }

  ghost predicate Honest(s: Saved) { s.cache.Some? ==> s.entry == s.cache }

  /** The cache is a promise about the database that a call keeps exactly when it answers without an error,
      or fails to write what is there already. */
  lemma HonestExactlyWhen(s: Saved, doc: Doc, works: bool)
    requires Honest(s)
    ensures Honest(Persisted(s, doc, works)) <==> Reply(s, doc, works).Done? || s.entry == Some(doc)
  {
  }

  ghost predicate AllWork(run: seq<Attempt>) { forall i :: 0 <= i < |run| ==> run[i].works }

  /** When every update succeeds, skipping writes leaves the database as writing every time does. */
  lemma {:induction false} SkippingRefinesWriting(s: Saved, run: seq<Attempt>)
    requires Honest(s) && AllWork(run)
    ensures Honest(PersistedAll(s, run)) && PersistedAll(s, run).entry == WrittenAll(s.entry, run)
  {
    if run != [] {
      SkippingRefinesWriting(s, run[..|run| - 1]);
    }
  }

  /** The entries handed over last, whether or not they were written. */
  function LastTried(cache: Option<Doc>, run: seq<Attempt>): Option<Doc> {
    if run == [] then cache
    else if run[|run| - 1].doc != [] then Some(run[|run| - 1].doc)
    else LastTried(cache, run[..|run| - 1])
  }

  lemma {:induction false} CacheIsLastTried(s: Saved, run: seq<Attempt>)
    ensures PersistedAll(s, run).cache == LastTried(s.cache, run)
  {
    if run != [] {
      CacheIsLastTried(s, run[..|run| - 1]);
    }
  }

  /** After any run, a call that answers without an error leaves its entries in the database, except when
      they are the ones handed over last and the database does not hold them. */
  lemma DoneMeansStoredExactlyWhen(s: Saved, run: seq<Attempt>, doc: Doc, works: bool)
    requires doc != [] && Reply(PersistedAll(s, run), doc, works).Done?
    ensures PersistedAll(s, run + [Attempt(doc, works)]).entry == Some(doc)
            <==> !(LastTried(s.cache, run) == Some(doc) && PersistedAll(s, run).entry != Some(doc))
  {
    var longer := run + [Attempt(doc, works)];
    assert longer[..|longer| - 1] == run;
    CacheIsLastTried(s, run);
  }

  /** Retrying after a failed update is answered as done without a write, for good: no number of retries
      stores the entries. */
  lemma {:induction false} RetriesNeverStore(s: Saved, doc: Doc, retries: seq<Attempt>)
    requires doc != [] && s.cache != Some(doc) && s.entry != Some(doc)
    requires forall i :: 0 <= i < |retries| ==> retries[i].doc == doc
    ensures
      var failed := Persisted(s, doc, false);
      && Reply(s, doc, false).UpdateFailed?
      && PersistedAll(failed, retries) == failed && failed.entry == s.entry
      && forall works :: Reply(failed, doc, works).Done?
  {
    if retries != [] {
      RetriesNeverStore(s, doc, retries[..|retries| - 1]);
    }
  }
}
