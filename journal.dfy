/** `POST` of app/api/journal/route.ts: add a journal entry, newest first. */
module JournalRoute {
  import opened Wrappers
  import opened Calendar
  import opened Records
  import opened Store

  /** The fields of the request body that the handler reads; the tags may be
      left out. */
  datatype JournalInput = JournalInput(date: Day, content: string, tags: Option<seq<string>>)

  /** Builds the entry with the supplied id and the supplied tags or none,
      puts it in front of the stored entries, writes them back and returns it. */
  method Post(store: Store, id: string, body: JournalInput) returns (created: JournalEntry)
    modifies store`journal
    ensures created.id == id && created.date == body.date && created.content == body.content
    ensures body.tags.Some? ==> created.tags == body.tags.value
    ensures body.tags.None? ==> created.tags == []
    ensures |store.journal| == |old(store.journal)| + 1
    ensures store.journal[0] == created && store.journal[1..] == old(store.journal)
  {
    var entries := store.journal;
    var newEntry := JournalEntry(id, body.date, body.content, body.tags.GetOr([]));
    entries := [newEntry] + entries;
    store.journal := entries;
    created := newEntry;
  }
}
