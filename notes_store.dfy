/**
 * The shared notes store: one ordered list of notes kept in browser storage
 * under a fixed key, with a list of subscribers that are called back with the
 * new list after every save.
 *
 * Browser storage is a map from keys to what `JSON.parse` would make of the
 * stored text; a callback is represented by its identity, and calling it is
 * recorded in a delivery log.
 */
module NotesStore {
  import opened Wrappers
  import opened Collections

  datatype SharedNote = SharedNote(
    id: string,
    title: string,
    content: string,
    tags: Option<seq<string>>,
    createdAt: Option<string>,
    isStarred: Option<bool>,
    aiGenerated: Option<bool>)

  /** The value stored under a key, classified the way `getNotes` reads it. */
  datatype Stored =
    | EmptyText                          // "" (falsy, like a missing item)
    | Malformed                          // `JSON.parse` throws
    | JsonArray(notes: seq<SharedNote>)  // parses to an array
    | JsonOther                          // parses to something that is not an array

  const STORAGE_KEY: string := "app_shared_notes"

  /** The identity of a subscribed callback. */
  type Subscriber = int

  /** One call of a subscriber with the list that was saved. */
  datatype Delivery = Delivery(subscriber: Subscriber, notes: seq<SharedNote>)

  /** `getNotes`: the stored list, or the empty list when the item is missing, empty, unparseable or not an array. */
  function GetNotes(storage: map<string, Stored>): (notes: seq<SharedNote>)
    ensures STORAGE_KEY !in storage ==> notes == []
    ensures STORAGE_KEY in storage && !storage[STORAGE_KEY].JsonArray? ==> notes == []
    ensures STORAGE_KEY in storage && storage[STORAGE_KEY].JsonArray? ==> notes == storage[STORAGE_KEY].notes
  {
    if STORAGE_KEY in storage then
      match storage[STORAGE_KEY]
      case JsonArray(notes) => notes
      case _ => []
    else []
  }

  /** What one save delivers: each subscriber once, in subscription order, with the saved list. */
  function Broadcast(subscribers: seq<Subscriber>, notes: seq<SharedNote>): (log: seq<Delivery>)
    ensures |log| == |subscribers|
    ensures forall i :: 0 <= i < |log| ==> log[i] == Delivery(subscribers[i], notes)
  {
    seq(|subscribers|, i requires 0 <= i < |subscribers| => Delivery(subscribers[i], notes))
  }

  /** The position of the first note with this id, or -1 (`notes.findIndex(n => n.id === id)`). */
  function IndexOfId(notes: seq<SharedNote>, id: string): (k: int)
    ensures -1 <= k < |notes|
    ensures k == -1 <==> forall i :: 0 <= i < |notes| ==> notes[i].id != id
    ensures k >= 0 ==> notes[k].id == id && forall i :: 0 <= i < k ==> notes[i].id != id
  {
    FindIndex(notes, (n: SharedNote) => n.id == id)
  }

  /** The list `upsertNote` saves: replace the first note with the same id, or put the note in front. */
  function Upserted(notes: seq<SharedNote>, note: SharedNote): seq<SharedNote>
  {
    var idx := IndexOfId(notes, note.id);
    if idx >= 0 then notes[idx := note] else [note] + notes
  }

  /** The list `removeNote` saves: every note whose id differs, in order. */
  function Removed(notes: seq<SharedNote>, id: string): seq<SharedNote>
  {
    Filter(notes, (n: SharedNote) => n.id != id)
  }

  /** The first note with this id, if any. */
  function Lookup(notes: seq<SharedNote>, id: string): Option<SharedNote>
  {
    var k := IndexOfId(notes, id);
    if k >= 0 then Some(notes[k]) else None
  }

  /** The ids of the notes, in order. */
  function Ids(notes: seq<SharedNote>): seq<string>
  {
    seq(|notes|, i requires 0 <= i < |notes| => notes[i].id)
  }

  /** The subscriber list after `subscribers.splice(subscribers.indexOf(cb), 1)` when `cb` is present. */
  function WithoutFirst(subscribers: seq<Subscriber>, cb: Subscriber): seq<Subscriber>
  {
    if cb in subscribers then
      var i := FirstIndex(subscribers, cb);
      subscribers[..i] + subscribers[i + 1..]
    else subscribers
  }

  /** An id already present: the first note with it is replaced where it stands; length and all other entries stay. */
  lemma UpsertExisting(notes: seq<SharedNote>, note: SharedNote)
    requires exists i :: 0 <= i < |notes| && notes[i].id == note.id
    ensures var k := IndexOfId(notes, note.id);
      && 0 <= k < |notes|
      && |Upserted(notes, note)| == |notes|
      && Upserted(notes, note)[k] == note
      && forall i :: 0 <= i < |notes| && i != k ==> Upserted(notes, note)[i] == notes[i]
  {
  }

  /** A new id: the note goes to index 0, the length grows by one, the rest keep their order after it. */
  lemma UpsertNew(notes: seq<SharedNote>, note: SharedNote)
    requires forall i :: 0 <= i < |notes| ==> notes[i].id != note.id
    ensures |Upserted(notes, note)| == |notes| + 1
    ensures Upserted(notes, note)[0] == note
    ensures Upserted(notes, note)[1..] == notes
  {
  }

  /** After an upsert, looking the id up finds exactly the upserted note. */
  lemma UpsertThenLookup(notes: seq<SharedNote>, note: SharedNote)
    ensures Lookup(Upserted(notes, note), note.id) == Some(note)
  {
    var r := Upserted(notes, note);
    var k := IndexOfId(notes, note.id);
    if k >= 0 {
      assert r[k] == note;
      assert forall i :: 0 <= i < k ==> r[i] == notes[i];
      assert IndexOfId(r, note.id) == k;
    } else {
      assert r[0] == note;
      assert IndexOfId(r, note.id) == 0;
    }
  }

  /** Upserting keeps ids unique when they were unique before. */
  lemma UpsertKeepsIdsUnique(notes: seq<SharedNote>, note: SharedNote)
    requires NoDuplicates(Ids(notes))
    ensures NoDuplicates(Ids(Upserted(notes, note)))
  {
    var r := Upserted(notes, note);
    var k := IndexOfId(notes, note.id);
    if k >= 0 {
      forall i, j | 0 <= i < j < |r| ensures Ids(r)[i] != Ids(r)[j] {
        assert Ids(notes)[i] != Ids(notes)[j];
        assert Ids(r)[i] == Ids(notes)[i] && Ids(r)[j] == Ids(notes)[j];
      }
    } else {
      forall i, j | 0 <= i < j < |r| ensures Ids(r)[i] != Ids(r)[j] {
        if i == 0 {
          assert Ids(r)[j] == notes[j - 1].id;
        } else {
          assert Ids(r)[i] == Ids(notes)[i - 1] && Ids(r)[j] == Ids(notes)[j - 1];
        }
      }
    }
  }

  /** After removal no note has the id, every note with another id is kept, and the order is preserved. */
  lemma RemoveSpec(notes: seq<SharedNote>, id: string)
    ensures forall n | n in Removed(notes, id) :: n.id != id
    ensures forall n | n in notes && n.id != id :: n in Removed(notes, id)
    ensures IsSubsequence(Removed(notes, id), notes)
  {
    FilterIsSubsequence(notes, (n: SharedNote) => n.id != id);
  }

  /** Removing the same id twice is removing it once. */
  lemma RemoveIdempotent(notes: seq<SharedNote>, id: string)
    ensures Removed(Removed(notes, id), id) == Removed(notes, id)
  {
    FilterAll(Removed(notes, id), (n: SharedNote) => n.id != id);
  }

  /** Unsubscribing removes one occurrence of the callback and keeps the others in order. */
  lemma UnsubscribeRemovesOne(subscribers: seq<Subscriber>, cb: Subscriber)
    ensures cb in subscribers ==> multiset(WithoutFirst(subscribers, cb)) == multiset(subscribers) - multiset{cb}
    ensures cb !in subscribers ==> WithoutFirst(subscribers, cb) == subscribers
    ensures IsSubsequence(WithoutFirst(subscribers, cb), subscribers)
  {
    if cb in subscribers {
      var i := FirstIndex(subscribers, cb);
      assert subscribers == subscribers[..i] + [cb] + subscribers[i + 1..];
      assert multiset(subscribers) == multiset(subscribers[..i]) + multiset{cb} + multiset(subscribers[i + 1..]);
      SkipOneIsSubsequence(subscribers, i);
    } else {
      SubsequenceReflexive(subscribers);
    }
  }

  /** When the callback was subscribed once, calling its unsubscribe a second time does nothing. */
  lemma UnsubscribeTwice(subscribers: seq<Subscriber>, cb: Subscriber)
    requires multiset(subscribers)[cb] <= 1
    ensures WithoutFirst(WithoutFirst(subscribers, cb), cb) == WithoutFirst(subscribers, cb)
  {
    UnsubscribeRemovesOne(subscribers, cb);
    var once := WithoutFirst(subscribers, cb);
    assert multiset(once)[cb] == 0;
    assert cb !in once;
  }

  /** Subscribing a new callback and then unsubscribing it restores the subscriber list. */
  lemma SubscribeThenUnsubscribe(subscribers: seq<Subscriber>, cb: Subscriber)
    requires cb !in subscribers
    ensures WithoutFirst(subscribers + [cb], cb) == subscribers
  {
    var s := subscribers + [cb];
    assert FirstIndex(s, cb) == |subscribers|;
    assert s[..|subscribers|] == subscribers;
  }

  /** The store's state: browser storage, the module-level subscriber array, and every callback made so far. */
  class SharedNotesStore {
    var storage: map<string, Stored>
    var subscribers: seq<Subscriber>
    var delivered: seq<Delivery>

    constructor (storage: map<string, Stored>)
      ensures this.storage == storage && subscribers == [] && delivered == []
    {
      this.storage := storage;
      subscribers := [];
      delivered := [];
    }

    /** `saveNotes`: write the list, then call every subscriber with it. */
    method SaveNotes(notes: seq<SharedNote>)
      modifies this
      ensures storage == old(storage)[STORAGE_KEY := JsonArray(notes)]
      ensures GetNotes(storage) == notes
      ensures subscribers == old(subscribers)
      ensures delivered == old(delivered) + Broadcast(subscribers, notes)
    {
      storage := storage[STORAGE_KEY := JsonArray(notes)];
      var i := 0;
      while i < |subscribers|
        invariant 0 <= i <= |subscribers|
        invariant storage == old(storage)[STORAGE_KEY := JsonArray(notes)]
        invariant subscribers == old(subscribers)
        invariant delivered == old(delivered) + Broadcast(subscribers[..i], notes)
      {
        delivered := delivered + [Delivery(subscribers[i], notes)];
        i := i + 1;
        assert Broadcast(subscribers[..i], notes) == Broadcast(subscribers[..i - 1], notes) + [Delivery(subscribers[i - 1], notes)];
      }
      assert subscribers[..i] == subscribers;
    }

    /** `upsertNote`: read the list, replace the note with the same id in place or put the note in front, save. */
    method UpsertNote(note: SharedNote)
      modifies this
      ensures storage == old(storage)[STORAGE_KEY := JsonArray(Upserted(old(GetNotes(storage)), note))]
      ensures subscribers == old(subscribers)
      ensures delivered == old(delivered) + Broadcast(subscribers, Upserted(old(GetNotes(storage)), note))
    {
      var notes := GetNotes(storage);
      var idx := IndexOfId(notes, note.id);
      if idx >= 0 {
        notes := notes[idx := note];
      } else {
        notes := [note] + notes;
      }
      SaveNotes(notes);
    }

    /** `removeNote`: save the list without the notes carrying this id. */
    method RemoveNote(id: string)
      modifies this
      ensures storage == old(storage)[STORAGE_KEY := JsonArray(Removed(old(GetNotes(storage)), id))]
      ensures subscribers == old(subscribers)
      ensures delivered == old(delivered) + Broadcast(subscribers, Removed(old(GetNotes(storage)), id))
    {
      var notes := Removed(GetNotes(storage), id);
      SaveNotes(notes);
    }

    /** `subscribeNotes`: append the callback; nothing is called yet. */
    method Subscribe(cb: Subscriber)
      modifies this
      ensures subscribers == old(subscribers) + [cb]
      ensures storage == old(storage) && delivered == old(delivered)
    {
      subscribers := subscribers + [cb];
    }

    /** The unsubscribe function returned for `cb`: remove its first occurrence, if any. */
    method Unsubscribe(cb: Subscriber)
      modifies this
      ensures subscribers == WithoutFirst(old(subscribers), cb)
      ensures storage == old(storage) && delivered == old(delivered)
    {
      if cb in subscribers {
        var i := FirstIndex(subscribers, cb);
        subscribers := subscribers[..i] + subscribers[i + 1..];
      }
    }
  }
}
