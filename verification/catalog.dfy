/**
 * The per-locale translation managers of src/tooling/intl/babelIntlPlugin.js
 * (`getTranslationsManager`): a messages object loaded from
 * `<folder>/<locale>.json`, a `get` that seeds a missing or empty entry with
 * its own id, and a debounced write of the whole object back to the file.
 *
 * Timers are explicit: `setTimeout` hands out an id and registers the
 * callback's captured messages object, `clearTimeout` unregisters it, and the
 * event loop firing a timer is the method `FireTimer`. The file write is
 * recorded in `written` when it succeeds.
 */
module Catalog {
  import opened Js

  /** What reading a catalog file gives: no file, parsed string entries, or text `JSON.parse` rejects. */
  datatype StoredFile = Missing | Contents(entries: map<string, string>) | Malformed

  /** The entries a manager starts from; a missing file reads as `"{}"`. */
  function InitialEntries(stored: StoredFile): (r: Result<map<string, string>>)
    ensures r.Failure? <==> stored.Malformed?
    ensures stored.Missing? ==> r == Ok(map[])
    ensures stored.Contents? ==> r == Ok(stored.entries)
  {
    match stored
    case Missing => Ok(map[])
    case Contents(m) => Ok(m)
    case Malformed => Failure("SyntaxError")
  }

  /** `!messages[id]`: the id has no entry, or its entry is the empty string. */
  predicate NeedsSeeding(entries: map<string, string>, id: string)
  {
    id !in entries || entries[id] == ""
  }

  /** The text `get(id)` returns for a messages object holding `entries`. */
  function Translation(entries: map<string, string>, id: string): (r: string)
    ensures NeedsSeeding(entries, id) ==> r == id
    ensures !NeedsSeeding(entries, id) ==> r == entries[id] && r != ""
  {
    if NeedsSeeding(entries, id) then id else entries[id]
  }

  /** After a lookup the id always has an entry, and looking it up again gives the same text. */
  lemma TranslationStable(entries: map<string, string>, id: string)
    ensures var e := entries[id := Translation(entries, id)];
            id in e && Translation(e, id) == Translation(entries, id)
            && (Translation(entries, id) != "" ==> !NeedsSeeding(e, id))
  {
  }

  /** The messages object; a pending write holds a reference to it, not a copy. */
  class Messages {
    var entries: map<string, string>

    constructor(initial: map<string, string>)
      ensures entries == initial
    {
      entries := initial;
    }
  }

  class TranslationManager {
    const locale: string
    var messages: Messages
    /** `throttle`: the id of the pending write timer, if any. */
    var throttle: Option<nat>
    /** The registered timers and the messages object each one will write. */
    var timers: map<nat, Messages>
    var nextTimer: nat
    /** The contents written to the catalog file, oldest first. */
    var written: seq<map<string, string>>

    /** At most one write is pending, and it is the one `throttle` names. */
    predicate Valid()
      reads this
    {
      (throttle.None? ==> timers == map[])
      && (throttle.Some? ==> timers.Keys == {throttle.value} && throttle.value < nextTimer)
    }

    constructor(locale: string, initial: map<string, string>)
      ensures Valid()
      ensures this.locale == locale && fresh(messages) && messages.entries == initial
      ensures throttle.None? && timers == map[] && written == []
    {
      this.locale := locale;
      messages := new Messages(initial);
      throttle := None;
      timers := map[];
      nextTimer := 0;
      written := [];
    }

    /** `updateTranslations(m)`: cancel the pending write and schedule a new one of `m`. */
    method UpdateTranslations(m: Messages)
      requires Valid()
      modifies this
      ensures Valid()
      ensures throttle == Some(old(nextTimer)) && timers == map[old(nextTimer) := m]
      ensures nextTimer == old(nextTimer) + 1
      ensures messages == old(messages) && written == old(written)
    {
      if throttle.Some? {
        timers := timers - {throttle.value};
      }
      timers := timers[nextTimer := m];
      throttle := Some(nextTimer);
      nextTimer := nextTimer + 1;
    }

    /** `get(id)`: the stored text, or the id itself after seeding it and scheduling a write. */
    method Get(id: string) returns (text: string)
      requires Valid()
      modifies this, messages
      ensures Valid()
      ensures text == Translation(old(messages.entries), id)
      ensures messages == old(messages) && messages.entries == old(messages.entries)[id := text]
      ensures NeedsSeeding(old(messages.entries), id) ==>
                throttle == Some(old(nextTimer)) && timers == map[old(nextTimer) := messages]
      ensures !NeedsSeeding(old(messages.entries), id) ==>
                throttle == old(throttle) && timers == old(timers) && nextTimer == old(nextTimer)
      ensures written == old(written)
    {
      if NeedsSeeding(messages.entries, id) {
        messages.entries := messages.entries[id := id];
        UpdateTranslations(messages);
      }
      text := messages.entries[id];
    }

    /**
     * The event loop runs the callback of timer `id`: `throttle` is cleared
     * and the captured messages object is written out, unless the write fails.
     */
    method FireTimer(id: nat, writeSucceeds: bool)
      requires Valid() && id in timers
      modifies this
      ensures Valid()
      ensures throttle.None? && timers == map[] && nextTimer == old(nextTimer)
      ensures written == old(written) + (if writeSucceeds then [old(timers[id].entries)] else [])
      ensures messages == old(messages)
    {
      var target := timers[id];
      throttle := None;
      timers := timers - {id};
      if writeSucceeds {
        written := written + [target.entries];
      }
    }

    /**
     * A new id looked up, then the write it schedules firing: the id comes
     * back as itself, and the catalog written out holds the entry `id: id`.
     */
    method GetThenWrite(id: string) returns (text: string)
      requires Valid() && NeedsSeeding(messages.entries, id)
      modifies this, messages
      ensures Valid() && throttle.None? && timers == map[]
      ensures text == id && messages == old(messages) && messages.entries == old(messages.entries)[id := id]
      ensures written == old(written) + [messages.entries] && id in written[|written| - 1] && written[|written| - 1][id] == id
    {
      text := Get(id);
      FireTimer(throttle.value, true);
    }

    /**
     * The file watcher saw a change: the file is read again and `messages` is
     * rebound to the parsed object. A write scheduled earlier still holds the
     * object it captured, so it writes the old entries over the edited file.
     */
    method Reload(read: StoredFile) returns (outcome: Result<()>)
      requires Valid()
      modifies this
      ensures Valid()
      ensures throttle == old(throttle) && timers == old(timers) && written == old(written)
      ensures read.Contents? ==> outcome.Ok? && fresh(messages) && messages.entries == read.entries
      ensures !read.Contents? ==> outcome.Failure? && messages == old(messages)
      ensures read.Contents? && throttle.Some? ==> timers[throttle.value] != messages
    {
      match read
      case Missing =>
        outcome := Failure("ENOENT");
      case Malformed =>
        outcome := Failure("SyntaxError");
      case Contents(m) =>
        messages := new Messages(m);
        outcome := Ok(());
    }
  }

  /** `translationManagers`: one manager per locale, created on first use. */
  class ManagerRegistry {
    var managers: map<string, TranslationManager>

    predicate Valid()
      reads this, managers.Values
    {
      forall l | l in managers :: managers[l].locale == l && managers[l].Valid()
    }

    constructor()
      ensures Valid() && managers == map[]
    {
      managers := map[];
    }

    /**
     * `getTranslationsManager(locale, folder)`: the existing manager, or a new
     * one over the stored catalog. `stored` is what reading the file gives;
     * it is only consulted on a locale's first use.
     */
    method ManagerFor(locale: string, stored: StoredFile) returns (r: Result<TranslationManager>)
      requires Valid()
      modifies this
      ensures Valid()
      ensures locale in old(managers) ==> r == Ok(old(managers)[locale]) && managers == old(managers)
      ensures locale !in old(managers) && stored.Malformed? ==> r.Failure? && managers == old(managers)
      ensures locale !in old(managers) && !stored.Malformed? ==>
                r.Ok? && fresh(r.value) && fresh(r.value.messages)
                && managers == old(managers)[locale := r.value]
                && r.value.messages.entries == InitialEntries(stored).value
                && r.value.throttle.None? && r.value.written == []
    {
      if locale in managers {
        return Ok(managers[locale]);
      }
      match InitialEntries(stored)
      case Failure(e) =>
        r := Failure(e);
      case Ok(entries) =>
        var m := new TranslationManager(locale, entries);
        managers := managers[locale := m];
        r := Ok(m);
    }
  }
}
