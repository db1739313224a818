/** The file-backed journal (src/file_journal.rs): a registry record (name,
    path, default flag) whose entry operations read the whole journal file,
    change the list, and write it back. */
module FileJournals {
  import opened Prelude
  import opened JsonValue
  import opened Entries

  const NameKey := "name"
  const PathKey := "path"
  const TypeKey := "type"
  const DefaultKey := "default"
  const FileJournalType := "FileJournal"

  /** What a file holds: nothing yet (a missing file is created empty on
      first open), or one serialized document. */
  datatype Stored<T> = Empty | Document(doc: T)

  /** The journal files, by path. Only journal files live here. */
  class Disk {
    var files: map<string, Stored<seq<Entry>>>

    constructor (files: map<string, Stored<seq<Entry>>>)
      ensures this.files == files
    {
      this.files := files;
    }

    /** What `entries()` decodes from the file at `path`: an empty (or
        missing) file yields no entries. */
    function EntriesAt(path: string): (r: seq<Entry>)
      reads this
      ensures path !in files || files[path].Empty? ==> r == []
      ensures path in files && files[path].Document? ==> r == files[path].doc
    {
      if path in files then
        match files[path]
        case Empty => []
        case Document(entries) => entries
      else []
    }
  }

  /** `entries.iter().position(|e| e.id() == id)`, as a specification. */
  function FirstIndex(entries: seq<Entry>, id: Uuid): (r: Option<nat>)
    ensures r.Some? ==> r.value < |entries| && entries[r.value].id == id
    ensures r.Some? ==> forall k :: 0 <= k < r.value ==> entries[k].id != id
    ensures r.None? ==> forall k :: 0 <= k < |entries| ==> entries[k].id != id
    decreases |entries|
  {
    if entries == [] then None
    else if entries[0].id == id then Some(0)
    else match FirstIndex(entries[1..], id)
      case None => None
      case Some(i) => Some(i + 1)
  }

  /** The list `upsert_entry` writes back: the new entry is inserted in front
      of the first entry with the same id (which is kept), or appended.
      Either way the list grows by exactly the given entry. */
  function Upserted(entries: seq<Entry>, entry: Entry): (r: seq<Entry>)
    ensures |r| == |entries| + 1
    ensures multiset(r) == multiset(entries) + multiset{entry}
  {
    match FirstIndex(entries, entry.id)
    case Some(i) =>
      assert entries == entries[..i] + entries[i..];
      entries[..i] + [entry] + entries[i..]
    case None => entries + [entry]
  }

  /** The list `remove_entries(ids)` writes back: no longer, and holding only
      entries that were there and whose id is not listed. */
  function WithoutIds(entries: seq<Entry>, ids: seq<Uuid>): (r: seq<Entry>)
    ensures |r| <= |entries|
    ensures forall e :: e in r ==> e in entries && e.id !in ids
  {
    Filter(entries, (e: Entry) => e.id !in ids)
  }

  /** The list `undo_last_entry` leaves: everything sharing the last entry's id
      is removed, and an empty list stays empty. */
  function Undone(entries: seq<Entry>): (r: seq<Entry>)
    ensures entries == [] ==> r == []
    ensures |r| <= |entries|
    ensures entries != [] ==> forall e :: e in r ==> e in entries && e.id != entries[|entries| - 1].id
  {
    if entries == [] then entries else WithoutIds(entries, [entries[|entries| - 1].id])
  }

  /** The linear search that `upsert_entry` runs over the loaded list. */
  method Position(entries: seq<Entry>, id: Uuid) returns (r: Option<nat>)
    ensures r == FirstIndex(entries, id)
  {
    var i := 0;
    while i < |entries|
      invariant 0 <= i <= |entries|
      invariant forall k :: 0 <= k < i ==> entries[k].id != id
    {
      if entries[i].id == id {
        return Some(i);
      }
      i := i + 1;
    }
    r := None;
  }

  /** An entry with a new id is appended. */
  lemma UpsertNewIdAppends(entries: seq<Entry>, entry: Entry)
    requires forall k :: 0 <= k < |entries| ==> entries[k].id != entry.id
    ensures Upserted(entries, entry) == entries + [entry]
  {
  }

  /** An entry whose id first occurs at `i` is inserted at `i`; the old entry
      survives one place later, and everything else keeps its place. */
  lemma UpsertExistingIdInserts(entries: seq<Entry>, entry: Entry, i: nat)
    requires i < |entries| && entries[i].id == entry.id
    requires forall k :: 0 <= k < i ==> entries[k].id != entry.id
    ensures var r := Upserted(entries, entry);
      && r == entries[..i] + [entry] + entries[i..]
      && r[i] == entry && r[i + 1] == entries[i]
      && FirstIndex(r, entry.id) == Some(i)
  {
  }

  /** `remove_entries(ids)` keeps exactly the entries whose id is not listed,
      in their original relative order. */
  lemma WithoutIdsKeepsExactlyUnlisted(entries: seq<Entry>, ids: seq<Uuid>)
    ensures forall e :: e in WithoutIds(entries, ids) <==> e in entries && e.id !in ids
    ensures forall a, b :: WithoutIds(a + b, ids) == WithoutIds(a, ids) + WithoutIds(b, ids)
  {
    forall e ensures e in WithoutIds(entries, ids) <==> e in entries && e.id !in ids {
      FilterMembership(entries, (e: Entry) => e.id !in ids, e);
    }
    forall a, b ensures WithoutIds(a + b, ids) == WithoutIds(a, ids) + WithoutIds(b, ids) {
      FilterAppend(a, b, (e: Entry) => e.id !in ids);
    }
  }

  /** Removing ids that no entry carries changes nothing. */
  lemma WithoutUnusedIdsIsIdentity(entries: seq<Entry>, ids: seq<Uuid>)
    requires forall k :: 0 <= k < |entries| ==> entries[k].id !in ids
    ensures WithoutIds(entries, ids) == entries
  {
    FilterKeepsAll(entries, (e: Entry) => e.id !in ids);
  }

  /** Removing the same ids a second time changes nothing. */
  lemma WithoutIdsIdempotent(entries: seq<Entry>, ids: seq<Uuid>)
    ensures WithoutIds(WithoutIds(entries, ids), ids) == WithoutIds(entries, ids)
  {
    FilterIdempotent(entries, (e: Entry) => e.id !in ids);
  }

  /** Undo removes every entry sharing the last entry's id, and only those. */
  lemma UndoRemovesLastId(entries: seq<Entry>)
    requires entries != []
    ensures var last := entries[|entries| - 1];
      && (forall e :: e in Undone(entries) <==> e in entries && e.id != last.id)
      && |Undone(entries)| < |entries|
  {
    var last := entries[|entries| - 1];
    var p := (e: Entry) => e.id !in [last.id];
    forall e ensures e in Undone(entries) <==> e in entries && e.id != last.id {
      FilterMembership(entries, p, e);
    }
    FilterDrops(entries, p, |entries| - 1);
  }

  /** When the last id occurs nowhere else, undo removes exactly the last entry. */
  lemma UndoUniqueLastDropsLast(entries: seq<Entry>)
    requires entries != []
    requires forall k :: 0 <= k < |entries| - 1 ==> entries[k].id != entries[|entries| - 1].id
    ensures Undone(entries) == entries[..|entries| - 1]
  {
    var n := |entries|;
    var ids := [entries[n - 1].id];
    var p := (e: Entry) => e.id !in ids;
    assert entries == entries[..n - 1] + [entries[n - 1]];
    FilterAppend(entries[..n - 1], [entries[n - 1]], p);
    FilterKeepsAll(entries[..n - 1], p);
  }

  /** Undoing right after adding an entry with a new id restores the journal. */
  lemma UndoAfterNewUpsertRestores(entries: seq<Entry>, entry: Entry)
    requires forall k :: 0 <= k < |entries| ==> entries[k].id != entry.id
    ensures Undone(Upserted(entries, entry)) == entries
  {
    UpsertNewIdAppends(entries, entry);
    var r := entries + [entry];
    assert r[..|r| - 1] == entries;
    UndoUniqueLastDropsLast(r);
  }

  predicate IsJournalObject(j: Json) {
    HasString(j, NameKey) && HasString(j, PathKey) && HasBoolean(j, DefaultKey)
  }

  class FileJournal {
    var name: string
    var path: string
    var default: bool

    /** `FileJournal::new(name, path)`. The writability probe is not modelled. */
    constructor (name: string, path: string)
      ensures this.name == name && this.path == path && !default
    {
      this.name := name;
      this.path := path;
      default := false;
    }

    /** `FileJournal::from_json`; a record missing a field is a panic in the
        source, so it is excluded. Any other fields are ignored. */
    constructor FromJson(j: Json)
      requires IsJournalObject(j)
      ensures name == j.fields[NameKey].str
      ensures path == j.fields[PathKey].str
      ensures default == j.fields[DefaultKey].boolean
    {
      name := j.fields[NameKey].str;
      path := j.fields[PathKey].str;
      default := j.fields[DefaultKey].boolean;
    }

    /** The record as written to the registry, tagged with its journal kind. */
    function ToJson(): (j: Json)
      reads this
      ensures IsJournalObject(j) && j.fields.Keys == {NameKey, PathKey, TypeKey, DefaultKey}
      ensures j.fields[NameKey] == JString(name) && j.fields[PathKey] == JString(path)
      ensures j.fields[DefaultKey] == JBoolean(default)
      ensures j.fields[TypeKey] == JString(FileJournalType)
    {
      JObject(map[][NameKey := JString(name)][PathKey := JString(path)]
                   [TypeKey := JString(FileJournalType)][DefaultKey := JBoolean(default)])
    }

    method SetDefault()
      modifies this`default
      ensures default
    {
      default := true;
    }

    function IsDefault(): (d: bool)
      reads this
      ensures d <==> default
    {
      default
    }

    function Name(): (n: string)
      reads this
      ensures n == name
    {
      name
    }

    /** `PartialEq`: two journals are equal when they point at the same file,
        whatever their names and default flags. */
    predicate Equals(other: FileJournal)
      reads this, other
      ensures Equals(other) <==> path == other.path
    {
      path == other.path
    }

    method Entries(disk: Disk) returns (entries: seq<Entry>)
      ensures entries == disk.EntriesAt(path)
    {
      entries := disk.EntriesAt(path);
    }

    /** Overwrites the journal file with the whole list. */
    method SaveEntries(disk: Disk, entries: seq<Entry>)
      modifies disk
      ensures disk.files == old(disk.files)[path := Document(entries)]
    {
      disk.files := disk.files[path := Document(entries)];
    }

    method UpsertEntry(disk: Disk, entry: Entry)
      modifies disk
      ensures disk.files == old(disk.files)[path := Document(Upserted(old(disk.EntriesAt(path)), entry))]
    {
      var entries := Entries(disk);
      var found := Position(entries, entry.id);
      match found {
        case Some(i) => entries := entries[..i] + [entry] + entries[i..];
        case None => entries := entries + [entry];
      }
      SaveEntries(disk, entries);
    }

    method RemoveEntries(disk: Disk, ids: seq<Uuid>)
      modifies disk
      ensures disk.files == old(disk.files)[path := Document(WithoutIds(old(disk.EntriesAt(path)), ids))]
    {
      var entries := Entries(disk);
      SaveEntries(disk, WithoutIds(entries, ids));
    }

    /** Removes by the last entry's id; an empty journal is left untouched,
        its file not even rewritten. */
    method UndoLastEntry(disk: Disk)
      modifies disk
      ensures old(disk.EntriesAt(path)) == [] ==> disk.files == old(disk.files)
      ensures old(disk.EntriesAt(path)) != [] ==>
        disk.files == old(disk.files)[path := Document(Undone(old(disk.EntriesAt(path))))]
    {
      var entries := Entries(disk);
      if |entries| > 0 {
        RemoveEntries(disk, [entries[|entries| - 1].id]);
      }
    }
  }

  /** Journal equality compares paths only, so it is an equivalence. */
  lemma JournalEqualityIsEquivalence(a: FileJournal, b: FileJournal, c: FileJournal)
    ensures a.Equals(a)
    ensures a.Equals(b) ==> b.Equals(a)
    ensures a.Equals(b) && b.Equals(c) ==> a.Equals(c)
  {
  }

  /** The round trip of the module's doc example: `from_json(to_json(j))`
      equals `j`, and keeps the name and default flag as well as the path. */
  method JournalRoundTrip(j: FileJournal) returns (k: FileJournal)
    ensures k.Equals(j)
    ensures k.name == j.name && k.path == j.path && k.default == j.default
  {
    k := new FileJournal.FromJson(j.ToJson());
  }
}
