# rjrn core in Dafny

A model of the core of `rjrn`, a command-line journaling tool that appends
short notes ("entries") to one of several named journals, each stored in
its own JSON file. The model covers three parts:

- **Entries** (`entry.dfy`, from `src/entry.rs`): the `Entry` record and
  the `EntryBuilder` that normalises raw input. A leading `*` is stripped
  and stars the entry. A missing or empty title is derived from the text
  before the first `\n`, `?`, `!` or `.`. Empty content is refused. The
  builder is a class whose setters update its fields in place.
- **File journals** (`file_journal.dfy`, from `src/file_journal.rs`): the
  `FileJournal` record (name, path, default flag) and its read-modify-write
  entry operations: `upsert_entry`, `remove_entries`, `undo_last_entry`.
  The journal files are held by a `Disk` object that maps a path to the
  file's contents. A file is either `Empty` (new or missing) or a
  `Document` holding the entry list.
- **Registry** (`config.dfy`, from `src/config.rs`): `Config`, the list of
  known journals. It covers the JSON form of that list, loading an empty or
  filled registry file, the list update of `add_journal`, equality, and the
  rule that picks a journal by name or by default flag.

`prelude.dfy` holds `Option`, `Result` and the `filter` pipeline with its
lemmas. `json.dfy` holds a small JSON document tree.

The lookup in `file_journal_with_name_or_default` is a fold in which every
name match overwrites the accumulator. So the **last** journal with the
requested name wins. Because each match replaces the accumulator, two
journals with the same name resolve to the later one, not the earlier.
`LastNameMatchWins` proves this.

`upsert_entry` inserts the new entry in front of an entry with the same id
and keeps the old one. The model keeps this behaviour as written, and the
lemmas state it.

## Model

| member | source | states |
|---|---|---|
| Entries.SplitOnDividers | src/entry.rs:153-156 | splitting on the four dividers yields one piece more than there are dividers, and no piece contains a divider |
| Entries.SplitOnDividersRejoins | src/entry.rs:153-156 | joining the pieces with the dividers they were split at gives back the content, so the pieces are exactly the divider-separated segments |
| Entries.FirstPieceIsLongestPlainPrefix | src/entry.rs:153-157 | the first piece is a prefix of the content that is either all of it or cut right before a divider |
| Entries.DerivedTitle | src/entry.rs:153-157 | the derived title is a prefix of the content, holds no divider, and is either the whole content or ends right before a divider; it is the whole content if and only if the content holds no divider |
| Entries.DerivedTitleIsUnique | src/entry.rs:152-157 | any divider-free prefix cut at a divider or at the end equals the derived title, so the title is the longest such prefix |
| Entries.MeetingNotesTitle | src/entry.rs:152-157 | "Meeting notes.\nDiscussed budget" gets the title "Meeting notes" |
| Entries.BuyMilkTitle | src/entry.rs:152-157 | "Buy milk" gets the title "Buy milk" |
| Entries.EntryBuilder.constructor | src/entry.rs:87-99 | a new builder has the given id, no title, empty content, no star, no tags, and equal created and updated times |
| Entries.EntryBuilder.Id | src/entry.rs:101-104 | sets the id and may change no other field |
| Entries.EntryBuilder.Title | src/entry.rs:106-109 | sets the title to `Some(title)` and may change no other field |
| Entries.EntryBuilder.Starred | src/entry.rs:129-132 | sets the star flag and may change no other field |
| Entries.EntryBuilder.Content | src/entry.rs:111-127 | a leading `*` is stripped and forces the star; otherwise the content is stored as given and the star is kept; a title that is `None` or `Some("")` becomes the title derived from the stored content, and any other title is kept |
| Entries.EntryBuilder.SetTitleFromContent | src/entry.rs:152-160 | the title becomes the derived title of the current content |
| Entries.EntryBuilder.Finalize | src/entry.rs:134-150 | succeeds exactly when the content is non-empty; on success every field is copied unchanged; otherwise fails with "Content is empty!" |
| Entries.BuildFromCli | src/cli.rs:47-51 | the add command's chain `starred`, `title`, `content`, `finalize` fails exactly when the content is empty once the star is stripped, so `"*"` alone fails; the entry is starred if the flag or a leading `*` says so; an empty title flag gives the derived title |
| Entries.LateSettersOverride | src/entry.rs:106-132 | setters overwrite in call order: `starred(false)` after `content("*x")` leaves the entry unstarred, and `title("late")` after it replaces the derived title |
| FileJournals.Disk.EntriesAt | src/file_journal.rs:96-110 | an empty or missing journal file yields no entries; a written document yields its list |
| FileJournals.FirstIndex | src/file_journal.rs:116 | the position is the first index with the given id, and none means no entry has that id |
| FileJournals.Position | src/file_journal.rs:116 | the search loop returns exactly that first position |
| FileJournals.Upserted | src/file_journal.rs:116-119 | every upsert grows the list by exactly one, adding the given entry and losing none |
| FileJournals.UpsertNewIdAppends | src/file_journal.rs:116-121 | an entry whose id is not present is appended |
| FileJournals.UpsertExistingIdInserts | src/file_journal.rs:116-117 | with the id first present at `i`, the result is `old[..i] + [entry] + old[i..]`; the old entry survives at `i+1`, and the new one is now the first match |
| FileJournals.WithoutIds | src/file_journal.rs:124-130 | the list does not grow, and every entry left was present and has an unlisted id |
| FileJournals.Undone | src/file_journal.rs:132-137 | an empty list stays empty; the list does not grow, and no entry left shares the last entry's id |
| FileJournals.WithoutIdsKeepsExactlyUnlisted | src/file_journal.rs:124-130 | an entry is kept if and only if it was present and its id is not listed; removal distributes over concatenation, so the relative order is kept |
| FileJournals.WithoutUnusedIdsIsIdentity | src/file_journal.rs:124-130 | removing ids that no entry carries changes nothing |
| FileJournals.WithoutIdsIdempotent | src/file_journal.rs:124-130 | removing the same ids twice equals removing them once |
| FileJournals.UndoRemovesLastId | src/file_journal.rs:132-137 | on a non-empty list, undo keeps exactly the entries whose id differs from the last entry's id, so the list shrinks |
| FileJournals.UndoUniqueLastDropsLast | src/file_journal.rs:132-137 | when the last id occurs only once, undo removes exactly the last entry |
| FileJournals.UndoAfterNewUpsertRestores | src/file_journal.rs:112-140 | upserting an entry with a new id and then undoing restores the original list |
| FileJournals.FileJournal.constructor | src/file_journal.rs:152-160 | a new journal has the given name and path and is not default |
| FileJournals.FileJournal.FromJson | src/file_journal.rs:32-38 | name, path and default flag are read from the record's fields |
| FileJournals.FileJournal.ToJson | src/file_journal.rs:40-47 | the record holds exactly the keys name, path, type and default, with the journal's values and type "FileJournal" |
| FileJournals.FileJournal.SetDefault | src/file_journal.rs:84-86 | the journal becomes default; nothing else changes |
| FileJournals.FileJournal.IsDefault | src/file_journal.rs:88-90 | reports the journal's default flag |
| FileJournals.FileJournal.Name | src/file_journal.rs:92-94 | reports the journal's name |
| FileJournals.FileJournal.Equals | src/file_journal.rs:188-192 | two journals are equal exactly when their paths are equal, whatever their names and default flags |
| FileJournals.JournalEqualityIsEquivalence | src/file_journal.rs:188-192 | journal equality is reflexive, symmetric and transitive |
| FileJournals.FileJournal.Entries | src/file_journal.rs:96-110 | returns the list decoded from the journal's file, which is empty for an empty file |
| FileJournals.FileJournal.SaveEntries | src/file_journal.rs:177-185 | the journal's file is overwritten with the whole list; no other file changes |
| FileJournals.FileJournal.UpsertEntry | src/file_journal.rs:112-122 | the journal's file afterwards holds the upserted list; no other file changes |
| FileJournals.FileJournal.RemoveEntries | src/file_journal.rs:124-130 | the journal's file afterwards holds the list without the given ids; it is written even when nothing matched |
| FileJournals.FileJournal.UndoLastEntry | src/file_journal.rs:132-140 | an empty journal is left untouched; otherwise the file holds the list without the last entry's id |
| FileJournals.JournalRoundTrip | src/file_journal.rs:9-10 | reading back a journal's record gives an equal journal (same path) with the same name and default flag |
| Configs.KeptRecordsAreFileJournalRecords | src/config.rs:56-59 | `from_json` keeps a record if and only if its type is "FileJournal", in listed order |
| Configs.JournalsToJson | src/config.rs:48-50 | one record per journal, in order, each the journal's own record |
| Configs.LookupStep | src/config.rs:148-159 | a name match replaces the accumulator; otherwise a found journal is kept; with nothing found, the journal is taken exactly when it is default and the name is empty |
| Configs.FoldLookup | src/config.rs:146-160 | the fold yields its starting value or one of the journals |
| Configs.FoundSticks | src/config.rs:153-158 | once a journal is found, journals with other names do not change the result |
| Configs.LastNameMatchWins | src/config.rs:146-151 | with a name some journal has, the result is the last journal with that name, whatever the default flags |
| Configs.FirstDefaultWins | src/config.rs:153-158 | with an empty name that no journal has, the result is the first default journal |
| Configs.NothingMatches | src/config.rs:146-160 | with no name match and either a non-empty name or no default journal, the result is none; an empty registry included |
| Configs.Config.constructor | src/config.rs:61-63 | a registry holds exactly the given journals |
| Configs.Config.ToJson | src/config.rs:46-52 | the `journals` array holds every journal's record in order |
| Configs.Config.FromJson | src/config.rs:54-64 | the registry holds one journal per file journal record, in order, each with that record's name, path and default flag |
| Configs.Config.Load | src/config.rs:83-98 | an empty registry file gives an empty registry; a document is read as `from_json` reads it |
| Configs.Config.AddJournal | src/config.rs:132-136 | one fresh journal is appended, the existing ones are unchanged, and the new one is default exactly when the list was empty |
| Configs.LookupCases | src/config.rs:144-161 | over a whole registry: the last journal with the name; failing that, with an empty name, the first default journal; otherwise none |
| Configs.Config.FileJournalWithNameOrDefault | src/config.rs:144-161 | the result is one of the registry's journals: the last one with the given name; failing that, with an empty name, the first default one; otherwise none |
| Configs.Config.Equals | src/config.rs:165-175 | two registries are equal exactly when the pairs of the zipped prefix have equal paths, so lists of different length can be equal |
| Configs.ToJsonReadsBack | src/config.rs:46-64 | every record `to_json` writes is of the file journal kind and reads back as the journal it came from |
| Configs.ConfigRoundTrip | src/config.rs:11-13 | `from_json(to_json(c))` equals `c`, and every journal keeps its name, path and default flag |

## Left out

- File I/O failures: reading or writing a journal file or the registry file never fails in the model. The `Err` results of `entries`, `save_entries`, `load` and `save` are not modelled, so the entry operations return nothing.
- Panics from `unwrap` and `expect` on malformed JSON, or when a file cannot be opened, are preconditions (`IsJournalObject`, `IsConfigObject`) or are not modelled.
- The JSON text encoding (`rustc_serialize`) and RFC 3339 timestamps: a document is a JSON tree or an entry list, and timestamps and UUIDs are opaque values. Because a written entry list is stored as the list itself, its reload round trip holds by construction.
- Opening a missing journal file creates it empty. The model reads a missing file as `Empty` and does not record the creation.
- `FileJournal::new`'s writability probe (`validate_path`), which creates and then deletes a file at the path, is not modelled.
- `bootstrap_cli` and the selection loop of `add_journal` read stdin: `Config.AddJournal` takes the name and path the prompts would produce. Trimming and the defaulting of an empty name or path are not modelled.
- `Config::save`, `config_path` and `config_file` depend on the home directory: not modelled. `Config.Load` takes the registry file's contents as a parameter.
- The fluent `&mut Self` return of the builder setters: chained calls are consecutive method calls.
- `Entry::id` and `Entry::title` are the datatype's destructors.
- The `Journal` trait (`src/journal.rs`), the CLI, argument parsing and logging are not part of this model.
