/** The journal registry (src/config.rs): the list of known file journals,
    its JSON form, and the rule that picks a journal by name or default. */
module Configs {
  import opened Prelude
  import opened JsonValue
  import opened FileJournals

  const JournalsKey := "journals"

  /** The `filter` of `Config::from_json`: records of the file journal kind. */
  predicate IsFileJournalRecord(item: Json) {
    item.JObject? && TypeKey in item.fields && item.fields[TypeKey] == JString(FileJournalType)
  }

  /** What `Config::from_json` reads without panicking: a `journals` array
      whose items all carry a string `type`, and whose file journal items
      carry a name, a path and a default flag. */
  predicate IsConfigObject(config: Json) {
    && HasArray(config, JournalsKey)
    && forall item :: item in config.fields[JournalsKey].items ==>
         HasString(item, TypeKey) && (IsFileJournalRecord(item) ==> IsJournalObject(item))
  }

  function KeptRecords(config: Json): seq<Json>
    requires HasArray(config, JournalsKey)
  {
    Filter(config.fields[JournalsKey].items, IsFileJournalRecord)
  }

  /** `from_json` keeps exactly the records of the file journal kind, in the
      order they are listed. */
  lemma KeptRecordsAreFileJournalRecords(config: Json)
    requires HasArray(config, JournalsKey)
    ensures var items := config.fields[JournalsKey].items;
      && (forall x :: x in KeptRecords(config) <==> x in items && IsFileJournalRecord(x))
      && forall a, b :: items == a + b ==>
           KeptRecords(config) == Filter(a, IsFileJournalRecord) + Filter(b, IsFileJournalRecord)
  {
    var items := config.fields[JournalsKey].items;
    forall x ensures x in KeptRecords(config) <==> x in items && IsFileJournalRecord(x) {
      FilterMembership(items, IsFileJournalRecord, x);
    }
    forall a, b | items == a + b
      ensures KeptRecords(config) == Filter(a, IsFileJournalRecord) + Filter(b, IsFileJournalRecord)
    {
      FilterAppend(a, b, IsFileJournalRecord);
    }
  }

  /** Journal `j` holds what record `item` says. */
  ghost predicate ReadFrom(j: FileJournal, item: Json)
    reads j
  {
    IsJournalObject(item)
    && j.name == item.fields[NameKey].str
    && j.path == item.fields[PathKey].str
    && j.default == item.fields[DefaultKey].boolean
  }

  ghost predicate AllReadFrom(journals: seq<FileJournal>, items: seq<Json>)
    reads journals
  {
    |journals| == |items| && forall i :: 0 <= i < |journals| ==> ReadFrom(journals[i], items[i])
  }

  /** `PartialEq` for the registry: the pairs of the zipped prefix point at
      the same files. Extra journals in the longer list are not compared. */
  ghost predicate PathsAgree(a: seq<FileJournal>, b: seq<FileJournal>)
    reads a, b
  {
    forall i :: 0 <= i < |a| && i < |b| ==> a[i].Equals(b[i])
  }

  /** The `Vec<Json>` of `Config::to_json`. */
  function JournalsToJson(journals: seq<FileJournal>): (items: seq<Json>)
    reads journals
    ensures |items| == |journals|
    ensures forall i :: 0 <= i < |journals| ==> items[i] == journals[i].ToJson()
    decreases |journals|
  {
    if journals == [] then [] else [journals[0].ToJson()] + JournalsToJson(journals[1..])
  }

  /** One step of the lookup fold: a name match always replaces the
      accumulator; otherwise a found journal sticks, and a default journal is
      taken only when nothing was found yet and the name is empty. */
  function LookupStep(acc: Option<FileJournal>, journal: FileJournal, name: string): (r: Option<FileJournal>)
    reads journal
    ensures journal.name == name ==> r == Some(journal)
    ensures journal.name != name && acc.Some? ==> r == acc
    ensures journal.name != name && acc.None? ==>
      (r.Some? <==> journal.default && name == "") && (r.Some? ==> r.value == journal)
  {
    if journal.Name() == name then Some(journal)
    else match acc
      case None => if journal.IsDefault() && |name| == 0 then Some(journal) else None
      case Some(j) => Some(j)
  }

  /** The `fold` of `file_journal_with_name_or_default`; the result is the
      starting accumulator or one of the journals. */
  function FoldLookup(acc: Option<FileJournal>, journals: seq<FileJournal>, name: string): (r: Option<FileJournal>)
    reads journals
    ensures r.Some? ==> r == acc || r.value in journals
    decreases |journals|
  {
    if journals == [] then acc
    else FoldLookup(LookupStep(acc, journals[0], name), journals[1..], name)
  }

  /** A found journal survives a stretch of journals none of which is named `name`. */
  lemma {:induction false} FoundSticks(acc: Option<FileJournal>, journals: seq<FileJournal>, name: string)
    requires acc.Some?
    requires forall m :: 0 <= m < |journals| ==> journals[m].name != name
    ensures FoldLookup(acc, journals, name) == acc
    decreases |journals|
  {
    if journals != [] {
      FoundSticks(acc, journals[1..], name);
    }
  }

  /** A name match wins: the result is the LAST journal with that name,
      whatever the accumulator and the default flags were. */
  lemma {:induction false} LastNameMatchWins(acc: Option<FileJournal>, journals: seq<FileJournal>, name: string, k: nat)
    requires k < |journals| && journals[k].name == name
    requires forall m :: k < m < |journals| ==> journals[m].name != name
    ensures FoldLookup(acc, journals, name) == Some(journals[k])
    decreases |journals|
  {
    if k == 0 {
      FoundSticks(Some(journals[0]), journals[1..], name);
    } else {
      LastNameMatchWins(LookupStep(acc, journals[0], name), journals[1..], name, k - 1);
    }
  }

  /** With an empty name that no journal has, the FIRST default journal is taken. */
  lemma {:induction false} FirstDefaultWins(journals: seq<FileJournal>, k: nat)
    requires forall m :: 0 <= m < |journals| ==> journals[m].name != ""
    requires k < |journals| && journals[k].default
    requires forall m :: 0 <= m < k ==> !journals[m].default
    ensures FoldLookup(None, journals, "") == Some(journals[k])
    decreases |journals|
  {
    if k == 0 {
      FoundSticks(Some(journals[0]), journals[1..], "");
    } else {
      FirstDefaultWins(journals[1..], k - 1);
    }
  }

  /** Without a name match, a non-empty name or a registry without a default
      journal (an empty one included) resolves to nothing. */
  lemma {:induction false} NothingMatches(journals: seq<FileJournal>, name: string)
    requires forall m :: 0 <= m < |journals| ==> journals[m].name != name
    requires name != "" || forall m :: 0 <= m < |journals| ==> !journals[m].default
    ensures FoldLookup(None, journals, name) == None
    decreases |journals|
  {
    if journals != [] {
      NothingMatches(journals[1..], name);
    }
  }

  /** The three outcomes of the lookup over a whole registry: the last name
      match; failing that, with an empty name, the first default journal;
      otherwise nothing. */
  lemma LookupCases(journals: seq<FileJournal>, name: string)
    ensures forall k :: (0 <= k < |journals| && journals[k].name == name
                        && forall m :: k < m < |journals| ==> journals[m].name != name) ==>
        FoldLookup(None, journals, name) == Some(journals[k])
    ensures forall k :: (0 <= k < |journals| && journals[k].default && name == ""
                        && (forall m :: 0 <= m < |journals| ==> journals[m].name != name)
                        && forall m :: 0 <= m < k ==> !journals[m].default) ==>
        FoldLookup(None, journals, name) == Some(journals[k])
    ensures ((forall m :: 0 <= m < |journals| ==> journals[m].name != name)
             && (name != "" || forall m :: 0 <= m < |journals| ==> !journals[m].default)) ==>
        FoldLookup(None, journals, name) == None
  {
    forall k | 0 <= k < |journals| && journals[k].name == name
      && (forall m :: k < m < |journals| ==> journals[m].name != name)
      ensures FoldLookup(None, journals, name) == Some(journals[k])
    {
      LastNameMatchWins(None, journals, name, k);
    }
    forall k | 0 <= k < |journals| && journals[k].default && name == ""
      && (forall m :: 0 <= m < |journals| ==> journals[m].name != name)
      && (forall m :: 0 <= m < k ==> !journals[m].default)
      ensures FoldLookup(None, journals, name) == Some(journals[k])
    {
      FirstDefaultWins(journals, k);
    }
    if (forall m :: 0 <= m < |journals| ==> journals[m].name != name)
      && (name != "" || forall m :: 0 <= m < |journals| ==> !journals[m].default)
    {
      NothingMatches(journals, name);
    }
  }

  lemma KeptPrefixStep(items: seq<Json>, i: nat)
    requires i < |items|
    ensures Filter(items[..i + 1], IsFileJournalRecord)
      == Filter(items[..i], IsFileJournalRecord) + (if IsFileJournalRecord(items[i]) then [items[i]] else [])
  {
    assert items[..i + 1] == items[..i] + [items[i]];
    FilterAppend(items[..i], [items[i]], IsFileJournalRecord);
  }

  class Config {
    var fileJournals: seq<FileJournal>

    /** The struct literal `Config { file_journals }`. */
    constructor (fileJournals: seq<FileJournal>)
      ensures this.fileJournals == fileJournals
    {
      this.fileJournals := fileJournals;
    }

    /** Every journal record, in order, under `journals`. */
    function ToJson(): (j: Json)
      reads this, fileJournals
      ensures HasArray(j, JournalsKey) && j.fields[JournalsKey].items == JournalsToJson(fileJournals)
    {
      JObject(map[JournalsKey := JArray(JournalsToJson(fileJournals))])
    }

    /** Reads back the file journal records, in order, skipping records of
        any other kind. */
    static method FromJson(config: Json) returns (c: Config)
      requires IsConfigObject(config)
      ensures AllReadFrom(c.fileJournals, KeptRecords(config))
    {
      var items := config.fields[JournalsKey].items;
      var journals: seq<FileJournal> := [];
      var i := 0;
      while i < |items|
        invariant 0 <= i <= |items|
        invariant AllReadFrom(journals, Filter(items[..i], IsFileJournalRecord))
      {
        var item := items[i];
        assert HasString(item, TypeKey) && (IsFileJournalRecord(item) ==> IsJournalObject(item));
        KeptPrefixStep(items, i);
        if item.fields[TypeKey].str == FileJournalType {
          var j := new FileJournal.FromJson(item);
          journals := journals + [j];
        }
        i := i + 1;
      }
      assert items[..i] == items;
      c := new Config(journals);
    }

    /** `Config::load` on the contents of the registry file: an empty file is
        an empty registry, a document is read with `from_json`. */
    static method Load(file: Stored<Json>) returns (c: Config)
      requires file.Document? ==> IsConfigObject(file.doc)
      ensures file.Empty? ==> c.fileJournals == []
      ensures file.Document? ==> AllReadFrom(c.fileJournals, KeptRecords(file.doc))
    {
      match file {
        case Empty => c := new Config([]);
        case Document(doc) => c := FromJson(doc);
      }
    }

    /** The list update of `add_journal`, for the journal the prompts describe:
        appended, and made the default when it is the first one. */
    method AddJournal(name: string, path: string)
      modifies this
      ensures |fileJournals| == |old(fileJournals)| + 1
      ensures fileJournals[..|old(fileJournals)|] == old(fileJournals)
      ensures var j := fileJournals[|fileJournals| - 1];
        fresh(j) && j.name == name && j.path == path && j.default == (old(fileJournals) == [])
    {
      var journal := new FileJournal(name, path);
      if fileJournals == [] {
        journal.SetDefault();
      }
      fileJournals := fileJournals + [journal];
    }

    /** The last journal named `name`; failing that, with an empty name, the
        first default journal; otherwise none. */
    function FileJournalWithNameOrDefault(name: string): (r: Option<FileJournal>)
      reads this, fileJournals
      ensures r.Some? ==> r.value in fileJournals
      ensures forall k :: (0 <= k < |fileJournals| && fileJournals[k].name == name
                          && forall m :: k < m < |fileJournals| ==> fileJournals[m].name != name) ==>
          r == Some(fileJournals[k])
      ensures forall k :: (0 <= k < |fileJournals| && fileJournals[k].default && name == ""
                          && (forall m :: 0 <= m < |fileJournals| ==> fileJournals[m].name != name)
                          && forall m :: 0 <= m < k ==> !fileJournals[m].default) ==>
          r == Some(fileJournals[k])
      ensures ((forall m :: 0 <= m < |fileJournals| ==> fileJournals[m].name != name)
               && (name != "" || forall m :: 0 <= m < |fileJournals| ==> !fileJournals[m].default)) ==>
          r == None
    {
      LookupCases(fileJournals, name);
      FoldLookup(None, fileJournals, name)
    }

    /** `PartialEq`: pairwise over the zipped prefix, stopping at the first
        pair with different paths. */
    method Equals(other: Config) returns (equal: bool)
      ensures equal <==> PathsAgree(fileJournals, other.fileJournals)
    {
      var n := if |fileJournals| < |other.fileJournals| then |fileJournals| else |other.fileJournals|;
      var i := 0;
      while i < n
        invariant 0 <= i <= n
        invariant forall k :: 0 <= k < i ==> fileJournals[k].Equals(other.fileJournals[k])
      {
        if !fileJournals[i].Equals(other.fileJournals[i]) {
          return false;
        }
        i := i + 1;
      }
      return true;
    }
  }

  /** Every record `Config::to_json` writes is a file journal record that
      reads back as the journal it came from. */
  lemma {:induction false} ToJsonReadsBack(journals: seq<FileJournal>)
    ensures Filter(JournalsToJson(journals), IsFileJournalRecord) == JournalsToJson(journals)
    ensures AllReadFrom(journals, JournalsToJson(journals))
  {
    var items := JournalsToJson(journals);
    FilterKeepsAll(items, IsFileJournalRecord);
  }

  /** The round trip of the module's doc example: `from_json(to_json(c))`
      equals `c`, and every journal keeps its name, path and default flag. */
  method ConfigRoundTrip(c: Config) returns (d: Config)
    ensures PathsAgree(d.fileJournals, c.fileJournals)
    ensures |d.fileJournals| == |c.fileJournals|
    ensures forall i :: 0 <= i < |c.fileJournals| ==>
      d.fileJournals[i].name == c.fileJournals[i].name
      && d.fileJournals[i].path == c.fileJournals[i].path
      && d.fileJournals[i].default == c.fileJournals[i].default
  {
    ToJsonReadsBack(c.fileJournals);
    d := Config.FromJson(c.ToJson());
  }
}
