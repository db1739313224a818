/** Journal entries and the builder that normalises raw user input into one
    (src/entry.rs). */
module Entries {
  import opened Prelude

  /** A v4 UUID. Generating one is randomness, so a fresh id is always
      handed in by the caller. */
  datatype Uuid = Uuid(bits: nat)

  /** A UTC instant; only ever copied, never inspected. */
  datatype Timestamp = Timestamp(instant: int)

  /** A finalized journal note. The accessors `id()` and `title()` are the
      datatype's destructors. */
  datatype Entry = Entry(
    id: Uuid,
    title: Option<string>,
    content: string,
    updatedAt: Timestamp,
    createdAt: Timestamp,
    starred: bool,
    tags: seq<string>)

  const EmptyContentMessage := "Content is empty!"

  /** The characters a derived title stops at. */
  predicate IsDivider(c: char) {
    c == '\n' || c == '?' || c == '!' || c == '.'
  }

  predicate StartsWithStar(s: string) {
    |s| > 0 && s[0] == '*'
  }

  /** The content as stored once the star convention is applied. */
  function Unstarred(s: string): string {
    if StartsWithStar(s) then s[1..] else s
  }

  /** The dividers of `s`, in the order they occur. */
  function Dividers(s: string): string {
    Filter(s, IsDivider)
  }

  /** The pieces put back together, with `separators[k]` between piece `k`
      and piece `k + 1`. */
  function JoinWith(pieces: seq<string>, separators: string): string
    requires |pieces| == |separators| + 1
    decreases |separators|
  {
    if separators == [] then pieces[0]
    else pieces[0] + [separators[0]] + JoinWith(pieces[1..], separators[1..])
  }

  /** Putting a character in front of the first piece puts it in front of
      the joined string. */
  lemma JoinWithConsHead(c: char, pieces: seq<string>, separators: string)
    requires |pieces| == |separators| + 1
    ensures JoinWith([[c] + pieces[0]] + pieces[1..], separators) == [c] + JoinWith(pieces, separators)
  {
    var longer := [[c] + pieces[0]] + pieces[1..];
    assert longer[0] == [c] + pieces[0] && longer[1..] == pieces[1..];
  }

  /** `s.split(|c| dividers.contains(&c))`: the pieces between dividers. There
      is one piece more than there are dividers, and no piece contains a
      divider. */
  function SplitOnDividers(s: string): (pieces: seq<string>)
    ensures |pieces| == |Dividers(s)| + 1
    ensures forall k, i :: 0 <= k < |pieces| && 0 <= i < |pieces[k]| ==> !IsDivider(pieces[k][i])
    decreases |s|
  {
    if s == [] then [[]]
    else
      var rest := SplitOnDividers(s[1..]);
      if IsDivider(s[0]) then [[]] + rest
      else [[s[0]] + rest[0]] + rest[1..]
  }

  /** Joining the pieces with the dividers they were split at rebuilds the
      content, so the pieces are exactly its divider-separated segments. */
  lemma {:induction false} SplitOnDividersRejoins(s: string)
    ensures JoinWith(SplitOnDividers(s), Dividers(s)) == s
    decreases |s|
  {
    if s != [] {
      var rest := SplitOnDividers(s[1..]);
      SplitOnDividersRejoins(s[1..]);
      assert s == [s[0]] + s[1..];
      assert Dividers(s) == (if IsDivider(s[0]) then [s[0]] else []) + Dividers(s[1..]);
      if IsDivider(s[0]) {
        assert SplitOnDividers(s)[1..] == rest;
      } else {
        assert Dividers(s) == Dividers(s[1..]);
        JoinWithConsHead(s[0], rest, Dividers(s[1..]));
      }
    }
  }

  /** The first piece is the longest divider-free prefix: it is either the
      whole string or cut just before a divider. */
  lemma {:induction false} FirstPieceIsLongestPlainPrefix(s: string)
    ensures var p := SplitOnDividers(s)[0];
      p <= s && (|p| == |s| || IsDivider(s[|p|]))
    decreases |s|
  {
    if s != [] && !IsDivider(s[0]) {
      FirstPieceIsLongestPlainPrefix(s[1..]);
    }
  }

  /** `split(..).nth(0).unwrap_or(content.clone())`: the title that
      `set_title_from_content` derives, the longest prefix of the content
      that holds no divider. */
  function DerivedTitle(content: string): (t: string)
    ensures t <= content
    ensures forall i :: 0 <= i < |t| ==> !IsDivider(t[i])
    ensures |t| == |content| || IsDivider(content[|t|])
    ensures t == content <==> forall i :: 0 <= i < |content| ==> !IsDivider(content[i])
  {
    FirstPieceIsLongestPlainPrefix(content);
    var pieces := SplitOnDividers(content);
    if |pieces| > 0 then pieces[0] else content
  }

  /** Any divider-free prefix that is cut at a divider or at the end is the
      derived title: the characterisation above determines it. */
  lemma DerivedTitleIsUnique(content: string, t: string)
    requires t <= content
    requires forall i :: 0 <= i < |t| ==> !IsDivider(t[i])
    requires |t| == |content| || IsDivider(content[|t|])
    ensures DerivedTitle(content) == t
  {
  }

  /** A title is cut at the first full stop. */
  lemma MeetingNotesTitle()
    ensures DerivedTitle("Meeting notes.\nDiscussed budget") == "Meeting notes"
  {
    var meeting := "Meeting notes.\nDiscussed budget";
    assert meeting == "Meeting notes" + ".\nDiscussed budget";
    DerivedTitleIsUnique(meeting, "Meeting notes");
  }

  /** A content without dividers is its own title. */
  lemma BuyMilkTitle()
    ensures DerivedTitle("Buy milk") == "Buy milk"
  {
    var milk := "Buy milk";
    assert forall i :: 0 <= i < |milk| ==> !IsDivider(milk[i]);
  }

  /** Collects the fields of an entry; each setter overwrites one or more of
      them in place. The fluent `&mut Self` return is not modelled: chained
      calls are consecutive method calls. */
  class EntryBuilder {
    var id: Uuid
    var title: Option<string>
    var content: string
    var updatedAt: Timestamp
    var createdAt: Timestamp
    var starred: bool
    var tags: seq<string>

    /** `EntryBuilder::new()`, with the generated id and the clock reading
        passed in. */
    constructor (freshId: Uuid, now: Timestamp)
      ensures id == freshId && title == None && content == ""
      ensures updatedAt == now && createdAt == now
      ensures !starred && tags == []
    {
      id := freshId;
      title := None;
      content := "";
      updatedAt := now;
      createdAt := now;
      starred := false;
      tags := [];
    }

    method Id(id: Uuid)
      modifies this`id
      ensures this.id == id
    {
      this.id := id;
    }

    method Title(title: string)
      modifies this`title
      ensures this.title == Some(title)
    {
      this.title := Some(title);
    }

    method Starred(state: bool)
      modifies this`starred
      ensures starred == state
    {
      starred := state;
    }

    /** Stores the content, stripping a leading star (which stars the entry),
        and derives the title when none, or an empty one, was set. */
    method Content(content: string)
      modifies this`content, this`starred, this`title
      ensures StartsWithStar(content) ==> this.content == content[1..] && starred
      ensures !StartsWithStar(content) ==> this.content == content && starred == old(starred)
      ensures old(title) == None || old(title) == Some("") ==> title == Some(DerivedTitle(this.content))
      ensures old(title) != None && old(title) != Some("") ==> title == old(title)
    {
      if |content| > 0 && content[0] == '*' {
        this.content := content[1..];
        Starred(true);
      } else {
        this.content := content;
      }
      if title == Some("") || title == None {
        SetTitleFromContent();
      }
    }

    method SetTitleFromContent()
      modifies this`title
      ensures title == Some(DerivedTitle(content))
    {
      title := Some(DerivedTitle(content));
    }

    /** The entry, copied field for field, unless the content is empty. */
    function Finalize(): (r: Result<Entry, string>)
      reads this
      ensures r.Ok? <==> content != ""
      ensures r.Ok? ==> r.value.id == id && r.value.title == title && r.value.content == content
      ensures r.Ok? ==> r.value.updatedAt == updatedAt && r.value.createdAt == createdAt
      ensures r.Ok? ==> r.value.starred == starred && r.value.tags == tags
      ensures r.Err? ==> r.error == EmptyContentMessage
    {
      if content != "" then
        Ok(Entry(id, title, content, updatedAt, createdAt, starred, tags))
      else
        Err(EmptyContentMessage)
    }
  }

  /** The add command's chain `new().starred(star).title(title).content(raw).finalize()`.
      An unset title arrives as the empty string, so it is derived. */
  method BuildFromCli(freshId: Uuid, now: Timestamp, star: bool, title: string, raw: string)
    returns (r: Result<Entry, string>)
    ensures r.Ok? <==> Unstarred(raw) != ""
    ensures r.Err? ==> r.error == EmptyContentMessage
    ensures r.Ok? ==> r.value.content == Unstarred(raw)
    ensures r.Ok? ==> r.value.starred == (star || StartsWithStar(raw))
    ensures r.Ok? ==> r.value.title == Some(if title == "" then DerivedTitle(Unstarred(raw)) else title)
    ensures r.Ok? ==> r.value.id == freshId && r.value.createdAt == now && r.value.updatedAt == now
    ensures r.Ok? ==> r.value.tags == []
  {
    var b := new EntryBuilder(freshId, now);
    b.Starred(star);
    b.Title(title);
    b.Content(raw);
    r := b.Finalize();
  }

  /** Call order matters: a `starred(false)` after `content("*x")` drops the
      star that the content forced, and a `title(..)` after `content(..)`
      replaces the derived title. */
  method LateSettersOverride(freshId: Uuid, now: Timestamp) returns (r: Result<Entry, string>)
    ensures r == Ok(Entry(freshId, Some("late"), "x", now, now, false, []))
  {
    var b := new EntryBuilder(freshId, now);
    b.Content("*x");
    b.Starred(false);
    b.Title("late");
    r := b.Finalize();
  }
}
