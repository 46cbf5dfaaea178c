/**
 * Writing a journal entry: the four text fields of the form, the record the
 * page saves from them, and the fields the page fills in when an entry is
 * opened for editing.
 */
module JournalEntries {
  import opened Seqs
  import opened Text
  import opened Records

  /** The form's four text fields, as the user typed them. */
  datatype FormData = FormData(title: string, content: string, mood: string, tags: string)

  /** A row of `journal_entries` as the store returns it; every column may be null. */
  datatype StoredEntry = StoredEntry(
    id: string,
    title: Option<string>,
    content: Option<string>,
    mood: Option<string>,
    tags: Option<seq<string>>)

  /** The record sent to the store. */
  datatype JournalEntry = JournalEntry(
    userId: string,
    title: Option<string>,
    content: string,
    mood: Option<string>,
    tags: Option<seq<string>>)

  /** What saving asks of the store: a new row, or new values for an existing one. */
  datatype Save = Insert(entry: JournalEntry) | Update(id: string, entry: JournalEntry)

  datatype Result<T> = Success(value: T) | Failure(message: string)

  const LogInMessage := "Please log in to save your journal entry"

  // ---- Tags -------------------------------------------------------------------

  function TrimAll(pieces: seq<string>): (trimmed: seq<string>)
    ensures |trimmed| == |pieces|
    ensures forall i :: 0 <= i < |pieces| ==> trimmed[i] == Trim(pieces[i])
  {
    seq(|pieces|, i requires 0 <= i < |pieces| => Trim(pieces[i]))
  }

  function NonEmpty(tag: string): bool {
    tag != ""
  }

  /** `tags.split(',').map(tag => tag.trim()).filter(tag => tag.length > 0)` */
  function ParseTags(tags: string): seq<string> {
    Filter(TrimAll(Split(tags, ',')), NonEmpty)
  }

  /** `tagsArray.length > 0 ? tagsArray : null` */
  function TagsField(parsed: seq<string>): (field: Option<seq<string>>)
    ensures field == None <==> parsed == []
    ensures field != None ==> field.value == parsed
  {
    if |parsed| > 0 then Some(parsed) else None
  }

  /** Every parsed tag is non-empty and is its own trim. */
  lemma ParsedTagsWellFormed(tags: string)
    ensures forall t :: t in ParseTags(tags) ==> t != "" && Trim(t) == t
  {
    var trimmed := TrimAll(Split(tags, ','));
    forall t | t in ParseTags(tags) ensures t != "" && Trim(t) == t {
      var k :| 0 <= k < |ParseTags(tags)| && ParseTags(tags)[k] == t;
      assert t in trimmed;
      var i :| 0 <= i < |trimmed| && trimmed[i] == t;
      TrimIdempotent(Split(tags, ',')[i]);
    }
  }

  /** A tag is parsed exactly when it is the non-empty trim of one of the comma-separated pieces. */
  lemma ParsedTagsExactly(tags: string, t: string)
    ensures t in ParseTags(tags) <==> t != "" && exists piece :: piece in Split(tags, ',') && Trim(piece) == t
  {
    var pieces := Split(tags, ',');
    var trimmed := TrimAll(pieces);
    FilterMembers(trimmed, NonEmpty, t);
    if t in trimmed {
      var i :| 0 <= i < |trimmed| && trimmed[i] == t;
      assert pieces[i] in pieces;
    }
    if exists piece :: piece in pieces && Trim(piece) == t {
      var piece :| piece in pieces && Trim(piece) == t;
      var i :| 0 <= i < |pieces| && pieces[i] == piece;
      assert trimmed[i] == t;
    }
  }

  // ---- The saved record ------------------------------------------------------

  /**
   * The `journalEntry` object `handleSubmit` builds: the title trimmed, or
   * null when nothing is left; the content trimmed; the mood, or null when
   * none was picked; the parsed tags, or null when none survive.
   */
  function BuildEntry(userId: string, form: FormData): (entry: JournalEntry)
    ensures entry.userId == userId
    ensures entry.content == Trim(form.content)
    ensures entry.title == None <==> Trim(form.title) == ""
    ensures entry.title != None ==> entry.title.value == Trim(form.title)
    ensures entry.mood == None <==> form.mood == ""
    ensures entry.mood != None ==> entry.mood.value == form.mood
    ensures entry.tags == TagsField(ParseTags(form.tags))
  {
    var title := Trim(form.title);
    JournalEntry(
      userId,
      if title != "" then Some(title) else None,
      Trim(form.content),
      if form.mood != "" then Some(form.mood) else None,
      TagsField(ParseTags(form.tags)))
  }

  /** The saved title and content have no whitespace at their ends, and a saved title is not empty. */
  lemma SavedTextTrimmed(userId: string, form: FormData)
    ensures var entry := BuildEntry(userId, form);
      && (entry.title != None ==> entry.title.value != "" && Trim(entry.title.value) == entry.title.value)
      && Trim(entry.content) == entry.content
  {
    TrimIdempotent(form.title);
    TrimIdempotent(form.content);
  }

  /** Saved tags are a non-empty list of non-empty tags, each its own trim. */
  lemma SavedTagsWellFormed(userId: string, form: FormData)
    ensures var tags := BuildEntry(userId, form).tags;
      tags != None ==> tags.value != [] && forall t :: t in tags.value ==> t != "" && Trim(t) == t
  {
    ParsedTagsWellFormed(form.tags);
  }

  /**
   * `handleSubmit` on the new-entry page: without a signed-in user nothing is
   * saved; with one, the entry being edited is updated, otherwise a new one
   * is inserted. `userId` is the signed-in user, if any; `editingId` the
   * `edit` query parameter, if any.
   */
  function SubmitEntry(userId: Option<string>, editingId: Option<string>, form: FormData): Result<Save> {
    match userId
    case None => Failure(LogInMessage)
    case Some(user) =>
      var entry := BuildEntry(user, form);
      match editingId
      case Some(id) => Success(Update(id, entry))
      case None => Success(Insert(entry))
  }

  /**
   * Nothing is saved without a signed-in user; otherwise the entry built from
   * the form is saved, as an update of the entry being edited if there is one
   * and as a new row if not.
   */
  lemma SubmitEntryCases(userId: Option<string>, editingId: Option<string>, form: FormData)
    ensures var r := SubmitEntry(userId, editingId, form);
      && (userId == None <==> r == Failure(LogInMessage))
      && (r.Success? ==> r.value.entry == BuildEntry(userId.value, form))
      && (r.Success? ==> (r.value.Update? <==> editingId != None))
      && (r.Success? && r.value.Update? ==> r.value.id == editingId.value)
  {
  }

  /**
   * The message shown once the store has answered: its error, if it reported
   * one, else which of the two saves succeeded.
   */
  function SaveMessage(editing: bool, error: Option<string>): (message: string)
    ensures error != None ==> message == "Error saving journal entry: " + error.value
    ensures error == None && editing ==> message == "Journal entry updated successfully!"
    ensures error == None && !editing ==> message == "Journal entry saved successfully!"
  {
    match error
    case Some(e) => "Error saving journal entry: " + e
    case None => if editing then "Journal entry updated successfully!" else "Journal entry saved successfully!"
  }

  // ---- Loading an entry for editing -------------------------------------------

  /** `tags?.join(', ') || ''` */
  function JoinTags(tags: Option<seq<string>>): (joined: string)
    ensures tags == None ==> joined == ""
  {
    match tags
    case None => ""
    case Some(ts) => Join(ts, ", ")
  }

  function OrEmpty(s: Option<string>): (r: string)
    ensures s == None ==> r == ""
    ensures s != None ==> r == s.value
  {
    match s
    case None => ""
    case Some(v) => v
  }

  /** `loadEntryForEdit`: a missing title, content or mood becomes "", and the tags are joined with ", ". */
  function LoadForEdit(entry: StoredEntry): (form: FormData)
    ensures form.title == OrEmpty(entry.title)
    ensures form.content == OrEmpty(entry.content)
    ensures form.mood == OrEmpty(entry.mood)
    ensures form.tags == JoinTags(entry.tags)
  {
    FormData(OrEmpty(entry.title), OrEmpty(entry.content), OrEmpty(entry.mood), JoinTags(entry.tags))
  }

  /** A tag the loader can hand back unchanged: non-empty, trimmed, and without a comma. */
  predicate PlainTag(t: string) {
    t != "" && Trim(t) == t && ',' !in t
  }

  /**
   * Saving an entry just opened for editing, without touching the tags field,
   * stores the tags it had: the join with ", " parses back to the same list.
   * (An empty list comes back as null, which is how the page stores it.)
   */
  lemma TagsRoundTrip(tags: Option<seq<string>>)
    requires tags != None ==> tags.value != [] && forall i :: 0 <= i < |tags.value| ==> PlainTag(tags.value[i])
    ensures TagsField(ParseTags(JoinTags(tags))) == tags
  {
    match tags
    case None =>
      assert IndexOf("", ',', 0) == 0;
      assert Split("", ',') == [""];
      assert TrimAll([""]) == [""];
      FilterDropsAll([""], NonEmpty);
    case Some(ts) =>
      ParseJoined(ts);
  }

  lemma ParseJoined(ts: seq<string>)
    requires ts != []
    requires forall i :: 0 <= i < |ts| ==> PlainTag(ts[i])
    ensures ParseTags(Join(ts, ", ")) == ts
  {
    var parts := [ts[0]] + Spaced(ts[1..]);
    JoinAsParts(ts);
    PartsPlain(ts);
    SplitJoin(parts, ',');
    PartsTrimmed(ts);
    FilterKeepsAll(ts, NonEmpty);
  }

  lemma JoinAsParts(ts: seq<string>)
    requires ts != []
    ensures Join(ts, ", ") == Join([ts[0]] + Spaced(ts[1..]), ",")
  {
    assert ts == [ts[0]] + ts[1..];
    JoinSpaced(ts[0], ts[1..]);
  }

  lemma PartsPlain(ts: seq<string>)
    requires ts != []
    requires forall i :: 0 <= i < |ts| ==> PlainTag(ts[i])
    ensures var parts := [ts[0]] + Spaced(ts[1..]);
      forall i :: 0 <= i < |parts| ==> ',' !in parts[i]
  {
    var parts := [ts[0]] + Spaced(ts[1..]);
    forall i | 0 <= i < |parts| ensures ',' !in parts[i] {
      if i > 0 {
        assert parts[i] == " " + ts[i];
        assert ',' !in ts[i];
      }
    }
  }

  lemma PartsTrimmed(ts: seq<string>)
    requires ts != []
    requires forall i :: 0 <= i < |ts| ==> PlainTag(ts[i])
    ensures TrimAll([ts[0]] + Spaced(ts[1..])) == ts
  {
    var parts := [ts[0]] + Spaced(ts[1..]);
    var trimmed := TrimAll(parts);
    forall i | 0 <= i < |ts| ensures trimmed[i] == ts[i] {
      if i > 0 {
        assert parts[i] == " " + ts[i];
        TrimLeadingSpace(ts[i]);
      }
    }
  }

  /** Each tag with the space that `join(', ')` puts after each comma. */
  function Spaced(ts: seq<string>): (r: seq<string>)
    ensures |r| == |ts|
    ensures forall i :: 0 <= i < |ts| ==> r[i] == " " + ts[i]
  {
    seq(|ts|, i requires 0 <= i < |ts| => " " + ts[i])
  }

  /** Joining with ", " is joining with "," after putting a space before every tag but the first. */
  lemma {:induction false} JoinSpaced(first: string, ts: seq<string>)
    ensures Join([first] + ts, ", ") == Join([first] + Spaced(ts), ",")
    decreases |ts|
  {
    if ts != [] {
      var spaced, rest := Spaced(ts), Spaced(ts[1..]);
      var x := Join([ts[0]] + rest, ",");
      assert Join(ts, ", ") == x by {
        assert ts == [ts[0]] + ts[1..];
        JoinSpaced(ts[0], ts[1..]);
      }
      assert Join(spaced, ",") == " " + x by {
        assert spaced == [" " + ts[0]] + rest;
        JoinSpacedFirst(ts[0], rest);
      }
      JoinBoth(first, ts, spaced, x);
    }
  }

  /** Two lists whose joins differ only by the space after the first comma join the same way behind a first tag. */
  lemma JoinBoth(first: string, ts: seq<string>, spaced: seq<string>, x: string)
    requires ts != [] && spaced != []
    requires Join(ts, ", ") == x && Join(spaced, ",") == " " + x
    ensures Join([first] + ts, ", ") == Join([first] + spaced, ",")
  {
    JoinCons(first, ts, ", ");
    JoinCons(first, spaced, ",");
    assert ", " == "," + " ";
    ConcatAssociative(first + ",", " ", x);
  }

  lemma JoinCons(first: string, rest: seq<string>, sep: string)
    requires rest != []
    ensures Join([first] + rest, sep) == first + sep + Join(rest, sep)
  {
    assert ([first] + rest)[1..] == rest;
  }

  lemma JoinSpacedFirst(t: string, rest: seq<string>)
    ensures Join([" " + t] + rest, ",") == " " + Join([t] + rest, ",")
  {
    if rest != [] {
      assert ([" " + t] + rest)[1..] == rest;
      assert ([t] + rest)[1..] == rest;
    }
  }
}
