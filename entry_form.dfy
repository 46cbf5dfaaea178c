/**
 * The reusable journal-entry form component: its four fields live in one
 * piece of state that the input handlers, the Clear button and a successful
 * save update.
 */
module EntryForm {
  import opened Records
  import opened JournalEntries

  /** The names `handleInputChange` is called with. */
  datatype Field = Title | Content | Mood | Tags

  function Get(form: FormData, field: Field): string {
    match field
    case Title => form.title
    case Content => form.content
    case Mood => form.mood
    case Tags => form.tags
  }

  /** `{ ...prev, [field]: value }` */
  function WithField(form: FormData, field: Field, value: string): (updated: FormData)
  {
    match field
    case Title => form.(title := value)
    case Content => form.(content := value)
    case Mood => form.(mood := value)
    case Tags => form.(tags := value)
  }

  /** The new value is in the named field and every other field is as it was. */
  lemma WithFieldChangesOnlyField(form: FormData, field: Field, value: string)
    ensures Get(WithField(form, field, value), field) == value
    ensures forall other :: other != field ==> Get(WithField(form, field, value), other) == Get(form, other)
  {
  }

  const Blank := FormData("", "", "", "")

  /** The initial state: the entry being edited, read as the edit loader reads it, or four empty fields. */
  function InitialData(editingEntry: Option<StoredEntry>): (form: FormData)
    ensures editingEntry == None ==> form == Blank
    ensures editingEntry != None ==> form == LoadForEdit(editingEntry.value)
  {
    match editingEntry
    case None => Blank
    case Some(entry) => LoadForEdit(entry)
  }

  class Form {
    var title: string
    var content: string
    var mood: string
    var tags: string
    var message: string
    const editingEntry: Option<StoredEntry>

    /** The four fields of `formData`. */
    function Data(): FormData
      reads this`title, this`content, this`mood, this`tags
    {
      FormData(title, content, mood, tags)
    }

    constructor (editingEntry: Option<StoredEntry>)
      ensures this.editingEntry == editingEntry
      ensures Data() == InitialData(editingEntry)
      ensures message == ""
    {
      this.editingEntry := editingEntry;
      var form := InitialData(editingEntry);
      title, content, mood, tags := form.title, form.content, form.mood, form.tags;
      message := "";
    }

    /** `handleInputChange(field, value)` */
    method HandleInputChange(field: Field, value: string)
      modifies this
      ensures Data() == WithField(old(Data()), field, value)
      ensures message == old(message)
    {
      match field
      case Title => title := value;
      case Content => content := value;
      case Mood => mood := value;
      case Tags => tags := value;
    }

    /** The Clear button. */
    method Clear()
      modifies this
      ensures Data() == Blank
      ensures message == old(message)
    {
      title, content, mood, tags := "", "", "", "";
    }

    /**
     * `handleSubmit`. `userId` is the signed-in user, if any, and `storeError`
     * the error the store answers with, if any. Returns what was asked of the
     * store; after a successful save of a new entry the form is emptied.
     */
    method HandleSubmit(userId: Option<string>, storeError: Option<string>) returns (request: Result<Save>)
      modifies this
      ensures request == SubmitEntry(userId, IdOf(editingEntry), old(Data()))
      ensures request.Failure? ==> message == LogInMessage && Data() == old(Data())
      ensures request.Success? ==> message == SaveMessage(editingEntry != None, storeError)
      ensures request.Success? && storeError == None && editingEntry == None ==> Data() == Blank
      ensures !(request.Success? && storeError == None && editingEntry == None) ==> Data() == old(Data())
    {
      request := SubmitEntry(userId, IdOf(editingEntry), Data());
      if request.Failure? {
        message := LogInMessage;
        return;
      }
      message := SaveMessage(editingEntry != None, storeError);
      if storeError == None && editingEntry == None {
        title, content, mood, tags := "", "", "", "";
        assert Data() == Blank;
      }
    }
  }

  function IdOf(entry: Option<StoredEntry>): (id: Option<string>)
    ensures id == None <==> entry == None
    ensures id != None ==> id.value == entry.value.id
  {
    match entry
    case None => None
    case Some(e) => Some(e.id)
  }
}
