/**
 * The task form: its `formData` record, filled from the task being edited
 * (or reset), changed one field at a time, and submitted only when the title
 * is not blank once trimmed.
 */
module TaskForm {
  import opened Tasks

  /** The form's `{title, description, status}` record. */
  datatype FormData = FormData(title: string, description: string, status: Option<string>)

  /** The record of an empty form. */
  const EMPTY_FORM := FormData("", "", Some(PENDING))

  /** The record the form shows for a task being edited: a NULL description shows as ''. */
  function FromTask(t: Task): (f: FormData)
    ensures f.title == t.title && f.status == t.status
    ensures t.description.Some? ==> f.description == t.description.value
    ensures t.description.None? ==> f.description == ""
  {
    FormData(t.title, t.description.GetOr(""), t.status)
  }

  /** What the edit-prefill effect puts in the form: the edited task, or an empty `pending` record. */
  function Prefill(editing: Option<Task>): (f: FormData)
    ensures editing.Some? ==> f == FromTask(editing.value)
    ensures editing.None? ==> f.title == "" && f.description == "" && f.status == Some(PENDING)
    ensures editing.None? || KnownStatus(editing.value.status) ==> KnownStatus(f.status)
  {
    if editing.Some? then FromTask(editing.value) else EMPTY_FORM
  }

  /** The two text inputs of the form, by their `name` attribute. */
  datatype FieldName = Title | Description

  /** The three buttons of the status selector. */
  datatype StatusOption = PendingOption | InProgressOption | CompletedOption

  function OptionValue(o: StatusOption): (v: string)
    ensures KnownStatus(Some(v))
  {
    match o
    case PendingOption => PENDING
    case InProgressOption => IN_PROGRESS
    case CompletedOption => COMPLETED
  }

  /** The characters `String.prototype.trim` removes: ECMAScript WhiteSpace and LineTerminator. */
  predicate IsJsWhitespace(c: char) {
    || c == '\t' || c == '\n' || c == '\U{000B}' || c == '\U{000C}' || c == '\r' || c == ' '
    || c == '\U{00A0}' || c == '\U{1680}' || ('\U{2000}' <= c <= '\U{200A}')
    || c == '\U{2028}' || c == '\U{2029}' || c == '\U{202F}' || c == '\U{205F}'
    || c == '\U{3000}' || c == '\U{FEFF}'
  }

  predicate AllWhitespace(s: string) {
    forall i | 0 <= i < |s| :: IsJsWhitespace(s[i])
  }

  /** Drops leading whitespace: what is left is a suffix of `s` that starts with a non-blank. */
  function TrimStart(s: string): (r: string)
    ensures |r| <= |s| && r == s[|s| - |r|..]
    ensures r != [] ==> !IsJsWhitespace(r[0])
    ensures AllWhitespace(s[..|s| - |r|])
  {
    if s != [] && IsJsWhitespace(s[0]) then
      var r := TrimStart(s[1..]);
      assert s[..|s| - |r|] == [s[0]] + s[1..][..|s| - 1 - |r|];
      r
    else
      s
  }

  /** Drops trailing whitespace: what is left is a prefix of `s` that ends with a non-blank. */
  function TrimEnd(s: string): (r: string)
    ensures |r| <= |s| && r == s[..|r|]
    ensures r != [] ==> !IsJsWhitespace(r[|r| - 1])
    ensures AllWhitespace(s[|r|..])
  {
    if s != [] && IsJsWhitespace(s[|s| - 1]) then
      var r := TrimEnd(s[..|s| - 1]);
      assert s[|r|..] == s[..|s| - 1][|r|..] + [s[|s| - 1]];
      r
    else
      s
  }

  /** `r` stands at offset `i` of `s`, with nothing but whitespace before and after it. */
  predicate CutFrom(s: string, i: nat, r: string) {
    && i + |r| <= |s|
    && r == s[i..i + |r|]
    && AllWhitespace(s[..i])
    && AllWhitespace(s[i + |r|..])
  }

  /**
   * `trim`: the part of `s` from its first to its last non-blank, with only
   * whitespace cut away on either side.
   */
  function Trim(s: string): (r: string)
    ensures r != [] ==> !IsJsWhitespace(r[0]) && !IsJsWhitespace(r[|r| - 1])
    ensures exists i: nat :: CutFrom(s, i, r)
  {
    var a := TrimStart(s);
    var r := TrimEnd(a);
    var i := |s| - |a|;
    assert s[i + |r|..] == a[|r|..];
    assert CutFrom(s, i, r);
    r
  }

  /** `!title.trim()`: the title trims to nothing exactly when every character is whitespace. */
  lemma TrimEmptyIff(s: string)
    ensures Trim(s) == "" <==> AllWhitespace(s)
  {
    var a := TrimStart(s);
    if a != [] {
      assert !IsJsWhitespace(a[0]);
      assert s[|s| - |a|] == a[0];
    } else {
      assert s[..|s| - |a|] == s;
    }
  }

  class Form {
    var formData: FormData
    /** The `editingTask` prop the form was last rendered with. */
    var editingTask: Option<Task>

    /** Mounting: the initial empty record, then the prefill effect for the prop. */
    constructor (editing: Option<Task>)
      ensures editingTask == editing && formData == Prefill(editing)
    {
      formData := EMPTY_FORM;
      editingTask := editing;
      new;
      EditingTaskChanged(editing);
    }

    /** The effect on `[editingTask]`: copy the edited task into the form, or reset it. */
    method EditingTaskChanged(editing: Option<Task>)
      modifies this
      ensures editingTask == editing
      ensures editing.Some? ==> formData == FromTask(editing.value)
      ensures editing.None? ==> formData == EMPTY_FORM
    {
      editingTask := editing;
      if editing.Some? {
        formData := FromTask(editing.value);
      } else {
        formData := EMPTY_FORM;
      }
    }

    /** `handleChange`: typing into one input changes that field only. */
    method HandleChange(name: FieldName, value: string)
      modifies this`formData
      ensures name == Title ==> formData == old(formData).(title := value)
      ensures name == Description ==> formData == old(formData).(description := value)
      ensures formData.status == old(formData.status)
    {
      match name
      case Title => formData := formData.(title := value);
      case Description => formData := formData.(description := value);
    }

    /** A status button: sets `status` to that option's value and nothing else. */
    method SelectStatus(option: StatusOption)
      modifies this`formData
      ensures KnownStatus(formData.status)
      ensures formData.title == old(formData.title) && formData.description == old(formData.description)
      ensures formData.status == Some(OptionValue(option))
    {
      formData := formData.(status := Some(OptionValue(option)));
    }

    /**
     * `handleSubmit`: nothing happens while the trimmed title is empty; otherwise
     * the current record, title untrimmed, goes to `onSubmit`, and a create form
     * empties itself while an edit form keeps its contents.
     */
    method HandleSubmit() returns (submitted: Option<FormData>)
      modifies this`formData
      ensures submitted.None? <==> AllWhitespace(old(formData.title))
      ensures submitted.Some? ==> submitted.value == old(formData)
      ensures submitted.None? || editingTask.Some? ==> formData == old(formData)
      ensures submitted.Some? && editingTask.None? ==> formData == EMPTY_FORM
    {
      TrimEmptyIff(formData.title);
      if Trim(formData.title) == "" {
        return None;
      }
      submitted := Some(formData);
      if editingTask.None? {
        formData := EMPTY_FORM;
      }
    }
  }
}
