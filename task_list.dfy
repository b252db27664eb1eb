/**
 * The task list view as a function of its props: the loading and empty
 * guards, one card per task with its status icon, colour, label and day
 * buckets, and the confirmation that gates a delete.
 */
module TaskList {
  import opened Tasks

  const COMPLETED_ICON := "\U{2705}"
  const IN_PROGRESS_ICON := "\U{26A1}"
  const PENDING_ICON := "\U{1F4CB}"

  const COMPLETED_COLOR := "bg-green-500/20 text-green-300 border-green-400/30"
  const IN_PROGRESS_COLOR := "bg-yellow-500/20 text-yellow-300 border-yellow-400/30"
  const PENDING_COLOR := "bg-gray-500/20 text-gray-300 border-gray-400/30"

  /** `getStatusIcon`: any status other than the three gets the pending icon. */
  function StatusIcon(status: Option<string>): (icon: string)
    ensures status == Some(COMPLETED) <==> icon == COMPLETED_ICON
    ensures status == Some(IN_PROGRESS) <==> icon == IN_PROGRESS_ICON
    ensures status != Some(COMPLETED) && status != Some(IN_PROGRESS) <==> icon == PENDING_ICON
  {
    match status
    case Some("completed") => COMPLETED_ICON
    case Some("in-progress") => IN_PROGRESS_ICON
    case Some("pending") => PENDING_ICON
    case _ => PENDING_ICON
  }

  /** `getStatusColor`: any status other than the three gets the pending colour. */
  function StatusColor(status: Option<string>): (color: string)
    ensures status == Some(COMPLETED) <==> color == COMPLETED_COLOR
    ensures status == Some(IN_PROGRESS) <==> color == IN_PROGRESS_COLOR
    ensures status != Some(COMPLETED) && status != Some(IN_PROGRESS) <==> color == PENDING_COLOR
  {
    match status
    case Some("completed") => COMPLETED_COLOR
    case Some("in-progress") => IN_PROGRESS_COLOR
    case Some("pending") => PENDING_COLOR
    case _ => PENDING_COLOR
  }

  /** `s.replace("-", " ")`: a string pattern replaces its first occurrence only. */
  function ReplaceFirstDash(s: string): string {
    if s == [] then [] else if s[0] == '-' then [' '] + s[1..] else [s[0]] + ReplaceFirstDash(s[1..])
  }

  /** Where the first dash is, or `|s|` when there is none. */
  function FirstDash(s: string): (i: nat)
    ensures i <= |s|
    ensures i < |s| ==> s[i] == '-'
    ensures forall k | 0 <= k < i :: s[k] != '-'
  {
    if s == [] then 0 else if s[0] == '-' then 0 else 1 + FirstDash(s[1..])
  }

  /** The first dash, and only the first, becomes a space; everything else stays in place. */
  lemma {:induction false} ReplaceFirstDashAt(s: string)
    ensures |ReplaceFirstDash(s)| == |s|
    ensures forall k | 0 <= k < |s| :: ReplaceFirstDash(s)[k] == if k == FirstDash(s) then ' ' else s[k]
  {
    if s != [] && s[0] != '-' {
      ReplaceFirstDashAt(s[1..]);
    }
  }

  function UpperAscii(c: char): char {
    if 'a' <= c <= 'z' then (c as int - 32) as char else c
  }

  predicate IsLowerAscii(c: char) {
    'a' <= c <= 'z'
  }

  /**
   * `toUpperCase`, on the ASCII letters that status values are written in:
   * every lower-case letter becomes its capital, everything else stays.
   */
  function ToUpper(s: string): (r: string)
    ensures |r| == |s|
    ensures forall k | 0 <= k < |r| :: !IsLowerAscii(r[k])
    ensures forall k | 0 <= k < |s| :: IsLowerAscii(s[k]) ==> r[k] as int == s[k] as int - 32
    ensures forall k | 0 <= k < |s| :: !IsLowerAscii(s[k]) ==> r[k] == s[k]
  {
    seq(|s|, k requires 0 <= k < |s| => UpperAscii(s[k]))
  }

  /**
   * The status badge text, `status.replace("-", " ").toUpperCase()`: the
   * same length, the first dash a space, every other character upper-cased.
   */
  function StatusLabel(status: string): (badge: string)
    ensures |badge| == |status|
    ensures forall k | 0 <= k < |status| ::
      badge[k] == if k == FirstDash(status) then ' ' else UpperAscii(status[k])
  {
    ReplaceFirstDashAt(status);
    ToUpper(ReplaceFirstDash(status))
  }

  lemma SpacedInProgress() ensures ReplaceFirstDash(IN_PROGRESS) == "in progress" { ReplaceFirstDashAt(IN_PROGRESS); }
  lemma SpacedPending() ensures ReplaceFirstDash(PENDING) == PENDING { ReplaceFirstDashAt(PENDING); }
  lemma SpacedCompleted() ensures ReplaceFirstDash(COMPLETED) == COMPLETED { ReplaceFirstDashAt(COMPLETED); }
  lemma UpperInProgress() ensures ToUpper("in progress") == "IN PROGRESS" { }
  lemma UpperPending() ensures ToUpper(PENDING) == "PENDING" { }
  lemma UpperCompleted() ensures ToUpper(COMPLETED) == "COMPLETED" { }

  /** The badges of the three statuses: "in-progress" shows as "IN PROGRESS". */
  lemma StatusLabels()
    ensures StatusLabel(IN_PROGRESS) == "IN PROGRESS"
    ensures StatusLabel(PENDING) == "PENDING"
    ensures StatusLabel(COMPLETED) == "COMPLETED"
  {
    SpacedInProgress();
    UpperInProgress();
    SpacedPending();
    UpperPending();
    SpacedCompleted();
    UpperCompleted();
  }

  const MS_PER_DAY := 1000 * 60 * 60 * 24

  /** `Math.abs(now - date)`. */
  function Distance(now: int, date: int): nat {
    if now >= date then now - date else date - now
  }

  /** The bucket `formatDate` gives; the calendar form is `toLocaleDateString` of `date`. */
  datatype DateLabel = Today | Yesterday | DaysAgo(days: nat) | CalendarDate(date: int)

  /** `formatDate`: whole days between `now` and `date`, either way round, bucketed. */
  function FormatDate(now: int, date: int): (bucket: DateLabel)
    ensures bucket == Today <==> Distance(now, date) < MS_PER_DAY
    ensures bucket == Yesterday <==> MS_PER_DAY <= Distance(now, date) < 2 * MS_PER_DAY
    ensures bucket.DaysAgo? <==> 2 * MS_PER_DAY <= Distance(now, date) < 7 * MS_PER_DAY
    ensures bucket.DaysAgo? ==>
      2 <= bucket.days < 7 && bucket.days * MS_PER_DAY <= Distance(now, date) < (bucket.days + 1) * MS_PER_DAY
    ensures bucket.CalendarDate? <==> 7 * MS_PER_DAY <= Distance(now, date)
    ensures bucket.CalendarDate? ==> bucket.date == date
  {
    var days := Distance(now, date) / MS_PER_DAY;
    if days == 0 then Today
    else if days == 1 then Yesterday
    else if days < 7 then DaysAgo(days)
    else CalendarDate(date)
  }

  function Digit(d: nat): char
    requires d < 10
  {
    ('0' as int + d) as char
  }

  /** The decimal numeral of `n`, as a template literal writes it: digits only, no leading zero. */
  function Decimal(n: nat): (r: string)
    ensures |r| >= 1
    ensures forall k | 0 <= k < |r| :: '0' <= r[k] <= '9'
    ensures r[0] == '0' <==> n == 0
    ensures n < 10 ==> r == [Digit(n)]
  {
    if n < 10 then [Digit(n)] else Decimal(n / 10) + [Digit(n % 10)]
  }

  /**
   * The text of a bucket. "n days ago" ends in " days ago" after the numeral
   * of `n`; the locale calendar form is not modelled. A `Card` keeps the
   * bucket only; this is the text shown for it.
   */
  function Caption(bucket: DateLabel): (text: Option<string>)
    ensures text.None? <==> bucket.CalendarDate?
    ensures text == Some("Today") <==> bucket == Today
    ensures text == Some("Yesterday") <==> bucket == Yesterday
    ensures bucket.DaysAgo? ==>
      && text.Some? && |text.value| >= 10
      && text.value[..|text.value| - 9] == Decimal(bucket.days)
      && text.value[|text.value| - 9..] == " days ago"
    ensures bucket.DaysAgo? && bucket.days < 10 ==> text == Some([Digit(bucket.days)] + " days ago")
  {
    match bucket
    case Today => Some("Today")
    case Yesterday => Some("Yesterday")
    case DaysAgo(n) =>
      var t := Decimal(n) + " days ago";
      assert t[..|t| - 9] == Decimal(n) && t[|t| - 9..] == " days ago";
      Some(t)
    case CalendarDate(_) => None
  }

  /** What one task's card shows. */
  datatype Card = Card(
    icon: string,
    color: string,
    title: string,
    description: Option<string>,
    badge: string,
    created: DateLabel,
    updated: Option<DateLabel>)

  /** A card; `status` must be non-NULL here, since the label calls `replace` on it. */
  function TaskCard(t: Task, now: int): (c: Card)
    requires t.status.Some?
    ensures c.updated.Some? <==> t.updatedAt != t.createdAt
    ensures c.description.Some? <==> t.description.Some? && t.description.value != ""
  {
    Card(
      StatusIcon(t.status),
      StatusColor(t.status),
      t.title,
      if t.description.Some? && t.description.value != "" then t.description else None,
      StatusLabel(t.status.value),
      FormatDate(now, t.createdAt),
      if t.updatedAt != t.createdAt then Some(FormatDate(now, t.updatedAt)) else None)
  }

  /** What the list view renders. A NULL status makes `replace` throw while rendering. */
  datatype ListView = Loading | EmptyState | Cards(cards: seq<Card>) | RenderError

  predicate AllStatusesSet(tasks: seq<Task>) {
    forall i | 0 <= i < |tasks| :: tasks[i].status.Some?
  }

  /** `TaskList`: the loading guard first, then the empty guard, then one card per task in order. */
  function RenderTaskList(loading: bool, tasks: Option<seq<Task>>, now: int): (v: ListView)
    ensures v == Loading <==> loading
    ensures v == EmptyState <==> !loading && (tasks.None? || tasks.value == [])
    ensures v.RenderError? <==> !loading && tasks.Some? && tasks.value != [] && !AllStatusesSet(tasks.value)
    ensures v.Cards? <==> !loading && tasks.Some? && tasks.value != [] && AllStatusesSet(tasks.value)
    ensures v.Cards? ==>
      && !loading && tasks.Some?
      && |v.cards| == |tasks.value| > 0
      && forall i | 0 <= i < |v.cards| :: v.cards[i] == TaskCard(tasks.value[i], now)
  {
    if loading then Loading
    else if tasks.None? || tasks.value == [] then EmptyState
    else if !AllStatusesSet(tasks.value) then RenderError
    else Cards(seq(|tasks.value|, i requires 0 <= i < |tasks.value| => TaskCard(tasks.value[i], now)))
  }

  /** `handleDelete`: `onDelete(taskId)` is called exactly when the user confirms. */
  function ConfirmDelete(taskId: int, confirmed: bool): (onDelete: Option<int>)
    ensures onDelete.Some? <==> confirmed
    ensures onDelete.Some? ==> onDelete.value == taskId
  {
    if confirmed then Some(taskId) else None
  }
}
