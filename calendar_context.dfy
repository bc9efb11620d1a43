/** The calendar assistant's one tool: the reminder held in the run context,
    rendered as five labelled lines. */
module CalendarContext {
  import opened Wrappers
  import opened Strings

  /** The reminder record: exactly five text fields. */
  datatype CalendarReminder = CalendarReminder(
    title: string, date: string, time: string, location: string, description: string)

  /** The wrapper the tool receives; only its `context` is read. */
  datatype RunContextWrapper = RunContextWrapper(context: CalendarReminder)

  const ReminderLabel: string := "\U{1F4CC} Reminder: "
  const DateLabel: string := "\U{1F4C5} Date: "
  const TimeLabel: string := "\U{23F0} Time: "
  const LocationLabel: string := "\U{1F4CD} Location: "
  const NotesLabel: string := "\U{1F4DD} Notes: "

  /** `get_calendar_reminder`: five f-strings, each but the last ending in a line break. */
  function GetCalendarReminder(ctx: RunContextWrapper): string
  {
    var reminder := ctx.context;
    (ReminderLabel + reminder.title + "\n") +
    (DateLabel + reminder.date + "\n") +
    (TimeLabel + reminder.time + "\n") +
    (LocationLabel + reminder.location + "\n") +
    (NotesLabel + reminder.description)
  }

  /** The five labelled lines, in the fixed order title, date, time, location, notes. */
  function Lines(reminder: CalendarReminder): seq<string>
  {
    [ ReminderLabel + reminder.title,
      DateLabel + reminder.date,
      TimeLabel + reminder.time,
      LocationLabel + reminder.location,
      NotesLabel + reminder.description ]
  }

  const Labels: seq<string> := [ReminderLabel, DateLabel, TimeLabel, LocationLabel, NotesLabel]

  /** The text is the five labelled lines joined by line breaks, with none after the last. */
  lemma GetCalendarReminderIsJoin(ctx: RunContextWrapper)
    ensures GetCalendarReminder(ctx) == Join(Lines(ctx.context), "\n")
  {
    var lines := Lines(ctx.context);
    assert lines[1..][1..][1..][1..] == [lines[4]];
    assert lines[1..][1..][1..] == [lines[3], lines[4]];
    assert lines[1..][1..] == [lines[2], lines[3], lines[4]];
    assert lines[1..] == [lines[1], lines[2], lines[3], lines[4]];
    assert Join(lines[1..][1..][1..], "\n") == lines[3] + "\n" + lines[4];
    assert Join(lines[1..][1..], "\n") == lines[2] + "\n" + (lines[3] + "\n" + lines[4]);
    assert Join(lines[1..], "\n") == lines[1] + "\n" + (lines[2] + "\n" + (lines[3] + "\n" + lines[4]));
  }

  /** The value of a line that starts with `tag`; the rest of the line is the value. */
  function Unlabel(line: string, tag: string): Option<string>
  {
    if |tag| <= |line| && line[..|tag|] == tag then Some(line[|tag|..]) else None
  }

  /** Reads a reminder back from the tool's text: exactly five lines, each with
      its label. */
  function ReadReminder(text: string): Option<CalendarReminder>
  {
    var lines := Split(text, '\n');
    if |lines| != 5 then None
    else
      match (Unlabel(lines[0], ReminderLabel), Unlabel(lines[1], DateLabel), Unlabel(lines[2], TimeLabel),
             Unlabel(lines[3], LocationLabel), Unlabel(lines[4], NotesLabel))
      case (Some(title), Some(date), Some(time), Some(location), Some(description)) =>
        Some(CalendarReminder(title, date, time, location, description))
      case _ => None
  }

  /** No field holds a line break. */
  predicate SingleLineFields(reminder: CalendarReminder)
  {
    '\n' !in reminder.title && '\n' !in reminder.date && '\n' !in reminder.time &&
    '\n' !in reminder.location && '\n' !in reminder.description
  }

  lemma LabelsAreSingleLine()
    ensures forall k | 0 <= k < |Labels| :: '\n' !in Labels[k]
  {
    assert '\n' !in ReminderLabel && '\n' !in DateLabel && '\n' !in TimeLabel;
    assert '\n' !in LocationLabel && '\n' !in NotesLabel;
  }

  /** Line by line, the text is the five labelled fields in order. */
  lemma GetCalendarReminderLines(ctx: RunContextWrapper)
    requires SingleLineFields(ctx.context)
    ensures Split(GetCalendarReminder(ctx), '\n') == Lines(ctx.context)
  {
    LabelsAreSingleLine();
    GetCalendarReminderIsJoin(ctx);
    var lines := Lines(ctx.context);
    forall k | 0 <= k < |lines|
      ensures '\n' !in lines[k]
    {
      assert lines[k] == Labels[k] + [ctx.context.title, ctx.context.date, ctx.context.time,
        ctx.context.location, ctx.context.description][k];
    }
    SplitJoin(lines, '\n');
  }

  lemma UnlabelLabelled(tag: string, value: string)
    ensures Unlabel(tag + value, tag) == Some(value)
  {
    assert (tag + value)[..|tag|] == tag;
    assert (tag + value)[|tag|..] == value;
  }

  /** Every field comes back out of the text unchanged, as long as no field
      holds a line break. */
  lemma ReadGetCalendarReminder(ctx: RunContextWrapper)
    requires SingleLineFields(ctx.context)
    ensures ReadReminder(GetCalendarReminder(ctx)) == Some(ctx.context)
  {
    var r := ctx.context;
    GetCalendarReminderLines(ctx);
    UnlabelLabelled(ReminderLabel, r.title);
    UnlabelLabelled(DateLabel, r.date);
    UnlabelLabelled(TimeLabel, r.time);
    UnlabelLabelled(LocationLabel, r.location);
    UnlabelLabelled(NotesLabel, r.description);
  }

  /** Conversely, any text the reader accepts is exactly what the tool writes
      for the reminder it reads. */
  lemma GetReadReminder(text: string, reminder: CalendarReminder)
    requires ReadReminder(text) == Some(reminder)
    ensures GetCalendarReminder(RunContextWrapper(reminder)) == text
  {
    var lines := Split(text, '\n');
    forall k | 0 <= k < 5
      ensures lines[k] == Lines(reminder)[k]
    {
      assert lines[k] == lines[k][..|Labels[k]|] + lines[k][|Labels[k]|..];
    }
    assert lines == Lines(reminder);
    JoinSplit(text, '\n');
    GetCalendarReminderIsJoin(RunContextWrapper(reminder));
  }

  /** Exactly four separator line breaks, plus whatever the fields hold. */
  lemma GetCalendarReminderNewlines(ctx: RunContextWrapper)
    ensures var r := ctx.context;
      CountChar(GetCalendarReminder(ctx), '\n') ==
        4 + CountChar(r.title, '\n') + CountChar(r.date, '\n') + CountChar(r.time, '\n') +
        CountChar(r.location, '\n') + CountChar(r.description, '\n')
  {
    var r := ctx.context;
    LabelsAreSingleLine();
    assert Labels == [ReminderLabel, DateLabel, TimeLabel, LocationLabel, NotesLabel];
    LabelledLineNewlines(ReminderLabel, r.title);
    LabelledLineNewlines(DateLabel, r.date);
    LabelledLineNewlines(TimeLabel, r.time);
    LabelledLineNewlines(LocationLabel, r.location);
    LabelledNewlines(NotesLabel, r.description);
    var a := ReminderLabel + r.title + "\n";
    var b := DateLabel + r.date + "\n";
    var c := TimeLabel + r.time + "\n";
    var d := LocationLabel + r.location + "\n";
    var e := NotesLabel + r.description;
    CountCharAppend(a, b, '\n');
    CountCharAppend(a + b, c, '\n');
    CountCharAppend(a + b + c, d, '\n');
    CountCharAppend(a + b + c + d, e, '\n');
  }

  /** `tag + value` holds the value's line breaks and no more ... */
  lemma LabelledNewlines(tag: string, value: string)
    requires '\n' !in tag
    ensures CountChar(tag + value, '\n') == CountChar(value, '\n')
  {
    CountCharAbsent(tag, '\n');
    CountCharAppend(tag, value, '\n');
  }

  /** ... and `tag + value + "\n"` one more. */
  lemma LabelledLineNewlines(tag: string, value: string)
    requires '\n' !in tag
    ensures CountChar(tag + value + "\n", '\n') == CountChar(value, '\n') + 1
  {
    LabelledNewlines(tag, value);
    CountCharAppend(tag + value, "\n", '\n');
  }
}
