/** The record assembler of `parse_records`: classification of highlighted fragments
    into date markers, time markers and comments, and the state machine that folds
    them into report records under the two association modes. */
module Assembler {
  import opened Strings
  import opened Outcomes
  import Dates

  /** `'Comment → Time'` or `'Time → Comment'`: whether comments are closed by the
      time marker after them or belong to the time marker before them. */
  datatype Mode = CommentToTime | TimeToComment

  /** `'Top to Bottom'` or `'Bottom to Top'`: the order in which a group's comments are joined. */
  datatype JoinOrder = TopToBottom | BottomToTop

  /** One highlighted passage: its 1-based page and its text. */
  datatype Fragment = Fragment(page: nat, text: string)

  /** One report row: date, page locator and info text. */
  datatype Record = Record(date: string, locator: string, info: string)

  /** `strptime` raising `ValueError` on a text that has the shape of a date. */
  datatype Error = InvalidDate(text: string)

  /** What a fragment's stripped text is taken to be. */
  datatype Marker =
    | DateMarker(date: string)      // a date, already reformatted as dd/mm/yyyy
    | BadDate(text: string)         // shaped like a date, but not a calendar date
    | TimeMarker(time: string)
    | CommentText(comment: string)  // normalised comment text

  /** `time_pattern`: `^\d{2}:\d{2}$`, with no range check on hours or minutes. */
  predicate IsTimePattern(t: string) {
    |t| == 5 && IsDigit(t[0]) && IsDigit(t[1]) && t[2] == ':' && IsDigit(t[3]) && IsDigit(t[4])
  }

  /** `re.sub(r',\s*$', ' [...]', t.replace('\n', ' '))`: newlines become spaces and a
      comma followed by nothing but whitespace becomes the continuation marker. */
  function NormaliseComment(t: string): string {
    var u := ReplaceNewlines(t);
    var v := StripEnd(u);
    if v != [] && v[|v| - 1] == ',' then v[..|v| - 1] + " [...]" else u
  }

  /** On stripped text: every newline becomes a space, and a final comma is replaced
      by " [...]"; nothing else changes. */
  lemma NormaliseCommentSpec(t: string)
    requires t == [] || !IsSpace(t[|t| - 1])
    ensures var c := NormaliseComment(t);
      var cut := if t != [] && t[|t| - 1] == ',' then 1 else 0;
      (forall i :: 0 <= i < |c| ==> c[i] != '\n') &&
      |c| == |t| - cut + (if cut == 1 then 6 else 0) &&
      (forall i :: 0 <= i < |t| - cut ==> c[i] == if t[i] == '\n' then ' ' else t[i]) &&
      (cut == 1 ==> c[|t| - 1..] == " [...]")
  {
    var u := ReplaceNewlines(t);
    StripEndSpec(u);
  }

  /** Classification of one fragment's stripped text: tried against the date
      pattern, then the time pattern; everything else is a comment. */
  function Classify(t: string): Marker {
    if Dates.IsDatePattern(t) then
      match Dates.ParseDate(t)
      case Ok(d) => DateMarker(d)
      case Err(_) => BadDate(t)
    else if IsTimePattern(t) then TimeMarker(t)
    else CommentText(NormaliseComment(t))
  }

  /** The arguments of one `flush_group` call, with the `current_date` it reads. */
  datatype Group = Group(date: Option<string>, comments: seq<string>, time: string, page: nat)

  /** The assembler's state: `current_date`, `comment_buffer`, `pending_time`, and the
      groups flushed so far (standing for the `records` list). */
  datatype State = State(currentDate: Option<string>, buffer: seq<string>,
                         pendingTime: Option<string>, groups: seq<Group>)

  const Start: State := State(None, [], None, [])

  /** A fragment after classification: its marker and its page. */
  datatype Item = Item(marker: Marker, page: nat)

  /** Each fragment's text stripped and classified, in order. */
  function Classified(fs: seq<Fragment>): (items: seq<Item>)
    ensures |items| == |fs|
    ensures forall i :: 0 <= i < |fs| ==> items[i] == Item(Classify(Strip(fs[i].text)), fs[i].page)
  {
    if fs == [] then []
    else Classified(fs[..|fs| - 1]) + [Item(Classify(Strip(fs[|fs| - 1].text)), fs[|fs| - 1].page)]
  }

  /** One iteration of the loop over the fragments. */
  function Step(mode: Mode, s: State, item: Item): Result<State, Error> {
    var page := item.page;
    match item.marker
    case BadDate(t) => Err(InvalidDate(t))
    case DateMarker(d) => Ok(s.(currentDate := Some(d), buffer := [], pendingTime := None))
    case TimeMarker(t) =>
      if mode == CommentToTime then
        if s.buffer != [] then
          Ok(s.(buffer := [], groups := s.groups + [Group(s.currentDate, s.buffer, t, page)]))
        else Ok(s)
      else
        var flushed :=
          if s.pendingTime.Some? && s.buffer != [] then
            s.(buffer := [], groups := s.groups + [Group(s.currentDate, s.buffer, s.pendingTime.value, page)])
          else s;
        Ok(flushed.(pendingTime := Some(t)))
    case CommentText(c) => Ok(s.(buffer := s.buffer + [c]))
  }

  /** The loop over `items` from state `s`; the first invalid date aborts it. */
  function RunFrom(mode: Mode, s: State, items: seq<Item>): Result<State, Error> {
    if items == [] then Ok(s)
    else
      match RunFrom(mode, s, items[..|items| - 1])
      case Err(e) => Err(e)
      case Ok(t) => Step(mode, t, items[|items| - 1])
  }

  /** The page of the last fragment: the value the loop variable `page` keeps after the loop. */
  function LastPage(items: seq<Item>): nat {
    if items == [] then 0 else items[|items| - 1].page
  }

  /** The tail flush of `'Time → Comment'` after the loop. */
  function Finish(mode: Mode, s: State, page: nat): State {
    if mode == TimeToComment && s.pendingTime.Some? && s.buffer != [] then
      s.(groups := s.groups + [Group(s.currentDate, s.buffer, s.pendingTime.value, page)])
    else s
  }

  /** Every group `parse_records` flushes for the fragments `fs`, in order. */
  function Groups(mode: Mode, fs: seq<Fragment>): Result<seq<Group>, Error> {
    GroupsOf(mode, Classified(fs))
  }

  function GroupsOf(mode: Mode, items: seq<Item>): Result<seq<Group>, Error> {
    match RunFrom(mode, Start, items)
    case Err(e) => Err(e)
    case Ok(s) => Ok(Finish(mode, s, LastPage(items)).groups)
  }

  /** The comments in the order they are joined. */
  function Ordered(joinOrder: JoinOrder, comments: seq<string>): seq<string> {
    if joinOrder == BottomToTop then Reversed(comments) else comments
  }

  /** The record `flush_group` appends for one group; `today` stands for the
      `datetime.now()` date used when no date marker has been seen. */
  function RecordOf(prefix: string, heading: string, joinOrder: JoinOrder, today: string, g: Group): Record {
    Record(g.date.GetOr(today),
           prefix + " " + NatToString(g.page),
           heading + "\n" + g.time + ": " + Join(Ordered(joinOrder, g.comments), " [...] "))
  }

  function RecordsOf(prefix: string, heading: string, joinOrder: JoinOrder, today: string, gs: seq<Group>): (rs: seq<Record>)
    ensures |rs| == |gs|
    ensures forall i :: 0 <= i < |gs| ==> rs[i] == RecordOf(prefix, heading, joinOrder, today, gs[i])
  {
    if gs == [] then []
    else RecordsOf(prefix, heading, joinOrder, today, gs[..|gs| - 1]) + [RecordOf(prefix, heading, joinOrder, today, gs[|gs| - 1])]
  }

  /** The value `parse_records` returns, or the error it raises. */
  function Assemble(fs: seq<Fragment>, prefix: string, heading: string, mode: Mode,
                    joinOrder: JoinOrder, today: string): Result<seq<Record>, Error> {
    match Groups(mode, fs)
    case Err(e) => Err(e)
    case Ok(gs) => Ok(RecordsOf(prefix, heading, joinOrder, today, gs))
  }

  /** Once the loop has failed on a prefix of the items, it fails on all of them with the same error. */
  lemma {:induction false} ErrorPersists(mode: Mode, s: State, items: seq<Item>, i: nat)
    requires i <= |items| && RunFrom(mode, s, items[..i]).Err?
    ensures RunFrom(mode, s, items) == RunFrom(mode, s, items[..i])
    decreases |items| - i
  {
    if i < |items| {
      assert items[..i + 1][..i] == items[..i];
      ErrorPersists(mode, s, items, i + 1);
    } else {
      assert items[..i] == items;
    }
  }

  /** Classifying one more fragment appends one item. */
  lemma ClassifiedSnoc(fs: seq<Fragment>, i: nat)
    requires i < |fs|
    ensures Classified(fs[..i + 1]) == Classified(fs[..i]) + [Item(Classify(Strip(fs[i].text)), fs[i].page)]
    ensures LastPage(Classified(fs[..i + 1])) == fs[i].page
  {
    assert fs[..i + 1][..i] == fs[..i];
  }

  /** Classifying a prefix gives the prefix of the classification. */
  lemma {:induction false} ClassifiedPrefix(fs: seq<Fragment>, i: nat)
    requires i <= |fs|
    ensures Classified(fs)[..i] == Classified(fs[..i])
    decreases |fs|
  {
    if i < |fs| {
      assert fs[..|fs| - 1][..i] == fs[..i];
      ClassifiedPrefix(fs[..|fs| - 1], i);
    } else {
      assert fs[..i] == fs;
    }
  }

  /** The local state of one `parse_records` call: the settings its inner `flush_group`
      captures, `current_date`, `comment_buffer`, `pending_time` and `records`. */
  class RecordAssembler {
    const prefix: string
    const rowHeading: string
    const mode: Mode
    const joinOrder: JoinOrder
    const today: string
    var currentDate: Option<string>
    var commentBuffer: seq<string>
    var pendingTime: Option<string>
    var records: seq<Record>
    ghost var groups: seq<Group>

    /** `records` holds the rendering of every group flushed so far. */
    ghost predicate Valid()
      reads this
    {
      records == RecordsOf(prefix, rowHeading, joinOrder, today, groups)
    }

    ghost function Current(): State
      reads this
    {
      State(currentDate, commentBuffer, pendingTime, groups)
    }

    constructor (prefix: string, rowHeading: string, mode: Mode, joinOrder: JoinOrder, today: string)
      ensures Valid() && Current() == Start && records == []
      ensures this.prefix == prefix && this.rowHeading == rowHeading && this.mode == mode
      ensures this.joinOrder == joinOrder && this.today == today
    {
      this.prefix := prefix;
      this.rowHeading := rowHeading;
      this.mode := mode;
      this.joinOrder := joinOrder;
      this.today := today;
      currentDate := None;
      commentBuffer := [];
      pendingTime := None;
      records := [];
      groups := [];
    }

    /** `flush_group(comments, time_str, time_page)`: append the record of one group. */
    method FlushGroup(comments: seq<string>, timeStr: string, timePage: nat)
      requires Valid()
      modifies this`records, this`groups
      ensures Valid()
      ensures groups == old(groups) + [Group(currentDate, comments, timeStr, timePage)]
      ensures records == old(records) + [RecordOf(prefix, rowHeading, joinOrder, today, Group(currentDate, comments, timeStr, timePage))]
    {
      var g := Group(currentDate, comments, timeStr, timePage);
      records := records + [RecordOf(prefix, rowHeading, joinOrder, today, g)];
      groups := groups + [g];
    }

    /** A date marker, already reformatted. */
    method OnDate(date: string)
      requires Valid()
      modifies this`currentDate, this`commentBuffer, this`pendingTime
      ensures Valid()
      ensures Step(mode, old(Current()), Item(DateMarker(date), 0)) == Ok(Current())
    {
      currentDate := Some(date);
      commentBuffer := [];
      pendingTime := None;
    }

    /** A time marker on page `page`. */
    method OnTime(timeStr: string, page: nat)
      requires Valid()
      modifies this`commentBuffer, this`pendingTime, this`records, this`groups
      ensures Valid()
      ensures Step(mode, old(Current()), Item(TimeMarker(timeStr), page)) == Ok(Current())
    {
      if mode == CommentToTime {
        if commentBuffer != [] {
          FlushGroup(commentBuffer, timeStr, page);
          commentBuffer := [];
        }
      } else {
        if pendingTime.Some? && commentBuffer != [] {
          FlushGroup(commentBuffer, pendingTime.value, page);
          commentBuffer := [];
        }
        pendingTime := Some(timeStr);
      }
    }

    /** A comment, already normalised. */
    method OnComment(c: string)
      requires Valid()
      modifies this`commentBuffer
      ensures Valid()
      ensures Step(mode, old(Current()), Item(CommentText(c), 0)) == Ok(Current())
    {
      commentBuffer := commentBuffer + [c];
    }

    /** One iteration of the loop: strip the text, classify it and act on it. An
        invalid date is returned as the error `strptime` raises. */
    method Feed(page: nat, raw: string) returns (error: Option<Error>)
      requires Valid()
      modifies this`currentDate, this`commentBuffer, this`pendingTime, this`records, this`groups
      ensures Valid()
      ensures Step(mode, old(Current()), Item(Classify(Strip(raw)), page)) ==
        if error.Some? then Err(error.value) else Ok(Current())
      ensures error.Some? ==> Current() == old(Current()) && records == old(records)
    {
      var text := Strip(raw);
      if Dates.IsDatePattern(text) {
        match Dates.ParseDate(text) {
          case Err(_) =>
            return Some(InvalidDate(text));
          case Ok(d) =>
            OnDate(d);
        }
      } else if IsTimePattern(text) {
        OnTime(text, page);
      } else {
        OnComment(NormaliseComment(text));
      }
      return None;
    }

    /** The tail flush of 'Time → Comment', with the page of the last fragment. */
    method FlushTail(page: nat)
      requires Valid()
      modifies this`records, this`groups
      ensures Valid()
      ensures Current() == Finish(mode, old(Current()), page)
    {
      if mode == TimeToComment && pendingTime.Some? && commentBuffer != [] {
        FlushGroup(commentBuffer, pendingTime.value, page);
      }
    }
  }

  /** When the loop fails at fragment `i`, `parse_records` raises that error. */
  lemma AssembleFails(fs: seq<Fragment>, i: nat, prefix: string, heading: string, mode: Mode,
                      joinOrder: JoinOrder, today: string, e: Error)
    requires i < |fs| && RunFrom(mode, Start, Classified(fs[..i + 1])) == Err(e)
    ensures Assemble(fs, prefix, heading, mode, joinOrder, today) == Err(e)
  {
    ClassifiedPrefix(fs, i + 1);
    ErrorPersists(mode, Start, Classified(fs), i + 1);
  }

  /** When the loop runs through, `parse_records` returns the records of its groups
      and of the tail flush. */
  lemma AssembleSucceeds(fs: seq<Fragment>, prefix: string, heading: string, mode: Mode,
                         joinOrder: JoinOrder, today: string, s: State)
    requires RunFrom(mode, Start, Classified(fs)) == Ok(s)
    ensures Assemble(fs, prefix, heading, mode, joinOrder, today) ==
      Ok(RecordsOf(prefix, heading, joinOrder, today, Finish(mode, s, LastPage(Classified(fs))).groups))
  {
  }

  /** `parse_records`: the loop over the fragments, proved to compute `Assemble`. */
  method ParseRecords(highlights: seq<Fragment>, prefix: string, rowHeading: string, mode: Mode,
                      joinOrder: JoinOrder, today: string)
    returns (result: Result<seq<Record>, Error>)
    ensures result == Assemble(highlights, prefix, rowHeading, mode, joinOrder, today)
  {
    var assembler := new RecordAssembler(prefix, rowHeading, mode, joinOrder, today);
    var page: nat := 0;
    var i := 0;
    while i < |highlights|
      invariant 0 <= i <= |highlights| && assembler.Valid()
      invariant RunFrom(mode, Start, Classified(highlights[..i])) == Ok(assembler.Current())
      invariant page == LastPage(Classified(highlights[..i]))
    {
      page := highlights[i].page;
      ClassifiedSnoc(highlights, i);
      var error := assembler.Feed(page, highlights[i].text);
      if error.Some? {
        AssembleFails(highlights, i, prefix, rowHeading, mode, joinOrder, today, error.value);
        return Err(error.value);
      }
      i := i + 1;
    }
    assert highlights[..i] == highlights;
    AssembleSucceeds(highlights, prefix, rowHeading, mode, joinOrder, today, assembler.Current());
    assembler.FlushTail(page);
    return Ok(assembler.records);
  }
}
