/** What `parse_records` guarantees, proved about the fold of `Assembler.Step` over the
    classified fragments. */
module AssemblerProperties {
  import opened Strings
  import opened Outcomes
  import opened Assembler
  import Dates

  /** Number of items that are time markers. */
  function TimeCount(items: seq<Item>): (n: nat)
    ensures n <= |items|
  {
    if items == [] then 0
    else TimeCount(items[..|items| - 1]) + (if items[|items| - 1].marker.TimeMarker? then 1 else 0)
  }

  /** The reformatted value of the last date marker among `items`, if any. */
  function LastDate(items: seq<Item>): Option<string> {
    if items == [] then None
    else
      match items[|items| - 1].marker
      case DateMarker(d) => Some(d)
      case _ => LastDate(items[..|items| - 1])
  }

  /** Every item is comment text. */
  predicate AllComments(items: seq<Item>) {
    forall i :: 0 <= i < |items| ==> items[i].marker.CommentText?
  }

  /** The comment texts of a run of comment items, in order. */
  function CommentsOf(items: seq<Item>): (cs: seq<string>)
    requires AllComments(items)
    ensures |cs| == |items|
    ensures forall i :: 0 <= i < |items| ==> cs[i] == items[i].marker.comment
  {
    if items == [] then [] else CommentsOf(items[..|items| - 1]) + [items[|items| - 1].marker.comment]
  }

  // ---------------------------------------------------------------------------
  // Classification

  /** A stripped text is a time marker exactly when it is two digits, a colon and two
      digits, with no range check; it is a date marker or an invalid date exactly when
      it has the date shape, and invalid exactly when `strptime` rejects it; everything
      else is comment text, normalised. */
  lemma ClassifySpec(t: string)
    ensures Classify(t).TimeMarker? <==> IsTimePattern(t) && !Dates.IsDatePattern(t)
    ensures Classify(t).TimeMarker? ==> Classify(t).time == t
    ensures Classify(t).DateMarker? || Classify(t).BadDate? <==> Dates.IsDatePattern(t)
    ensures Classify(t).BadDate? <==> Dates.IsDatePattern(t) && !Dates.IsValidDate(Dates.FieldsOf(t))
    ensures Classify(t).DateMarker? ==> Classify(t).date == Dates.ParseDate(t).value
    ensures Classify(t).CommentText? <==> !Dates.IsDatePattern(t) && !IsTimePattern(t)
    ensures Classify(t).CommentText? ==> Classify(t).comment == NormaliseComment(t)
  {
    if Dates.IsDatePattern(t) {
      Dates.ParseDateSpec(t);
    }
  }

  /** No text has both shapes, so the order of the two tests does not matter. */
  lemma PatternsDisjoint(t: string)
    ensures !(IsTimePattern(t) && Dates.IsDatePattern(t))
  {
  }

  /** "99:99" is a time marker: the pattern checks digits only. */
  lemma OutOfRangeTimeIsTime()
    ensures Classify("99:99") == TimeMarker("99:99")
  {
  }

  /** A single-digit hour is not a time marker. */
  lemma ShortTimeIsComment()
    ensures Classify("9:30").CommentText?
  {
  }

  /** A date-shaped text naming a calendar date classifies as that date, written
      `dd/mm/yyyy`. */
  lemma ValidDateClassifies(t: string, f: Dates.Fields)
    requires Dates.IsDatePattern(t) && Dates.FieldsOf(t) == f && Dates.IsValidDate(f)
    ensures Classify(t) == DateMarker(Dates.Slashed(Dates.DayDigits(t), Dates.MonthDigits[f.month - 1], Dates.YearDigits(t)))
  {
  }

  lemma DateExample()
    ensures Classify("1 Jan 2024") == DateMarker("01/01/2024")
  {
    var t := "1 Jan 2024";
    assert Dates.IsDatePattern(t);
    assert Dates.MonthNumber('J', 'a', 'n') == 1 by {
      assert [ToLower('J'), ToLower('a'), ToLower('n')] == Dates.MonthAbbreviations[0];
    }
    assert Dates.FieldsOf(t) == Dates.Fields(1, 1, 2024);
    ValidDateClassifies(t, Dates.Fields(1, 1, 2024));
    assert Dates.DayDigits(t) == "01" && Dates.YearDigits(t) == "2024";
  }

  /** The month is read without regard to case. */
  lemma MonthCaseIgnored()
    ensures Classify("5 jAN 2020") == DateMarker("05/01/2020")
  {
    var t := "5 jAN 2020";
    assert Dates.IsDatePattern(t);
    assert Dates.MonthNumber('j', 'A', 'N') == 1 by {
      assert [ToLower('j'), ToLower('A'), ToLower('N')] == Dates.MonthAbbreviations[0];
    }
    assert Dates.FieldsOf(t) == Dates.Fields(5, 1, 2020);
    ValidDateClassifies(t, Dates.Fields(5, 1, 2020));
    assert Dates.DayDigits(t) == "05" && Dates.YearDigits(t) == "2020";
  }

  lemma UnknownMonthIsInvalid()
    ensures Classify("12 Xyz 2024") == BadDate("12 Xyz 2024")
  {
    var t := "12 Xyz 2024";
    assert Dates.IsDatePattern(t);
    assert Dates.MonthNumber('X', 'y', 'z') == 0 by {
      assert [ToLower('X'), ToLower('y'), ToLower('z')] !in Dates.MonthAbbreviations;
    }
  }

  lemma NonexistentDayIsInvalid()
    ensures Classify("29 Feb 2023") == BadDate("29 Feb 2023")
  {
    var t := "29 Feb 2023";
    assert Dates.IsDatePattern(t);
    assert Dates.MonthNumber('F', 'e', 'b') == 2 by {
      assert [ToLower('F'), ToLower('e'), ToLower('b')] == Dates.MonthAbbreviations[1];
      assert Dates.MonthAbbreviations[0] != Dates.MonthAbbreviations[1];
    }
    assert Dates.FieldsOf(t) == Dates.Fields(29, 2, 2023);
    assert !Dates.IsLeapYear(2023);
  }

  lemma LeapDayIsValid()
    ensures Classify("29 Feb 2024") == DateMarker("29/02/2024")
  {
    var t := "29 Feb 2024";
    assert Dates.IsDatePattern(t);
    assert Dates.MonthNumber('F', 'e', 'b') == 2 by {
      assert [ToLower('F'), ToLower('e'), ToLower('b')] == Dates.MonthAbbreviations[1];
      assert Dates.MonthAbbreviations[0] != Dates.MonthAbbreviations[1];
    }
    assert Dates.FieldsOf(t) == Dates.Fields(29, 2, 2024);
    assert Dates.IsLeapYear(2024);
    ValidDateClassifies(t, Dates.Fields(29, 2, 2024));
    assert Dates.DayDigits(t) == "29" && Dates.YearDigits(t) == "2024";
  }

  lemma TrailingCommaContinues()
    ensures Classify("continued,") == CommentText("continued [...]")
  {
  }

  // ---------------------------------------------------------------------------
  // Runs of the loop

  /** The run is a fold: running `a + b` is running `b` from where `a` stopped. */
  lemma {:induction false} RunAppend(mode: Mode, s: State, a: seq<Item>, b: seq<Item>)
    ensures RunFrom(mode, s, a + b) ==
      match RunFrom(mode, s, a)
      case Err(e) => Err(e)
      case Ok(t) => RunFrom(mode, t, b)
  {
    if b == [] {
      assert a + b == a;
    } else {
      assert (a + b)[..|a + b| - 1] == a + b[..|b| - 1];
      RunAppend(mode, s, a, b[..|b| - 1]);
    }
  }

  /** Comments are only buffered, in order, in both modes. */
  lemma {:induction false} CommentsAccumulate(mode: Mode, s: State, cs: seq<Item>)
    requires AllComments(cs)
    ensures RunFrom(mode, s, cs) == Ok(s.(buffer := s.buffer + CommentsOf(cs)))
  {
    if cs == [] {
      assert s.buffer + [] == s.buffer;
    } else {
      var init := cs[..|cs| - 1];
      CommentsAccumulate(mode, s, init);
      assert s.buffer + CommentsOf(init) + [cs[|cs| - 1].marker.comment] == s.buffer + CommentsOf(cs);
    }
  }

  /** 'Comment → Time': the comments buffered before a time marker form one group,
      closed with that marker's time and page, and the buffer is emptied; with no
      comments buffered the marker changes nothing. */
  lemma CommentToTimeFlush(s: State, cs: seq<Item>, t: string, page: nat)
    requires AllComments(cs)
    ensures var b := s.buffer + CommentsOf(cs);
      RunFrom(CommentToTime, s, cs + [Item(TimeMarker(t), page)]) ==
        if b != [] then Ok(s.(buffer := [], groups := s.groups + [Group(s.currentDate, b, t, page)]))
        else Ok(s)
  {
    var items := cs + [Item(TimeMarker(t), page)];
    assert items[..|items| - 1] == cs;
    CommentsAccumulate(CommentToTime, s, cs);
    assert s.buffer + CommentsOf(cs) == [] ==> s.(buffer := s.buffer + CommentsOf(cs)) == s;
  }

  /** 'Time → Comment', from an empty buffer: a time marker becomes the pending time
      and the comments after it are buffered. */
  lemma TimeThenComments(s: State, t1: string, p1: nat, cs: seq<Item>)
    requires s.buffer == [] && AllComments(cs)
    ensures RunFrom(TimeToComment, s, [Item(TimeMarker(t1), p1)] + cs) ==
      Ok(s.(pendingTime := Some(t1), buffer := CommentsOf(cs)))
  {
    var first := [Item(TimeMarker(t1), p1)];
    var s1 := s.(pendingTime := Some(t1));
    assert RunFrom(TimeToComment, s, first) == Ok(s1) by {
      assert first[..0] == [];
    }
    RunAppend(TimeToComment, s, first, cs);
    CommentsAccumulate(TimeToComment, s1, cs);
    assert s1.buffer + CommentsOf(cs) == CommentsOf(cs);
  }

  /** 'Time → Comment': the comments after a time marker form one group with that
      marker's time, flushed by the next time marker and carrying the NEXT marker's
      page; the next marker becomes the pending time. */
  lemma TimeToCommentFlush(s: State, t1: string, p1: nat, cs: seq<Item>, t2: string, p2: nat)
    requires s.buffer == [] && AllComments(cs)
    ensures RunFrom(TimeToComment, s, [Item(TimeMarker(t1), p1)] + cs + [Item(TimeMarker(t2), p2)]) ==
      Ok(s.(pendingTime := Some(t2),
            groups := s.groups + if cs == [] then [] else [Group(s.currentDate, CommentsOf(cs), t1, p2)]))
  {
    var head := [Item(TimeMarker(t1), p1)] + cs;
    var last := Item(TimeMarker(t2), p2);
    TimeThenComments(s, t1, p1, cs);
    assert (head + [last])[..|head + [last]| - 1] == head;
    if cs == [] {
      assert s.groups + [] == s.groups;
    }
  }

  /** 'Time → Comment', before any time marker: `pending_time` is None, so the first
      time marker flushes nothing and clears nothing. The comments buffered before it
      join its group, which the next time marker flushes with that marker's page. */
  lemma EarlyCommentsJoinFirstTime(s: State, t1: string, p1: nat, cs: seq<Item>, t2: string, p2: nat)
    requires s.pendingTime.None? && AllComments(cs)
    ensures var b := s.buffer + CommentsOf(cs);
      RunFrom(TimeToComment, s, [Item(TimeMarker(t1), p1)] + cs + [Item(TimeMarker(t2), p2)]) ==
      Ok(s.(pendingTime := Some(t2), buffer := [],
            groups := s.groups + if b == [] then [] else [Group(s.currentDate, b, t1, p2)]))
  {
    var first := [Item(TimeMarker(t1), p1)];
    var s1 := s.(pendingTime := Some(t1));
    assert RunFrom(TimeToComment, s, first) == Ok(s1) by {
      assert first[..0] == [];
    }
    RunAppend(TimeToComment, s, first, cs);
    CommentsAccumulate(TimeToComment, s1, cs);
    var head := first + cs;
    var last := Item(TimeMarker(t2), p2);
    assert (head + [last])[..|head + [last]| - 1] == head;
    if s.buffer + CommentsOf(cs) == [] {
      assert s.groups + [] == s.groups;
    }
  }

  /** A date marker becomes the current date and discards the buffer and the pending
      time, in both modes, leaving the groups as they are. */
  lemma DateResets(mode: Mode, s: State, d: string, page: nat, rest: seq<Item>)
    ensures RunFrom(mode, s, [Item(DateMarker(d), page)] + rest) ==
      RunFrom(mode, State(Some(d), [], None, s.groups), rest)
  {
    var first := [Item(DateMarker(d), page)];
    assert first[..0] == [];
    RunAppend(mode, s, first, rest);
  }

  /** Groups already flushed do not influence what follows. */
  lemma {:induction false} RunShift(mode: Mode, s: State, items: seq<Item>, earlier: seq<Group>)
    ensures RunFrom(mode, s.(groups := earlier + s.groups), items) ==
      match RunFrom(mode, s, items)
      case Err(e) => Err(e)
      case Ok(t) => Ok(t.(groups := earlier + t.groups))
  {
    if items != [] {
      RunShift(mode, s, items[..|items| - 1], earlier);
      match RunFrom(mode, s, items[..|items| - 1])
      case Err(_) =>
      case Ok(t) =>
        var item := items[|items| - 1];
        if item.marker.TimeMarker? {
          var time := if mode == CommentToTime then item.marker.time else t.pendingTime.GetOr("");
          assert (earlier + t.groups) + [Group(t.currentDate, t.buffer, time, item.page)]
              == earlier + (t.groups + [Group(t.currentDate, t.buffer, time, item.page)]);
        }
    }
  }

  /** A date marker starts afresh: the groups of `pre + [d] + post` are those flushed
      before `d`, then exactly the groups `[d] + post` yields on its own, so comments
      still buffered when `d` arrives are never emitted. */
  lemma DateDiscardsBuffer(mode: Mode, pre: seq<Item>, d: Item, post: seq<Item>)
    requires RunFrom(mode, Start, pre).Ok? && d.marker.DateMarker?
    ensures GroupsOf(mode, pre + [d] + post) ==
      match GroupsOf(mode, [d] + post)
      case Err(e) => Err(e)
      case Ok(gs) => Ok(RunFrom(mode, Start, pre).value.groups + gs)
  {
    var s := RunFrom(mode, Start, pre).value;
    var restart := State(Some(d.marker.date), [], None, []);
    RunAppend(mode, Start, pre, [d]);
    assert [d][..0] == [];
    assert s.groups + [] == s.groups;
    assert RunFrom(mode, s, [d]) == Ok(restart.(groups := s.groups + restart.groups));
    RunAppend(mode, Start, pre + [d], post);
    RunAppend(mode, Start, [d], post);
    RunShift(mode, restart, post, s.groups);
    assert restart.(groups := s.groups + restart.groups) == restart.(groups := s.groups);
    assert LastPage(pre + [d] + post) == LastPage([d] + post);
    match RunFrom(mode, restart, post)
    case Err(_) =>
    case Ok(t) =>
      var page := LastPage([d] + post);
      assert Finish(mode, t.(groups := s.groups + t.groups), page).groups == s.groups + Finish(mode, t, page).groups;
  }

  /** Groups are only ever appended, never removed or reordered. */
  lemma StepAppends(mode: Mode, s: State, item: Item)
    requires Step(mode, s, item).Ok?
    ensures s.groups <= Step(mode, s, item).value.groups
    ensures |Step(mode, s, item).value.groups| <= |s.groups| + 1
  {
  }

  /** Whenever the whole run succeeds, the run over each prefix succeeds too and its
      groups are a prefix of the final ones: records come out in flush order. */
  lemma {:induction false} GroupsOnlyGrow(mode: Mode, s: State, items: seq<Item>, i: nat)
    requires i <= |items| && RunFrom(mode, s, items).Ok?
    ensures RunFrom(mode, s, items[..i]).Ok?
    ensures RunFrom(mode, s, items[..i]).value.groups <= RunFrom(mode, s, items).value.groups
  {
    if i == |items| {
      assert items[..i] == items;
    } else {
      var init := items[..|items| - 1];
      StepAppends(mode, RunFrom(mode, s, init).value, items[|items| - 1]);
      assert init[..i] == items[..i];
      GroupsOnlyGrow(mode, s, init, i);
    }
  }

  /** Every group holds at least one comment, 'Comment → Time' never has a pending
      time, and the groups plus a pending time never outnumber the time markers. */
  lemma {:induction false} RunInvariants(mode: Mode, items: seq<Item>)
    requires RunFrom(mode, Start, items).Ok?
    ensures var s := RunFrom(mode, Start, items).value;
      (forall g :: g in s.groups ==> g.comments != []) &&
      (mode == CommentToTime ==> s.pendingTime.None?) &&
      |s.groups| + (if s.pendingTime.Some? then 1 else 0) <= TimeCount(items)
  {
    if items != [] {
      RunInvariants(mode, items[..|items| - 1]);
    }
  }

  /** The current date is always the most recent date marker, reformatted. */
  lemma {:induction false} CurrentDateIsLatest(mode: Mode, items: seq<Item>)
    requires RunFrom(mode, Start, items).Ok?
    ensures RunFrom(mode, Start, items).value.currentDate == LastDate(items)
  {
    if items != [] {
      CurrentDateIsLatest(mode, items[..|items| - 1]);
    }
  }

  /** A group flushed by the item at position `i` is dated with the last date marker
      before that item, or none (and so today) when there is none. */
  lemma FlushedGroupDate(mode: Mode, items: seq<Item>, i: nat)
    requires i < |items| && RunFrom(mode, Start, items[..i]).Ok? && RunFrom(mode, Start, items[..i + 1]).Ok?
    requires |RunFrom(mode, Start, items[..i + 1]).value.groups| > |RunFrom(mode, Start, items[..i]).value.groups|
    ensures var gs := RunFrom(mode, Start, items[..i + 1]).value.groups;
      gs[|gs| - 1].date == LastDate(items[..i])
  {
    assert items[..i + 1][..i] == items[..i];
    CurrentDateIsLatest(mode, items[..i]);
  }

  /** 'Time → Comment' ends with one more flush when a time is pending over buffered
      comments, with the page of the last fragment; 'Comment → Time' drops the
      comments after its last time marker. */
  lemma TailFlush(mode: Mode, fs: seq<Fragment>)
    requires RunFrom(mode, Start, Classified(fs)).Ok?
    ensures var s := RunFrom(mode, Start, Classified(fs)).value;
      Groups(mode, fs) ==
        if mode == TimeToComment && s.pendingTime.Some? && s.buffer != [] then
          Ok(s.groups + [Group(s.currentDate, s.buffer, s.pendingTime.value, fs[|fs| - 1].page)])
        else Ok(s.groups)
  {
    RunInvariants(mode, Classified(fs));
  }

  /** `parse_records` emits no more records than there are time markers, and every
      record carries at least one comment. */
  lemma RecordCountBound(fs: seq<Fragment>, prefix: string, heading: string, mode: Mode,
                         joinOrder: JoinOrder, today: string)
    requires Assemble(fs, prefix, heading, mode, joinOrder, today).Ok?
    ensures |Assemble(fs, prefix, heading, mode, joinOrder, today).value| <= TimeCount(Classified(fs))
    ensures forall g :: g in Groups(mode, fs).value ==> g.comments != []
  {
    RunInvariants(mode, Classified(fs));
  }

  /** 'Bottom to Top' yields the same records as 'Top to Bottom', with the same dates
      and locators; only each record's comment list is joined in reverse. */
  lemma JoinOrderOnlyReverses(fs: seq<Fragment>, prefix: string, heading: string, mode: Mode, today: string)
    ensures var tt := Assemble(fs, prefix, heading, mode, TopToBottom, today);
      var bt := Assemble(fs, prefix, heading, mode, BottomToTop, today);
      (tt.Ok? <==> bt.Ok?) &&
      (tt.Ok? ==>
        var gs := Groups(mode, fs).value;
        |tt.value| == |bt.value| == |gs| &&
        forall i :: 0 <= i < |gs| ==>
          bt.value[i].date == tt.value[i].date == gs[i].date.GetOr(today) &&
          bt.value[i].locator == tt.value[i].locator == prefix + " " + NatToString(gs[i].page) &&
          tt.value[i].info == heading + "\n" + gs[i].time + ": " + Join(gs[i].comments, " [...] ") &&
          bt.value[i].info == heading + "\n" + gs[i].time + ": " + Join(Reversed(gs[i].comments), " [...] "))
  {
  }

  // ---------------------------------------------------------------------------
  // End-to-end examples of `parse_records`

  /** A text with no whitespace at either end is its own `strip()`. */
  lemma Unstripped(t: string)
    requires t != [] && !IsSpace(t[0]) && !IsSpace(t[|t| - 1])
    ensures Strip(t) == t
  {
  }

  /** A time-shaped text is a time marker, stripped or not. */
  lemma PlainTime(t: string)
    requires IsTimePattern(t)
    ensures Classify(Strip(t)) == TimeMarker(t)
  {
    Unstripped(t);
    PatternsDisjoint(t);
  }

  /** A one-line text that is neither a date nor a time, with no whitespace at either
      end and no final comma, is a comment of that very text. */
  lemma PlainComment(t: string)
    requires t != [] && !IsSpace(t[0]) && !IsSpace(t[|t| - 1]) && t[|t| - 1] != ','
    requires forall i :: 0 <= i < |t| ==> t[i] != '\n'
    requires !Dates.IsDatePattern(t) && !IsTimePattern(t)
    ensures Classify(Strip(t)) == CommentText(t)
  {
    Unstripped(t);
    assert ReplaceNewlines(t) == t;
  }

  /** 'Comment → Time': a date, a comment and a time give the one group of the
      comment, dated by the marker and closed by the time on its own page. */
  lemma DateCommentTime(fs: seq<Fragment>, d: string, c: string, t: string)
    requires |fs| == 3
    requires Classify(Strip(fs[0].text)) == DateMarker(d)
    requires Classify(Strip(fs[1].text)) == CommentText(c)
    requires Classify(Strip(fs[2].text)) == TimeMarker(t)
    ensures Groups(CommentToTime, fs) == Ok([Group(Some(d), [c], t, fs[2].page)])
  {
    var items := Classified(fs);
    var ds := State(Some(d), [], None, []);
    var g := Group(Some(d), [c], t, fs[2].page);
    assert RunFrom(CommentToTime, Start, items[..1]) == Ok(ds) by {
      assert items[..1][..0] == [];
    }
    assert RunFrom(CommentToTime, Start, items[..2]) == Ok(ds.(buffer := [c])) by {
      assert items[..2][..1] == items[..1] && items[..2][1] == items[1];
      assert ds.buffer + [c] == [c];
    }
    assert RunFrom(CommentToTime, Start, items) == Ok(ds.(groups := [g])) by {
      assert items[..|items| - 1] == items[..2];
      assert ds.groups + [g] == [g];
    }
  }

  /** 'Time → Comment': a time, two comments and a second time give one group of the
      two comments under the first time, on the second time's page; the second time
      is left pending with nothing after it, so the tail flush adds nothing. */
  lemma TimeCommentsTime(fs: seq<Fragment>, t1: string, a: string, b: string, t2: string)
    requires |fs| == 4
    requires Classify(Strip(fs[0].text)) == TimeMarker(t1)
    requires Classify(Strip(fs[1].text)) == CommentText(a)
    requires Classify(Strip(fs[2].text)) == CommentText(b)
    requires Classify(Strip(fs[3].text)) == TimeMarker(t2)
    ensures Groups(TimeToComment, fs) == Ok([Group(None, [a, b], t1, fs[3].page)])
  {
    var items := Classified(fs);
    var s1 := Start.(pendingTime := Some(t1));
    var g := Group(None, [a, b], t1, fs[3].page);
    assert RunFrom(TimeToComment, Start, items[..1]) == Ok(s1) by {
      assert items[..1][..0] == [];
    }
    assert RunFrom(TimeToComment, Start, items[..2]) == Ok(s1.(buffer := [a])) by {
      assert items[..2][..1] == items[..1] && items[..2][1] == items[1];
      assert s1.buffer + [a] == [a];
    }
    assert RunFrom(TimeToComment, Start, items[..3]) == Ok(s1.(buffer := [a, b])) by {
      assert items[..3][..2] == items[..2] && items[..3][2] == items[2];
      assert [a] + [b] == [a, b];
    }
    assert RunFrom(TimeToComment, Start, items) == Ok(s1.(buffer := [], pendingTime := Some(t2), groups := [g])) by {
      assert items[..|items| - 1] == items[..3];
      assert s1.groups + [g] == [g];
    }
  }

  /** A pass that flushes exactly one group returns exactly its record. */
  lemma AssembleOneGroup(fs: seq<Fragment>, prefix: string, heading: string, mode: Mode,
                         joinOrder: JoinOrder, today: string, g: Group)
    requires Groups(mode, fs) == Ok([g])
    ensures Assemble(fs, prefix, heading, mode, joinOrder, today) ==
      Ok([Record(g.date.GetOr(today), prefix + " " + NatToString(g.page),
                 heading + "\n" + g.time + ": " + Join(Ordered(joinOrder, g.comments), " [...] "))])
  {
    var rs := RecordsOf(prefix, heading, joinOrder, today, [g]);
    assert rs == [RecordOf(prefix, heading, joinOrder, today, g)];
  }

  /** The examples' locator: prefix "CHR" on page 3. */
  lemma PageThreeLocator()
    ensures "CHR" + " " + NatToString(3) == "CHR 3"
  {
  }

  /** The info text of the 'Comment → Time' example's record. */
  lemma CommentToTimeExampleInfo()
    ensures "Daily Notes" + "\n" + "09:30" + ": " + Join(Ordered(TopToBottom, ["Patient stable"]), " [...] ")
      == "Daily Notes\n09:30: Patient stable"
  {
  }

  /** The info text of the 'Time → Comment' example's record. */
  lemma TimeToCommentExampleInfo()
    ensures "Daily Notes" + "\n" + "09:00" + ": " + Join(Ordered(TopToBottom, ["A", "B"]), " [...] ")
      == "Daily Notes\n09:00: A [...] B"
  {
    JoinTwo("A", "B", " [...] ");
  }

  /** 'Comment → Time': a date, a comment, then a time give one record dated by the
      marker, located on the time's page, with the time and the comment. */
  lemma CommentToTimeExample(fs: seq<Fragment>, today: string)
    requires |fs| == 3
    requires fs[0] == Fragment(1, "1 Jan 2024") && fs[1] == Fragment(2, "Patient stable") && fs[2] == Fragment(3, "09:30")
    ensures Assemble(fs, "CHR", "Daily Notes", CommentToTime, TopToBottom, today)
      == Ok([Record("01/01/2024", "CHR 3", "Daily Notes\n09:30: Patient stable")])
  {
    CommentToTimeExampleTexts();
    DateCommentTime(fs, "01/01/2024", "Patient stable", "09:30");
    AssembleOneGroup(fs, "CHR", "Daily Notes", CommentToTime, TopToBottom, today,
                     Group(Some("01/01/2024"), ["Patient stable"], "09:30", 3));
    PageThreeLocator();
    CommentToTimeExampleInfo();
  }

  /** How the texts of the 'Comment → Time' example classify. */
  lemma CommentToTimeExampleTexts()
    ensures Classify(Strip("1 Jan 2024")) == DateMarker("01/01/2024")
    ensures Classify(Strip("Patient stable")) == CommentText("Patient stable")
    ensures Classify(Strip("09:30")) == TimeMarker("09:30")
  {
    StrippedDateExample();
    PlainComment("Patient stable");
    PlainTime("09:30");
  }

  /** "1 Jan 2024" is already stripped and converts to "01/01/2024". */
  lemma StrippedDateExample()
    ensures Classify(Strip("1 Jan 2024")) == DateMarker("01/01/2024")
  {
    DateExample();
    Unstripped("1 Jan 2024");
  }

  /** 'Time → Comment': a time, two comments, then a second time give one record with
      the first time, the comments joined by " [...] ", and the second time's page;
      with no date marker the record is dated today. */
  lemma TimeToCommentExample(fs: seq<Fragment>, today: string)
    requires |fs| == 4
    requires fs[0] == Fragment(1, "09:00") && fs[1] == Fragment(1, "A") && fs[2] == Fragment(2, "B") && fs[3] == Fragment(3, "09:15")
    ensures Assemble(fs, "CHR", "Daily Notes", TimeToComment, TopToBottom, today)
      == Ok([Record(today, "CHR 3", "Daily Notes\n09:00: A [...] B")])
  {
    TimeToCommentExampleTexts();
    TimeCommentsTime(fs, "09:00", "A", "B", "09:15");
    AssembleOneGroup(fs, "CHR", "Daily Notes", TimeToComment, TopToBottom, today,
                     Group(None, ["A", "B"], "09:00", 3));
    PageThreeLocator();
    TimeToCommentExampleInfo();
  }

  /** How the texts of the 'Time → Comment' example classify. */
  lemma TimeToCommentExampleTexts()
    ensures Classify(Strip("09:00")) == TimeMarker("09:00")
    ensures Classify(Strip("A")) == CommentText("A")
    ensures Classify(Strip("B")) == CommentText("B")
    ensures Classify(Strip("09:15")) == TimeMarker("09:15")
  {
    PlainTime("09:00");
    PlainComment("A");
    PlainComment("B");
    PlainTime("09:15");
  }
}
