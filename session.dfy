/** The watcher session: `start_watcher` turns the form's settings into a handler, and
    the handler's `on_modified` re-parses the document, drops the records it has already
    written and appends the rest to the workbook. */
module Session {
  import opened Outcomes
  import opened Assembler
  import Report

  const DefaultPagePrefix: string := "CHR"
  const DefaultRowHeading: string := "Daily Notes"

  /** `value or default` on strings: an empty setting falls back to the default. */
  function OrDefault(value: string, default: string): (r: string)
    ensures value != [] ==> r == value
    ensures value == [] ==> r == default
  {
    if value == [] then default else value
  }

  /** The effective prefix and heading are never empty, whatever the user typed. */
  lemma SettingsNeverEmpty(prefix: string, heading: string)
    ensures OrDefault(prefix, DefaultPagePrefix) != []
    ensures OrDefault(heading, DefaultRowHeading) != []
  {
  }

  /** The join order setting: only the exact text 'Bottom to Top' reverses. */
  function JoinOrderOf(setting: string): (j: JoinOrder)
    ensures j == BottomToTop <==> setting == "Bottom to Top"
  {
    if setting == "Bottom to Top" then BottomToTop else TopToBottom
  }

  /** The highlight order setting: the loop tests for 'Comment → Time' and treats
      everything else as 'Time → Comment'. */
  function ModeOf(setting: string): (m: Mode)
    ensures m == CommentToTime <==> setting == "Comment → Time"
  {
    if setting == "Comment → Time" then CommentToTime else TimeToComment
  }

  /** `[r for r in records if r not in self.seen]`. */
  function Unseen(rs: seq<Record>, seen: set<Record>): (r: seq<Record>)
    ensures |r| <= |rs|
    ensures forall x :: x in r <==> x in rs && x !in seen
  {
    if rs == [] then []
    else Unseen(rs[..|rs| - 1], seen) + (if rs[|rs| - 1] in seen then [] else [rs[|rs| - 1]])
  }

  /** The filter keeps the order of the records: filtering a concatenation is
      concatenating the filtered parts. */
  lemma {:induction false} UnseenAppend(a: seq<Record>, b: seq<Record>, seen: set<Record>)
    ensures Unseen(a + b, seen) == Unseen(a, seen) + Unseen(b, seen)
  {
    if b != [] {
      assert (a + b)[..|a + b| - 1] == a + b[..|b| - 1];
      UnseenAppend(a, b[..|b| - 1], seen);
    } else {
      assert a + b == a;
    }
  }

  /** Duplicates within one batch all survive: every record not yet seen keeps its
      number of occurrences, and seen records none. */
  lemma {:induction false} UnseenCounts(rs: seq<Record>, seen: set<Record>, x: Record)
    ensures multiset(Unseen(rs, seen))[x] == if x in seen then 0 else multiset(rs)[x]
  {
    if rs != [] {
      var init := rs[..|rs| - 1];
      UnseenCounts(init, seen, x);
      assert rs == init + [rs[|rs| - 1]];
    }
  }

  /** Filtering twice against the same set filters nothing more. */
  lemma {:induction false} UnseenIdempotent(rs: seq<Record>, seen: set<Record>)
    ensures Unseen(Unseen(rs, seen), seen) == Unseen(rs, seen)
  {
    if rs != [] {
      var init := rs[..|rs| - 1];
      var last := rs[|rs| - 1];
      UnseenIdempotent(init, seen);
      UnseenAppend(Unseen(init, seen), if last in seen then [] else [last], seen);
      assert [last][..0] == [];
    }
  }

  /** Records all seen before yield nothing. */
  lemma {:induction false} AllSeenYieldNothing(rs: seq<Record>, seen: set<Record>)
    requires forall i :: 0 <= i < |rs| ==> rs[i] in seen
    ensures Unseen(rs, seen) == []
  {
    if rs != [] {
      AllSeenYieldNothing(rs[..|rs| - 1], seen);
    }
  }

  /** After the records just written are added to `seen`, the same records yield
      nothing new. */
  lemma RepeatYieldsNothing(rs: seq<Record>, seen: set<Record>)
    ensures Unseen(rs, seen + set x | x in Unseen(rs, seen)) == []
  {
    var written := seen + set x | x in Unseen(rs, seen);
    forall i | 0 <= i < |rs|
      ensures rs[i] in written
    {
      if rs[i] !in seen {
        assert rs[i] in Unseen(rs, seen);
      }
    }
    AllSeenYieldNothing(rs, written);
  }

  /** Why a modification event ends without writing. */
  datatype Failure = ParseFailed(error: Error) | SaveFailed

  /** `PDFChangeHandler`: the settings it was built with and the records it has written. */
  class Handler {
    const pdfPath: string
    const store: Report.Store
    const prefix: string
    const rowHeading: string
    const mode: Mode
    const joinOrder: JoinOrder
    var seen: set<Record>

    constructor (pdfPath: string, store: Report.Store, prefix: string, rowHeading: string,
                 mode: Mode, joinOrder: JoinOrder)
      ensures this.pdfPath == pdfPath && this.store == store && this.prefix == prefix
      ensures this.rowHeading == rowHeading && this.mode == mode && this.joinOrder == joinOrder
      ensures seen == {}
    {
      this.pdfPath := pdfPath;
      this.store := store;
      this.prefix := prefix;
      this.rowHeading := rowHeading;
      this.mode := mode;
      this.joinOrder := joinOrder;
      seen := {};
    }

    /** `on_modified`: for an event on the watched document, parse the highlights it
        now holds, and append the records not written before. The records written are
        returned; nothing is written, and `seen` stays as it is, when parsing raises,
        when every record was seen already, or when saving fails. */
    method OnModified(srcPath: string, highlights: seq<Fragment>, today: string, saveOk: bool)
      returns (outcome: Result<seq<Record>, Failure>)
      requires store.Valid()
      modifies this`seen, store
      ensures store.Valid()
      ensures srcPath != pdfPath ==> outcome == Ok([])
      ensures srcPath == pdfPath ==>
        match Assemble(highlights, prefix, rowHeading, mode, joinOrder, today)
        case Err(e) => outcome == Err(ParseFailed(e))
        case Ok(rs) =>
          var unseen := Unseen(rs, old(seen));
          outcome == if unseen == [] then Ok([]) else if saveOk then Ok(unseen) else Err(SaveFailed)
      ensures outcome.Ok? && outcome.value != [] ==>
        seen == old(seen) + (set r | r in outcome.value) &&
        store.present &&
        store.rows == (if old(store.present) then old(store.rows) else []) + Report.RowsOf(outcome.value) &&
        store.header == (if old(store.present) then old(store.header) else Report.HeaderRow) &&
        store.filled == Report.Refill(if old(store.present) then old(store.filled) else [], Report.DateColumn(store.rows))
      ensures outcome.Ok? && outcome.value != [] &&
              old(!store.present || store.filled == Report.Bands(Report.DateColumn(store.rows))) ==>
        store.filled == Report.Bands(Report.DateColumn(store.rows))
      ensures !(outcome.Ok? && outcome.value != []) ==>
        seen == old(seen) && store.present == old(store.present) && store.header == old(store.header) &&
        store.rows == old(store.rows) && store.filled == old(store.filled)
    {
      if srcPath != pdfPath {
        return Ok([]);
      }
      var records := ParseRecords(highlights, prefix, rowHeading, mode, joinOrder, today);
      if records.Err? {
        return Err(ParseFailed(records.error));
      }
      var unseen := Unseen(records.value, seen);
      if unseen == [] {
        return Ok([]);
      }
      var saved := store.AppendToXlsx(unseen, saveOk);
      if !saved {
        return Err(SaveFailed);
      }
      seen := seen + set r | r in unseen;
      return Ok(unseen);
    }
  }

  /** `start_watcher`: a handler for the settings on the form, with the prefix and the
      heading defaulted when left empty. */
  method StartWatcher(pdfPath: string, store: Report.Store, prefixSetting: string, headingSetting: string,
                      orderSetting: string, joinSetting: string)
    returns (handler: Handler)
    ensures fresh(handler) && handler.seen == {}
    ensures handler.pdfPath == pdfPath && handler.store == store
    ensures handler.prefix == OrDefault(prefixSetting, DefaultPagePrefix)
    ensures handler.rowHeading == OrDefault(headingSetting, DefaultRowHeading)
    ensures handler.mode == ModeOf(orderSetting) && handler.joinOrder == JoinOrderOf(joinSetting)
  {
    handler := new Handler(pdfPath, store,
                           OrDefault(prefixSetting, DefaultPagePrefix),
                           OrDefault(headingSetting, DefaultRowHeading),
                           ModeOf(orderSetting), JoinOrderOf(joinSetting));
  }
}
