/**
 The paged export of the audit log. Pages are fetched one after another, each with up to
 three attempts, and every row goes to a writer that may fail.
 */
module AuditExport {
  import opened Common

  const PageSize: nat := 100
  const MaxRows: nat := 1_000_000
  const Attempts: nat := 3

  datatype Entry = Entry(id: string, content: nat)

  datatype Answer = Failed | NoResult | Page(entries: seq<Entry>, total: int)

  /**
   What the surroundings do: the reader's answer to an attempt at the page at an offset; is
   the context over when the loop asks (attempt 0) or before a further attempt; does the
   writer take the n-th row, the flush after the page at an offset, and the final flush.
   */
  datatype World = World(
    get: (nat, nat) -> Answer,
    over: (nat, nat) -> bool,
    takes: nat -> bool,
    flushes: nat -> bool,
    closes: bool)

  datatype Outcome = Outcome(rows: seq<Entry>, failed: bool)

  function Fetch(w: World, offset: nat, attempt: nat): Answer
    requires 1 <= attempt <= Attempts
    decreases Attempts - attempt
  {
    if attempt > 1 && w.over(offset, attempt) then Failed
    else if !w.get(offset, attempt).Failed? then w.get(offset, attempt)
    else if attempt == Attempts then Failed
    else Fetch(w, offset, attempt + 1)
  }

  /** How many of count rows are written when n of them are, with the given number before them. */
  function Taken(w: World, count: nat, written: nat, n: nat): (r: nat)
    requires n <= count
    ensures n <= r <= count
    ensures written + n <= MaxRows ==> written + r <= MaxRows
    ensures r < count ==> written + r >= MaxRows || !w.takes(written + r)
    decreases count - n
  {
    if n == count || written + n >= MaxRows || !w.takes(written + n) then n
    else Taken(w, count, written, n + 1)
  }

  function LastTotal(total: int, seen: int): int {
    if total < 0 then seen else total
  }

  /** One turn of the loop: the rows it writes, and whether it is the last one. */
  datatype Turn = Last(rows: seq<Entry>, failed: bool) | More(rows: seq<Entry>, total: int)

  /** The turn after n rows of a page have been written. */
  function TurnAfter(w: World, csv: bool, offset: nat, written: nat, entries: seq<Entry>, sum: int, n: nat): (t: Turn)
    requires n <= |entries|
  {
    var tail := csv && !w.closes;
    if n < |entries| then Last(entries[..n], written + n < MaxRows || tail)
    else if csv && !w.flushes(offset) then Last(entries, true)
    else if (sum > 0 && offset + PageSize >= sum) || n < PageSize then Last(entries, tail)
    else More(entries, sum)
  }

  function TurnOf(w: World, csv: bool, offset: nat, written: nat, total: int): (t: Turn)
    requires written <= MaxRows
    ensures written + |t.rows| <= MaxRows
    ensures t.More? ==> |t.rows| >= PageSize
  {
    if w.over(offset, 0) then Last([], csv && !w.closes)
    else
      var page := Fetch(w, offset, 1);
      if !page.Page? || |page.entries| == 0 then Last([], csv && !w.closes)
      else
        TurnAfter(w, csv, offset, written, page.entries, LastTotal(total, page.total),
                  Taken(w, |page.entries|, written, 0))
  }

  /** The turns of a run, by offset, rows written before and total seen. */
  type Turns = t: (nat, nat, int) -> Turn |
    forall offset: nat, written: nat, total: int :: written <= MaxRows ==>
      var turn := t(offset, written, total);
      written + |turn.rows| <= MaxRows && (turn.More? ==> turn.rows != [])
    witness (offset, written, total) => Last([], false)

  function TurnsOf(w: World, csv: bool): Turns {
    (offset: nat, written: nat, total: int) =>
      if written <= MaxRows then TurnOf(w, csv, offset, written, total) else Last([], false)
  }

  /** The rows written from an offset on, and whether an error is reported. */
  function ExportFrom(turns: Turns, offset: nat, written: nat, total: int): (o: Outcome)
    requires written <= MaxRows
    ensures written + |o.rows| <= MaxRows
    decreases MaxRows - written
  {
    match turns(offset, written, total)
    case Last(rows, failed) => Outcome(rows, failed)
    case More(rows, sum) => After(rows, ExportFrom(turns, offset + PageSize, written + |rows|, sum))
  }

  function Export(w: World, csv: bool): Outcome {
    ExportFrom(TurnsOf(w, csv), 0, 0, -1)
  }

  function After(rows: seq<Entry>, o: Outcome): Outcome {
    Outcome(rows + o.rows, o.failed)
  }

  lemma AfterTwice(xs: seq<Entry>, ys: seq<Entry>, o: Outcome)
    ensures After(xs, After(ys, o)) == After(xs + ys, o)
  {
    assert xs + (ys + o.rows) == xs + ys + o.rows;
  }

  // ------------------------------------------------------------ the loops

  method GetExportPage(w: World, offset: nat) returns (a: Answer)
    ensures a == Fetch(w, offset, 1)
  {
    for attempt := 1 to Attempts + 1
      invariant attempt <= Attempts ==> Fetch(w, offset, attempt) == Fetch(w, offset, 1)
      invariant attempt > Attempts ==> Fetch(w, offset, 1).Failed?
    {
      if attempt > 1 && w.over(offset, attempt) { return Failed; }
      var answer := w.get(offset, attempt);
      if !answer.Failed? { return answer; }
    }
    a := Failed;
  }

  /** One page of rows: how many were written, and whether a write failed. */
  method WritePage(w: World, entries: seq<Entry>, written: nat) returns (n: nat, refused: bool)
    requires written <= MaxRows
    ensures n == Taken(w, |entries|, written, 0)
    ensures refused <==> n < |entries| && written + n < MaxRows
  {
    n := 0;
    while n < |entries|
      invariant n <= |entries| && written + n <= MaxRows
      invariant Taken(w, |entries|, written, n) == Taken(w, |entries|, written, 0)
    {
      if written + n >= MaxRows { return n, false; }
      if !w.takes(written + n) { return n, true; }
      n := n + 1;
    }
    refused := false;
  }

  /** turns is what the surroundings make of each turn. */
  ghost predicate Made(turns: Turns, w: World, csv: bool) {
    forall offset: nat, written: nat, total: int {:trigger TurnOf(w, csv, offset, written, total)} ::
      written <= MaxRows ==> TurnOf(w, csv, offset, written, total) == turns(offset, written, total)
  }

  /** The body of the loop. The two formats differ only in looking at flush errors. */
  method TakeTurn(w: World, csv: bool, offset: nat, written: nat, total: int, ghost turns: Turns) returns (t: Turn)
    requires written <= MaxRows && Made(turns, w, csv)
    ensures t == turns(offset, written, total)
  {
    assert turns(offset, written, total) == TurnOf(w, csv, offset, written, total);
    var tail := csv && !w.closes;
    if w.over(offset, 0) { return Last([], tail); }
    var page := GetExportPage(w, offset);
    if !page.Page? || |page.entries| == 0 { return Last([], tail); }
    var sum := total;
    if sum < 0 { sum := page.total; }
    var n, refused := WritePage(w, page.entries, written);
    if n < |page.entries| { return Last(page.entries[..n], refused || tail); }
    if csv && !w.flushes(offset) { return Last(page.entries, true); }
    if sum > 0 && offset + PageSize >= sum { return Last(page.entries, tail); }
    if |page.entries| < PageSize { return Last(page.entries, tail); }
    t := More(page.entries, sum);
  }

  method WritePages(w: World, csv: bool, ghost turns: Turns) returns (out: seq<Entry>, failed: bool)
    requires Made(turns, w, csv)
    ensures Outcome(out, failed) == ExportFrom(turns, 0, 0, -1)
  {
    out := [];
    var offset: nat, total := 0, -1;
    while true
      invariant |out| <= MaxRows
      invariant After(out, ExportFrom(turns, offset, |out|, total)) == ExportFrom(turns, 0, 0, -1)
      decreases MaxRows - |out|
    {
      var turn := TakeTurn(w, csv, offset, |out|, total, turns);
      if turn.Last? { return out + turn.rows, turn.failed; }
      offset := offset + PageSize;
      AfterTwice(out, turn.rows, ExportFrom(turns, offset, |out| + |turn.rows|, turn.total));
      out, total := out + turn.rows, turn.total;
    }
  }

  /** The header is a row of its own; no rows are written when it cannot be. */
  method WriteCsv(w: World, headerTaken: bool, hasReader: bool)
    returns (header: bool, out: seq<Entry>, failed: bool)
    ensures header == headerTaken
    ensures !headerTaken ==> out == [] && failed
    ensures headerTaken && !hasReader ==> out == [] && failed == !w.closes
    ensures headerTaken && hasReader ==> Outcome(out, failed) == Export(w, true)
  {
    header, out := headerTaken, [];
    if !headerTaken { return header, [], true; }
    if !hasReader { return header, [], !w.closes; }
    out, failed := WritePages(w, true, TurnsOf(w, true));
  }

  method WriteJsonl(w: World, hasReader: bool) returns (out: seq<Entry>, failed: bool)
    ensures !hasReader ==> out == [] && !failed
    ensures hasReader ==> Outcome(out, failed) == Export(w, false)
  {
    if !hasReader { return [], false; }
    out, failed := WritePages(w, false, TurnsOf(w, false));
  }

  // ------------------------------------------------------------ an unchanging log

  /** The reader clamps the page size it is asked for. */
  function ClampLimit(limit: int): (n: nat)
    ensures 1 <= n <= 100
  {
    if limit <= 0 then 25 else if limit > 100 then 100 else limit
  }

  function Min(a: nat, b: nat): (m: nat)
    ensures m <= a && m <= b && (m == a || m == b)
  {
    if a <= b then a else b
  }

  function PageOf(log: seq<Entry>, offset: nat, limit: int): Answer {
    Page(log[Min(offset, |log|)..Min(offset + ClampLimit(limit), |log|)], |log|)
  }

  /** Every attempt either fails or shows the log as it is. */
  ghost predicate Shows(w: World, log: seq<Entry>) {
    forall offset, attempt :: w.get(offset, attempt).Failed? || w.get(offset, attempt) == PageOf(log, offset, PageSize)
  }

  function PageStart(page: nat): (offset: nat)
    ensures page == 0 ==> offset == 0
    ensures offset + PageSize == 100 * (page + 1)
  {
    100 * page
  }

  /** The page at that offset is reached: the context holds and one of the attempts succeeds. */
  predicate Reached(w: World, offset: nat) {
    !w.over(offset, 0) && !Fetch(w, offset, 1).Failed?
  }

  function ReachedIn(w: World): nat -> bool {
    (offset: nat) => Reached(w, offset)
  }

  ghost predicate WriterWorks(w: World) {
    (forall n :: w.takes(n)) && (forall offset :: w.flushes(offset)) && w.closes
  }

  lemma {:induction false} FetchShows(w: World, log: seq<Entry>, offset: nat, attempt: nat)
    requires Shows(w, log) && 1 <= attempt <= Attempts
    ensures Fetch(w, offset, attempt).Failed? || Fetch(w, offset, attempt) == PageOf(log, offset, PageSize)
    decreases Attempts - attempt
  {
    if attempt < Attempts { FetchShows(w, log, offset, attempt + 1); }
  }

  /** A turn writes rows of the log from its offset on, at most a page. */
  predicate WritesLog(turns: Turns, log: seq<Entry>, offset: nat, total: int)
    requires offset <= MaxRows && offset <= |log|
  {
    var rows := turns(offset, offset, total).rows;
    && offset + |rows| <= |log| && rows == log[offset..offset + |rows|]
    && (turns(offset, offset, total).More? ==> |rows| == PageSize)
  }

  lemma PageSlice(log: seq<Entry>, offset: nat, n: nat)
    requires offset <= |log| && n <= |PageOf(log, offset, PageSize).entries|
    ensures PageOf(log, offset, PageSize).entries[..n] == log[offset..offset + n]
  {
  }

  lemma TurnWritesLog(w: World, csv: bool, log: seq<Entry>, offset: nat, total: int)
    requires Shows(w, log) && offset <= MaxRows && offset <= |log|
    ensures WritesLog(TurnsOf(w, csv), log, offset, total)
  {
    FetchShows(w, log, offset, 1);
    var entries := PageOf(log, offset, PageSize).entries;
    PageSlice(log, offset, Taken(w, |entries|, offset, 0));
    PageSlice(log, offset, |entries|);
    assert entries[..|entries|] == entries;
  }

  lemma {:induction false} TurnsWriteLog(turns: Turns, log: seq<Entry>, offset: nat, total: int)
    requires offset <= MaxRows && offset <= |log|
    requires forall o: nat, t | o <= MaxRows && o <= |log| :: WritesLog(turns, log, o, t)
    ensures var rows := ExportFrom(turns, offset, offset, total).rows;
            offset + |rows| <= |log| && rows == log[offset..offset + |rows|]
    decreases MaxRows - offset
  {
    assert WritesLog(turns, log, offset, total);
    var turn := turns(offset, offset, total);
    if turn.More? {
      var next := offset + PageSize;
      TurnsWriteLog(turns, log, next, turn.total);
      Slices(log, offset, next, next + |ExportFrom(turns, next, next, turn.total).rows|);
    }
  }

  lemma Slices(log: seq<Entry>, a: nat, b: nat, c: nat)
    requires a <= b <= c <= |log|
    ensures log[a..b] + log[b..c] == log[a..c]
  {
  }

  /** Whatever fails and whenever: the rows are a prefix of the log, with no gap and no repeat. */
  lemma ExportIsPrefix(w: World, csv: bool, log: seq<Entry>)
    requires Shows(w, log)
    ensures Export(w, csv).rows <= log
    ensures |Export(w, csv).rows| <= 1_000_000
  {
    forall o: nat, t | o <= MaxRows && o <= |log| ensures WritesLog(TurnsOf(w, csv), log, o, t) {
      TurnWritesLog(w, csv, log, o, t);
    }
    TurnsWriteLog(TurnsOf(w, csv), log, 0, -1);
  }

  lemma {:induction false} TakesAll(w: World, count: nat, written: nat, n: nat)
    requires WriterWorks(w) && written + n <= MaxRows && n <= count
    ensures Taken(w, count, written, n) == Min(count, MaxRows - written)
    decreases count - n
  {
    if n < count && written + n < MaxRows { TakesAll(w, count, written, n + 1); }
  }

  /** A turn writes its page of the log, up to the row limit, unless the page is not reached. */
  predicate AsExpected(turns: Turns, reached: nat -> bool, log: seq<Entry>, offset: nat, total: int)
    requires offset <= MaxRows && offset <= |log|
  {
    var end := Min(Min(|log|, offset + PageSize), MaxRows);
    var turn := turns(offset, offset, total);
    if !reached(offset) then turn.Last? && |turn.rows| == 0 && !turn.failed
    else if turn.Last? then turn.rows == log[offset..end] && !turn.failed && end == Min(|log|, MaxRows)
    else turn.rows == log[offset..end] && turn.total == |log| && end == offset + PageSize
  }

  /** The total before and after the first page. */
  predicate IsTotal(total: int, log: seq<Entry>) {
    total == -1 || total == |log|
  }

  lemma PageAsExpected(w: World, csv: bool, log: seq<Entry>, offset: nat)
    requires WriterWorks(w) && offset <= MaxRows && offset < |log|
    ensures var end := Min(Min(|log|, offset + PageSize), MaxRows);
            var page := PageOf(log, offset, PageSize);
            var t := TurnAfter(w, csv, offset, offset, page.entries, |log|, end - offset);
            && t.rows == log[offset..end]
            && (t.Last? ==> !t.failed && end == Min(|log|, MaxRows))
            && (t.More? ==> t.total == |log| && end == offset + PageSize)
  {
    var end := Min(Min(|log|, offset + PageSize), MaxRows);
    assert PageOf(log, offset, PageSize).entries[..end - offset] == log[offset..end];
  }

  lemma TurnWorks(w: World, csv: bool, log: seq<Entry>, offset: nat, total: int)
    requires Shows(w, log) && WriterWorks(w) && offset <= MaxRows && offset <= |log|
    requires IsTotal(total, log)
    ensures AsExpected(TurnsOf(w, csv), ReachedIn(w), log, offset, total)
  {
    FetchShows(w, log, offset, 1);
    TakesAll(w, |PageOf(log, offset, PageSize).entries|, offset, 0);
    if offset < |log| { PageAsExpected(w, csv, log, offset); }
  }

  lemma {:induction false} TurnsUpTo(turns: Turns, reached: nat -> bool, log: seq<Entry>, page: nat, stop: nat, total: int)
    requires forall o: nat, t: int | o <= MaxRows && o <= |log| && IsTotal(t, log) ::
               AsExpected(turns, reached, log, o, t)
    requires IsTotal(total, log)
    requires page <= stop && PageStart(page) <= Min(|log|, MaxRows)
    requires forall p: nat :: page <= p < stop ==> reached(PageStart(p))
    requires !reached(PageStart(stop)) || Min(|log|, MaxRows) <= PageStart(stop)
    ensures ExportFrom(turns, PageStart(page), PageStart(page), total) ==
              Outcome(log[PageStart(page)..Min(Min(|log|, MaxRows), PageStart(stop))], false)
    decreases stop - page
  {
    var offset := PageStart(page);
    assert AsExpected(turns, reached, log, offset, total);
    var turn := turns(offset, offset, total);
    if turn.More? {
      var next, end := offset + PageSize, Min(Min(|log|, MaxRows), PageStart(stop));
      assert page < stop && PageStart(page + 1) == next <= end;
      TurnsUpTo(turns, reached, log, page + 1, stop, |log|);
      Slices(log, offset, next, end);
    }
  }

  /**
   With a working writer the export holds exactly the rows of the pages before the first one
   that is not reached (stop), up to the row limit.
   */
  lemma ExportUpTo(w: World, csv: bool, log: seq<Entry>, stop: nat)
    requires Shows(w, log) && WriterWorks(w)
    requires forall p: nat :: p < stop ==> Reached(w, PageStart(p))
    requires !Reached(w, PageStart(stop)) || Min(|log|, MaxRows) <= PageStart(stop)
    ensures Export(w, csv) == Outcome(log[..Min(Min(|log|, MaxRows), PageStart(stop))], false)
  {
    forall o: nat, t: int | o <= MaxRows && o <= |log| && IsTotal(t, log)
      ensures AsExpected(TurnsOf(w, csv), ReachedIn(w), log, o, t)
    {
      TurnWorks(w, csv, log, o, t);
    }
    TurnsUpTo(TurnsOf(w, csv), ReachedIn(w), log, 0, stop, -1);
  }

  /** Over an unchanging log of any length both exports hold the first million rows. */
  lemma ExportIsComplete(w: World, csv: bool, log: seq<Entry>)
    requires Shows(w, log) && WriterWorks(w) && forall p: nat :: Reached(w, PageStart(p))
    ensures Export(w, csv) == Outcome(log[..Min(|log|, 1_000_000)], false)
  {
    ExportUpTo(w, csv, log, |log| + MaxRows);
  }

  // ------------------------------------------------------------ attempts and failures

  /** A page is reached when the context holds and the first, second or third attempt at it succeeds. */
  lemma ReachedIff(w: World, offset: nat)
    ensures Reached(w, offset) <==>
              !w.over(offset, 0) &&
              (|| !w.get(offset, 1).Failed?
               || (!w.over(offset, 2) && (!w.get(offset, 2).Failed? || (!w.over(offset, 3) && !w.get(offset, 3).Failed?))))
  {
  }

  /** Of the three attempts the first that succeeds gives the page. */
  lemma FirstSuccess(w: World, offset: nat)
    ensures !w.get(offset, 1).Failed? ==> Fetch(w, offset, 1) == w.get(offset, 1)
    ensures w.get(offset, 1).Failed? && !w.over(offset, 2) && !w.get(offset, 2).Failed? ==>
              Fetch(w, offset, 1) == w.get(offset, 2)
    ensures w.get(offset, 1).Failed? && w.get(offset, 2).Failed? && !w.over(offset, 2) && !w.over(offset, 3) ==>
              Fetch(w, offset, 1) == w.get(offset, 3)
  {
  }

  /** The total is the one of the first page that has one, also when later pages say another. */
  lemma FirstTotalStands(w: World, csv: bool, offset: nat, written: nat, total: int)
    requires written <= MaxRows && TurnOf(w, csv, offset, written, total).More?
    ensures Fetch(w, offset, 1).Page?
    ensures TurnOf(w, csv, offset, written, total).total == if total >= 0 then total else Fetch(w, offset, 1).total
  {
  }

  /** The export of the log ended there because the writer refused the next row. */
  predicate RowRefused(w: World, log: seq<Entry>, n: nat) {
    n < |log| && n < 1_000_000 && !w.takes(n)
  }

  /** It had written a whole page, from the given one on, and the flush after it failed. */
  ghost predicate FlushRefused(w: World, log: seq<Entry>, from: nat, n: nat) {
    exists page: nat :: from <= page && PageEndsAt(log, page, n) && !w.flushes(100 * page)
  }

  predicate PageEndsAt(log: seq<Entry>, page: nat, n: nat) {
    100 * page < n == Min(Min(|log|, 100 * page + 100), 1_000_000)
  }

  /** No flush failed at a page that is followed by more rows. */
  ghost predicate FlushedBefore(w: World, from: nat, n: nat) {
    forall page: nat :: from <= page && 100 * page + 100 < n ==> w.flushes(100 * page)
  }

  /** It has everything, or the next page was not reached. */
  predicate RanOut(w: World, log: seq<Entry>, n: nat) {
    n == Min(|log|, 1_000_000) || (n < |log| && n % 100 == 0 && !Reached(w, n))
  }

  /** Where an export of the log that began at a page ends, and whether it reports an error. */
  ghost predicate EndsAs(w: World, csv: bool, log: seq<Entry>, from: nat, n: nat, failed: bool) {
    && (csv ==> FlushedBefore(w, from, n))
    && if csv && FlushRefused(w, log, from, n) then failed
       else (RowRefused(w, log, n) && failed) || (RanOut(w, log, n) && failed == (csv && !w.closes))
  }

  /** A turn that is not the last one writes a whole page, flushes it, and knows the total. */
  predicate GoesOn(w: World, csv: bool, log: seq<Entry>, page: nat, rows: seq<Entry>, sum: int) {
    |rows| == 100 && sum == |log| && 100 * page + 100 <= Min(|log|, MaxRows) && (csv ==> w.flushes(100 * page))
  }

  lemma PageEnds(w: World, csv: bool, log: seq<Entry>, page: nat, n: nat)
    requires 100 * page < Min(|log|, MaxRows)
    requires n == Taken(w, |PageOf(log, 100 * page, PageSize).entries|, 100 * page, 0)
    ensures RightTurn(w, csv, log, page,
              TurnAfter(w, csv, 100 * page, 100 * page, PageOf(log, 100 * page, PageSize).entries, |log|, n))
  {
    var offset := 100 * page;
    var entries := PageOf(log, offset, PageSize).entries;
    assert |entries| == Min(|log| - offset, 100);
    if n < |entries| {
      assert offset + n >= MaxRows || RowRefused(w, log, offset + n);
      assert FlushRefused(w, log, page, offset + n) ==> offset + n == MaxRows;
    } else {
      assert PageEndsAt(log, page, offset + n);
    }
  }

  lemma TurnEnds(w: World, csv: bool, log: seq<Entry>, page: nat, total: int)
    requires Shows(w, log) && 100 * page <= Min(|log|, MaxRows) && IsTotal(total, log)
    ensures TurnIsRight(TurnsOf(w, csv), w, csv, log, page, total)
  {
    var offset := 100 * page;
    FetchShows(w, log, offset, 1);
    if Reached(w, offset) && offset < |log| {
      var n := Taken(w, |PageOf(log, offset, PageSize).entries|, offset, 0);
      if offset < MaxRows {
        PageEnds(w, csv, log, page, n);
      }
    }
  }

  /** A last turn ends as it should; any other goes on. */
  ghost predicate RightTurn(w: World, csv: bool, log: seq<Entry>, page: nat, t: Turn) {
    if t.Last? then EndsAs(w, csv, log, page, 100 * page + |t.rows|, t.failed)
    else GoesOn(w, csv, log, page, t.rows, t.total)
  }

  ghost predicate TurnIsRight(turns: Turns, w: World, csv: bool, log: seq<Entry>, page: nat, total: int)
    requires 100 * page <= MaxRows
  {
    RightTurn(w, csv, log, page, turns(100 * page, 100 * page, total))
  }

  lemma OnePageMore(w: World, csv: bool, log: seq<Entry>, page: nat, n: nat, failed: bool)
    requires EndsAs(w, csv, log, page + 1, n, failed) && (csv ==> w.flushes(100 * page))
    ensures EndsAs(w, csv, log, page, n, failed)
  {
    if csv && FlushRefused(w, log, page, n) {
      var q: nat :| page <= q && PageEndsAt(log, q, n) && !w.flushes(100 * q);
      assert q != page;
    }
  }

  lemma {:induction false} ExportEndsFrom(turns: Turns, w: World, csv: bool, log: seq<Entry>, page: nat, total: int)
    requires forall p: nat, t: int | 100 * p <= Min(|log|, MaxRows) && IsTotal(t, log) :: TurnIsRight(turns, w, csv, log, p, t)
    requires IsTotal(total, log) && 100 * page <= Min(|log|, MaxRows)
    ensures var o := ExportFrom(turns, 100 * page, 100 * page, total);
            EndsAs(w, csv, log, page, 100 * page + |o.rows|, o.failed)
    decreases MaxRows - 100 * page
  {
    assert TurnIsRight(turns, w, csv, log, page, total);
    var turn := turns(100 * page, 100 * page, total);
    if turn.More? {
      ExportEndsFrom(turns, w, csv, log, page + 1, turn.total);
      var o := ExportFrom(turns, 100 * (page + 1), 100 * (page + 1), turn.total);
      assert 100 * page + |turn.rows + o.rows| == 100 * (page + 1) + |o.rows|;
      OnePageMore(w, csv, log, page, 100 * (page + 1) + |o.rows|, o.failed);
    }
  }

  /**
   Whatever the context, the reader and the writer do: the export reports an error exactly when a
   row or a flush was refused, and for CSV when the last flush is; a page it cannot reach ends it
   at the page without one.
   */
  lemma ExportEnds(w: World, csv: bool, log: seq<Entry>)
    requires Shows(w, log)
    ensures EndsAs(w, csv, log, 0, |Export(w, csv).rows|, Export(w, csv).failed)
  {
    forall p: nat, t: int | 100 * p <= Min(|log|, MaxRows) && IsTotal(t, log)
      ensures TurnIsRight(TurnsOf(w, csv), w, csv, log, p, t)
    {
      TurnEnds(w, csv, log, p, t);
    }
    ExportEndsFrom(TurnsOf(w, csv), w, csv, log, 0, -1);
  }
}
