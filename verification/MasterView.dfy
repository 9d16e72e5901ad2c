/** A process's copy of one company's master data, kept up with an append-only log of versions. */
module MasterView {
  import opened Basics
  import Sorting

  datatype RecordId = RecordId(kind: string, id: string)

  /** One recorded version, with its number in the order versions of any record were recorded. */
  datatype Row = Row(number: nat, record: RecordId, version: nat, data: string)

  type Stores = map<RecordId, seq<Row>>

  const BATCH_SIZE: nat := 500

  // ------------------------------------------------------------------ the stores of a copy

  function HistoryOf(stores: Stores, record: RecordId): seq<Row> { if record in stores then stores[record] else [] }

  predicate EarlierVersion(a: Row, b: Row) { a.version < b.version }

  /** `VersionedStore.restore`: a version already held is left as it is. */
  function Restore(stores: Stores, row: Row): Stores {
    var history := HistoryOf(stores, row.record);
    if exists k :: 0 <= k < |history| && history[k].version == row.version then stores
    else stores[row.record := Sorting.Insert(row, history, EarlierVersion)]
  }

  function CopyOf(read: seq<Row>): Stores {
    if read == [] then map[] else Restore(CopyOf(read[..|read| - 1]), read[|read| - 1])
  }

  lemma CopyOfOneMore(read: seq<Row>, row: Row)
    ensures CopyOf(read + [row]) == Restore(CopyOf(read), row)
  {
    assert (read + [row])[..|read|] == read;
  }

  lemma FirstAndNext(before: seq<Row>, batch: seq<Row>, k: nat)
    requires k <= |batch|
    ensures if k < |batch| then before + batch[..k + 1] == before + batch[..k] + [batch[k]]
      else before + batch[..k] == before + batch
  {
    if k == |batch| { assert batch[..k] == batch; }
  }

  ghost predicate ByVersion(history: seq<Row>) {
    forall i, j :: 0 <= i < j < |history| ==> history[i].version < history[j].version
  }

  /** Each version of a record is recorded once. */
  ghost predicate VersionsOnce(rows: seq<Row>) {
    forall i, j :: 0 <= i < j < |rows| && rows[i].record == rows[j].record ==> rows[i].version != rows[j].version
  }

  /** A version not held yet gets its place among the sorted. */
  lemma {:induction false} InsertIsInPlace(history: seq<Row>, row: Row)
    requires ByVersion(history) && forall k :: 0 <= k < |history| ==> history[k].version != row.version
    ensures ByVersion(Sorting.Insert(row, history, EarlierVersion))
    ensures forall other :: other in Sorting.Insert(row, history, EarlierVersion) <==> other in history || other == row
  {
    if history != [] && row.version < history[|history| - 1].version {
      var (front, last) := (history[..|history| - 1], history[|history| - 1]);
      InsertIsInPlace(front, row);
      assert history == front + [last];
      var placed := Sorting.Insert(row, front, EarlierVersion);
      forall i | 0 <= i < |placed| ensures placed[i].version < last.version {
        assert placed[i] in placed;
        assert placed[i] in front || placed[i] == row;
      }
    }
  }

  predicate Holds(history: seq<Row>, version: nat) { exists k :: 0 <= k < |history| && history[k].version == version }

  /** What a copy holds of a record once one more row has been read. */
  lemma OneMoreRead(read: seq<Row>, row: Row, record: RecordId)
    requires ByVersion(HistoryOf(CopyOf(read), record))
    ensures var (before, after) := (HistoryOf(CopyOf(read), record), HistoryOf(CopyOf(read + [row]), record));
      && ByVersion(after)
      && (forall other :: other in after <==>
            other in before || (other == row && row.record == record && !Holds(before, row.version)))
  {
    CopyOfOneMore(read, row);
    var before := HistoryOf(CopyOf(read), record);
    if row.record == record && !Holds(before, row.version) { InsertIsInPlace(before, row); }
  }

  /** Whatever was read, a record's versions are held in order, each once, and come from what was read. */
  lemma {:induction false} CopyIsInOrder(read: seq<Row>, record: RecordId)
    ensures var history := HistoryOf(CopyOf(read), record);
      ByVersion(history) && forall row :: row in history ==> row in read && row.record == record
  {
    if read != [] {
      var (front, last) := (read[..|read| - 1], read[|read| - 1]);
      assert read == front + [last];
      CopyIsInOrder(front, record);
      OneMoreRead(front, last, record);
      forall row | row in HistoryOf(CopyOf(read), record) ensures row in read && row.record == record {}
    }
  }

  /** Reading on, a copy loses nothing, and gains nothing but what it reads. */
  lemma {:induction false} CopyOnlyGains(read: seq<Row>, more: seq<Row>, row: Row)
    ensures var (before, after) := (HistoryOf(CopyOf(read), row.record), HistoryOf(CopyOf(read + more), row.record));
      (row in before ==> row in after) && (row in after ==> row in before || row in more)
  {
    if more == [] {
      assert read + more == read;
    } else {
      var (front, last) := (more[..|more| - 1], more[|more| - 1]);
      assert more == front + [last];
      assert read + more == read + front + [last];
      CopyOnlyGains(read, front, row);
      CopyIsInOrder(read + front, row.record);
      OneMoreRead(read + front, last, row.record);
    }
  }

  /** A row that was read is held, unless a row of the same record and version was read before it and is held. */
  lemma {:induction false} ReadIsHeldIff(read: seq<Row>, row: Row)
    requires row in read
    ensures var history := HistoryOf(CopyOf(read), row.record);
      Holds(history, row.version)
        && (row in history <==> !exists other :: other in history && other.version == row.version && other != row)
  {
    var (front, last) := (read[..|read| - 1], read[|read| - 1]);
    var (before, after) := (HistoryOf(CopyOf(front), row.record), HistoryOf(CopyOf(read), row.record));
    assert read == front + [last];
    CopyIsInOrder(front, row.record);
    CopyIsInOrder(read, row.record);
    OneMoreRead(front, last, row.record);
    if row in front {
      ReadIsHeldIff(front, row);
      var k :| 0 <= k < |before| && before[k].version == row.version;
      assert before[k] in after;
    }
    HeldOnce(after, row);
  }

  lemma HeldOnce(history: seq<Row>, row: Row)
    requires ByVersion(history)
    ensures forall a, b :: a in history && b in history && a.version == b.version ==> a == b
    ensures Holds(history, row.version) <==> exists other :: other in history && other.version == row.version
  {
    forall a, b | a in history && b in history && a.version == b.version ensures a == b {
      var i :| 0 <= i < |history| && history[i] == a;
      var j :| 0 <= j < |history| && history[j] == b;
    }
    if Holds(history, row.version) {
      var k :| 0 <= k < |history| && history[k].version == row.version;
      assert history[k] in history;
    }
  }

  /** From a log that records each version once, a copy holds exactly the versions of each record, in version order. */
  lemma {:induction false} CopyHoldsExactly(read: seq<Row>, record: RecordId)
    requires VersionsOnce(read)
    ensures var history := HistoryOf(CopyOf(read), record);
      ByVersion(history) && forall row :: row in history <==> row in read && row.record == record
  {
    var history := HistoryOf(CopyOf(read), record);
    CopyIsInOrder(read, record);
    forall row | row in read && row.record == record ensures row in history {
      ReadIsHeldIff(read, row);
      forall other | other in history && other.version == row.version ensures other == row {
        var i :| 0 <= i < |read| && read[i] == row;
        var j :| 0 <= j < |read| && read[j] == other;
      }
    }
  }

  /**
   * Why a copy with rolled-back rows has to be rebuilt: once the rolled-back version of a record is held,
   * the version saved later under the same number never shows.
   */
  lemma LostVersionHidesSaved(read: seq<Row>, lost: Row, saved: Row)
    requires VersionsOnce(read + [lost]) && lost.record == saved.record && lost.version == saved.version
      && lost != saved
    ensures var history := HistoryOf(CopyOf(read + [lost] + [saved]), saved.record);
      lost in history && saved !in history
  {
    var with := read + [lost];
    CopyHoldsExactly(with, saved.record);
    assert lost in with;
    CopyOnlyGains(with, [saved], lost);
    assert saved in with + [saved];
    ReadIsHeldIff(with + [saved], saved);
  }

  // ------------------------------------------------------------------ reading the log

  ghost predicate Increasing(rows: seq<Row>) {
    forall i, j :: 0 <= i < j < |rows| ==> rows[i].number < rows[j].number
  }

  /** The versions recorded after a number, oldest first. */
  function Newer(rows: seq<Row>, after: nat): seq<Row> {
    if rows == [] then []
    else if rows[|rows| - 1].number > after then Newer(rows[..|rows| - 1], after) + [rows[|rows| - 1]]
    else Newer(rows[..|rows| - 1], after)
  }

  function Batch(rows: seq<Row>, after: nat): seq<Row> {
    var newer := Newer(rows, after);
    if |newer| <= BATCH_SIZE then newer else newer[..BATCH_SIZE]
  }

  /** A number splits increasing rows after the first n. */
  ghost predicate SplitsAt(rows: seq<Row>, n: nat, after: nat) {
    && n <= |rows|
    && (forall i :: 0 <= i < n ==> rows[i].number <= after)
    && (forall i :: n <= i < |rows| ==> rows[i].number > after)
  }

  lemma {:induction false} NewerIsTheRest(rows: seq<Row>, n: nat, after: nat)
    requires SplitsAt(rows, n, after)
    ensures Newer(rows, after) == rows[n..]
  {
    if rows != [] {
      var (front, last) := (rows[..|rows| - 1], rows[|rows| - 1]);
      if n < |rows| {
        assert SplitsAt(front, n, after);
        NewerIsTheRest(front, n, after);
        assert front[n..] + [last] == rows[n..];
      } else {
        assert SplitsAt(front, n - 1, after) && last.number <= after;
        NewerIsTheRest(front, n - 1, after);
      }
    }
  }

  // ------------------------------------------------------------------ the copy and its refreshes as a protocol

  /** What a copy has read, the last number it brought in, and whether a failed action made it untrustworthy. */
  datatype View = View(read: seq<Row>, upTo: nat, stale: bool)

  const NEW_VIEW: View := View([], 0, false)

  /** A refresh in progress: inside the open action or not, filling a copy aside or the published one. */
  datatype Refresh = Refresh(inside: bool, aside: Option<View>)

  /**
   * The committed log of one company, the rows of its open action (one at a time: the company's write lock),
   * the next number to hand out, the numbers whose rows were rolled back, and this process's copy.
   */
  datatype State = State(log: seq<Row>, open: Option<seq<Row>>, next: nat, lost: set<nat>, published: Option<View>,
                         refresh: Option<Refresh>)

  datatype Event = Begin | Record(record: RecordId, version: nat, data: string) | Commit | Fail
      | StartRefresh(inside: bool) | ReadBatch | BreakRefresh | Restart

  function Unsaved(s: State): seq<Row> { if s.open.Some? then s.open.value else [] }

  function Numbers(rows: seq<Row>): set<nat> { set i | 0 <= i < |rows| :: rows[i].number }

  /** A refresh inside the open action sees that action's own rows too. */
  function Visible(s: State): seq<Row>
    requires s.refresh.Some?
  {
    s.log + if s.refresh.value.inside then Unsaved(s) else []
  }

  /** The copy the refresh in progress is filling. */
  function Filling(s: State): View
    requires s.refresh.Some?
  {
    if s.refresh.value.aside.Some? then s.refresh.value.aside.value
    else if s.published.Some? then s.published.value else NEW_VIEW
  }

  /** The copy after one more batch. */
  function Filled(view: View, batch: seq<Row>): View {
    View(view.read + batch, if batch == [] then view.upTo else batch[|batch| - 1].number, view.stale)
  }

  function NextBatch(s: State): seq<Row>
    requires s.refresh.Some?
  {
    Batch(Visible(s), Filling(s).upTo)
  }

  predicate Allowed(s: State, e: Event) {
    match e
    case Begin => s.open.None?
    case Record(_, _, _) => s.open.Some?
    case Commit => s.open.Some? && !(s.refresh.Some? && s.refresh.value.inside)
    case Fail => s.open.Some? && !(s.refresh.Some? && s.refresh.value.inside)
    case StartRefresh(inside) => s.refresh.None? && (inside ==> s.open.Some?)
    case ReadBatch => s.refresh.Some?
    case BreakRefresh => s.refresh.Some?
    case Restart => true
  }

  function MadeStale(published: Option<View>): Option<View> {
    if published.Some? then Some(published.value.(stale := true)) else None
  }

  function After(s: State, e: Event): State {
    match e
    case Begin => s.(open := Some([]))
    case Record(record, version, data) =>
      var rows := s.log + Unsaved(s);
      if exists i :: 0 <= i < |rows| && rows[i].record == record && rows[i].version == version then
        s.(next := s.next + 1)
      else s.(open := Some(Unsaved(s) + [Row(s.next, record, version, data)]), next := s.next + 1)
    case Commit => s.(log := s.log + Unsaved(s), open := None)
    case Fail => s.(open := None, lost := s.lost + Numbers(Unsaved(s)), published := MadeStale(s.published))
    case StartRefresh(inside) =>
      s.(refresh := Some(Refresh(inside,
        if s.published.None? || s.published.value.stale then Some(NEW_VIEW) else None)))
    case ReadBatch =>
      if s.refresh.None? then s
      else
        var view := Filled(Filling(s), NextBatch(s));
        if |NextBatch(s)| < BATCH_SIZE then s.(published := Some(view), refresh := None)
        else if s.refresh.value.aside.Some? then s.(refresh := Some(s.refresh.value.(aside := Some(view))))
        else s.(published := Some(view))
    case BreakRefresh => s.(refresh := None)
    case Restart => s.(open := None, lost := s.lost + Numbers(Unsaved(s)), published := None, refresh := None)
  }

  ghost predicate IsRun(states: seq<State>, events: seq<Event>) {
    && |states| == |events| + 1
    && forall k :: 0 <= k < |events| ==> Allowed(states[k], events[k]) && states[k + 1] == After(states[k], events[k])
  }

  // ------------------------------------------------------------------ what every step keeps

  /** The rows read that were not rolled back. */
  function Kept(read: seq<Row>, lost: set<nat>): seq<Row> {
    if read == [] then []
    else if read[|read| - 1].number in lost then Kept(read[..|read| - 1], lost)
    else Kept(read[..|read| - 1], lost) + [read[|read| - 1]]
  }

  ghost predicate NoneLost(read: seq<Row>, lost: set<nat>) { forall i :: 0 <= i < |read| ==> read[i].number !in lost }

  /**
   * Apart from rolled-back rows, a copy is the rows up to its number; if it is not stale, it has no rolled-back rows.
   */
  ghost predicate Follows(view: View, rows: seq<Row>, lost: set<nat>) {
    && Kept(view.read, lost) <= rows
    && SplitsAt(rows, |Kept(view.read, lost)|, view.upTo)
    && (!view.stale ==> NoneLost(view.read, lost))
  }

  ghost predicate RowsOk(s: State) {
    var rows := s.log + Unsaved(s);
    && Increasing(rows) && VersionsOnce(rows) && NoneLost(rows, s.lost)
    && (forall i :: 0 <= i < |rows| ==> 0 < rows[i].number < s.next)
    && s.next > 0 && (forall n :: n in s.lost ==> n < s.next)
  }

  ghost predicate ViewsOk(s: State) {
    && (s.published.Some? ==> Follows(s.published.value, s.log + Unsaved(s), s.lost) && s.published.value.upTo < s.next)
    && (s.refresh.Some? && s.refresh.value.inside ==> s.open.Some?)
    && (s.refresh.Some? && s.refresh.value.aside.None? ==> s.published.Some?)
    && (s.refresh.Some? && s.refresh.value.aside.Some? ==>
          var view := s.refresh.value.aside.value;
          !view.stale && Follows(view, s.log + Unsaved(s), s.lost) && view.upTo < s.next
            && (!s.refresh.value.inside ==> |view.read| <= |s.log|))
  }

  ghost predicate Ok(s: State) { RowsOk(s) && ViewsOk(s) }

  lemma {:induction false} KeptAll(read: seq<Row>, lost: set<nat>)
    requires NoneLost(read, lost)
    ensures Kept(read, lost) == read
  {
    if read != [] { KeptAll(read[..|read| - 1], lost); }
  }

  lemma {:induction false} KeptAppends(read: seq<Row>, more: seq<Row>, lost: set<nat>)
    requires NoneLost(more, lost)
    ensures Kept(read + more, lost) == Kept(read, lost) + more
  {
    if more == [] {
      assert read + more == read;
    } else {
      var (front, last) := (more[..|more| - 1], more[|more| - 1]);
      KeptAppends(read, front, lost);
      assert more == front + [last];
      KeptOneMore(read + front, last, lost);
      assert read + front + [last] == read + more;
    }
  }

  lemma KeptOneMore(read: seq<Row>, row: Row, lost: set<nat>)
    requires row.number !in lost
    ensures Kept(read + [row], lost) == Kept(read, lost) + [row]
  {
    assert (read + [row])[..|read|] == read;
  }

  lemma {:induction false} KeptTwice(read: seq<Row>, lost: set<nat>, more: set<nat>)
    ensures Kept(Kept(read, lost), more) == Kept(read, lost + more)
  {
    if read != [] { KeptTwice(read[..|read| - 1], lost, more); }
  }

  /** Of the first rows of log and open action, the roll-back leaves those of the log. */
  lemma {:induction false} KeptOfFirst(log: seq<Row>, open: seq<Row>, n: nat)
    requires Increasing(log + open) && n <= |log| + |open|
    ensures Kept((log + open)[..n], Numbers(open)) == log[..if n <= |log| then n else |log|]
  {
    var rows := log + open;
    if n > 0 {
      KeptOfFirst(log, open, n - 1);
      assert rows[..n][..n - 1] == rows[..n - 1];
      if n <= |log| {
        forall i | 0 <= i < |open| ensures open[i].number != rows[n - 1].number { assert open[i] == rows[|log| + i]; }
        assert log[..n - 1] + [log[n - 1]] == log[..n];
      } else {
        assert rows[n - 1] == open[n - 1 - |log|];
      }
    }
  }

  /** A batch of the rows that can be seen is the next of all rows. */
  lemma BatchIsNext(rows: seq<Row>, visible: seq<Row>, n: nat, upTo: nat)
    requires visible <= rows && SplitsAt(rows, n, upTo)
    ensures var batch := Batch(visible, upTo);
      && n + |batch| <= |rows| && batch == rows[n..n + |batch|]
      && (n <= |visible| ==> n + |batch| <= |visible|) && (n >= |visible| ==> batch == [])
      && (|batch| < BATCH_SIZE ==> |visible| <= n + |batch|)
  {
    var m := if n <= |visible| then n else |visible|;
    assert forall i :: 0 <= i < |visible| ==> visible[i] == rows[i];
    NewerIsTheRest(visible, m, upTo);
  }

  lemma SplitsAtRow(rows: seq<Row>, n: nat)
    requires Increasing(rows) && 0 < n <= |rows|
    ensures SplitsAt(rows, n, rows[n - 1].number)
  {}

  lemma BatchSplits(rows: seq<Row>, visible: seq<Row>, n: nat, view: View)
    requires visible <= rows && SplitsAt(rows, n, view.upTo) && Increasing(rows)
    ensures var (batch, after) := (Batch(visible, view.upTo), Filled(view, Batch(visible, view.upTo)));
      && n + |batch| <= |rows| && SplitsAt(rows, n + |batch|, after.upTo)
      && (after.upTo == view.upTo || (batch != [] && after.upTo == rows[n + |batch| - 1].number))
  {
    BatchIsNext(rows, visible, n, view.upTo);
    var batch := Batch(visible, view.upTo);
    if batch != [] {
      assert batch[|batch| - 1] == rows[n + |batch| - 1];
      SplitsAtRow(rows, n + |batch|);
    }
  }

  lemma FilledReadsOn(whole: seq<Row>, log: seq<Row>, n: nat, view: View)
    requires log <= whole && n <= |log| && SplitsAt(whole, n, view.upTo) && view.read == whole[..n] && Increasing(whole)
    ensures var batch := Batch(log, view.upTo); var (after, m) := (Filled(view, batch), n + |batch|);
      m <= |log| && SplitsAt(whole, m, after.upTo) && after.read == whole[..m]
        && (|batch| < BATCH_SIZE ==> after.read == log)
  {
    var batch := Batch(log, view.upTo);
    BatchIsNext(whole, log, n, view.upTo);
    BatchSplits(whole, log, n, view);
    FirstThenNext(whole, n, n + |batch|);
    if |batch| < BATCH_SIZE { assert whole[..|log|] == log; }
  }

  lemma BatchIsKept(view: View, rows: seq<Row>, visible: seq<Row>, lost: set<nat>)
    requires visible <= rows && NoneLost(rows, lost) && Follows(view, rows, lost)
    ensures var batch := Batch(visible, view.upTo); var m := |Kept(view.read, lost)| + |batch|;
      m <= |rows| && NoneLost(batch, lost)
        && Kept(view.read + batch, lost) == Kept(view.read, lost) + batch == rows[..m]
  {
    var n := |Kept(view.read, lost)|;
    var batch := Batch(visible, view.upTo);
    BatchIsNext(rows, visible, n, view.upTo);
    forall i | 0 <= i < |batch| ensures batch[i].number !in lost { assert batch[i] == rows[n + i]; }
    KeptAppends(view.read, batch, lost);
    assert Kept(view.read, lost) == rows[..n];
    FirstThenNext(rows, n, n + |batch|);
  }

  lemma FirstThenNext(rows: seq<Row>, n: nat, m: nat)
    requires n <= m <= |rows|
    ensures rows[..n] + rows[n..m] == rows[..m]
  {}

  /** A batch carries a copy on along the rows it was read from. */
  lemma BatchFollows(view: View, rows: seq<Row>, visible: seq<Row>, lost: set<nat>)
    requires visible <= rows && Increasing(rows) && NoneLost(rows, lost) && Follows(view, rows, lost)
    ensures Follows(Filled(view, Batch(visible, view.upTo)), rows, lost)
  {
    BatchIsKept(view, rows, visible, lost);
    BatchSplits(rows, visible, |Kept(view.read, lost)|, view);
  }

  /** How far it carries it: to the end of what could be seen, if the batch was short. */
  lemma BatchReaches(view: View, rows: seq<Row>, visible: seq<Row>, lost: set<nat>)
    requires visible <= rows && NoneLost(rows, lost) && Follows(view, rows, lost)
    ensures var batch := Batch(visible, view.upTo); var after := Filled(view, batch); var n := |Kept(view.read, lost)|;
      && Kept(after.read, lost) == Kept(view.read, lost) + batch
      && (n <= |visible| ==> n + |batch| <= |visible|)
      && (|batch| < BATCH_SIZE ==> visible <= Kept(after.read, lost))
  {
    BatchIsKept(view, rows, visible, lost);
    BatchIsNext(rows, visible, |Kept(view.read, lost)|, view.upTo);
  }

  lemma FilledIsOk(s: State)
    requires Ok(s) && s.refresh.Some?
    ensures var view := Filled(Filling(s), NextBatch(s));
      && Follows(view, s.log + Unsaved(s), s.lost) && view.upTo < s.next
      && (s.refresh.value.aside.Some? ==> !view.stale && (!s.refresh.value.inside ==> |view.read| <= |s.log|))
  {
    var rows := s.log + Unsaved(s);
    var view := Filling(s);
    BatchFollows(view, rows, Visible(s), s.lost);
    BatchReaches(view, rows, Visible(s), s.lost);
    BatchSplits(rows, Visible(s), |Kept(view.read, s.lost)|, view);
    if s.refresh.value.aside.Some? { KeptAll(view.read, s.lost); }
  }

  lemma ReadBatchKeeps(s: State)
    requires Ok(s) && s.refresh.Some?
    ensures Ok(After(s, ReadBatch))
  {
    FilledIsOk(s);
    var after := After(s, ReadBatch);
    assert after.log + Unsaved(after) == s.log + Unsaved(s) && after.lost == s.lost && after.next == s.next;
  }

  /** More numbers are rolled back than a copy has read of. */
  lemma FailFollows(view: View, log: seq<Row>, open: seq<Row>, lost: set<nat>)
    requires Increasing(log + open) && Follows(view, log + open, lost)
    ensures Follows(view.(stale := true), log, lost + Numbers(open))
    ensures Kept(view.read, lost + Numbers(open)) ==
      log[..if |Kept(view.read, lost)| <= |log| then |Kept(view.read, lost)| else |log|]
    ensures |Kept(view.read, lost)| <= |log| ==> Kept(view.read, lost + Numbers(open)) == Kept(view.read, lost)
  {
    var n := |Kept(view.read, lost)|;
    assert Kept(view.read, lost) == (log + open)[..n];
    KeptTwice(view.read, lost, Numbers(open));
    KeptOfFirst(log, open, n);
    assert forall i :: 0 <= i < |log| ==> log[i] == (log + open)[i];
  }

  /** A copy that is not stale and has read no unsaved row is as good after a roll-back. */
  lemma FailSpares(view: View, log: seq<Row>, open: seq<Row>, lost: set<nat>)
    requires Increasing(log + open) && !view.stale && Follows(view, log + open, lost) && |view.read| <= |log|
    ensures Follows(view, log, lost + Numbers(open))
  {
    KeptAll(view.read, lost);
    FailFollows(view, log, open, lost);
    forall i | 0 <= i < |view.read| ensures view.read[i].number !in lost + Numbers(open) {
      assert view.read[i] == (log + open)[i];
      forall j | 0 <= j < |open|
        ensures open[j].number != view.read[i].number
      {
        assert open[j] == (log + open)[|log| + j];
      }
    }
  }

  lemma FailKeeps(s: State)
    requires Ok(s) && s.open.Some? && !(s.refresh.Some? && s.refresh.value.inside)
    ensures Ok(After(s, Fail))
  {
    var open := s.open.value;
    var rows := s.log + open;
    LogOutlivesRollBack(s);
    if s.published.Some? { FailFollows(s.published.value, s.log, open, s.lost); }
    if s.refresh.Some? && s.refresh.value.aside.Some? { FailSpares(s.refresh.value.aside.value, s.log, open, s.lost); }
  }

  lemma LogOutlivesRollBack(s: State)
    requires RowsOk(s)
    ensures RowsOk(s.(open := None, lost := s.lost + Numbers(Unsaved(s))))
  {
    var open := Unsaved(s);
    var rows := s.log + open;
    assert forall i :: 0 <= i < |s.log| ==> s.log[i] == rows[i];
    forall i, j | 0 <= i < |s.log| && 0 <= j < |open|
      ensures s.log[i].number != open[j].number
    {
      assert open[j] == rows[|s.log| + j];
    }
    forall j | 0 <= j < |open| ensures open[j].number < s.next { assert open[j] == rows[|s.log| + j]; }
    assert s.log + [] == s.log;
  }

  lemma RowJoins(rows: seq<Row>, row: Row, lost: set<nat>)
    requires Increasing(rows) && VersionsOnce(rows) && NoneLost(rows, lost) && row.number !in lost
    requires forall i :: 0 <= i < |rows| ==>
      rows[i].number < row.number && !(rows[i].record == row.record && rows[i].version == row.version)
    ensures Increasing(rows + [row]) && VersionsOnce(rows + [row]) && NoneLost(rows + [row], lost)
  {}

  lemma FollowsLonger(view: View, rows: seq<Row>, row: Row, lost: set<nat>)
    requires Follows(view, rows, lost) && view.upTo < row.number
    ensures Follows(view, rows + [row], lost)
  {}

  lemma RecordKeeps(s: State, record: RecordId, version: nat, data: string)
    requires Ok(s) && s.open.Some?
    ensures Ok(After(s, Record(record, version, data)))
  {
    var rows := s.log + Unsaved(s);
    var after := After(s, Record(record, version, data));
    if !(exists i :: 0 <= i < |rows| && rows[i].record == record && rows[i].version == version) {
      var row := Row(s.next, record, version, data);
      assert after.log + Unsaved(after) == rows + [row];
      RowJoins(rows, row, s.lost);
      if s.published.Some? { FollowsLonger(s.published.value, rows, row, s.lost); }
      if s.refresh.Some? && s.refresh.value.aside.Some? {
        FollowsLonger(s.refresh.value.aside.value, rows, row, s.lost);
      }
    }
  }

  lemma StepKeeps(s: State, e: Event)
    requires Ok(s) && Allowed(s, e)
    ensures Ok(After(s, e))
  {
    match e
    case Begin => assert s.log + [] == s.log;
    case Record(record, version, data) => RecordKeeps(s, record, version, data);
    case Commit =>
      assert After(s, e).log + [] == s.log + Unsaved(s);
    case Fail => FailKeeps(s);
    case StartRefresh(_) => assert Kept([], s.lost) == [];
    case ReadBatch => ReadBatchKeeps(s);
    case BreakRefresh =>
    case Restart => LogOutlivesRollBack(s);
  }

  lemma {:induction false} RunKeeps(states: seq<State>, events: seq<Event>, k: nat)
    requires IsRun(states, events) && Ok(states[0]) && k < |states|
    ensures Ok(states[k])
  {
    if k > 0 {
      RunKeeps(states, events, k - 1);
      StepKeeps(states[k - 1], events[k - 1]);
    }
  }

  lemma FreshIsOk(log: seq<Row>, next: nat)
    requires Increasing(log) && VersionsOnce(log) && next > 0 && forall i :: 0 <= i < |log| ==> 0 < log[i].number < next
    ensures Ok(State(log, None, next, {}, None, None))
  {
    assert log + [] == log;
  }

  // ------------------------------------------------------------------ what readers may rely on

  /**
   * A refresh that ends has brought in the whole log; one that built a copy aside publishes exactly what it could
   * see.
   */
  lemma FinishedCoversTheLog(s: State)
    requires Ok(s) && s.refresh.Some? && |NextBatch(s)| < BATCH_SIZE
    ensures var after := After(s, ReadBatch);
      && after.published.Some? && after.refresh.None?
      && s.log <= Visible(s) <= Kept(after.published.value.read, s.lost)
      && (s.refresh.value.aside.Some? ==> after.published.value.read == Visible(s) && !after.published.value.stale)
  {
    var rows := s.log + Unsaved(s);
    assert s.log <= Visible(s) <= rows;
    BatchReaches(Filling(s), rows, Visible(s), s.lost);
    if s.refresh.value.aside.Some? { RebuildReadsVisible(s); }
  }

  lemma RebuildReadsVisible(s: State)
    requires Ok(s) && s.refresh.Some? && s.refresh.value.aside.Some? && |NextBatch(s)| < BATCH_SIZE
    ensures Filled(Filling(s), NextBatch(s)).read == Visible(s)
  {
    var rows := s.log + Unsaved(s);
    var view := Filling(s);
    KeptAll(view.read, s.lost);
    assert Visible(s) <= rows && |view.read| <= |Visible(s)|;
    BatchIsNext(rows, Visible(s), |view.read|, view.upTo);
    FirstThenNext(rows, |view.read|, |view.read| + |NextBatch(s)|);
    assert view.read == rows[..|view.read|] && Visible(s) == rows[..|Visible(s)|];
  }

  // ------------------------------------------------------------------ what readers are shown

  /** The published copy's stores hold the row. */
  predicate Serves(s: State, row: Row) {
    s.published.Some? && row in HistoryOf(CopyOf(s.published.value.read), row.record)
  }

  /** Some rolled-back row is shown. */
  ghost predicate ServesLost(s: State) { exists row: Row :: Serves(s, row) && row.number in s.lost }

  /** The batch that publishes a rebuilt copy. */
  predicate Swaps(s: State, e: Event) {
    e == ReadBatch && s.refresh.Some? && s.refresh.value.aside.Some? && |NextBatch(s)| < BATCH_SIZE
  }

  /** Whatever happens short of a restart, a version of the log that readers are shown stays shown. */
  lemma ServedStays(s: State, e: Event, row: Row)
    requires Ok(s) && Allowed(s, e) && e != Restart && row in s.log && Serves(s, row)
    ensures Serves(After(s, e), row) && row in After(s, e).log
  {
    if Swaps(s, e) {
      var read := After(s, e).published.value.read;
      FinishedCoversTheLog(s);
      VisibleIsOnce(s);
      CopyHoldsExactly(read, row.record);
      assert row in read;
    } else if e == ReadBatch && s.refresh.value.aside.None? {
      InPlaceReads(s);
      CopyOnlyGains(s.published.value.read, NextBatch(s), row);
    }
  }

  lemma InPlaceReads(s: State)
    requires s.refresh.Some? && s.refresh.value.aside.None? && s.published.Some?
    ensures var after := After(s, ReadBatch);
      after.published.Some? && after.published.value.read == s.published.value.read + NextBatch(s)
        && after.lost == s.lost
  {}

  lemma VisibleIsOnce(s: State)
    requires Ok(s) && s.refresh.Some?
    ensures VersionsOnce(Visible(s)) && NoneLost(Visible(s), s.lost)
  {
    var rows := s.log + Unsaved(s);
    assert forall k :: 0 <= k < |Visible(s)| ==> Visible(s)[k] == rows[k];
  }

  lemma {:induction false} ServedStaysInRun(states: seq<State>, events: seq<Event>, i: nat, j: nat, row: Row)
    requires IsRun(states, events) && Ok(states[0]) && i <= j < |states|
    requires row in states[i].log && Serves(states[i], row)
    requires forall k :: i <= k < j ==> events[k] != Restart
    ensures row in states[j].log && Serves(states[j], row)
  {
    if i < j {
      ServedStaysInRun(states, events, i, j - 1, row);
      RunKeeps(states, events, j - 1);
      ServedStays(states[j - 1], events[j - 1], row);
    }
  }

  /** A rolled-back row is shown as the same version of the same record. */
  ghost predicate HiddenByLost(s: State, row: Row) {
    exists lost: Row ::
      Serves(s, lost) && lost.number in s.lost && lost.record == row.record && lost.version == row.version
  }

  /**
   * What the stores show, of any published copy: nothing that was not read; and of the saved rows that were read, each
   * but those a rolled-back row of the same record and version stands in the place of.
   */
  lemma {:induction false} StoresShow(s: State, row: Row)
    requires Ok(s) && s.published.Some?
    ensures Serves(s, row) ==> row in s.log + Unsaved(s) || row.number in s.lost
    ensures row in Kept(s.published.value.read, s.lost) ==> (Serves(s, row) <==> !HiddenByLost(s, row))
  {
    var (read, rows) := (s.published.value.read, s.log + Unsaved(s));
    var history := HistoryOf(CopyOf(read), row.record);
    CopyIsInOrder(read, row.record);
    KeptIs(read, s.lost);
    if row in Kept(read, s.lost) {
      ReadIsHeldIff(read, row);
      assert row in rows;
      forall other | other in history && other.version == row.version && other != row
        ensures other.number in s.lost && Serves(s, other)
      {
        if other.number !in s.lost { SavedVersionsOnce(s, row, other); }
      }
      assert row.number !in s.lost;
    }
  }

  /**
   * At every point of every run the published copy has read a prefix of the log followed by what the open action has
   * recorded, and of rolled-back rows none unless it is stale. What its stores show is exactly that, in version order;
   * but where a stale copy shows a rolled-back version, it shows it in the place of the saved one.
   */
  lemma PublishedIsAPrefix(states: seq<State>, events: seq<Event>, k: nat)
    requires IsRun(states, events) && Ok(states[0]) && k < |states| && states[k].published.Some?
    ensures ShowsAPrefix(states[k])
  {
    RunKeeps(states, events, k);
    PublishedShows(states[k]);
  }

  ghost predicate ShowsAPrefix(s: State)
    requires s.published.Some?
  {
    var (view, kept) := (s.published.value, Kept(s.published.value.read, s.lost));
    && kept <= s.log + Unsaved(s) && (s.open.None? ==> kept <= s.log)
    && (!view.stale ==> view.read == kept && !ServesLost(s))
    && (forall row :: Serves(s, row) ==> row in kept || row.number in s.lost)
    && (forall row <- kept :: Serves(s, row) <==> !HiddenByLost(s, row))
    && (forall record :: ByVersion(HistoryOf(CopyOf(view.read), record)))
  }

  lemma PublishedShows(s: State)
    requires Ok(s) && s.published.Some?
    ensures ShowsAPrefix(s)
  {
    var (view, kept) := (s.published.value, Kept(s.published.value.read, s.lost));
    assert s.log + [] == s.log;
    KeptIs(view.read, s.lost);
    forall row: Row | Serves(s, row) ensures row in view.read { CopyIsInOrder(view.read, row.record); }
    forall row | row in kept ensures Serves(s, row) <==> !HiddenByLost(s, row) { StoresShow(s, row); }
    forall record ensures ByVersion(HistoryOf(CopyOf(view.read), record)) { CopyIsInOrder(view.read, record); }
    if !view.stale { KeptAll(view.read, s.lost); }
  }

  lemma SavedVersionsOnce(s: State, a: Row, b: Row)
    requires Ok(s) && a in s.log + Unsaved(s) && b in s.log + Unsaved(s) && a.record == b.record
      && a.version == b.version
    ensures a == b
  {
    var rows := s.log + Unsaved(s);
    var i :| 0 <= i < |rows| && rows[i] == a;
    var j :| 0 <= j < |rows| && rows[j] == b;
  }

  lemma {:induction false} KeptIs(read: seq<Row>, lost: set<nat>)
    ensures forall row :: row in Kept(read, lost) <==> row in read && row.number !in lost
  {
    if read != [] { KeptIs(read[..|read| - 1], lost); }
  }

  /**
   * When a rolled-back row is shown after an event: it was shown before, and no rebuilt copy took its place; or the
   * action failed and a row it had recorded was shown.
   */
  lemma ServesLostIff(s: State, e: Event)
    requires Ok(s) && Allowed(s, e) && e != Restart && s.published.Some?
    ensures ServesLost(After(s, e)) <==>
      (ServesLost(s) && !Swaps(s, e))
        || (e == Fail && exists row: Row :: Serves(s, row) && row.number in Numbers(Unsaved(s)))
  {
    var after := After(s, e);
    if e == ReadBatch { BatchServesLostIff(s); } else { assert forall row :: Serves(after, row) <==> Serves(s, row); }
  }

  lemma BatchServesLostIff(s: State)
    requires Ok(s) && s.refresh.Some? && s.published.Some?
    ensures ServesLost(After(s, ReadBatch)) <==> ServesLost(s) && !Swaps(s, ReadBatch)
  {
    var after := After(s, ReadBatch);
    if Swaps(s, ReadBatch) {
      VisibleIsOnce(s);
      FinishedCoversTheLog(s);
      forall row: Row | Serves(after, row) ensures row.number !in after.lost {
        CopyIsInOrder(after.published.value.read, row.record);
      }
    } else if s.refresh.value.aside.None? {
      InPlaceReads(s);
      forall row: Row | row.number in s.lost
        ensures Serves(after, row) <==> Serves(s, row)
      {
        InPlaceServesAsBefore(s, row);
      }
    } else {
      assert forall row :: Serves(after, row) <==> Serves(s, row);
    }
  }

  lemma InPlaceServesAsBefore(s: State, row: Row)
    requires Ok(s) && s.refresh.Some? && s.refresh.value.aside.None? && s.published.Some? && row.number in s.lost
    ensures Serves(After(s, ReadBatch), row) <==> Serves(s, row)
  {
    VisibleIsOnce(s);
    InPlaceReads(s);
    BatchIsSeen(s);
    CopyOnlyGains(s.published.value.read, NextBatch(s), row);
  }

  lemma {:induction false} NewerIsOf(rows: seq<Row>, after: nat)
    ensures forall row :: row in Newer(rows, after) ==> row in rows
  {
    if rows != [] { NewerIsOf(rows[..|rows| - 1], after); }
  }

  lemma BatchIsSeen(s: State)
    requires s.refresh.Some?
    ensures forall row :: row in NextBatch(s) ==> row in Visible(s)
  {
    NewerIsOf(Visible(s), Filling(s).upTo);
  }

  /**
   * A good copy shows rolled-back rows after a failure exactly when it had brought in a row of the action that
   * failed.
   */
  lemma FailureIsShownIff(s: State)
    requires Ok(s) && s.open.Some? && s.published.Some? && !s.published.value.stale
    ensures ServesLost(After(s, Fail)) <==> |s.published.value.read| > |s.log|
  {
    var (read, open) := (s.published.value.read, s.open.value);
    var rows := s.log + open;
    KeptAll(read, s.lost);
    ReadOpenIff(s, read);
    assert forall row :: Serves(After(s, Fail), row) <==> Serves(s, row);
    if |read| > |s.log| {
      var row := read[|s.log|];
      assert row == rows[|s.log|] == open[0];
      OpenRowIsServed(s, row);
    } else {
      forall row: Row | Serves(s, row)
        ensures row.number !in s.lost + Numbers(open)
      {
        CopyIsInOrder(read, row.record);
      }
    }
  }

  lemma OpenRowIsServed(s: State, row: Row)
    requires Ok(s) && s.published.Some? && !s.published.value.stale && row in s.published.value.read
    ensures Serves(s, row)
  {
    var (read, rows) := (s.published.value.read, s.log + Unsaved(s));
    KeptAll(read, s.lost);
    assert forall k :: 0 <= k < |read| ==> read[k] == rows[k];
    CopyHoldsExactly(read, row.record);
  }

  /** Of the rows up to some point, none is the open action's exactly when the point is within the log. */
  lemma ReadOpenIff(s: State, read: seq<Row>)
    requires Ok(s) && s.open.Some? && read <= s.log + s.open.value
    ensures NoneLost(read, s.lost + Numbers(s.open.value)) <==> |read| <= |s.log|
  {
    var (open, rows) := (s.open.value, s.log + s.open.value);
    assert forall k :: 0 <= k < |read| ==> read[k] == rows[k];
    assert forall k :: 0 <= k < |open| ==> open[k] == rows[|s.log| + k];
    if |read| > |s.log| {
      assert read[|s.log|] == open[0];
    } else {
      forall k | 0 <= k < |read| ensures read[k].number !in Numbers(open) {
        forall j | 0 <= j < |open| ensures open[j].number != read[k].number { assert open[j] == rows[|s.log| + j]; }
      }
    }
  }

  /** From one event to another the process does not restart and no rebuilt copy is published. */
  ghost predicate Unreplaced(states: seq<State>, events: seq<Event>, i: nat, j: nat)
    requires j < |states| && j <= |events|
  {
    forall k :: i <= k < j ==> events[k] != Restart && !Swaps(states[k], events[k])
  }

  /** What was shown of a failed action is shown until a rebuilt copy takes its place, or the process restarts. */
  lemma {:induction false} ShownUntilRebuilt(states: seq<State>, events: seq<Event>, i: nat, j: nat)
    requires IsRun(states, events) && Ok(states[0]) && i <= j < |states| && ServesLost(states[i])
    requires Unreplaced(states, events, i, j)
    ensures ServesLost(states[j])
  {
    if i < j {
      ShownUntilRebuilt(states, events, i, j - 1);
      LostStaysAt(states, events, j - 1);
    }
  }

  lemma LostStaysAt(states: seq<State>, events: seq<Event>, k: nat)
    requires IsRun(states, events) && Ok(states[0]) && k < |events| && ServesLost(states[k])
    requires events[k] != Restart && !Swaps(states[k], events[k])
    ensures ServesLost(states[k + 1])
  {
    NextOfRun(states, events, k);
    LostStaysShown(states[k], events[k], states[k + 1]);
  }

  lemma NextOfRun(states: seq<State>, events: seq<Event>, k: nat)
    requires IsRun(states, events) && Ok(states[0]) && k < |events|
    ensures Ok(states[k]) && Allowed(states[k], events[k]) && states[k + 1] == After(states[k], events[k])
  {
    RunKeeps(states, events, k);
  }

  lemma LostStaysShown(s: State, e: Event, after: State)
    requires Ok(s) && Allowed(s, e) && ServesLost(s) && e != Restart && !Swaps(s, e) && after == After(s, e)
    ensures ServesLost(after)
  {
    var row: Row :| Serves(s, row) && row.number in s.lost;
    ServesLostIff(s, e);
  }

  /** An action that records a version, refreshes and fails: everyone is shown the version until the next refresh. */
  lemma FailureIsShown(record: RecordId, data: string)
    ensures var row := Row(1, record, 1, data); var recorded := State([], Some([row]), 2, {}, None, None);
      && After(After(State([], None, 1, {}, None, None), Begin), Record(record, 1, data)) == recorded
      && var failed := After(After(After(recorded, StartRefresh(true)), ReadBatch), Fail);
         failed.refresh.None? && failed.lost == {1} && Serves(failed, row)
  {
    var row := Row(1, record, 1, data);
    assert [] + [row] == [row] && [row][..0] == [];
    var started := After(State([], Some([row]), 2, {}, None, None), StartRefresh(true));
    assert started == State([], Some([row]), 2, {}, None, Some(Refresh(true, Some(NEW_VIEW))));
    FirstBatch(started, row);
    FirstFailure(row);
  }

  lemma FirstFailure(row: Row)
    requires row.number == 1
    ensures var failed := After(State([], Some([row]), 2, {}, Some(View([row], 1, false)), None), Fail);
      failed.refresh.None? && failed.lost == {1} && Serves(failed, row)
  {
    assert Numbers([row]) == {[row][0].number};
    CopyHoldsExactly([row], row.record);
    assert row in [row];
  }

  lemma FirstBatch(started: State, row: Row)
    requires started == State([], Some([row]), 2, {}, None, Some(Refresh(true, Some(NEW_VIEW)))) && row.number == 1
    ensures After(started, ReadBatch) == State([], Some([row]), 2, {}, Some(View([row], 1, false)), None)
  {
    assert Visible(started) == [row];
    OneIsNewer(row);
    assert NextBatch(started) == [row];
    assert Filled(NEW_VIEW, [row]) == View([row], 1, false);
  }

  lemma OneIsNewer(row: Row)
    requires row.number == 1
    ensures Batch([row], 0) == [row]
  {
    NewerIsTheRest([row], 0, 0);
    assert [row][0..] == [row];
  }

  /** A rebuild leaves the published copy alone until its last batch. */
  lemma {:induction false} RebuildIsAside(states: seq<State>, events: seq<Event>, i: nat, j: nat)
    requires IsRun(states, events) && i < j < |states| && events[i].StartRefresh?
    requires states[i].published.None? || states[i].published.value.stale
    requires forall k :: i < k < j ==>
               && events[k] != Restart && events[k] != Fail && events[k] != BreakRefresh
               && !(events[k] == ReadBatch && |NextBatch(states[k])| < BATCH_SIZE)
    ensures states[j].published == states[i].published && states[j].refresh.Some? && states[j].refresh.value.aside.Some?
  {
    if i + 1 < j {
      RebuildIsAside(states, events, i, j - 1);
      assert Allowed(states[j - 1], events[j - 1]);
      assert states[j] == After(states[j - 1], events[j - 1]);
    }
  }

  /** From one event to another a refresh is in progress and no action fails. */
  ghost predicate Undisturbed(states: seq<State>, events: seq<Event>, i: nat, j: nat)
    requires j < |states| && j <= |events|
  {
    forall k :: i < k < j ==> states[k].refresh.Some? && events[k] != Fail
  }

  /** While no action fails, the copy a refresh fills is not stale, however it was found when the refresh began. */
  lemma {:induction false} RefreshFillsCleanCopy(states: seq<State>, events: seq<Event>, i: nat, j: nat)
    requires IsRun(states, events) && Ok(states[0]) && i < j < |states| && events[i].StartRefresh?
    requires Undisturbed(states, events, i, j)
    ensures states[j].refresh.Some? ==> !Filling(states[j]).stale
    ensures states[j].refresh.None? && events[j - 1] == ReadBatch ==>
      states[j].published.Some? && !states[j].published.value.stale
  {
    var (s, e) := (states[j - 1], events[j - 1]);
    assert Allowed(s, e) && states[j] == After(s, e);
    if i + 1 < j {
      RefreshFillsCleanCopy(states, events, i, j - 1);
      RunKeeps(states, events, j - 1);
      FillingStaysClean(s, e);
    }
  }

  lemma FillingStaysClean(s: State, e: Event)
    requires Ok(s) && Allowed(s, e) && s.refresh.Some? && !Filling(s).stale && e != Fail
    ensures var after := After(s, e);
      && (after.refresh.Some? ==> !Filling(after).stale)
      && (after.refresh.None? && e == ReadBatch ==> after.published.Some? && !after.published.value.stale)
  {}

  /**
   * The first refresh to begin after an action failed, and to end before another does, publishes a copy without
   * a rolled-back row: the log, followed by what an open action has recorded.
   */
  lemma RefreshDiscardsRolledBack(states: seq<State>, events: seq<Event>, i: nat, j: nat)
    requires IsRun(states, events) && Ok(states[0]) && i + 1 < j < |states| && events[i].StartRefresh?
    requires Undisturbed(states, events, i, j)
    requires events[j - 1] == ReadBatch && states[j].refresh.None?
    ensures ShowsAllSaved(states[j])
  {
    CleanBeforeLast(states, events, i, j - 1);
    CleanFinish(states[j - 1], states[j]);
  }

  lemma CleanBeforeLast(states: seq<State>, events: seq<Event>, i: nat, j: nat)
    requires IsRun(states, events) && Ok(states[0]) && i < j < |events| && events[i].StartRefresh?
    requires Undisturbed(states, events, i, j + 1)
    ensures Ok(states[j]) && states[j].refresh.Some? && !Filling(states[j]).stale
      && states[j + 1] == After(states[j], events[j])
  {
    RefreshFillsCleanCopy(states, events, i, j);
    RunKeeps(states, events, j);
  }

  /** The published copy has read the whole log, no rolled-back row, and else only what the open action recorded. */
  ghost predicate ShowsAllSaved(s: State) {
    && s.published.Some? && NoneLost(s.published.value.read, s.lost)
    && s.log <= s.published.value.read <= s.log + Unsaved(s)
  }

  /** The last batch of a refresh that fills a good copy. */
  lemma CleanFinish(s: State, after: State)
    requires Ok(s) && s.refresh.Some? && !Filling(s).stale && after == After(s, ReadBatch) && after.refresh.None?
    ensures ShowsAllSaved(after)
  {
    var view := Filled(Filling(s), NextBatch(s));
    FinishedCoversTheLog(s);
    FilledIsOk(s);
    KeptAll(view.read, s.lost);
    assert after == s.(published := Some(view), refresh := None);
  }

  /** A number of further batches, from one refresh. */
  function Batches(s: State, n: nat): State { if n == 0 then s else After(Batches(s, n - 1), ReadBatch) }

  /** What readers take for good has no rolled-back row. */
  ghost predicate GoodIsClean(s: State) {
    s.published.Some? && !s.published.value.stale ==> NoneLost(s.published.value.read, s.lost)
  }

  /**
   * Why an action must wait for its own refresh. If it failed while the refresh was under way, the copy then published
   * would be good, or marked, exactly when it was not built aside or had not yet read a row of the action.
   */
  lemma FailMidRefreshIff(s: State, n: nat)
    requires Ok(s) && s.open.Some? && s.refresh.Some? && s.refresh.value.inside
    requires Batches(After(s, Fail), n).refresh.None?
    ensures GoodIsClean(Batches(After(s, Fail), n)) <==>
      s.refresh.value.aside.None? || |s.refresh.value.aside.value.read| <= |s.log|
  {
    var (failed, aside) := (After(s, Fail), s.refresh.value.aside);
    if aside.Some? {
      KeptAll(aside.value.read, s.lost);
      ReadOpenIff(s, aside.value.read);
    }
    LogOutlivesRollBack(s);
    assert failed.log + [] == failed.log;
    MidRefreshBatches(failed, n);
  }

  /** A refresh going on after its action failed: the published copy is marked, the one aside is not. */
  ghost predicate MidRefresh(s: State) {
    && s.open.None? && s.refresh.Some? && NoneLost(s.log, s.lost)
    && (s.published.Some? ==> s.published.value.stale)
    && (s.refresh.value.aside.None? ==> s.published.Some?)
    && (s.refresh.value.aside.Some? ==> !s.refresh.value.aside.value.stale)
  }

  /** Whether what the refresh publishes will be marked, or good. */
  ghost predicate WillBeClean(s: State)
    requires s.refresh.Some?
  {
    s.refresh.value.aside.None? || NoneLost(s.refresh.value.aside.value.read, s.lost)
  }

  /** A batch read from the log alone adds no rolled-back row and takes no mark away. */
  lemma MidRefreshBatch(s: State)
    requires MidRefresh(s)
    ensures var after := After(s, ReadBatch);
      if after.refresh.Some? then MidRefresh(after) && (WillBeClean(after) <==> WillBeClean(s))
        else GoodIsClean(after) <==> WillBeClean(s)
  {
    var batch := NextBatch(s);
    assert Visible(s) == s.log;
    BatchIsSeen(s);
    forall k | 0 <= k < |batch| ensures batch[k].number !in s.lost { assert batch[k] in s.log; }
    NoneLostAppends(Filling(s).read, batch, s.lost);
  }

  lemma {:induction false} MidRefreshBatches(s: State, n: nat)
    requires MidRefresh(s)
    ensures var now := Batches(s, n);
      if now.refresh.Some? then MidRefresh(now) && (WillBeClean(now) <==> WillBeClean(s)) else GoodIsClean(now) <==>
        WillBeClean(s)
  {
    if n > 0 {
      MidRefreshBatches(s, n - 1);
      if Batches(s, n - 1).refresh.Some? { MidRefreshBatch(Batches(s, n - 1)); }
    }
  }

  lemma NoneLostAppends(read: seq<Row>, more: seq<Row>, lost: set<nat>)
    requires NoneLost(more, lost)
    ensures NoneLost(read + more, lost) <==> NoneLost(read, lost)
  {
    assert forall k :: 0 <= k < |read| ==> (read + more)[k] == read[k];
  }

  // ------------------------------------------------------------------ the copy as it is kept

  /** One company's copy: its stores, the last version number brought in, and the mark a failed action leaves. */
  class Copy {
    var stores: Stores
    var last: nat
    var stale: bool
    ghost var read: seq<Row>

    ghost predicate Valid()
      reads this
    {
      stores == CopyOf(read)
    }

    ghost function AsView(): View
      reads this
    {
      View(read, last, stale)
    }

    constructor ()
      ensures Valid() && AsView() == NEW_VIEW
    {
      stores, last, stale, read := map[], 0, false, [];
    }

    method RestoreOne(row: Row)
      requires Valid()
      modifies this`stores, this`read
      ensures Valid() && read == old(read) + [row]
    {
      CopyOfOneMore(read, row);
      stores, read := Restore(stores, row), read + [row];
    }

    method RestoreAll(batch: seq<Row>)
      requires Valid()
      modifies this
      ensures Valid() && AsView() == Filled(old(AsView()), batch)
    {
      var k := 0;
      ghost var before := read;
      while k < |batch|
        invariant 0 <= k <= |batch| && Valid() && read == before + batch[..k]
        modifies this`stores, this`read
      {
        RestoreOne(batch[k]);
        FirstAndNext(before, batch, k);
        k := k + 1;
      }
      FirstAndNext(before, batch, k);
      if batch != [] { last := batch[|batch| - 1].number; }
    }

    /**
     * Batch after batch until one is short. The log may grow meanwhile: `logs(i)` is what the i-th query finds, and `n`
     * how much of it the copy had read.
     */
    method CatchUp(logs: nat -> seq<Row>, ghost whole: seq<Row>, ghost n: nat) returns (ghost queries: nat)
      requires Valid() && Growing(logs, whole) && n <= |logs(0)| && SplitsAt(whole, n, last) && read == whole[..n]
      modifies this
      ensures Valid() && read == logs(queries) && stale == old(stale) && SplitsAt(whole, |read|, last)
    {
      ghost var at := n;
      var i := 0;
      while true
        invariant Valid() && at <= |logs(i)| && SplitsAt(whole, at, last) && read == whole[..at] && stale == old(stale)
        decreases |whole| - at
      {
        FilledReadsOn(whole, logs(i), at, AsView());
        var batch := Batch(logs(i), last);
        RestoreAll(batch);
        at := at + |batch|;
        if |batch| < BATCH_SIZE { return i; }
        i := i + 1;
      }
    }
  }

  /** A log that only grows at its end, and not for ever. */
  ghost predicate Growing(logs: nat -> seq<Row>, whole: seq<Row>) {
    Increasing(whole) && (forall i :: logs(i) <= whole) && forall i, j :: i <= j ==> |logs(i)| <= |logs(j)|
  }

  /** The copies a process keeps, by company. */
  class Copies {
    var views: map<string, Copy>

    constructor ()
      ensures views == map[]
    {
      views := map[];
    }

    /**
     * `refreshMasterView`, while the log may grow: a good copy is carried on in place, a stale or missing one is
     * rebuilt aside and swapped in. `n` is how much of the log the copy had read.
     */
    method RefreshMasterView(company: string, logs: nat -> seq<Row>, ghost whole: seq<Row>, ghost n: nat)
        returns (ghost queries: nat)
      requires Growing(logs, whole) && n <= |logs(0)| && forall i :: 0 <= i < |whole| ==> whole[i].number > 0
      requires company in views ==> views[company].Valid()
      requires company in views && !views[company].stale ==>
        SplitsAt(whole, n, views[company].last) && views[company].read == whole[..n]
      modifies this, if company in views && !views[company].stale then {views[company]} else {}
      ensures company in views && views == old(views)[company := views[company]]
      ensures views[company].Valid() && !views[company].stale && views[company].read == logs(queries)
      ensures fresh(views[company]) <==> old(company !in views || views[company].stale)
      ensures old(company in views && !views[company].stale) ==> views[company] == old(views[company])
    {
      if company !in views || views[company].stale {
        var view := new Copy();
        assert whole[..0] == [];
        queries := view.CatchUp(logs, whole, 0);
        views := views[company := view];
      } else {
        queries := views[company].CatchUp(logs, whole, n);
      }
    }

    /** `forgetMasterView`: marks the copy; nothing else changes. */
    method ForgetMasterView(company: string)
      modifies if company in views then {views[company]} else {}
      ensures views == old(views)
      ensures company in views ==> views[company].stale && views[company].read == old(views[company].read)
      ensures company in views ==>
                && views[company].stores == old(views[company].stores)
                && views[company].last == old(views[company].last)
    {
      if company in views { views[company].stale := true; }
    }
  }
}
