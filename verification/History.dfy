/** The client's durable history (internal/history/history.go): one table in arrival order, bounded
    by age and by size after every append, with every time stored and compared as text. */
module History {
  import opened Basics
  import opened Envelopes
  import opened MessageLog
  import opened Strings
  import opened StoredTime

  /** What an append was asked to record, and when. */
  datatype Entry = Entry(message: Message, conversation: string, stored: Instant)

  /** What the table holds: the same with its times as text. */
  datatype Row = Row(
    id: string, conversation: string, sender: string, recipient: string, body: string,
    sentAt: string, receivedAt: string, storedAt: string)

  /** How times are written, read, and compared by the database; the store uses formatStoredTime,
      parseStoredTime and SQLite's text order. */
  datatype Layout = Layout(
    text: Instant -> string,
    parse: string -> Option<Instant>,
    atMost: (string, string) -> bool)

  function StoredLayout(): Layout {
    Layout(Format, Parse, AtMost)
  }

  /** What the store needs of a layout: text compares as time does, and reads back exactly for the
      years it was made for. */
  ghost predicate Faithful(layout: Layout) {
    OrdersCutoffs(layout) && OrdersEarlyBounds(layout) && ReadsBackExactly(layout)
  }

  ghost predicate OrdersCutoffs(layout: Layout) {
    forall cutoff, t | cutoff < END && 0 <= t < END ::
      layout.atMost(layout.text(t), layout.text(cutoff)) <==> t <= cutoff
  }

  ghost predicate OrdersEarlyBounds(layout: Layout) {
    forall bound, t | bound < 0 <= t < END :: layout.atMost(layout.text(bound), layout.text(t))
  }

  ghost predicate ReadsBackExactly(layout: Layout) {
    forall t :: layout.parse(layout.text(t)) == if 0 <= t < END then Some(t) else None
  }

  lemma StoredLayoutOrdersCutoffs()
    ensures OrdersCutoffs(StoredLayout())
  {
    var layout := StoredLayout();
    forall cutoff, t | cutoff < END && 0 <= t < END
      ensures layout.atMost(layout.text(t), layout.text(cutoff)) <==> t <= cutoff
    {
      CutoffOrder(cutoff, t);
    }
  }

  lemma StoredLayoutOrdersEarlyBounds()
    ensures OrdersEarlyBounds(StoredLayout())
  {
    var layout := StoredLayout();
    forall bound, t | bound < 0 <= t < END ensures layout.atMost(layout.text(bound), layout.text(t)) {
      EarlyBound(bound, t);
    }
  }

  lemma StoredTimeReadsBack(layout: Layout, t: Instant)
    requires layout == StoredLayout()
    ensures layout.parse(layout.text(t)) == if 0 <= t < END then Some(t) else None
  {
    ParseInvertsFormat(t);
    assert layout.text(t) == Format(t);
    assert layout.parse(Format(t)) == Parse(Format(t));
  }

  lemma StoredLayoutReadsBack(layout: Layout)
    requires layout == StoredLayout()
    ensures ReadsBackExactly(layout)
  {
    forall t ensures layout.parse(layout.text(t)) == if 0 <= t < END then Some(t) else None {
      StoredTimeReadsBack(layout, t);
    }
  }

  lemma StoredLayoutIsFaithful()
    ensures Faithful(StoredLayout())
  {
    StoredLayoutOrdersCutoffs();
    StoredLayoutOrdersEarlyBounds();
    StoredLayoutReadsBack(StoredLayout());
  }

  function RowOf(layout: Layout, e: Entry): Row {
    Row(e.message.id, e.conversation, e.message.sender, e.message.recipient, e.message.body,
        layout.text(e.message.sentAt), layout.text(e.message.receivedAt), layout.text(e.stored))
  }

  function Rows(layout: Layout, es: seq<Entry>): (rows: seq<Row>)
    ensures |rows| == |es|
    ensures forall i | 0 <= i < |es| :: rows[i] == RowOf(layout, es[i])
  {
    seq(|es|, i requires 0 <= i < |es| => RowOf(layout, es[i]))
  }

  datatype Limits = Limits(ttl: int, maxRows: int)

  // ---------------------------------------------------------------------------
  // The statements
  // ---------------------------------------------------------------------------

  predicate Known(rows: seq<Row>, id: string) {
    exists i :: 0 <= i < |rows| && rows[i].id == id
  }

  /** INSERT OR IGNORE under the unique message ID. */
  function Insert(rows: seq<Row>, row: Row): seq<Row> {
    if Known(rows, row.id) then rows else rows + [row]
  }

  /** What is left after deleting every row stored at or before the cutoff. */
  function Unexpired(layout: Layout, rows: seq<Row>, cutoff: string): seq<Row> {
    if rows == [] then []
    else
      var last := rows[|rows| - 1];
      Unexpired(layout, rows[..|rows| - 1], cutoff) + if layout.atMost(last.storedAt, cutoff) then [] else [last]
  }

  /** What is left after deleting the n oldest. */
  function DropOldest<T>(rows: seq<T>, n: int): seq<T> {
    if n <= 0 then rows else if n >= |rows| then [] else rows[n..]
  }

  function Enforce(layout: Layout, limits: Limits, rows: seq<Row>, now: Instant): seq<Row> {
    var live := Unexpired(layout, rows, layout.text(now - limits.ttl));
    DropOldest(live, |live| - limits.maxRows)
  }

  /** Both bounds hold: no row has expired, and there are no more than the cap. */
  ghost predicate Within(layout: Layout, limits: Limits, rows: seq<Row>, now: Instant) {
    && (forall row | row in rows :: !layout.atMost(row.storedAt, layout.text(now - limits.ttl)))
    && (limits.maxRows >= 0 ==> |rows| <= limits.maxRows)
  }

  lemma {:induction false} UnexpiredIsExact(layout: Layout, rows: seq<Row>, cutoff: string, row: Row)
    ensures row in Unexpired(layout, rows, cutoff) <==> row in rows && !layout.atMost(row.storedAt, cutoff)
  {
    if rows != [] {
      UnexpiredIsExact(layout, rows[..|rows| - 1], cutoff, row);
      assert rows == rows[..|rows| - 1] + [rows[|rows| - 1]];
    }
  }

  lemma EnforcedIsWithin(layout: Layout, limits: Limits, rows: seq<Row>, now: Instant)
    ensures Within(layout, limits, Enforce(layout, limits, rows, now), now)
  {
    var cutoff := layout.text(now - limits.ttl);
    var live := Unexpired(layout, rows, cutoff);
    forall row | row in Enforce(layout, limits, rows, now) ensures !layout.atMost(row.storedAt, cutoff) {
      assert row in live;
      UnexpiredIsExact(layout, rows, cutoff, row);
    }
  }

  // ---------------------------------------------------------------------------
  // Runs of the store
  // ---------------------------------------------------------------------------

  datatype State = State(rows: seq<Row>, clock: Instant)

  /** `wait` and `work` are how far the clock moved before the insert and before its sweep. */
  datatype Event =
    | Append(local: string, message: Message, wait: int, work: int)
    | Reopen(wait: int)

  /** Refused appends: no local name, or no message ID. */
  predicate Refused(e: Event) {
    e.Append? && (e.local == "" || e.message.id == "")
  }

  /** What an append files, stamped with the clock at the insert. */
  function EntryFor(e: Event, clock: Instant): Entry
    requires e.Append?
  {
    Entry(e.message, ConversationKey(e.local, e.message), clock + e.wait)
  }

  /** When the event's retention sweep reads the clock. */
  function SweepTime(e: Event, clock: Instant): Instant {
    if e.Append? then clock + e.wait + e.work else clock + e.wait
  }

  function Step(layout: Layout, limits: Limits, s: State, e: Event): State {
    if Refused(e) then s
    else
      var rows := if e.Append? then Insert(s.rows, RowOf(layout, EntryFor(e, s.clock))) else s.rows;
      State(Enforce(layout, limits, rows, SweepTime(e, s.clock)), SweepTime(e, s.clock))
  }

  function Run(layout: Layout, limits: Limits, s: State, es: seq<Event>): State {
    if es == [] then s else Step(layout, limits, Run(layout, limits, s, es[..|es| - 1]), es[|es| - 1])
  }

  // ---------------------------------------------------------------------------
  // The same store kept by time: entries instead of text, and a record of every insertion
  // ---------------------------------------------------------------------------

  /** `swept` is the reading of the latest retention sweep. */
  datatype Ideal = Ideal(kept: seq<Entry>, inserted: seq<Entry>, clock: Instant, swept: Instant)

  function Younger(es: seq<Entry>, cutoff: Instant): seq<Entry> {
    if es == [] then []
    else
      var last := es[|es| - 1];
      Younger(es[..|es| - 1], cutoff) + if last.stored <= cutoff then [] else [last]
  }

  function Newest(limits: Limits, es: seq<Entry>, now: Instant): seq<Entry> {
    var live := Younger(es, now - limits.ttl);
    DropOldest(live, |live| - limits.maxRows)
  }

  predicate Holds(es: seq<Entry>, id: string) {
    exists i :: 0 <= i < |es| && es[i].message.id == id
  }

  function Swept(limits: Limits, s: Ideal, now: Instant): Ideal {
    s.(kept := Newest(limits, s.kept, now), clock := now, swept := now)
  }

  function Inserted(s: Ideal, e: Entry): Ideal {
    if Holds(s.kept, e.message.id) then s.(clock := e.stored)
    else s.(kept := s.kept + [e], inserted := s.inserted + [e], clock := e.stored)
  }

  function IdealStep(limits: Limits, s: Ideal, e: Event): Ideal {
    if Refused(e) then s
    else
      var mid := if e.Append? then Inserted(s, EntryFor(e, s.clock)) else s;
      Swept(limits, mid, SweepTime(e, s.clock))
  }

  function IdealRun(limits: Limits, s: Ideal, es: seq<Event>): Ideal {
    if es == [] then s else IdealStep(limits, IdealRun(limits, s, es[..|es| - 1]), es[|es| - 1])
  }

  function Empty(now: Instant): Ideal {
    Ideal([], [], now, now)
  }

  ghost predicate Forward(e: Event) {
    e.wait >= 0 && (e.Append? ==> e.work >= 0)
  }

  // ---------------------------------------------------------------------------
  // Kept by time, the table is the longest suffix within both bounds
  // ---------------------------------------------------------------------------

  /** Stored in clock order, from year 0 on and no later than `clock`. */
  ghost predicate InOrder(es: seq<Entry>, clock: Instant) {
    es != [] ==>
      var last := es[|es| - 1].stored;
      0 <= last <= clock && InOrder(es[..|es| - 1], last)
  }

  /** From k on, nothing is expired and the size bound holds; one row more would break a bound. */
  ghost predicate LongestWithin(limits: Limits, es: seq<Entry>, k: nat, now: Instant) {
    && k <= |es| && |es| - k <= limits.maxRows
    && (forall i | k <= i < |es| :: es[i].stored > now - limits.ttl)
    && (k > 0 ==> es[k - 1].stored <= now - limits.ttl || |es| - k == limits.maxRows)
  }

  ghost predicate IsSuffix(kept: seq<Entry>, es: seq<Entry>) {
    |kept| <= |es| && kept == es[|es| - |kept|..]
  }

  /** No message ID occurs twice. */
  ghost predicate DistinctIds(es: seq<Entry>) {
    es != [] ==> !Holds(es[..|es| - 1], es[|es| - 1].message.id) && DistinctIds(es[..|es| - 1])
  }

  /** The table is a suffix of the insertions, and was the longest one for the first `had` of them. */
  ghost predicate SuffixSince(limits: Limits, s: Ideal, had: nat) {
    && IsSuffix(s.kept, s.inserted) && |s.inserted| - |s.kept| <= had <= |s.inserted|
    && LongestWithin(limits, s.inserted[..had], |s.inserted| - |s.kept|, s.swept)
  }

  ghost predicate Sane(s: Ideal) {
    InOrder(s.inserted, s.clock) && s.swept <= s.clock && DistinctIds(s.kept)
  }

  ghost predicate Inv(limits: Limits, s: Ideal) {
    Sane(s) && LatestWithin(limits, s)
  }

  /** The table is the longest suffix of the insertions within both bounds as of the latest sweep. */
  ghost predicate LatestWithin(limits: Limits, s: Ideal) {
    IsSuffix(s.kept, s.inserted) && LongestWithin(limits, s.inserted, |s.inserted| - |s.kept|, s.swept)
  }

  /** Expiry splits es at f. */
  ghost predicate ExpiresBefore(es: seq<Entry>, f: nat, cutoff: Instant) {
    && f <= |es|
    && (forall i | 0 <= i < f :: es[i].stored <= cutoff)
    && (forall i | f <= i < |es| :: es[i].stored > cutoff)
  }

  lemma {:induction false} AllOldEnough(es: seq<Entry>, clock: Instant)
    requires InOrder(es, clock)
    ensures forall i | 0 <= i < |es| :: 0 <= es[i].stored <= clock
  {
    if es != [] {
      AllOldEnough(es[..|es| - 1], es[|es| - 1].stored);
    }
  }

  lemma {:induction false} LaterClock(es: seq<Entry>, clock: Instant, later: Instant)
    requires InOrder(es, clock) && clock <= later
    ensures InOrder(es, later)
  {
  }

  /** On entries in clock order, expiry removes a prefix. */
  lemma {:induction false} ExpiryRemovesAPrefix(es: seq<Entry>, cutoff: Instant, clock: Instant) returns (f: nat)
    requires InOrder(es, clock)
    ensures ExpiresBefore(es, f, cutoff) && Younger(es, cutoff) == es[f..]
  {
    if es == [] {
      f := 0;
    } else {
      var init, last := es[..|es| - 1], es[|es| - 1];
      f := ExpiryRemovesAPrefix(init, cutoff, last.stored);
      AllOldEnough(init, last.stored);
      assert es == init + [last];
      PrefixGrows(init, last, f, cutoff);
      YoungerOneMore(init, last, cutoff);
      f := if last.stored <= cutoff then |es| else f;
    }
  }

  lemma YoungerOneMore(init: seq<Entry>, last: Entry, cutoff: Instant)
    ensures Younger(init + [last], cutoff) == Younger(init, cutoff) + if last.stored <= cutoff then [] else [last]
  {
    assert (init + [last])[..|init|] == init;
  }

  lemma PrefixGrows(init: seq<Entry>, last: Entry, f: nat, cutoff: Instant)
    requires ExpiresBefore(init, f, cutoff)
    requires forall i | 0 <= i < |init| :: 0 <= init[i].stored <= last.stored
    ensures last.stored <= cutoff ==> init[f..] + [] == [] == (init + [last])[|init| + 1..]
    ensures last.stored <= cutoff ==> ExpiresBefore(init + [last], |init| + 1, cutoff)
    ensures last.stored > cutoff ==>
      init[f..] + [last] == (init + [last])[f..] && ExpiresBefore(init + [last], f, cutoff)
  {
    var all := init + [last];
    assert all[|init|] == last && forall i | 0 <= i < |init| :: all[i] == init[i];
    if last.stored <= cutoff {
      AllExpired(init, f, cutoff, last.stored);
    }
  }

  lemma AllExpired(es: seq<Entry>, f: nat, cutoff: Instant, last: Instant)
    requires ExpiresBefore(es, f, cutoff) && last <= cutoff
    requires forall i | 0 <= i < |es| :: 0 <= es[i].stored <= last
    ensures f == |es| && es[f..] == []
  {
    if f < |es| { FirstLive(es, f, cutoff); }
  }

  lemma FirstLive(es: seq<Entry>, f: nat, cutoff: Instant)
    requires ExpiresBefore(es, f, cutoff) && f < |es|
    ensures es[f].stored > cutoff
  {
  }

  /** Both deletes together keep exactly a suffix. */
  lemma NewestIsASuffix(limits: Limits, es: seq<Entry>, now: Instant) returns (k: nat)
    requires limits.ttl > 0 && limits.maxRows > 0 && InOrder(es, now)
    ensures k <= |es| && Newest(limits, es, now) == es[k..]
    ensures LongestWithin(limits, es, k, now)
  {
    var f := ExpiryRemovesAPrefix(es, now - limits.ttl, now);
    NewestIs(limits, es, now, es[f..]);
    k := SizeCutsFurther(limits, es, f, now);
  }

  lemma SizeCutsFurther(limits: Limits, es: seq<Entry>, f: nat, now: Instant) returns (k: nat)
    requires limits.maxRows > 0 && ExpiresBefore(es, f, now - limits.ttl)
    ensures k <= |es| && DropOldest(es[f..], |es[f..]| - limits.maxRows) == es[k..]
    ensures LongestWithin(limits, es, k, now)
  {
    var extra := |es| - f - limits.maxRows;
    k := if extra > 0 then f + extra else f;
    if extra > 0 {
      assert es[f..][extra..] == es[k..];
    }
  }

  /** A suffix cut again is as long as the bounds allow, because time only makes rows older. */
  lemma CutAgain(limits: Limits, all: seq<Entry>, had: nat, a: nat, k: nat, before: Instant, now: Instant)
    requires a <= had <= |all| && LongestWithin(limits, all[..had], a, before) && before <= now
    requires k <= |all| - a && LongestWithin(limits, all[a..], k, now)
    ensures LongestWithin(limits, all, a + k, now)
  {
    var tail := all[a..];
    forall i | a + k <= i < |all| ensures all[i].stored > now - limits.ttl {
      assert all[i] == tail[i - a];
    }
    if k > 0 {
      assert all[a + k - 1] == tail[k - 1];
    } else if a > 0 {
      assert all[a - 1] == all[..had][a - 1];
    }
  }

  lemma {:induction false} InOrderSuffix(es: seq<Entry>, a: nat, clock: Instant)
    requires InOrder(es, clock) && a <= |es|
    ensures InOrder(es[a..], clock)
  {
    if a < |es| {
      InOrderSuffix(es[..|es| - 1], a, es[|es| - 1].stored);
      assert es[a..][..|es[a..]| - 1] == es[..|es| - 1][a..];
    }
  }

  lemma SuffixHoldsLess(es: seq<Entry>, k: nat, id: string)
    requires k <= |es| && !Holds(es, id)
    ensures !Holds(es[k..], id)
  {
    assert forall i | 0 <= i < |es[k..]| :: es[k..][i] == es[k + i];
  }

  lemma {:induction false} SuffixKeepsIds(es: seq<Entry>, k: nat)
    requires DistinctIds(es) && k <= |es|
    ensures DistinctIds(es[k..])
  {
    if k < |es| {
      var init, last, tail := es[..|es| - 1], es[|es| - 1], es[k..];
      SuffixKeepsIds(init, k);
      SuffixHoldsLess(init, k, last.message.id);
      assert tail[..|tail| - 1] == init[k..] && tail[|tail| - 1] == last;
    }
  }

  lemma KeptInOrder(s: Ideal, later: Instant)
    requires Sane(s) && IsSuffix(s.kept, s.inserted) && s.clock <= later
    ensures InOrder(s.kept, later)
  {
    InOrderSuffix(s.inserted, |s.inserted| - |s.kept|, s.clock);
    LaterClock(s.kept, s.clock, later);
  }

  lemma SuffixOfSuffix(kept: seq<Entry>, all: seq<Entry>, k: nat)
    requires IsSuffix(kept, all) && k <= |kept|
    ensures IsSuffix(kept[k..], all)
  {
  }

  lemma SweepKeepsSane(limits: Limits, s: Ideal, k: nat, now: Instant)
    requires Sane(s) && s.clock <= now
    requires k <= |s.kept| && Newest(limits, s.kept, now) == s.kept[k..]
    ensures Sane(Swept(limits, s, now))
  {
    LaterClock(s.inserted, s.clock, now);
    SuffixKeepsIds(s.kept, k);
  }

  lemma SweepCutsAgain(limits: Limits, s: Ideal, had: nat, k: nat, now: Instant)
    requires SuffixSince(limits, s, had) && s.swept <= now
    requires k <= |s.kept| && Newest(limits, s.kept, now) == s.kept[k..] && LongestWithin(limits, s.kept, k, now)
    ensures LatestWithin(limits, Swept(limits, s, now))
  {
    CutAgain(limits, s.inserted, had, |s.inserted| - |s.kept|, k, s.swept, now);
    SuffixOfSuffix(s.kept, s.inserted, k);
  }

  lemma SweepRestoresInv(limits: Limits, s: Ideal, had: nat, now: Instant)
    requires limits.ttl > 0 && limits.maxRows > 0
    requires Sane(s) && SuffixSince(limits, s, had) && s.clock <= now
    ensures Inv(limits, Swept(limits, s, now))
  {
    KeptInOrder(s, now);
    var k := NewestIsASuffix(limits, s.kept, now);
    SweepKeepsSane(limits, s, k, now);
    SweepCutsAgain(limits, s, had, k, now);
  }

  lemma InsertKeepsSane(s: Ideal, e: Entry)
    requires Sane(s) && 0 <= s.clock <= e.stored
    ensures Sane(Inserted(s, e))
  {
    LaterClock(s.inserted, s.clock, e.stored);
    if !Holds(s.kept, e.message.id) {
      assert (s.inserted + [e])[..|s.inserted|] == s.inserted;
      assert (s.kept + [e])[..|s.kept|] == s.kept;
    }
  }

  lemma InsertKeepsSuffix(limits: Limits, s: Ideal, e: Entry)
    requires LatestWithin(limits, s)
    ensures SuffixSince(limits, Inserted(s, e), |s.inserted|)
  {
    if !Holds(s.kept, e.message.id) {
      var a := |s.inserted| - |s.kept|;
      assert (s.inserted + [e])[a..] == s.inserted[a..] + [e];
      assert (s.inserted + [e])[..|s.inserted|] == s.inserted;
    } else {
      assert s.inserted[..|s.inserted|] == s.inserted;
    }
  }

  lemma AppendKeepsInv(limits: Limits, s: Ideal, e: Entry, now: Instant)
    requires limits.ttl > 0 && limits.maxRows > 0
    requires Inv(limits, s) && 0 <= s.clock <= e.stored <= now
    ensures Inv(limits, Swept(limits, Inserted(s, e), now))
  {
    InsertKeepsSane(s, e);
    InsertKeepsSuffix(limits, s, e);
    var mid := Inserted(s, e);
    assert mid.clock == e.stored;
    SweepRestoresInv(limits, mid, |s.inserted|, now);
  }

  lemma ReopenKeepsInv(limits: Limits, s: Ideal, now: Instant)
    requires limits.ttl > 0 && limits.maxRows > 0
    requires Inv(limits, s) && s.clock <= now
    ensures Inv(limits, Swept(limits, s, now))
  {
    assert s.inserted[..|s.inserted|] == s.inserted;
    SweepRestoresInv(limits, s, |s.inserted|, now);
  }

  lemma StepKeepsInv(limits: Limits, s: Ideal, e: Event)
    requires limits.ttl > 0 && limits.maxRows > 0
    requires Inv(limits, s) && 0 <= s.clock && Forward(e)
    ensures Inv(limits, IdealStep(limits, s, e)) && s.clock <= IdealStep(limits, s, e).clock
  {
    if e.Reopen? {
      ReopenKeepsInv(limits, s, SweepTime(e, s.clock));
    } else if !Refused(e) {
      AppendKeepsInv(limits, s, EntryFor(e, s.clock), SweepTime(e, s.clock));
    }
  }

  lemma {:induction false} RunKeepsInv(limits: Limits, now: Instant, es: seq<Event>)
    requires limits.ttl > 0 && limits.maxRows > 0 && now >= 0
    requires forall e | e in es :: Forward(e)
    ensures Inv(limits, IdealRun(limits, Empty(now), es))
    ensures IdealRun(limits, Empty(now), es).clock >= now
  {
    if es != [] {
      RunKeepsInv(limits, now, es[..|es| - 1]);
      StepKeepsInv(limits, IdealRun(limits, Empty(now), es[..|es| - 1]), es[|es| - 1]);
    }
  }

  // ---------------------------------------------------------------------------
  // Retention by text is retention by time
  // ---------------------------------------------------------------------------

  ghost predicate Dated(es: seq<Entry>) {
    forall e | e in es :: 0 <= e.stored < END
  }

  lemma UnexpiredOneMore(layout: Layout, rows: seq<Row>, row: Row, cutoff: string)
    ensures Unexpired(layout, rows + [row], cutoff)
         == Unexpired(layout, rows, cutoff) + if layout.atMost(row.storedAt, cutoff) then [] else [row]
  {
    assert (rows + [row])[..|rows|] == rows;
  }

  lemma RowsOneMore(layout: Layout, es: seq<Entry>, e: Entry)
    ensures Rows(layout, es + [e]) == Rows(layout, es) + [RowOf(layout, e)]
  {
  }

  lemma OneMoreJudgedAlike(layout: Layout, es: seq<Entry>, e: Entry, cutoff: Instant, text: string)
    requires layout.atMost(layout.text(e.stored), text) <==> e.stored <= cutoff
    requires Unexpired(layout, Rows(layout, es), text) == Rows(layout, Younger(es, cutoff))
    ensures Unexpired(layout, Rows(layout, es + [e]), text) == Rows(layout, Younger(es + [e], cutoff))
  {
    RowsOneMore(layout, es, e);
    UnexpiredOneMore(layout, Rows(layout, es), RowOf(layout, e), text);
    YoungerOneMore(es, e, cutoff);
    RowsOneMore(layout, Younger(es, cutoff), e);
  }

  lemma {:induction false} UnexpiredIsYounger(layout: Layout, es: seq<Entry>, cutoff: Instant)
    requires Faithful(layout) && Dated(es) && cutoff < END
    ensures Unexpired(layout, Rows(layout, es), layout.text(cutoff)) == Rows(layout, Younger(es, cutoff))
  {
    if es != [] {
      var init, last := es[..|es| - 1], es[|es| - 1];
      assert es == init + [last];
      UnexpiredIsYounger(layout, init, cutoff);
      OneMoreJudgedAlike(layout, init, last, cutoff, layout.text(cutoff));
    }
  }

  lemma RowsDropOldest(layout: Layout, es: seq<Entry>, n: int)
    ensures DropOldest(Rows(layout, es), n) == Rows(layout, DropOldest(es, n))
  {
  }

  lemma EnforceIs(layout: Layout, limits: Limits, rows: seq<Row>, now: Instant, live: seq<Row>)
    requires Unexpired(layout, rows, layout.text(now - limits.ttl)) == live
    ensures Enforce(layout, limits, rows, now) == DropOldest(live, |live| - limits.maxRows)
  {
  }

  lemma NewestIs(limits: Limits, es: seq<Entry>, now: Instant, live: seq<Entry>)
    requires live == Younger(es, now - limits.ttl)
    ensures Newest(limits, es, now) == DropOldest(live, |live| - limits.maxRows)
  {
  }

  lemma DroppedAlike(layout: Layout, rows: seq<Row>, es: seq<Entry>, live: seq<Entry>, n: int)
    requires rows == DropOldest(Rows(layout, live), n) && es == DropOldest(live, n)
    ensures rows == Rows(layout, es)
  {
    RowsDropOldest(layout, live, n);
  }

  lemma EnforceOnEntries(layout: Layout, limits: Limits, es: seq<Entry>, live: seq<Entry>, now: Instant)
    requires Unexpired(layout, Rows(layout, es), layout.text(now - limits.ttl)) == Rows(layout, live)
    ensures Enforce(layout, limits, Rows(layout, es), now) == DropOldest(Rows(layout, live), |live| - limits.maxRows)
  {
    EnforceIs(layout, limits, Rows(layout, es), now, Rows(layout, live));
  }

  lemma EnforceDropsFromYounger(layout: Layout, limits: Limits, es: seq<Entry>, live: seq<Entry>, now: Instant)
    requires Faithful(layout) && Dated(es) && now - limits.ttl < END && live == Younger(es, now - limits.ttl)
    ensures Enforce(layout, limits, Rows(layout, es), now) == DropOldest(Rows(layout, live), |live| - limits.maxRows)
  {
    UnexpiredIsYounger(layout, es, now - limits.ttl);
    EnforceOnEntries(layout, limits, es, live, now);
  }

  lemma NewestDropsAlike(layout: Layout, limits: Limits, es: seq<Entry>, live: seq<Entry>, now: Instant, rows: seq<Row>)
    requires live == Younger(es, now - limits.ttl) && rows == DropOldest(Rows(layout, live), |live| - limits.maxRows)
    ensures rows == Rows(layout, Newest(limits, es, now))
  {
    NewestIs(limits, es, now, live);
    DroppedAlike(layout, rows, Newest(limits, es, now), live, |live| - limits.maxRows);
  }

  /** Deleting by comparing texts deletes what comparing instants would. */
  lemma TextRetentionIsTimeRetention(layout: Layout, limits: Limits, es: seq<Entry>, now: Instant)
    requires Faithful(layout) && Dated(es) && now - limits.ttl < END
    ensures Enforce(layout, limits, Rows(layout, es), now) == Rows(layout, Newest(limits, es, now))
  {
    var live := Younger(es, now - limits.ttl);
    EnforceDropsFromYounger(layout, limits, es, live, now);
    NewestDropsAlike(layout, limits, es, live, now, Enforce(layout, limits, Rows(layout, es), now));
  }

  lemma KnownIsHeld(layout: Layout, es: seq<Entry>, id: string)
    ensures Known(Rows(layout, es), id) <==> Holds(es, id)
  {
    var rows := Rows(layout, es);
    assert forall i | 0 <= i < |es| :: rows[i].id == es[i].message.id;
  }

  lemma InsertAgrees(layout: Layout, s: Ideal, e: Entry)
    ensures Insert(Rows(layout, s.kept), RowOf(layout, e)) == Rows(layout, Inserted(s, e).kept)
  {
    KnownIsHeld(layout, s.kept, e.message.id);
    RowsOneMore(layout, s.kept, e);
  }

  /** The store that holds the ideal's entries as text. */
  function Stored(layout: Layout, s: Ideal): State {
    State(Rows(layout, s.kept), s.clock)
  }

  lemma KeptIsDated(s: Ideal)
    requires Sane(s) && IsSuffix(s.kept, s.inserted) && s.clock < END
    ensures Dated(s.kept)
  {
    KeptInOrder(s, s.clock);
    AllOldEnough(s.kept, s.clock);
  }

  lemma SweepRefines(layout: Layout, limits: Limits, s: Ideal, now: Instant)
    requires Faithful(layout) && limits.ttl > 0
    requires Sane(s) && IsSuffix(s.kept, s.inserted) && s.clock <= now < END
    ensures Enforce(layout, limits, Rows(layout, s.kept), now) == Rows(layout, Swept(limits, s, now).kept)
  {
    KeptIsDated(s);
    TextRetentionIsTimeRetention(layout, limits, s.kept, now);
  }

  lemma AppendRefines(layout: Layout, limits: Limits, s: Ideal, e: Entry, now: Instant)
    requires Faithful(layout) && limits.ttl > 0
    requires Inv(limits, s) && 0 <= s.clock <= e.stored <= now < END
    ensures Enforce(layout, limits, Insert(Rows(layout, s.kept), RowOf(layout, e)), now)
         == Rows(layout, Swept(limits, Inserted(s, e), now).kept)
  {
    InsertKeepsSane(s, e);
    InsertKeepsSuffix(limits, s, e);
    InsertAgrees(layout, s, e);
    SweepRefines(layout, limits, Inserted(s, e), now);
  }

  /** Stepping the text store is storing the stepped ideal. */
  lemma StepRefines(layout: Layout, limits: Limits, s: Ideal, e: Event)
    requires Faithful(layout) && limits.ttl > 0
    requires Inv(limits, s) && 0 <= s.clock && Forward(e) && (Refused(e) || SweepTime(e, s.clock) < END)
    ensures Step(layout, limits, Stored(layout, s), e) == Stored(layout, IdealStep(limits, s, e))
  {
    if e.Reopen? {
      SweepRefines(layout, limits, s, SweepTime(e, s.clock));
    } else if !Refused(e) {
      AppendRefines(layout, limits, s, EntryFor(e, s.clock), SweepTime(e, s.clock));
    }
  }

  lemma {:induction false} RunRefines(layout: Layout, limits: Limits, now: Instant, es: seq<Event>)
    requires Faithful(layout) && limits.ttl > 0 && limits.maxRows > 0 && now >= 0
    requires forall e | e in es :: Forward(e)
    requires IdealRun(limits, Empty(now), es).clock < END
    ensures Run(layout, limits, State([], now), es) == Stored(layout, IdealRun(limits, Empty(now), es))
  {
    if es != [] {
      var init, last := es[..|es| - 1], es[|es| - 1];
      var s := IdealRun(limits, Empty(now), init);
      RunKeepsInv(limits, now, init);
      assert s.clock <= IdealStep(limits, s, last).clock by { StepKeepsInv(limits, s, last); }
      RunRefines(layout, limits, now, init);
      StepRefines(layout, limits, s, last);
    }
  }

  /** Whatever was appended and however often the store was reopened, as long as the clock does not
      run backwards (and stays before year 10000) the table is the longest run of latest insertions
      that is unexpired and within the size bound, in arrival order, with no message ID in it twice. */
  lemma TableIsTheLatestInsertions(layout: Layout, limits: Limits, now: Instant, es: seq<Event>)
    requires Faithful(layout) && limits.ttl > 0 && limits.maxRows > 0 && now >= 0
    requires forall e | e in es :: Forward(e)
    requires IdealRun(limits, Empty(now), es).clock < END
    ensures var s := IdealRun(limits, Empty(now), es);
      && Run(layout, limits, State([], now), es).rows == Rows(layout, s.kept)
      && LatestWithin(limits, s)
      && DistinctIds(s.kept)
  {
    RunRefines(layout, limits, now, es);
    RunKeepsInv(limits, now, es);
  }

  /** The same for the layout the store has. */
  lemma StoredTableIsTheLatestInsertions(limits: Limits, now: Instant, es: seq<Event>)
    requires limits.ttl > 0 && limits.maxRows > 0 && now >= 0
    requires forall e | e in es :: Forward(e)
    requires IdealRun(limits, Empty(now), es).clock < END
    ensures var s := IdealRun(limits, Empty(now), es);
      && Run(StoredLayout(), limits, State([], now), es).rows == Rows(StoredLayout(), s.kept)
      && LatestWithin(limits, s)
      && DistinctIds(s.kept)
  {
    StoredLayoutIsFaithful();
    TableIsTheLatestInsertions(StoredLayout(), limits, now, es);
  }

  /** A message whose ID is not in the table yet is in it, last, once appended: neither bound refuses
      new writes, unless the sweep came a whole TTL after the insert. */
  lemma AppendedIsKept(limits: Limits, s: Ideal, e: Event)
    requires limits.ttl > 0 && limits.maxRows > 0
    requires Inv(limits, s) && 0 <= s.clock && Forward(e) && e.Append? && !Refused(e) && e.work < limits.ttl
    requires !Holds(s.kept, e.message.id)
    ensures var kept := IdealStep(limits, s, e).kept;
      kept != [] && kept[|kept| - 1] == EntryFor(e, s.clock)
  {
    StepKeepsInv(limits, s, e);
    var s' := IdealStep(limits, s, e);
    assert s'.inserted == s.inserted + [EntryFor(e, s.clock)];
    assert s'.inserted[|s.inserted|].stored > s'.swept - limits.ttl;
    assert |s'.kept| > 0;
  }

  // ---------------------------------------------------------------------------
  // A clock that runs backwards
  // ---------------------------------------------------------------------------

  ghost predicate NeverBackwards(es: seq<Entry>) {
    forall i, j | 0 <= i < j < |es| :: es[i].stored <= es[j].stored
  }

  lemma {:induction false} YoungerMembers(es: seq<Entry>, cutoff: Instant)
    ensures forall e :: e in Younger(es, cutoff) <==> e in es && e.stored > cutoff
  {
    if es != [] {
      YoungerMembers(es[..|es| - 1], cutoff);
      assert es == es[..|es| - 1] + [es[|es| - 1]];
    }
  }

  lemma {:induction false} AscendingKeepsSuffixes(es: seq<Entry>, cutoff: Instant)
    requires NeverBackwards(es)
    ensures IsSuffix(Younger(es, cutoff), es)
  {
    if es != [] {
      var init, last := es[..|es| - 1], es[|es| - 1];
      AscendingKeepsSuffixes(init, cutoff);
      var kept := Younger(init, cutoff);
      if last.stored <= cutoff {
        YoungerMembers(es, cutoff);
        assert forall e | e in es :: e.stored <= cutoff;
        assert Younger(es, cutoff) == [];
      } else {
        assert es == init + [last];
        assert (init + [last])[|init| - |kept|..] == kept + [last];
      }
    }
  }

  lemma SuffixHasWhatFollows(kept: seq<Entry>, es: seq<Entry>, i: nat, j: nat)
    requires forall x, y | 0 <= x < y < |es| :: es[x] != es[y]
    requires IsSuffix(kept, es) && i < j < |es| && es[i] in kept
    ensures es[j] in kept
  {
    var a := |es| - |kept|;
    var x :| 0 <= x < |kept| && kept[x] == es[i];
    assert es[a + x] == es[i];
    assert kept[j - a] == es[j];
  }

  /** A row stored at an earlier time than one before it is taken from behind it by the cutoff between
      the two. */
  lemma EarlierRowLeavesAHole(es: seq<Entry>, i: nat, j: nat)
    requires forall x, y | 0 <= x < y < |es| :: es[x] != es[y]
    requires i < j < |es| && es[i].stored > es[j].stored
    ensures !IsSuffix(Younger(es, es[j].stored), es)
  {
    YoungerMembers(es, es[j].stored);
    if IsSuffix(Younger(es, es[j].stored), es) {
      SuffixHasWhatFollows(Younger(es, es[j].stored), es, i, j);
    }
  }

  ghost predicate AlwaysASuffix(es: seq<Entry>) {
    forall cutoff: Instant :: IsSuffix(Younger(es, cutoff), es)
  }

  /** Expiry keeps the table a run of the latest insertions, whatever the cutoff, if and only if the
      clock was never behind an earlier insertion at an insertion. */
  lemma ExpiryKeepsARunExactlyInOrder(es: seq<Entry>)
    requires forall x, y | 0 <= x < y < |es| :: es[x] != es[y]
    ensures AlwaysASuffix(es) <==> NeverBackwards(es)
  {
    if NeverBackwards(es) {
      forall cutoff: Instant ensures IsSuffix(Younger(es, cutoff), es) {
        AscendingKeepsSuffixes(es, cutoff);
      }
    } else {
      var i, j :| 0 <= i < j < |es| && es[i].stored > es[j].stored;
      EarlierRowLeavesAHole(es, i, j);
    }
  }

  // ---------------------------------------------------------------------------
  // Queries
  // ---------------------------------------------------------------------------

  /** An empty conversation and absent bounds match everything. */
  datatype QueryOptions = QueryOptions(conversation: string, earliest: Option<Instant>, latest: Option<Instant>)

  datatype Found = Found(message: Message, conversation: string)

  /** The WHERE clause, on text. */
  predicate Matches(layout: Layout, o: QueryOptions, row: Row) {
    && (o.conversation == "" || row.conversation == o.conversation)
    && (o.earliest.Some? ==> layout.atMost(layout.text(o.earliest.value), row.receivedAt))
    && (o.latest.Some? ==> layout.atMost(row.receivedAt, layout.text(o.latest.value)))
  }

  /** What the caller asked for, on time. */
  predicate Wanted(o: QueryOptions, e: Entry) {
    && (o.conversation == "" || e.conversation == o.conversation)
    && (o.earliest.Some? ==> o.earliest.value <= e.message.receivedAt)
    && (o.latest.Some? ==> e.message.receivedAt <= o.latest.value)
  }

  function Select(o: QueryOptions, es: seq<Entry>): seq<Found> {
    if es == [] then []
    else
      var last := es[|es| - 1];
      Select(o, es[..|es| - 1]) + if Wanted(o, last) then [Found(last.message, last.conversation)] else []
  }

  /** The row as a message again, if its times can be read. */
  function Decode(layout: Layout, row: Row): Option<Found> {
    var sent, received := layout.parse(row.sentAt), layout.parse(row.receivedAt);
    if sent.None? || received.None? then None
    else Some(Found(Message(row.id, row.sender, row.recipient, row.body, sent.value, received.value), row.conversation))
  }

  /** Query: one unreadable row among the matching ones fails the whole query. */
  function Answer(layout: Layout, o: QueryOptions, rows: seq<Row>): Option<seq<Found>> {
    if rows == [] then Some([])
    else
      var before, last := Answer(layout, o, rows[..|rows| - 1]), rows[|rows| - 1];
      if before.None? || !Matches(layout, o, last) then before
      else if Decode(layout, last).None? then None
      else Some(before.value + [Decode(layout, last).value])
  }

  /** What the WHERE clause picks, and what reading it back needs. */
  function Picked(layout: Layout, o: QueryOptions, es: seq<Entry>): seq<Found> {
    if es == [] then []
    else
      var last := es[|es| - 1];
      var more := if Matches(layout, o, RowOf(layout, last)) then [Found(last.message, last.conversation)] else [];
      Picked(layout, o, es[..|es| - 1]) + more
  }

  predicate Readable(e: Entry) {
    0 <= e.message.sentAt < END && 0 <= e.message.receivedAt < END
  }

  ghost predicate PickedReadable(layout: Layout, o: QueryOptions, es: seq<Entry>) {
    forall i | 0 <= i < |es| && Matches(layout, o, RowOf(layout, es[i])) :: Readable(es[i])
  }

  /** On all inputs: a query returns the picked messages whole, in arrival order, and fails exactly when
      one of them carries a time outside years 0 to 9999. */
  lemma {:induction false} QueryReturnsWhatItPicks(layout: Layout, o: QueryOptions, es: seq<Entry>)
    requires Faithful(layout)
    ensures Answer(layout, o, Rows(layout, es))
         == if PickedReadable(layout, o, es) then Some(Picked(layout, o, es)) else None
  {
    if es != [] {
      var init, last := es[..|es| - 1], es[|es| - 1];
      QueryReturnsWhatItPicks(layout, o, init);
      assert es == init + [last];
      RowsOneMore(layout, init, last);
      OneMorePick(layout, o, init, Rows(layout, init), last);
    }
  }

  lemma DecodesWhenReadable(layout: Layout, e: Entry)
    requires Faithful(layout)
    ensures Decode(layout, RowOf(layout, e)) == if Readable(e) then Some(Found(e.message, e.conversation)) else None
  {
  }

  lemma OneMorePick(layout: Layout, o: QueryOptions, es: seq<Entry>, rows: seq<Row>, e: Entry)
    requires Faithful(layout)
    requires Answer(layout, o, rows) == if PickedReadable(layout, o, es) then Some(Picked(layout, o, es)) else None
    ensures Answer(layout, o, rows + [RowOf(layout, e)])
         == if PickedReadable(layout, o, es + [e]) then Some(Picked(layout, o, es + [e])) else None
  {
    DecodesWhenReadable(layout, e);
    AnswerOneMore(layout, o, rows, RowOf(layout, e));
    PickedOneMore(layout, o, es, e);
  }

  lemma PickedOneMore(layout: Layout, o: QueryOptions, es: seq<Entry>, e: Entry)
    ensures var picks := Matches(layout, o, RowOf(layout, e));
      && (PickedReadable(layout, o, es + [e]) <==> PickedReadable(layout, o, es) && (picks ==> Readable(e)))
      && Picked(layout, o, es + [e]) ==
           if picks then Picked(layout, o, es) + [Found(e.message, e.conversation)] else Picked(layout, o, es)
  {
    var all := es + [e];
    assert all[..|es|] == es;
    assert all[|es|] == e && forall i | 0 <= i < |es| :: all[i] == es[i];
  }

  /** So one message whose sender dated it outside years 0 to 9999 fails every query that picks it. */
  lemma MisdatedMessageFailsTheQuery(layout: Layout, o: QueryOptions, es: seq<Entry>, i: nat)
    requires Faithful(layout) && i < |es| && Matches(layout, o, RowOf(layout, es[i])) && !Readable(es[i])
    ensures Answer(layout, o, Rows(layout, es)) == None
  {
    QueryReturnsWhatItPicks(layout, o, es);
  }

  /** Bounds before year 10000, be they before year 0. */
  ghost predicate BoundsOk(o: QueryOptions) {
    (o.earliest.Some? ==> o.earliest.value < END) && (o.latest.Some? ==> o.latest.value < END)
  }

  lemma MatchesIsWanted(layout: Layout, o: QueryOptions, e: Entry)
    requires Faithful(layout) && BoundsOk(o) && 0 <= e.message.receivedAt < END
    ensures Matches(layout, o, RowOf(layout, e)) <==> Wanted(o, e)
  {
    if o.earliest.Some? && o.earliest.value < 0 {
      assert layout.atMost(layout.text(o.earliest.value), layout.text(e.message.receivedAt));
    }
  }

  lemma {:induction false} PickedIsSelected(layout: Layout, o: QueryOptions, es: seq<Entry>)
    requires Faithful(layout) && BoundsOk(o)
    requires forall i | 0 <= i < |es| :: 0 <= es[i].message.receivedAt < END
    ensures Picked(layout, o, es) == Select(o, es)
  {
    if es != [] {
      PickedIsSelected(layout, o, es[..|es| - 1]);
      MatchesIsWanted(layout, o, es[|es| - 1]);
    }
  }

  ghost predicate SentReadable(o: QueryOptions, es: seq<Entry>) {
    forall i | 0 <= i < |es| && Wanted(o, es[i]) :: 0 <= es[i].message.sentAt < END
  }

  /** With bounds before year 10000 and receive times in years 0 to 9999, what is picked by text is what
      was wanted by time: the query returns exactly the wanted messages, and fails exactly when one of
      them carries a send time outside those years. */
  lemma {:induction false} QueryIsExact(layout: Layout, o: QueryOptions, es: seq<Entry>)
    requires Faithful(layout) && BoundsOk(o)
    requires forall i | 0 <= i < |es| :: 0 <= es[i].message.receivedAt < END
    ensures Answer(layout, o, Rows(layout, es)) == if SentReadable(o, es) then Some(Select(o, es)) else None
  {
    QueryReturnsWhatItPicks(layout, o, es);
    PickedIsSelected(layout, o, es);
    forall i | 0 <= i < |es| ensures Matches(layout, o, RowOf(layout, es[i])) <==> Wanted(o, es[i]) {
      MatchesIsWanted(layout, o, es[i]);
    }
  }

  lemma AnswerOneMore(layout: Layout, o: QueryOptions, rows: seq<Row>, row: Row)
    ensures var before := Answer(layout, o, rows);
      Answer(layout, o, rows + [row]) ==
      if before.None? || !Matches(layout, o, row) then before
      else if Decode(layout, row).None? then None
      else Some(before.value + [Decode(layout, row).value])
  {
    assert (rows + [row])[..|rows|] == rows;
  }

  // ---------------------------------------------------------------------------
  // The store object
  // ---------------------------------------------------------------------------

  class Store {
    const layout: Layout
    const limits: Limits
    var rows: seq<Row>

    /** Open on the rows a previous process left, after the option checks passed. */
    constructor (layout: Layout, limits: Limits, stored: seq<Row>, now: Instant)
      requires limits.ttl > 0 && limits.maxRows > 0
      ensures this.layout == layout && this.limits == limits
      ensures rows == Enforce(layout, limits, stored, now)
    {
      this.layout, this.limits, rows := layout, limits, stored;
      new;
      EnforceRetention(now);
    }

    method EnforceRetention(now: Instant)
      modifies this
      ensures rows == Enforce(layout, limits, old(rows), now)
    {
      rows := Unexpired(layout, rows, layout.text(now - limits.ttl));
      var total := |rows|;
      if total <= limits.maxRows { return; }
      rows := DropOldest(rows, total - limits.maxRows);
    }

    /** `stored` and `swept` are the two clock readings of one call. */
    method Append(local: string, m: Message, stored: Instant, swept: Instant) returns (ok: bool)
      modifies this
      ensures ok == (local != "" && m.id != "")
      ensures State(rows, if ok then swept else stored)
           == Step(layout, limits, State(old(rows), stored), Event.Append(local, m, 0, swept - stored))
      ensures ok ==> Within(layout, limits, rows, swept)
    {
      ghost var e := Event.Append(local, m, 0, swept - stored);
      if local == "" || m.id == "" { return false; }
      var row := RowOf(layout, Entry(m, ConversationKey(local, m), stored));
      assert row == RowOf(layout, EntryFor(e, stored)) && swept == SweepTime(e, stored);
      rows := Insert(rows, row);
      EnforcedIsWithin(layout, limits, rows, swept);
      EnforceRetention(swept);
      ok := true;
    }

    method Query(o: QueryOptions) returns (found: Option<seq<Found>>)
      ensures found == Answer(layout, o, rows)
    {
      var out, i := [], 0;
      while i < |rows|
        invariant 0 <= i <= |rows|
        invariant Answer(layout, o, rows[..i]) == Some(out)
      {
        assert rows[..i + 1] == rows[..i] + [rows[i]];
        AnswerOneMore(layout, o, rows[..i], rows[i]);
        if Matches(layout, o, rows[i]) {
          var r := Decode(layout, rows[i]);
          if r.None? {
            FailsForGood(layout, o, rows, i + 1);
            return None;
          }
          out := out + [r.value];
        }
        i := i + 1;
      }
      assert rows[..i] == rows;
      found := Some(out);
    }
  }

  /** Open: a bound that is not positive is a wiring error, refused. */
  method Open(layout: Layout, limits: Limits, stored: seq<Row>, now: Instant) returns (store: Option<Store>)
    ensures store.None? <==> limits.ttl <= 0 || limits.maxRows <= 0
    ensures store.Some? ==> fresh(store.value) && store.value.layout == layout && store.value.limits == limits
    ensures store.Some? ==> store.value.rows == Enforce(layout, limits, stored, now)
  {
    if limits.ttl <= 0 || limits.maxRows <= 0 { return None; }
    var s := new Store(layout, limits, stored, now);
    store := Some(s);
  }

  lemma {:induction false} FailsForGood(layout: Layout, o: QueryOptions, rows: seq<Row>, n: nat)
    requires n <= |rows| && Answer(layout, o, rows[..n]).None?
    ensures Answer(layout, o, rows).None?
  {
    if n < |rows| {
      var init := rows[..|rows| - 1];
      assert init[..n] == rows[..n];
      FailsForGood(layout, o, init, n);
    } else {
      assert rows[..n] == rows;
    }
  }
}
