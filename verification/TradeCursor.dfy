/**
 The trade push of a websocket connection: each tick reads at most fifty rows above the cursor and
 sends them one by one, moving the cursor before each send. Nothing is skipped or sent twice.
 */
module TradeCursor {

  const BATCH: nat := 50

  datatype Trade = Trade(id: nat, body: string)

  // ----- The table -----

  predicate AscendsTo(db: seq<Trade>, n: nat)
    requires n <= |db|
  {
    n <= 1 || (db[n - 2].id < db[n - 1].id && AscendsTo(db, n - 1))
  }

  /** Rows in insertion order; ids are assigned in increasing order. */
  predicate Increasing(db: seq<Trade>) {
    AscendsTo(db, |db|)
  }

  /** The largest id, zero for an empty table. */
  function Top(db: seq<Trade>): nat {
    if db == [] then 0 else db[|db| - 1].id
  }

  function PosTo(db: seq<Trade>, x: nat, n: nat): (p: nat)
    requires n <= |db|
    ensures p <= n && (p > 0 ==> db[p - 1].id <= x) && (p < n ==> db[p].id > x)
  {
    if n == 0 || db[n - 1].id <= x then n else PosTo(db, x, n - 1)
  }

  /** How many rows have an id up to `x`. */
  function Pos(db: seq<Trade>, x: nat): (p: nat)
    ensures p <= |db| && (p > 0 ==> db[p - 1].id <= x) && (p < |db| ==> db[p].id > x)
  {
    PosTo(db, x, |db|)
  }

  /** `WHERE id > lo AND id <= hi ORDER BY id`. */
  function Between(db: seq<Trade>, lo: nat, hi: nat): seq<Trade> {
    if Pos(db, lo) <= Pos(db, hi) then db[Pos(db, lo)..Pos(db, hi)] else []
  }

  /** `WHERE id > lo ORDER BY id ASC LIMIT 50`. */
  function Fetch(db: seq<Trade>, lo: nat): seq<Trade> {
    var p := Pos(db, lo);
    db[p..p + FetchSize(db, lo)]
  }

  function FetchSize(db: seq<Trade>, lo: nat): (n: nat)
    ensures Pos(db, lo) + n <= |db| && n <= BATCH
  {
    if |db| - Pos(db, lo) <= BATCH then |db| - Pos(db, lo) else BATCH
  }

  lemma {:induction false} OrderedTo(db: seq<Trade>, n: nat, i: nat, j: nat)
    requires n <= |db| && AscendsTo(db, n) && i < j < n
    ensures db[i].id < db[j].id
  {
    if j < n - 1 {
      OrderedTo(db, n - 1, i, j);
    } else if i < j - 1 {
      OrderedTo(db, n - 1, i, j - 1);
    }
  }

  lemma Ordered(db: seq<Trade>, i: int, j: int)
    requires Increasing(db)
    ensures 0 <= i < j < |db| ==> db[i].id < db[j].id
  {
    if 0 <= i < j < |db| {
      OrderedTo(db, |db|, i, j);
    }
  }

  /** The rows up to `x` are exactly those before its position. */
  lemma PosSplits(db: seq<Trade>, x: nat, i: nat)
    requires Increasing(db) && i < |db|
    ensures db[i].id <= x <==> i < Pos(db, x)
  {
    Ordered(db, i, Pos(db, x) - 1);
    Ordered(db, Pos(db, x), i);
  }

  lemma PosIs(db: seq<Trade>, x: nat, p: nat)
    requires Increasing(db) && p <= |db| && (p > 0 ==> db[p - 1].id <= x) && (p < |db| ==> db[p].id > x)
    ensures Pos(db, x) == p
  {
    if p > 0 {
      PosSplits(db, x, p - 1);
    }
    if p < |db| {
      PosSplits(db, x, p);
    }
  }

  lemma PosMonotone(db: seq<Trade>, x: nat, y: nat)
    requires Increasing(db) && x <= y
    ensures Pos(db, x) <= Pos(db, y)
  {
    if Pos(db, x) > 0 {
      PosSplits(db, y, Pos(db, x) - 1);
    }
  }

  lemma BetweenRow(db: seq<Trade>, lo: nat, hi: nat, i: nat)
    requires Increasing(db) && i < |db|
    ensures lo < db[i].id <= hi <==> Pos(db, lo) <= i < Pos(db, hi)
  {
    PosSplits(db, lo, i);
    PosSplits(db, hi, i);
  }

  /** A range of ids holds exactly the rows with those ids ... */
  lemma BetweenHolds(db: seq<Trade>, lo: nat, hi: nat, t: Trade)
    requires Increasing(db)
    ensures t in Between(db, lo, hi) <==> t in db && lo < t.id <= hi
  {
    var p, q := Pos(db, lo), Pos(db, hi);
    if t in db && lo < t.id <= hi {
      var i :| 0 <= i < |db| && db[i] == t;
      BetweenRow(db, lo, hi, i);
      assert db[p..q][i - p] == t;
    } else if t in Between(db, lo, hi) {
      var i :| p <= i < q && db[i] == t;
      BetweenRow(db, lo, hi, i);
    }
  }

  /** ... each once, in increasing order. */
  lemma BetweenAscends(db: seq<Trade>, lo: nat, hi: nat, i: nat, j: nat)
    requires Increasing(db) && i < j < |Between(db, lo, hi)|
    ensures Between(db, lo, hi)[i].id < Between(db, lo, hi)[j].id
  {
    Ordered(db, Pos(db, lo) + i, Pos(db, lo) + j);
  }

  /** The `k`-th row, counted from one, seen as a cursor. */
  lemma CursorAtRow(db: seq<Trade>, cursor: nat, k: nat)
    requires Increasing(db) && Pos(db, cursor) < k <= |db|
    ensures cursor < db[k - 1].id <= Top(db) && Pos(db, db[k - 1].id) == k && Pos(db, db[k - 1].id - 1) == k - 1
  {
    PosSplits(db, cursor, k - 1);
    Ordered(db, k - 1, |db| - 1);
    Ordered(db, k - 2, k - 1);
    Ordered(db, k - 1, k);
    PosIs(db, db[k - 1].id, k);
    PosIs(db, db[k - 1].id - 1, k - 1);
  }

  /** A fetch is the range of ids up to its last row, and it is short only when nothing is left. */
  lemma FetchIsRange(db: seq<Trade>, lo: nat)
    requires Increasing(db)
    ensures Fetch(db, lo) == Between(db, lo, CursorAfter(Fetch(db, lo), lo))
    ensures |Fetch(db, lo)| <= 50 && (|Fetch(db, lo)| < 50 ==> CursorAfter(Fetch(db, lo), lo) >= Top(db))
  {
    if FetchSize(db, lo) > 0 {
      FetchCursor(db, lo);
      CursorAtRow(db, lo, Pos(db, lo) + FetchSize(db, lo));
    }
  }

  lemma FetchCursor(db: seq<Trade>, lo: nat)
    requires FetchSize(db, lo) > 0
    ensures CursorAfter(Fetch(db, lo), lo) == db[Pos(db, lo) + FetchSize(db, lo) - 1].id
  {
  }

  // ----- The connection -----

  function CursorAfter(rows: seq<Trade>, cursor: nat): nat {
    if rows == [] then cursor else rows[|rows| - 1].id
  }

  /** The table, and a connection's cursor, sends and state. */
  datatype Feed = Feed(db: seq<Trade>, cursor: nat, sent: seq<Trade>, open: bool)

  /** A tick of which at most `sendsOk` sends succeed: the first failed send closes the connection. */
  function Pushed(f: Feed, sendsOk: nat): Feed {
    var rows := Fetch(f.db, f.cursor);
    if !f.open then f
    else if |rows| <= sendsOk then f.(cursor := CursorAfter(rows, f.cursor), sent := f.sent + rows)
    else f.(cursor := rows[sendsOk].id, sent := f.sent + rows[..sendsOk], open := false)
  }

  class Connection {
    var lastTradeId: nat
    var sent: seq<Trade>
    var open: bool

    /** The cursor starts at the largest id, or at zero when that query fails. */
    constructor (start: nat)
      ensures lastTradeId == start && sent == [] && open
    {
      lastTradeId, sent, open := start, [], true;
    }

    ghost function In(db: seq<Trade>): Feed
      reads this
    {
      Feed(db, lastTradeId, sent, open)
    }

    /** The trade part of `push_ws_updates`. */
    method Push(db: seq<Trade>, sendsOk: nat)
      requires open
      modifies this
      ensures In(db) == Pushed(old(In(db)), sendsOk)
    {
      var rows := Fetch(db, lastTradeId);
      ghost var cursor := lastTradeId;
      for i := 0 to |rows|
        invariant open && i <= sendsOk && sent == old(sent) + rows[..i]
        invariant lastTradeId == if i == 0 then cursor else rows[i - 1].id
      {
        lastTradeId := rows[i].id;
        if i >= sendsOk {
          open := false;
          return;
        }
        assert rows[..i + 1] == rows[..i] + [rows[i]];
        sent := sent + [rows[i]];
      }
      assert rows[..|rows|] == rows;
    }
  }

  // ----- Whole runs -----

  /** The table grows while the connection ticks. */
  datatype Event = Insert(trade: Trade) | Tick(sendsOk: nat)

  function Next(f: Feed, e: Event): Feed {
    match e
    case Insert(t) => if t.id > Top(f.db) then f.(db := f.db + [t]) else f
    case Tick(sendsOk) => Pushed(f, sendsOk)
  }

  function After(f: Feed, events: seq<Event>, n: nat): Feed
    requires n <= |events|
  {
    if n == 0 then f else Next(After(f, events, n - 1), events[n - 1])
  }

  /** A connection served over a run of events goes through exactly these states. */
  method Serve(start: nat, table: seq<Trade>, events: seq<Event>) returns (f: Feed)
    ensures f == After(Feed(table, start, [], true), events, |events|)
  {
    var c := new Connection(start);
    var db := table;
    for i := 0 to |events|
      invariant c.In(db) == After(Feed(table, start, [], true), events, i)
    {
      match events[i] {
        case Insert(t) =>
          if t.id > Top(db) {
            db := db + [t];
          }
        case Tick(sendsOk) =>
          if c.open {
            c.Push(db, sendsOk);
          }
      }
    }
    f := Feed(db, c.lastTradeId, c.sent, c.open);
  }

  /** Up to which id rows have been sent: the cursor, or just below it after a failed send. */
  function SentTo(f: Feed): nat {
    if f.open || f.cursor == 0 then f.cursor else f.cursor - 1
  }

  /** Exactly the rows above the start and up to there have been sent, in order. */
  predicate Caught(f: Feed, initial: nat) {
    && Increasing(f.db) && initial <= f.cursor <= Top(f.db) && (!f.open ==> initial < f.cursor)
    && f.sent == Between(f.db, initial, SentTo(f))
  }

  /** A new connection: nothing sent, from the end of the table or from its beginning. */
  lemma StartIsCaught(db: seq<Trade>, start: nat)
    requires Increasing(db) && (start == Top(db) || start == 0)
    ensures Caught(Feed(db, start, [], true), start)
  {
  }

  lemma {:induction false} AppendKeeps(db: seq<Trade>, t: Trade, x: nat, n: nat)
    requires n <= |db|
    ensures AscendsTo(db + [t], n) == AscendsTo(db, n) && PosTo(db + [t], x, n) == PosTo(db, x, n)
  {
    if n > 0 {
      AppendKeeps(db, t, x, n - 1);
    }
  }

  lemma AppendAscends(db: seq<Trade>, t: Trade)
    requires Increasing(db) && Top(db) < t.id
    ensures Increasing(db + [t]) && Top(db + [t]) == t.id
  {
    AppendKeeps(db, t, 0, |db|);
  }

  lemma LaterRowOutside(db: seq<Trade>, t: Trade, lo: nat, hi: nat)
    requires lo <= hi < t.id
    ensures Between(db + [t], lo, hi) == Between(db, lo, hi)
  {
    AppendKeeps(db, t, lo, |db|);
    AppendKeeps(db, t, hi, |db|);
    assert Pos(db + [t], lo) == Pos(db, lo) && Pos(db + [t], hi) == Pos(db, hi);
    SlicePrefix(db, [t], Pos(db, lo), Pos(db, hi));
  }

  lemma SlicePrefix(s: seq<Trade>, t: seq<Trade>, p: nat, q: nat)
    requires q <= |s|
    ensures p <= q ==> (s + t)[p..q] == s[p..q]
  {
  }

  lemma InsertKeeps(f: Feed, t: Trade, initial: nat)
    requires Caught(f, initial)
    ensures Caught(Next(f, Insert(t)), initial)
  {
    if t.id > Top(f.db) {
      LaterRowOutside(f.db, t, initial, SentTo(f));
      AppendAscends(f.db, t);
    }
  }

  /** Sending `i` fetched rows extends the sent range up to any cursor between the last of them and the next row. */
  lemma RangeExtends(db: seq<Trade>, initial: nat, cursor: nat, after: nat, i: nat)
    requires Increasing(db) && initial <= cursor && i <= FetchSize(db, cursor)
    requires Pos(db, after) == Pos(db, cursor) + i
    ensures Between(db, initial, cursor) + Fetch(db, cursor)[..i] == Between(db, initial, after)
  {
    PosMonotone(db, initial, cursor);
    FetchPrefix(db, cursor, i);
    Adjoin(db, Pos(db, initial), Pos(db, cursor), Pos(db, after));
  }

  lemma FetchPrefix(db: seq<Trade>, lo: nat, i: nat)
    requires i <= FetchSize(db, lo)
    ensures Fetch(db, lo)[..i] == db[Pos(db, lo)..Pos(db, lo) + i]
  {
    SliceOfSlice(db, Pos(db, lo), FetchSize(db, lo), i);
  }

  lemma SliceOfSlice(s: seq<Trade>, p: nat, n: nat, i: nat)
    requires i <= n && p + n <= |s|
    ensures s[p..p + n][..i] == s[p..p + i]
  {
  }

  lemma Adjoin(s: seq<Trade>, p: nat, q: nat, r: nat)
    requires p <= q <= r <= |s|
    ensures s[p..q] + s[q..r] == s[p..r]
  {
  }

  /** What a tick does, by the rows of the table. */
  lemma PushedRows(f: Feed, sendsOk: nat)
    requires f.open
    ensures var p, n := Pos(f.db, f.cursor), FetchSize(f.db, f.cursor);
            Pushed(f, sendsOk) ==
            if n == 0 then f
            else if n <= sendsOk then f.(cursor := f.db[p + n - 1].id, sent := f.sent + Fetch(f.db, f.cursor)[..n])
            else f.(cursor := f.db[p + sendsOk].id, sent := f.sent + Fetch(f.db, f.cursor)[..sendsOk], open := false)
  {
    var n, rows := FetchSize(f.db, f.cursor), Fetch(f.db, f.cursor);
    assert rows[..n] == rows;
    assert n == 0 ==> f.sent + rows == f.sent;
  }

  /**
   A tick on an open connection, written out: `p` rows are up to the cursor, and of the at most fifty
   after them the first `sendsOk` are sent; the cursor ends on the last row tried, and a failed try
   closes the connection.
   */
  lemma PushedWrittenOut(f: Feed, sendsOk: nat, p: nat, k: nat)
    requires Increasing(f.db) && f.open && p <= |f.db|
    requires forall i :: 0 <= i < p ==> f.db[i].id <= f.cursor
    requires forall i :: p <= i < |f.db| ==> f.db[i].id > f.cursor
    requires k == if |f.db| - p <= 50 then |f.db| - p else 50
    ensures var g := Pushed(f, sendsOk);
            && g.db == f.db && (g.open <==> k <= sendsOk)
            && g.sent == f.sent + f.db[p..p + if k <= sendsOk then k else sendsOk]
            && g.cursor == if k == 0 then f.cursor
                           else if k <= sendsOk then f.db[p + k - 1].id
                           else f.db[p + sendsOk].id
  {
    PosIs(f.db, f.cursor, p);
    PushedRows(f, sendsOk);
    FetchPrefix(f.db, f.cursor, if k <= sendsOk then k else sendsOk);
    assert k == 0 ==> f.sent + f.db[p..p] == f.sent;
  }

  /** A closed connection ignores ticks, and a row with a new largest id is always taken into the table. */
  lemma RestWrittenOut(f: Feed, sendsOk: nat, t: Trade)
    ensures !f.open ==> Pushed(f, sendsOk) == f
    ensures t.id > 0 && (f.db != [] ==> t.id > f.db[|f.db| - 1].id) ==> Next(f, Insert(t)) == f.(db := f.db + [t])
  {
  }

  /** A run takes every event, in order. */
  lemma RunTakesEvery(f: Feed, events: seq<Event>, n: nat)
    requires n < |events|
    ensures After(f, events, 0) == f && After(f, events, n + 1) == Next(After(f, events, n), events[n])
    ensures events[n].Tick? ==>
              After(f, events, n + 1) == Pushed(After(f, events, n), events[n].sendsOk)
  {
  }

  /** A tick whose sends all succeed. */
  lemma SendsKeep(f: Feed, initial: nat, sendsOk: nat)
    requires Caught(f, initial) && f.open && FetchSize(f.db, f.cursor) <= sendsOk
    ensures Caught(Pushed(f, sendsOk), initial) && Pushed(f, sendsOk).open && Pushed(f, sendsOk).db == f.db
    ensures Pos(f.db, Pushed(f, sendsOk).cursor) == Pos(f.db, f.cursor) + FetchSize(f.db, f.cursor)
  {
    var p, n := Pos(f.db, f.cursor), FetchSize(f.db, f.cursor);
    PushedRows(f, sendsOk);
    if n > 0 {
      CursorAtRow(f.db, f.cursor, p + n);
      RangeExtends(f.db, initial, f.cursor, f.db[p + n - 1].id, n);
    }
  }

  /** A tick with a failed send. */
  lemma FailureKeeps(f: Feed, initial: nat, sendsOk: nat)
    requires Caught(f, initial) && f.open && sendsOk < FetchSize(f.db, f.cursor)
    ensures Caught(Pushed(f, sendsOk), initial)
  {
    PushedRows(f, sendsOk);
    FailedIsCaught(f, initial, sendsOk);
  }

  lemma FailedIsCaught(f: Feed, initial: nat, i: nat)
    requires Caught(f, initial) && f.open && i < FetchSize(f.db, f.cursor)
    ensures Caught(f.(cursor := f.db[Pos(f.db, f.cursor) + i].id, sent := f.sent + Fetch(f.db, f.cursor)[..i],
                      open := false), initial)
  {
    var k := Pos(f.db, f.cursor) + i + 1;
    CursorAtRow(f.db, f.cursor, k);
    RangeExtends(f.db, initial, f.cursor, f.db[k - 1].id - 1, i);
  }

  lemma TickKeeps(f: Feed, initial: nat, sendsOk: nat)
    requires Caught(f, initial)
    ensures Caught(Pushed(f, sendsOk), initial)
  {
    if f.open && FetchSize(f.db, f.cursor) <= sendsOk {
      SendsKeep(f, initial, sendsOk);
    } else if f.open {
      FailureKeeps(f, initial, sendsOk);
    }
  }

  /**
   On every run of a connection, what was sent is exactly what lies between the start and the cursor: no
   gap, no repeat, in order; after a failed send, everything before the row that failed.
   */
  lemma {:induction false} SentIsExact(db: seq<Trade>, start: nat, events: seq<Event>, n: nat)
    requires Increasing(db) && (start == Top(db) || start == 0) && n <= |events|
    ensures Caught(After(Feed(db, start, [], true), events, n), start)
  {
    if n == 0 {
      StartIsCaught(db, start);
    } else {
      SentIsExact(db, start, events, n - 1);
      var g := After(Feed(db, start, [], true), events, n - 1);
      match events[n - 1] {
        case Tick(sendsOk) => TickKeeps(g, start, sendsOk);
        case Insert(t) => InsertKeeps(g, t, start);
      }
    }
  }

  /** Rows not yet sent. */
  function Backlog(f: Feed): nat {
    |f.db| - Pos(f.db, f.cursor)
  }

  /**
   Without inserts and failures each tick sends fifty, or all that is left: `k` ticks clear the backlog
   exactly when `50 k` covers it.
   */
  lemma {:induction false} BacklogDrains(f: Feed, initial: nat, events: seq<Event>, k: nat)
    requires Caught(f, initial) && f.open && k <= |events|
    requires forall i :: 0 <= i < k ==> events[i].Tick? && events[i].sendsOk >= 50
    ensures var g := After(f, events, k);
            && g.db == f.db && g.open && Caught(g, initial)
            && Backlog(g) == (if Backlog(f) <= 50 * k then 0 else Backlog(f) - 50 * k)
            && (Backlog(f) <= 50 * k ==> g.sent == Between(f.db, initial, Top(f.db)))
  {
    if k > 0 {
      BacklogDrains(f, initial, events, k - 1);
      TickDrains(After(f, events, k - 1), initial, events[k - 1].sendsOk);
    }
    if Backlog(f) <= 50 * k {
      NothingLeft(After(f, events, k), initial);
    }
  }

  lemma TickDrains(f: Feed, initial: nat, sendsOk: nat)
    requires Caught(f, initial) && f.open && sendsOk >= BATCH
    ensures var g := Pushed(f, sendsOk);
            && g.db == f.db && g.open && Caught(g, initial)
            && Backlog(g) == (if Backlog(f) <= BATCH then 0 else Backlog(f) - BATCH)
  {
    SendsKeep(f, initial, sendsOk);
  }

  lemma NothingLeft(f: Feed, initial: nat)
    requires Caught(f, initial) && f.open && Backlog(f) == 0
    ensures f.cursor == Top(f.db) && f.sent == Between(f.db, initial, Top(f.db))
  {
  }
}
