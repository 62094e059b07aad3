/**
 The wake-up protocol between the log subscriber and the scanner. The subscriber applies a log under
 the store's lock and then tries to put a token on a bounded channel, dropping it when full; the
 scanner receives a token, drains the rest, and then snapshots the store. No update is ever lost.
 */
module WakeUp {
  import opened Words
  import opened Sync
  import opened Scanner

  const CAPACITY: nat := 1024

  /** Between applying a log and `try_send`. */
  datatype Subscriber = Listening | AboutToNotify

  /** Blocked in `recv`; emptying the channel; before the snapshot; recording what it found. */
  datatype ScannerPc = Waiting | Draining | Awake | Recording

  datatype State = State(
    store: map<Address, Pool>, queued: nat, subscriber: Subscriber, scanner: ScannerPc,
    seen: map<Address, Pool>, price: real, lastScan: seq<Opportunity>)

  datatype Action =
    | LogArrives(log: Log)
    | TrySend
    | Receive
    | DrainOne
    | DrainedEmpty
    | Snapshot(ethPriceUsd: real)
    | RoundDone

  /** Before any log: pools are known, their reserves are not, and nothing has been scanned. */
  ghost predicate Init(s: State) {
    && (forall a :: a in s.store ==> s.store[a].reserve0 == 0 && s.store[a].reserve1 == 0)
    && s.queued == 0 && s.subscriber == Listening && s.scanner == Waiting
    && s.seen == s.store && s.lastScan == []
  }

  ghost predicate Next(poolPairs: seq<(Address, Address)>, s: State, act: Action, s': State) {
    match act
    case LogArrives(log) =>
      && s.subscriber == Listening
      && (match DecodeSyncLog(log)
          case None => s' == s
          case Some(u) => s' == s.(store := Applied(s.store, u), subscriber := AboutToNotify))
    case TrySend =>
      && s.subscriber == AboutToNotify
      && s' == s.(queued := if s.queued < CAPACITY then s.queued + 1 else s.queued, subscriber := Listening)
    case Receive => s.scanner == Waiting && s.queued > 0 && s' == s.(queued := s.queued - 1, scanner := Draining)
    case DrainOne => s.scanner == Draining && s.queued > 0 && s' == s.(queued := s.queued - 1)
    case DrainedEmpty => s.scanner == Draining && s.queued == 0 && s' == s.(scanner := Awake)
    case Snapshot(price) =>
      && s.scanner == Awake && ScanOutcome(s.store, poolPairs, price).Some?
      && s' == s.(scanner := Recording, seen := s.store, price := price,
                  lastScan := ScanOutcome(s.store, poolPairs, price).value)
    case RoundDone => s.scanner == Recording && s' == s.(scanner := Waiting)
  }

  /** An unseen update has left a trace: a token, a subscriber about to send one, or a scanner about to look. */
  ghost predicate Inv(poolPairs: seq<(Address, Address)>, s: State) {
    && s.queued <= CAPACITY
    && (|| s.seen == s.store || s.queued > 0 || s.subscriber == AboutToNotify
        || s.scanner == Draining || s.scanner == Awake)
    && ScanOutcome(s.seen, poolPairs, s.price) == Some(s.lastScan)
  }

  predicate Quiescent(s: State) {
    s.queued == 0 && s.subscriber == Listening && s.scanner == Waiting
  }

  lemma NextKeepsInv(poolPairs: seq<(Address, Address)>, s: State, act: Action, s': State)
    requires Inv(poolPairs, s) && Next(poolPairs, s, act, s')
    ensures Inv(poolPairs, s')
  {
  }

  // ----- Whole runs -----

  ghost predicate Run(poolPairs: seq<(Address, Address)>, ss: seq<State>, acts: seq<Action>) {
    && |ss| == |acts| + 1 && Init(ss[0])
    && forall i :: 0 <= i < |acts| ==> Next(poolPairs, ss[i], acts[i], ss[i + 1])
  }

  /** The logs delivered by the first `n` actions. */
  function LogsOf(acts: seq<Action>, n: nat): seq<Log>
    requires n <= |acts|
  {
    if n == 0 then []
    else LogsOf(acts, n - 1) + Delivered(acts[n - 1])
  }

  function Delivered(act: Action): seq<Log> {
    if act.LogArrives? then [act.log] else []
  }

  lemma StoreNext(poolPairs: seq<(Address, Address)>, s: State, act: Action, s': State, base: map<Address, Pool>,
                  logs: seq<Log>)
    requires Next(poolPairs, s, act, s') && s.store == Replayed(base, logs)
    ensures s'.store == Replayed(base, logs + Delivered(act))
  {
    if act.LogArrives? {
      ReplayNext(base, logs, act.log);
    } else {
      assert logs + [] == logs;
    }
  }

  lemma {:induction false} RunInvariant(poolPairs: seq<(Address, Address)>, ss: seq<State>, acts: seq<Action>, n: nat)
    requires Run(poolPairs, ss, acts) && n <= |acts|
    ensures Inv(poolPairs, ss[n])
  {
    if n == 0 {
      EmptyPoolsScanEmpty(ss[0].store, poolPairs, ss[0].price);
      ScanIsExact(ss[0].store, poolPairs, ss[0].price);
    } else {
      RunInvariant(poolPairs, ss, acts, n - 1);
      assert Next(poolPairs, ss[n - 1], acts[n - 1], ss[n - 1 + 1]);
      NextKeepsInv(poolPairs, ss[n - 1], acts[n - 1], ss[n]);
    }
  }

  /** The store is what the delivered logs make of the initial one. */
  lemma {:induction false} StoreIsReplay(poolPairs: seq<(Address, Address)>, ss: seq<State>, acts: seq<Action>, n: nat)
    requires Run(poolPairs, ss, acts) && n <= |acts|
    ensures ss[n].store == Replayed(ss[0].store, LogsOf(acts, n))
  {
    if n == 0 {
      assert Replayed(ss[0].store, []) == ss[0].store;
    } else {
      StoreIsReplay(poolPairs, ss, acts, n - 1);
      assert Next(poolPairs, ss[n - 1], acts[n - 1], ss[n - 1 + 1]);
      StoreNext(poolPairs, ss[n - 1], acts[n - 1], ss[n], ss[0].store, LogsOf(acts, n - 1));
    }
  }

  /**
   No lost wake-up: whenever a run comes to rest, the last scan is the scan of the store as every log
   delivered so far has left it.
   */
  lemma NoLostWakeUp(poolPairs: seq<(Address, Address)>, ss: seq<State>, acts: seq<Action>, n: nat)
    requires Run(poolPairs, ss, acts) && n <= |acts| && Quiescent(ss[n])
    ensures var store := Replayed(ss[0].store, LogsOf(acts, n));
            && ScanOutcome(store, poolPairs, ss[n].price) == Some(ss[n].lastScan)
            && (StoreFits(store) ==> ss[n].lastScan == Scan(store, poolPairs, ss[n].price))
  {
    RunInvariant(poolPairs, ss, acts, n);
    StoreIsReplay(poolPairs, ss, acts, n);
    if StoreFits(ss[n].store) {
      ScanIsExact(ss[n].store, poolPairs, ss[n].price);
    }
  }

  // ----- It does come to rest -----

  function Stage(pc: ScannerPc): nat {
    match pc
    case Waiting => 0
    case Recording => 1
    case Awake => 2
    case Draining => 3
  }

  /** Work left when no further log arrives. */
  function Pending(s: State): nat {
    (if s.subscriber == AboutToNotify then 10 else 0) + 5 * s.queued + Stage(s.scanner)
  }

  ghost predicate Enabled(poolPairs: seq<(Address, Address)>, s: State, act: Action) {
    exists s' :: Next(poolPairs, s, act, s')
  }

  /**
   Every step other than a log's arrival uses up work, and some such step is possible unless at rest (on
   112-bit reserves, where no scan panics).
   */
  lemma InternalStepsRunDown(poolPairs: seq<(Address, Address)>, s: State)
    ensures forall act: Action, s': State ::
              Next(poolPairs, s, act, s') && !act.LogArrives? ==> Pending(s') < Pending(s)
    ensures !Quiescent(s) && StoreFits(s.store) ==> exists act: Action :: !act.LogArrives? && Enabled(poolPairs, s, act)
    ensures Quiescent(s) ==> forall act: Action :: Enabled(poolPairs, s, act) ==> act.LogArrives?
  {
    if s.subscriber == AboutToNotify {
      var s' := s.(queued := if s.queued < CAPACITY then s.queued + 1 else s.queued, subscriber := Listening);
      assert Next(poolPairs, s, TrySend, s');
      assert Enabled(poolPairs, s, TrySend);
    } else {
      match s.scanner
      case Waiting =>
        if s.queued > 0 {
          assert Next(poolPairs, s, Receive, s.(queued := s.queued - 1, scanner := Draining));
          assert Enabled(poolPairs, s, Receive);
        }
      case Draining =>
        if s.queued > 0 {
          assert Next(poolPairs, s, DrainOne, s.(queued := s.queued - 1));
          assert Enabled(poolPairs, s, DrainOne);
        } else {
          assert Next(poolPairs, s, DrainedEmpty, s.(scanner := Awake));
          assert Enabled(poolPairs, s, DrainedEmpty);
        }
      case Awake =>
        if StoreFits(s.store) {
          ScanIsExact(s.store, poolPairs, 0.0);
          var s' := s.(scanner := Recording, seen := s.store, price := 0.0, lastScan := Scan(s.store, poolPairs, 0.0));
          assert Next(poolPairs, s, Snapshot(0.0), s');
          assert Enabled(poolPairs, s, Snapshot(0.0));
        }
      case Recording =>
        assert Next(poolPairs, s, RoundDone, s.(scanner := Waiting));
        assert Enabled(poolPairs, s, RoundDone);
    }
  }

  /** So once logs stop, a run makes at most `Pending` more steps. */
  lemma {:induction false} QuietRunsAreShort(poolPairs: seq<(Address, Address)>, ss: seq<State>, acts: seq<Action>,
                                             first: nat, last: nat)
    requires Run(poolPairs, ss, acts) && first <= last <= |acts|
    requires forall i :: first <= i < last ==> !acts[i].LogArrives?
    ensures last - first + Pending(ss[last]) <= Pending(ss[first])
    decreases last
  {
    if first < last {
      QuietRunsAreShort(poolPairs, ss, acts, first, last - 1);
      InternalStepsRunDown(poolPairs, ss[last - 1]);
      assert Next(poolPairs, ss[last - 1], acts[last - 1], ss[last - 1 + 1]);
    }
  }
}
