/**
 * The message pipeline: stages linked through their `next` field, each
 * doing its own work on the shared message and then handing it on. The
 * Go `Pipeline` interface (Publish, AddNext, Next) becomes the Stage
 * datatype over the four stage classes, and PublishTo dispatches on it.
 *
 * Every Publish takes the chain it heads as a ghost argument and returns a
 * ghost trace with one Visit per stage: the message that stage received
 * and the message it passed on. It also takes `before`, the stages' states
 * at some earlier moment, and ensures AllWorked: every Calculate stage did
 * its one lookup from its earlier cache and now holds the cache its visit
 * used, and every Persist stage's store has had its message appended.
 */
module Pipeline {
  import opened Types
  import opened Model
  import opened Calc
  import opened Calibration
  import opened Store

  datatype Stage =
    | RootStage(root: Root)
    | CalcStage(calculate: Calculate)
    | PersistStage(persist: Persist)
    | LogStage(log: Log)

  function Obj(s: Stage): object
  {
    match s
    case RootStage(r) => r
    case CalcStage(c) => c
    case PersistStage(p) => p
    case LogStage(l) => l
  }

  function NextOf(s: Stage): Option<Stage>
    reads Obj(s)
  {
    match s
    case RootStage(r) => r.next
    case CalcStage(c) => c.next
    case PersistStage(p) => p.next
    case LogStage(l) => l.next
  }

  /** The store a stage talks to, if any. */
  function StoreOf(s: Stage): Option<Store>
  {
    match s
    case CalcStage(c) => Some(c.db)
    case PersistStage(p) => Some(p.db)
    case _ => None
  }

  ghost function Objs(chain: seq<Stage>): set<object>
  {
    set i | 0 <= i < |chain| :: Obj(chain[i])
  }

  /** Everything a Publish along `chain` may change besides the message: the stages and their stores. */
  ghost function Footprint(chain: seq<Stage>): set<object>
  {
    Objs(chain) + set i | 0 <= i < |chain| && StoreOf(chain[i]).Some? :: StoreOf(chain[i]).value as object
  }

  /**
   * `chain` is a finite, acyclic pipeline: its head is none of the stages
   * after it, a Calculate head's cache is well formed, the head's next is
   * the following stage or, for the last stage, none, and the stages after
   * the head form a pipeline in turn.
   */
  ghost predicate IsChain(chain: seq<Stage>)
    reads Objs(chain)
    decreases |chain|
  {
    && |chain| > 0
    && Obj(chain[0]) in Objs(chain) && Obj(chain[0]) !in Objs(chain[1..])
    && (chain[0].CalcStage? ==> chain[0].calculate.Valid())
    && if |chain| == 1 then NextOf(chain[0]) == None
       else ObjsTail(chain); NextOf(chain[0]) == Some(chain[1]) && IsChain(chain[1..])
  }

  /**
   * One stage's turn: the message it received, the message it passed on (or
   * left behind, as the last stage) and, for a Calculate stage, the cache it
   * looked the calibration up in (empty for the other stages).
   */
  datatype Visit = Visit(stage: Stage, received: Message, passed: Message, cache: map<U64, seq<Cal>>)

  /** The message after the Calculate stage's own work with calibration `cal`. */
  function Calibrated(m: Message, cal: Cal, at: Interpolator): (r: Message)
    ensures r.deviceID == if m.deviceID == "" then cal.deviceID else m.deviceID
  {
    Transformed(if m.deviceID == "" then m.(deviceID := cal.deviceID) else m, cal, at)
  }

  /**
   * What a stage does to the message: Root and Log pass it on untouched,
   * Persist changes at most the ID, Calculate calibrates it with the record
   * the visit's cache holds for the message's SysID at the message's receive
   * time.
   */
  ghost predicate StageEffect(v: Visit)
  {
    match v.stage
    case RootStage(_) => v.passed == v.received
    case LogStage(_) => v.passed == v.received
    case PersistStage(_) => v.passed == v.received.(id := v.passed.id)
    case CalcStage(c) =>
      v.passed == Calibrated(v.received, Effective(Lookup(v.cache, v.received.sysID), v.received.receivedTime), c.interp)
  }

  /**
   * `trace` visits every stage of `chain` exactly once, in chain order; the
   * first stage receives `first`, each later stage receives what the stage
   * before it passed on, and the message ends as `last`.
   */
  ghost predicate Traced(chain: seq<Stage>, trace: seq<Visit>, first: Message, last: Message)
    decreases |chain|
  {
    && |trace| == |chain| > 0
    && trace[0].stage == chain[0] && StageEffect(trace[0])
    && trace[0].received == first
    && if |chain| == 1 then trace[0].passed == last
       else Traced(chain[1..], trace[1..], trace[0].passed, last)
  }

  /**
   * What a Publish's own work depends on, as it stood before the message
   * went through: a Calculate stage's cache, its time stamp and what its
   * store's ListCals answers; what a Persist stage's store's PutMessage
   * answers; the messages a Calculate or Persist stage's store holds.
   */
  datatype StageState =
    | CalcState(cache: map<U64, seq<Cal>>, lastUpdate: int, answer: Result<seq<Cal>>, stored: seq<Message>)
    | PersistState(stored: seq<Message>, putAnswer: Result<I64>)
    | NoState

  ghost function StateOf(s: Stage): StageState
    reads Obj(s), if StoreOf(s).Some? then {StoreOf(s).value} else {}
  {
    match s
    case CalcStage(c) => CalcState(c.calibrationCache, c.lastCacheUpdate, c.db.calsAnswer, c.db.stored)
    case PersistStage(p) => PersistState(p.db.stored, p.db.putAnswer)
    case _ => NoState
  }

  /** The state of every stage of `chain`, in chain order. */
  ghost function States(chain: seq<Stage>): (r: seq<StageState>)
    reads Footprint(chain)
    ensures |r| == |chain|
    decreases |chain|
  {
    if |chain| == 0 then []
    else FootprintTail(chain); [StateOf(chain[0])] + States(chain[1..])
  }

  lemma {:induction false} StatesAt(chain: seq<Stage>, j: nat)
    requires j < |chain|
    ensures States(chain)[j] == StateOf(chain[j])
    decreases j
  {
    if j > 0 {
      StatesAt(chain[1..], j - 1);
      assert chain[1..][j - 1] == chain[j];
    }
  }

  /**
   * `b` is what `b'` was earlier: the same, except that the store may since
   * have had messages appended.
   */
  ghost predicate Precedes(b: StageState, b': StageState)
  {
    match b
    case CalcState(cache, lastUpdate, answer, stored) =>
      b'.CalcState? && b' == CalcState(cache, lastUpdate, answer, b'.stored) && stored <= b'.stored
    case PersistState(stored, putAnswer) => b'.PersistState? && b'.putAnswer == putAnswer && stored <= b'.stored
    case NoState => b' == NoState
  }

  /** Each state of `bs` is what the matching state of `bs'` was earlier. */
  ghost predicate AllPrecede(bs: seq<StageState>, bs': seq<StageState>)
    decreases |bs|
  {
    && |bs| == |bs'|
    && (|bs| > 0 ==> Precedes(bs[0], bs'[0]) && AllPrecede(bs[1..], bs'[1..]))
  }

  /** The objects whose state Worked reads: a Calculate stage itself, a Persist stage's store. */
  ghost function WorkSite(s: Stage): set<object>
  {
    match s
    case CalcStage(c) => {c, c.db}
    case PersistStage(p) => {p.db}
    case _ => {}
  }

  /**
   * Stage `s`, whose state was `b` before, did its own work in visit `v`: a
   * Calculate stage did the lookup for the received message's SysID at
   * `now` on that earlier cache, time stamp and store answer, and `v.cache`
   * is the cache that lookup left and the stage still holds; a Persist
   * stage's store has had the received message appended since, and the
   * stage passed it on with the storage ID the store answered, or
   * unchanged when the store failed. Either stage's store kept every
   * message it held.
   */
  ghost predicate Worked(s: Stage, v: Visit, now: int, b: StageState)
    reads WorkSite(s)
  {
    match s
    case CalcStage(c) =>
      && b.CalcState?
      && b.stored <= c.db.stored
      && v.cache == c.calibrationCache
      && CacheAfterLookup(b.cache, b.lastUpdate, v.received.sysID, now, b.answer, c.calibrationCache, c.lastCacheUpdate)
    case PersistStage(p) =>
      && b.PersistState? && b.stored <= p.db.stored && v.received in p.db.stored[|b.stored|..]
      && v.passed == if b.putAnswer.Ok? then v.received.(id := b.putAnswer.value) else v.received
    case _ => true
  }

  /** Every stage of `chain` did its own work in its visit of `trace`, from its state in `before`. */
  ghost predicate AllWorked(chain: seq<Stage>, trace: seq<Visit>, now: int, before: seq<StageState>)
    reads Footprint(chain)
    decreases |chain|
  {
    && |trace| == |chain| && |before| == |chain|
    && (|chain| > 0 ==>
          && Worked(chain[0], trace[0], now, before[0])
          && (FootprintTail(chain); AllWorked(chain[1..], trace[1..], now, before[1..])))
  }

  /** Work done from the stages' states holds also from any earlier states of them. */
  lemma {:induction false} AllWorkedFromEarlier(chain: seq<Stage>, trace: seq<Visit>, now: int,
                                                 before: seq<StageState>, later: seq<StageState>)
    requires AllWorked(chain, trace, now, later) && AllPrecede(before, later)
    ensures AllWorked(chain, trace, now, before)
    decreases |chain|
  {
    if |chain| > 0 {
      WorkedFromEarlier(chain[0], trace[0], now, before[0], later[0]);
      AllWorkedFromEarlier(chain[1..], trace[1..], now, before[1..], later[1..]);
    }
  }

  /**
   * The head's work and the work of the stages after it, each from a state
   * no later than the one the tail started from, make the work of the
   * whole chain.
   */
  lemma AllWorkedCons(chain: seq<Stage>, v: Visit, rest: seq<Visit>, now: int, before: seq<StageState>,
                      tailStart: seq<StageState>)
    requires |chain| > 1 && |before| == |chain|
    requires Worked(chain[0], v, now, before[0])
    requires AllWorked(chain[1..], rest, now, tailStart) && AllPrecede(before[1..], tailStart)
    ensures AllWorked(chain, [v] + rest, now, before)
  {
    AllWorkedFromEarlier(chain[1..], rest, now, before[1..], tailStart);
    assert ([v] + rest)[1..] == rest;
  }

  /** States no later than a chain's are, past the head, no later than its tail's. */
  lemma AllPrecedeTail(chain: seq<Stage>, before: seq<StageState>)
    requires |chain| > 0 && AllPrecede(before, States(chain))
    ensures AllPrecede(before[1..], States(chain[1..]))
  {
    assert States(chain)[1..] == States(chain[1..]);
  }

  /** A message appended after `prefix` is still among the messages appended after it once more are appended. */
  lemma AppendedStays(prefix: seq<Message>, s: seq<Message>, s': seq<Message>, x: Message)
    requires prefix <= s <= s' && x in s[|prefix|..]
    ensures x in s'[|prefix|..]
  {
    var k :| 0 <= k < |s| - |prefix| && s[|prefix|..][k] == x;
    assert s'[|prefix|..][k] == x;
  }

  /** Work done from a stage's state holds also from any earlier state of it. */
  lemma WorkedFromEarlier(s: Stage, v: Visit, now: int, b: StageState, b': StageState)
    requires Worked(s, v, now, b') && Precedes(b, b')
    ensures Worked(s, v, now, b)
  {
    if s.PersistStage? {
      var stored := s.persist.db.stored;
      var k :| 0 <= k < |stored| - |b'.stored| && stored[|b'.stored|..][k] == v.received;
      assert stored[|b.stored|..][k + |b'.stored| - |b.stored|] == v.received;
    }
  }

  /** The stages after the head are themselves a pipeline, and nothing they may change is the head. */
  lemma ChainTail(chain: seq<Stage>)
    requires IsChain(chain) && |chain| > 1
    ensures IsChain(chain[1..])
    ensures Obj(chain[0]) !in Footprint(chain[1..])
    ensures Obj(chain[0]) !in Objs(chain[1..])
  {
    var tail := chain[1..];
    forall i | 0 <= i < |tail| && StoreOf(tail[i]).Some?
      ensures Obj(chain[0]) != StoreOf(tail[i]).value
    {
      match chain[0]
      case RootStage(_) =>
      case CalcStage(_) =>
      case PersistStage(_) =>
      case LogStage(_) =>
    }
  }

  /** The stages after the head are among the chain's stages. */
  lemma ObjsTail(chain: seq<Stage>)
    requires |chain| > 0
    ensures Objs(chain[1..]) <= Objs(chain)
  {
    forall o | o in Objs(chain[1..])
      ensures o in Objs(chain)
    {
      var i :| 0 <= i < |chain| - 1 && o == Obj(chain[1..][i]);
      assert chain[1..][i] == chain[i + 1];
    }
  }

  /** What the stages after the head may change is part of what the whole chain may change. */
  lemma FootprintTail(chain: seq<Stage>)
    requires |chain| > 0
    ensures Footprint(chain[1..]) <= Footprint(chain)
  {
    var tail := chain[1..];
    forall o | o in Footprint(tail)
      ensures o in Footprint(chain)
    {
      if o in Objs(tail) {
        var i :| 0 <= i < |tail| && o == Obj(tail[i]);
        assert tail[i] == chain[i + 1];
      } else {
        var i :| 0 <= i < |tail| && StoreOf(tail[i]).Some? && o == StoreOf(tail[i]).value;
        assert tail[i] == chain[i + 1];
      }
    }
  }

  /** Neither the message nor a store is a stage. */
  lemma NotStages(chain: seq<Stage>, m: MessageRef, st: Store)
    ensures m !in Objs(chain) && st !in Objs(chain)
  {
    forall i | 0 <= i < |chain|
      ensures Obj(chain[i]) != m && Obj(chain[i]) != st
    {
      match chain[i]
      case RootStage(_) =>
      case CalcStage(_) =>
      case PersistStage(_) =>
      case LogStage(_) =>
    }
  }

  /** A store the stages after the head may change is the store of one of them. */
  lemma StoreOfTail(chain: seq<Stage>, st: Store) returns (j: nat)
    requires |chain| > 1 && st in Footprint(chain[1..])
    ensures j < |chain| - 1 && StoreOf(chain[1..][j]) == Some(st)
  {
    var tail := chain[1..];
    assert st !in Objs(tail);
    j :| 0 <= j < |tail| && StoreOf(tail[j]).Some? && st == StoreOf(tail[j]).value;
  }

  /**
   * Stages none of whose fields changed, over stores whose ListCals answer
   * stayed and which only had messages appended, are still a chain, and
   * each stage's state then is no earlier than before.
   */
  twostate lemma ChainKept(chain: seq<Stage>)
    requires old(IsChain(chain))
    requires unchanged(Objs(chain))
    requires forall st: Store {:trigger st.calsAnswer} {:trigger st.putAnswer} {:trigger st.stored} :: old(allocated(st)) ==>
      unchanged(st`calsAnswer) && unchanged(st`putAnswer) && (unchanged(st`stored) || old(st.stored) < st.stored)
    ensures IsChain(chain)
    ensures AllPrecede(old(States(chain)), States(chain))
    decreases |chain|
  {
    if |chain| > 1 {
      ObjsTail(chain);
      ChainKept(chain[1..]);
    }
    assert old(States(chain))[1..] == old(States(chain[1..]));
    assert States(chain)[1..] == States(chain[1..]);
  }

  /** A stage with a store keeps, in its state, the messages that store holds. */
  lemma StateStored(s: Stage)
    requires StoreOf(s).Some?
    ensures !StateOf(s).NoState? && StateOf(s).stored == StoreOf(s).value.stored
  {
  }

  /** The store of a stage that did its work kept every message it held before. */
  lemma {:induction false} StoredGrew(chain: seq<Stage>, trace: seq<Visit>, now: int, before: seq<StageState>, j: nat)
    requires AllWorked(chain, trace, now, before) && j < |chain| && StoreOf(chain[j]).Some?
    ensures !before[j].NoState? && before[j].stored <= StoreOf(chain[j]).value.stored
    decreases j
  {
    if j > 0 {
      StoredGrew(chain[1..], trace[1..], now, before[1..], j - 1);
      assert chain[1..][j - 1] == chain[j];
    }
  }

  /**
   * A stage none of whose fields changed, over a store that only had
   * messages appended, still counts as having done the work it had done.
   */
  twostate lemma HeadKept(turn: (Visit, int, StageState))
    requires var (v, now, b) := turn; old(Worked(v.stage, v, now, b)) && unchanged(Obj(v.stage))
    requires var s := turn.0.stage; StoreOf(s).Some? ==> old(StoreOf(s).value.stored) <= StoreOf(s).value.stored
    ensures var (v, now, b) := turn; Worked(v.stage, v, now, b)
  {
    var (v, now, b) := turn;
    if v.stage.PersistStage? {
      var st := v.stage.persist.db;
      AppendedStays(b.stored, old(st.stored), st.stored, v.received);
    }
  }

  /** Every state is no later than itself. */
  lemma {:induction false} AllPrecedeRefl(bs: seq<StageState>)
    ensures AllPrecede(bs, bs)
    decreases |bs|
  {
    if |bs| > 0 {
      AllPrecedeRefl(bs[1..]);
    }
  }

  lemma {:induction false} AllPrecedeTrans(bs: seq<StageState>, bs': seq<StageState>, bs'': seq<StageState>)
    requires AllPrecede(bs, bs') && AllPrecede(bs', bs'')
    ensures AllPrecede(bs, bs'')
    decreases |bs|
  {
    if |bs| > 0 {
      AllPrecedeTrans(bs[1..], bs'[1..], bs''[1..]);
    }
  }

  lemma ChainCons(chain: seq<Stage>)
    requires |chain| > 1 && IsChain(chain[1..])
    requires NextOf(chain[0]) == Some(chain[1]) && Obj(chain[0]) !in Objs(chain[1..])
    requires chain[0].CalcStage? ==> chain[0].calculate.Valid()
    ensures IsChain(chain)
  {
    assert Obj(chain[0]) in Objs(chain);
  }

  lemma ChainOne(chain: seq<Stage>)
    requires |chain| == 1 && NextOf(chain[0]) == None
    requires chain[0].CalcStage? ==> chain[0].calculate.Valid()
    ensures IsChain(chain)
  {
  }

  lemma TracedCons(chain: seq<Stage>, v: Visit, rest: seq<Visit>, last: Message)
    requires |chain| > 1 && Traced(chain[1..], rest, v.passed, last)
    requires v.stage == chain[0] && StageEffect(v)
    ensures Traced(chain, [v] + rest, v.received, last)
  {
    assert ([v] + rest)[1..] == rest;
  }

  /**
   * The pipeline the fetch command builds, Root then Calculate then
   * Persist, with `before` the stages' states before the message went
   * through: the Calculate stage did the lookup for the message's SysID on
   * its earlier cache, time stamp and store answer, and now holds the cache
   * that lookup left; what comes out is the received message calibrated
   * with the record that cache holds for it, then given the storage ID the
   * Persist stage's store answered, if it answered one; and that calibrated
   * message is among the messages the Persist stage's store had appended.
   */
  lemma RootCalculatePersist(chain: seq<Stage>, trace: seq<Visit>, now: int, before: seq<StageState>,
                             first: Message, last: Message)
    requires |chain| == 3 && chain[0].RootStage? && chain[1].CalcStage? && chain[2].PersistStage?
    requires Traced(chain, trace, first, last)
    requires AllWorked(chain, trace, now, before)
    ensures before[1].CalcState? && before[2].PersistState?
    ensures var c := chain[1].calculate;
      CacheAfterLookup(before[1].cache, before[1].lastUpdate, first.sysID, now, before[1].answer,
                       c.calibrationCache, c.lastCacheUpdate)
    ensures var c := chain[1].calculate;
      var calibrated := Calibrated(first, Effective(Lookup(c.calibrationCache, first.sysID), first.receivedTime), c.interp);
      && last == (if before[2].putAnswer.Ok? then calibrated.(id := before[2].putAnswer.value) else calibrated)
      && before[2].stored <= chain[2].persist.db.stored
      && calibrated in chain[2].persist.db.stored[|before[2].stored|..]
  {
    var tail, tail2 := chain[1..], chain[2..];
    assert tail[0] == chain[1] && tail[1..] == tail2 && tail2[0] == chain[2] && |tail2| == 1;
    assert trace[1..][0] == trace[1] && trace[1..][1..][0] == trace[2];
    assert before[1..][0] == before[1] && before[1..][1..][0] == before[2];
    assert Traced(tail, trace[1..], trace[0].passed, last);
    assert Traced(tail2, trace[1..][1..], trace[1].passed, last);
    assert AllWorked(tail, trace[1..], now, before[1..]);
    assert AllWorked(tail2, trace[1..][1..], now, before[1..][1..]);
  }

  /** Hands the message to a stage, whichever kind it is. */
  method PublishTo(s: Stage, m: MessageRef, now: int, ghost chain: seq<Stage>, ghost before: seq<StageState>)
      returns (err: Option<Error>, ghost trace: seq<Visit>)
    requires IsChain(chain) && chain[0] == s && AllPrecede(before, States(chain))
    modifies m, Footprint(chain)
    ensures IsChain(chain)
    ensures Traced(chain, trace, old(m.value), m.value)
    ensures AllWorked(chain, trace, now, before)
    ensures err == None
    decreases |chain|, 3
  {
    match s
    case RootStage(r) => err, trace := r.Publish(m, now, chain, before);
    case CalcStage(c) => err, trace := c.Publish(m, now, chain, before);
    case PersistStage(p) => err, trace := p.Publish(m, now, chain, before);
    case LogStage(l) => err, trace := l.Publish(m, now, chain, before);
  }

  /**
   * The step every stage ends with: hand the message to `next`, the head's
   * next stage, if there is one. The trace is the head's own visit `v`
   * followed by the downstream trace.
   */
  method Forward(next: Option<Stage>, m: MessageRef, now: int, ghost chain: seq<Stage>, ghost v: Visit,
                 ghost before: seq<StageState>)
      returns (err: Option<Error>, ghost trace: seq<Visit>)
    requires IsChain(chain) && next == NextOf(chain[0])
    requires v.stage == chain[0] && StageEffect(v) && v.passed == m.value
    requires |before| == |chain| && Worked(chain[0], v, now, before[0])
    requires AllPrecede(before[1..], States(chain[1..]))
    modifies m, Footprint(chain[1..])
    ensures Obj(chain[0]) !in Footprint(chain[1..])
    ensures IsChain(chain)
    ensures Traced(chain, trace, v.received, m.value) && trace[0] == v
    ensures AllWorked(chain, trace, now, before)
    ensures StoreOf(chain[0]).Some? ==> old(StoreOf(chain[0]).value.stored) <= StoreOf(chain[0]).value.stored
    ensures err == None
    decreases |chain|, 1
  {
    if next.Some? {
      ghost var rest, tailStart;
      err, rest, tailStart := PassOn(next.value, m, now, chain);
      TracedCons(chain, v, rest, m.value);
      trace := [v] + rest;
      HeadKept((v, now, before[0]));
      AllWorkedCons(chain, v, rest, now, before, tailStart);
    } else {
      assert Footprint(chain[1..]) == {};
      err := None;
      trace := [v];
    }
  }

  /**
   * Hands the message to `next`, the head's next stage, and so to the
   * rest of the chain, whose states were `tailStart`. The head's own
   * fields stay as they were, and its store, which a later stage may
   * share, at most has messages appended.
   */
  method PassOn(next: Stage, m: MessageRef, now: int, ghost chain: seq<Stage>)
      returns (err: Option<Error>, ghost rest: seq<Visit>, ghost tailStart: seq<StageState>)
    requires IsChain(chain) && NextOf(chain[0]) == Some(next)
    modifies m, Footprint(chain[1..])
    ensures |chain| > 1 && tailStart == old(States(chain[1..]))
    ensures Obj(chain[0]) !in Footprint(chain[1..])
    ensures IsChain(chain) && unchanged(Obj(chain[0]))
    ensures Traced(chain[1..], rest, old(m.value), m.value)
    ensures AllWorked(chain[1..], rest, now, tailStart)
    ensures StoreOf(chain[0]).Some? ==> old(StoreOf(chain[0]).value.stored) <= StoreOf(chain[0]).value.stored
    ensures err == None
    decreases |chain|, 0
  {
    ChainTail(chain);
    tailStart := States(chain[1..]);
    ghost var st: Option<Store> := StoreOf(chain[0]);
    ghost var shared, j := st.Some? && st.value in Footprint(chain[1..]), 0;
    if shared {
      j := StoreOfTail(chain, st.value);
      StatesAt(chain[1..], j);
      StateStored(chain[1..][j]);
    }
    AllPrecedeRefl(tailStart);
    err, rest := PublishTo(next, m, now, chain[1..], tailStart);
    assert unchanged(Obj(chain[0]));
    ChainCons(chain);
    if shared {
      StoredGrew(chain[1..], rest, now, tailStart, j);
    } else if st.Some? {
      assert unchanged(st.value`stored);
    }
  }

  /** The head of the pipeline: passes the message on untouched. */
  class Root {
    var next: Option<Stage>

    /** The options and the store the source keeps in a Root are never read, so they are not modelled. */
    constructor ()
      ensures next == None
    {
      next := None;
    }

    method AddNext(pe: Stage)
      modifies this`next
      ensures next == Some(pe)
    {
      next := Some(pe);
    }

    method Next() returns (pe: Option<Stage>)
      ensures pe == next
    {
      pe := next;
    }

    method Publish(m: MessageRef, now: int, ghost chain: seq<Stage>, ghost before: seq<StageState>)
        returns (err: Option<Error>, ghost trace: seq<Visit>)
      requires IsChain(chain) && chain[0] == RootStage(this) && AllPrecede(before, States(chain))
      modifies m, Footprint(chain)
      ensures IsChain(chain)
      ensures Traced(chain, trace, old(m.value), m.value)
      ensures AllWorked(chain, trace, now, before)
      ensures trace[0].passed == old(m.value)
      ensures next == old(next)
      ensures err == None
      decreases |chain|, 2
    {
      FootprintTail(chain);
      AllPrecedeTail(chain, before);
      err, trace := Forward(next, m, now, chain, Visit(RootStage(this), m.value, m.value, map[]), before);
    }
  }

  /** The calibration stage: finds the record in effect and runs the sensor transform. */
  class Calculate {
    var next: Option<Stage>
    const db: Store
    /** The piecewise-linear library's evaluation, which the correction functions call. */
    const interp: Interpolator
    var calibrationCache: map<U64, seq<Cal>>
    /** Milliseconds since the Unix epoch. */
    var lastCacheUpdate: int
    /** The records the cache was last built from. */
    ghost var snapshot: seq<Cal>

    ghost predicate Valid()
      reads this
    {
      IsCacheOf(calibrationCache, snapshot)
    }

    constructor (db: Store, interp: Interpolator)
      ensures this.db == db && this.interp == interp && next == None
      ensures calibrationCache == map[] && lastCacheUpdate == GoZeroTimeMs && snapshot == []
      ensures Valid()
    {
      this.db := db;
      this.interp := interp;
      next := None;
      calibrationCache := map[];
      lastCacheUpdate := GoZeroTimeMs;
      snapshot := [];
    }

    /**
     * The source's New: builds the stage and loads the cache. A failed first
     * load stops the process there; here it is an error result.
     */
    static method New(db: Store, now: int, interp: Interpolator) returns (r: Result<Calculate>)
      modifies db`listCalls
      ensures db.listCalls == old(db.listCalls) + 1
      ensures old(db.calsAnswer).Err? ==> r == Err(old(db.calsAnswer).error)
      ensures old(db.calsAnswer).Ok? ==>
        && r.Ok? && fresh(r.value)
        && r.value.db == db && r.value.interp == interp && r.value.next == None
        && IsCacheOf(r.value.calibrationCache, old(db.calsAnswer).value)
        && r.value.lastCacheUpdate == now
        && r.value.Valid()
    {
      var c := new Calculate(db, interp);
      var err := c.LoadCache(now);
      if err.Some? {
        return Err(err.value);
      }
      return Ok(c);
    }

    /** Reloads the cache from the store; on failure the cache and its time stamp stay as they were. */
    method LoadCache(now: int) returns (err: Option<Error>)
      requires Valid()
      modifies this`calibrationCache, this`lastCacheUpdate, this`snapshot, db`listCalls
      ensures Valid()
      ensures db.listCalls == old(db.listCalls) + 1
      ensures old(db.calsAnswer).Ok? ==>
        && err == None
        && IsCacheOf(calibrationCache, old(db.calsAnswer).value)
        && snapshot == old(db.calsAnswer).value
        && lastCacheUpdate == now
      ensures old(db.calsAnswer).Err? ==>
        && err == Some(old(db.calsAnswer).error)
        && calibrationCache == old(calibrationCache)
        && lastCacheUpdate == old(lastCacheUpdate)
        && snapshot == old(snapshot)
    {
      var cals := db.ListCals();
      if cals.Err? {
        return Some(cals.error);
      }
      PopulateCache(cals.value, now);
      err := None;
    }

    /** Groups the records by SysID, sorts every group newest first and replaces the cache. */
    method PopulateCache(cals: seq<Cal>, now: int)
      modifies this`calibrationCache, this`lastCacheUpdate, this`snapshot
      ensures IsCacheOf(calibrationCache, cals)
      ensures lastCacheUpdate == now && snapshot == cals
      ensures Valid()
    {
      var groups := GroupBySysID(cals);
      groups := SortGroups(groups);
      calibrationCache := groups;
      lastCacheUpdate := now;
      snapshot := cals;
    }

    /**
     * The calibration for `sysID` at time `t` (milliseconds). A SysID missing
     * from the cache triggers one reload, unless the last load was less than
     * the delay ago; a failed reload keeps the old cache.
     */
    method FindCacheEntry(sysID: U64, t: int, now: int) returns (cal: Cal)
      requires Valid()
      modifies this`calibrationCache, this`lastCacheUpdate, this`snapshot, db`listCalls
      ensures Valid()
      ensures var reload := ShouldReload(old(calibrationCache), old(lastCacheUpdate), sysID, now);
        && db.listCalls == old(db.listCalls) + (if reload then 1 else 0)
        && (reload && old(db.calsAnswer).Ok? ==>
              IsCacheOf(calibrationCache, old(db.calsAnswer).value)
              && snapshot == old(db.calsAnswer).value && lastCacheUpdate == now)
        && (!(reload && old(db.calsAnswer).Ok?) ==>
              calibrationCache == old(calibrationCache)
              && lastCacheUpdate == old(lastCacheUpdate) && snapshot == old(snapshot))
      ensures cal == Effective(Lookup(calibrationCache, sysID), t)
    {
      ghost var reload := ShouldReload(calibrationCache, lastCacheUpdate, sysID, now);
      var refreshedCache := false;
      var deviceCalEntries: seq<Cal> := [];
      while true
        invariant Valid()
        invariant !refreshedCache ==>
          && calibrationCache == old(calibrationCache) && lastCacheUpdate == old(lastCacheUpdate)
          && snapshot == old(snapshot) && db.listCalls == old(db.listCalls)
        invariant refreshedCache ==>
          && reload && db.listCalls == old(db.listCalls) + 1
          && (old(db.calsAnswer).Ok? ==>
                IsCacheOf(calibrationCache, old(db.calsAnswer).value)
                && snapshot == old(db.calsAnswer).value && lastCacheUpdate == now)
          && (old(db.calsAnswer).Err? ==>
                calibrationCache == old(calibrationCache)
                && lastCacheUpdate == old(lastCacheUpdate) && snapshot == old(snapshot))
        invariant db.calsAnswer == old(db.calsAnswer)
        decreases if refreshedCache then 0 else 1
      {
        if sysID in calibrationCache {
          deviceCalEntries := calibrationCache[sysID];
          break;
        }
        if refreshedCache {
          break;
        }
        if now < lastCacheUpdate + MinCacheUpdateDelayMs {
          break;
        }
        var err := LoadCache(now);
        refreshedCache := true;
      }
      cal := ScanEntries(deviceCalEntries, t);
    }

    /**
     * The stage's own work on a message: look up the calibration in effect
     * at the message's receive time, fill an empty DeviceID from it, and run
     * the sensor transform.
     */
    method CalibrateMessage(m: MessageRef, now: int)
      requires Valid()
      modifies m, this`calibrationCache, this`lastCacheUpdate, this`snapshot, db`listCalls
      ensures Valid()
      ensures CacheAfterLookup(old(calibrationCache), old(lastCacheUpdate), old(m.value).sysID, now, old(db.calsAnswer),
                               calibrationCache, lastCacheUpdate)
      ensures m.value ==
        Calibrated(old(m.value), Effective(Lookup(calibrationCache, old(m.value).sysID), old(m.value).receivedTime), interp)
    {
      var cal := FindCacheEntry(m.value.sysID, m.value.receivedTime, now);
      if m.value.deviceID == "" {
        m.value := m.value.(deviceID := cal.deviceID);
      }
      CalculateSensorValues(m, cal, interp);
    }

    method AddNext(pe: Stage)
      modifies this`next
      ensures next == Some(pe)
    {
      next := Some(pe);
    }

    method Next() returns (pe: Option<Stage>)
      ensures pe == next
    {
      pe := next;
    }

    method Publish(m: MessageRef, now: int, ghost chain: seq<Stage>, ghost before: seq<StageState>)
        returns (err: Option<Error>, ghost trace: seq<Visit>)
      requires IsChain(chain) && chain[0] == CalcStage(this) && AllPrecede(before, States(chain))
      modifies m, Footprint(chain)
      ensures IsChain(chain)
      ensures Traced(chain, trace, old(m.value), m.value)
      ensures CacheAfterLookup(old(calibrationCache), old(lastCacheUpdate), old(m.value).sysID, now, old(db.calsAnswer),
                               calibrationCache, lastCacheUpdate)
      ensures AllWorked(chain, trace, now, before)
      ensures trace[0].cache == calibrationCache
      ensures trace[0].passed ==
        Calibrated(old(m.value), Effective(Lookup(calibrationCache, old(m.value).sysID), old(m.value).receivedTime), interp)
      ensures next == old(next)
      ensures err == None
      decreases |chain|, 2
    {
      FootprintTail(chain);
      ghost var v := CalibrateInChain(m, now, chain, before);
      err, trace := Forward(next, m, now, chain, v, before);
    }

    /** CalibrateMessage as a visit: the stage's work from state `b`, or from any state before it. */
    method CalibrateStep(m: MessageRef, now: int, ghost b: StageState, ghost others: set<object>)
        returns (ghost v: Visit)
      requires Valid() && Precedes(b, StateOf(CalcStage(this)))
      requires m !in others && this !in others && db !in others
      modifies m, this`calibrationCache, this`lastCacheUpdate, this`snapshot, db`listCalls
      ensures unchanged(others)
      ensures forall st: Store {:trigger st.calsAnswer} {:trigger st.putAnswer} {:trigger st.stored} :: old(allocated(st)) ==>
        unchanged(st`calsAnswer) && unchanged(st`putAnswer) && unchanged(st`stored)
      ensures Valid()
      ensures v.stage == CalcStage(this) && StageEffect(v) && v.received == old(m.value) && v.passed == m.value
      ensures Worked(CalcStage(this), v, now, b)
    {
      ghost var received := m.value;
      CalibrateMessage(m, now);
      v := Visit(CalcStage(this), received, m.value, calibrationCache);
    }

    /**
     * Publish's own work on the message, seen from the chain: the stages
     * after this one are untouched, so they still form a chain.
     */
    method CalibrateInChain(m: MessageRef, now: int, ghost chain: seq<Stage>, ghost before: seq<StageState>)
        returns (ghost v: Visit)
      requires IsChain(chain) && chain[0] == CalcStage(this) && AllPrecede(before, States(chain))
      modifies m, this`calibrationCache, this`lastCacheUpdate, this`snapshot, db`listCalls
      ensures IsChain(chain) && next == old(next)
      ensures v.stage == chain[0] && StageEffect(v) && v.received == old(m.value) && v.passed == m.value
      ensures Worked(chain[0], v, now, before[0])
      ensures AllPrecede(before[1..], States(chain[1..]))
    {
      if next != None {
        ChainTail(chain);
      }
      NotStages(chain[1..], m, db);
      AllPrecedeTail(chain, before);
      label start:
      v := CalibrateStep(m, now, before[0], Objs(chain[1..]));
      if next != None {
        ghost var tail := chain[1..];
        ChainKept@start(tail);
        AllPrecedeTrans(before[1..], old@start(States(tail)), States(tail));
        ChainCons(chain);
      } else {
        ChainOne(chain);
      }
    }
  }

  /** The persistence stage: stores the message and records the storage ID in it. */
  class Persist {
    const db: Store
    var next: Option<Stage>

    constructor (db: Store)
      ensures this.db == db && next == None
    {
      this.db := db;
      next := None;
    }

    method AddNext(pe: Stage)
      modifies this`next
      ensures next == Some(pe)
    {
      next := Some(pe);
    }

    method Next() returns (pe: Option<Stage>)
      ensures pe == next
    {
      pe := next;
    }

    /** A failed store call is only logged: the message keeps its ID and is still passed on. */
    method Publish(m: MessageRef, now: int, ghost chain: seq<Stage>, ghost before: seq<StageState>)
        returns (err: Option<Error>, ghost trace: seq<Visit>)
      requires IsChain(chain) && chain[0] == PersistStage(this) && AllPrecede(before, States(chain))
      modifies m, Footprint(chain)
      ensures IsChain(chain)
      ensures Traced(chain, trace, old(m.value), m.value)
      ensures old(db.stored) + [old(m.value)] <= db.stored
      ensures AllWorked(chain, trace, now, before)
      ensures trace[0].passed ==
        if old(db.putAnswer).Ok? then old(m.value).(id := old(db.putAnswer).value) else old(m.value)
      ensures next == old(next)
      ensures err == None
      decreases |chain|, 2
    {
      FootprintTail(chain);
      ghost var v := StoreInChain(m, now, chain, before);
      err, trace := Forward(next, m, now, chain, v, before);
    }

    /**
     * Publish's own work on the message: store it, and take the storage ID
     * when the store gives one. No stage changes, so the chain stays one.
     */
    method StoreInChain(m: MessageRef, ghost now: int, ghost chain: seq<Stage>, ghost before: seq<StageState>)
        returns (ghost v: Visit)
      requires IsChain(chain) && chain[0] == PersistStage(this) && AllPrecede(before, States(chain))
      modifies m, db`stored
      ensures IsChain(chain)
      ensures Worked(chain[0], v, now, before[0])
      ensures AllPrecede(before[1..], States(chain[1..]))
      ensures v.stage == chain[0] && StageEffect(v) && v.received == old(m.value) && v.passed == m.value
      ensures m.value == if old(db.putAnswer).Ok? then old(m.value).(id := old(db.putAnswer).value) else old(m.value)
      ensures db.stored == old(db.stored) + [old(m.value)]
    {
      ghost var received := m.value;
      NotStages(chain, m, db);
      AllPrecedeTail(chain, before);
      label start:
      var id := db.PutMessage(m.value);
      if id.Ok? {
        m.value := m.value.(id := id.value);
      }
      ChainKept@start(chain);
      AllPrecedeTrans(before[1..], old@start(States(chain[1..])), States(chain[1..]));
      v := Visit(PersistStage(this), received, m.value, map[]);
      assert db.stored[|before[0].stored|..][|old(db.stored)| - |before[0].stored|] == received;
    }
  }

  /** The logging stage; the log line itself is not modelled. */
  class Log {
    var next: Option<Stage>

    constructor ()
      ensures next == None
    {
      next := None;
    }

    method AddNext(pe: Stage)
      modifies this`next
      ensures next == Some(pe)
    {
      next := Some(pe);
    }

    method Next() returns (pe: Option<Stage>)
      ensures pe == next
    {
      pe := next;
    }

    method Publish(m: MessageRef, now: int, ghost chain: seq<Stage>, ghost before: seq<StageState>)
        returns (err: Option<Error>, ghost trace: seq<Visit>)
      requires IsChain(chain) && chain[0] == LogStage(this) && AllPrecede(before, States(chain))
      modifies m, Footprint(chain)
      ensures IsChain(chain)
      ensures Traced(chain, trace, old(m.value), m.value)
      ensures AllWorked(chain, trace, now, before)
      ensures trace[0].passed == old(m.value)
      ensures next == old(next)
      ensures err == None
      decreases |chain|, 2
    {
      FootprintTail(chain);
      AllPrecedeTail(chain, before);
      err, trace := Forward(next, m, now, chain, Visit(LogStage(this), m.value, m.value, map[]), before);
    }
  }

  /**
   * One message published into the pipeline the fetch command links: Root,
   * then Calculate, then Persist. The Calculate stage does the one lookup
   * its cache, time stamp and store answer allow; the message comes out
   * calibrated from the cache that lookup left and carrying the storage ID
   * the Persist stage's store answered, if it answered one; and the
   * calibrated message is appended to the Persist stage's store.
   */
  method PublishFetched(r: Root, c: Calculate, p: Persist, m: MessageRef, now: int) returns (err: Option<Error>)
    requires r.next == Some(CalcStage(c)) && c.next == Some(PersistStage(p)) && p.next == None
    requires c.Valid()
    modifies m, r, c, c.db, p, p.db
    ensures CacheAfterLookup(old(c.calibrationCache), old(c.lastCacheUpdate), old(m.value).sysID, now,
                             old(c.db.calsAnswer), c.calibrationCache, c.lastCacheUpdate)
    ensures var calibrated :=
        Calibrated(old(m.value), Effective(Lookup(c.calibrationCache, old(m.value).sysID), old(m.value).receivedTime), c.interp);
      && m.value == (if old(p.db.putAnswer).Ok? then calibrated.(id := old(p.db.putAnswer).value) else calibrated)
      && old(p.db.stored) <= p.db.stored
      && calibrated in p.db.stored[|old(p.db.stored)|..]
    ensures err == None
  {
    ghost var chain := [RootStage(r), CalcStage(c), PersistStage(p)];
    ChainOne(chain[2..]);
    ChainCons(chain[1..]);
    ChainCons(chain);
    ghost var before := States(chain);
    StatesAt(chain, 1);
    StatesAt(chain, 2);
    AllPrecedeRefl(before);
    ghost var trace;
    err, trace := r.Publish(m, now, chain, before);
    RootCalculatePersist(chain, trace, now, before, old(m.value), m.value);
  }
}
