/**
 The delivery loop and the callbacks of the batch timer all run `flushBatch`, and the loop appends to
 the pending batch, without a lock. This module takes every flush apart - read the pending batch, have
 it accepted or refused, clear the pending batch - and every append - load the pending batch, store it
 with the new ticks - and lets any number of goroutines interleave these steps in any way. It shows
 which interleavings keep the ticks, exactly. A batch that has been read is a value here, and the test
 that it is not empty is one step with the read.

 `kept`, `interrupted`, `overtaken` and `disturbed` are history.
 */
module FlushOverlap {
  import opened Options
  import S = Session

  type Id = nat

  /** The delivery loop, which appends only outside its own flushes. */
  const LOOP: Id := 0

  /** A flush that has read the pending batch, or one whose batch has been accepted. */
  datatype Phase = Holding(batch: seq<S.Tick>) | Clearing

  datatype State = State(
    sent: seq<S.Tick>,
    pending: seq<S.Tick>,
    flushes: map<Id, Phase>,
    loaded: Option<seq<S.Tick>>,  // what the loop's append has loaded and not stored
    kept: seq<S.Tick>,            // everything appended so far
    interrupted: set<Id>,         // since whose read another flush was accepted or cleared, or a tick stored
    overtaken: bool,              // a flush has cleared since the append's load
    disturbed: bool)              // an interrupted flush has cleared, or an overtaken append has stored

  datatype Action =
    | Load
    | Store(ticks: seq<S.Tick>)
    | Read(id: Id)
    | Send(id: Id, accepted: bool)
    | Clear(id: Id)

  const START := State([], [], map[], None, [], {}, false, false)

  predicate Enabled(s: State, a: Action) {
    match a
    case Load => LOOP !in s.flushes && s.loaded.None?
    case Store(ticks) => s.loaded.Some? && ticks != []
    case Read(id) => id !in s.flushes && s.pending != [] && (id == LOOP ==> s.loaded.None?)
    case Send(id, _) => id in s.flushes && s.flushes[id].Holding?
    case Clear(id) => id in s.flushes && s.flushes[id].Clearing?
  }

  function Step(s: State, a: Action): State
    requires Enabled(s, a)
  {
    match a
    case Load => s.(loaded := Some(s.pending), overtaken := false)
    case Store(ticks) =>
      s.(pending := s.loaded.value + ticks, loaded := None, kept := s.kept + ticks,
         interrupted := s.flushes.Keys, disturbed := s.disturbed || s.overtaken)
    case Read(id) => s.(flushes := s.flushes[id := Holding(s.pending)], interrupted := s.interrupted - {id})
    case Send(id, accepted) =>
      if !accepted then s.(flushes := s.flushes - {id})
      else
        s.(sent := s.sent + s.flushes[id].batch, flushes := s.flushes[id := Clearing],
           interrupted := s.interrupted + (s.flushes.Keys - {id}))
    case Clear(id) =>
      s.(pending := [], flushes := s.flushes - {id}, interrupted := s.interrupted + (s.flushes.Keys - {id}),
         overtaken := true, disturbed := s.disturbed || id in s.interrupted)
  }

  predicate Valid(s: State, actions: seq<Action>)
    decreases |actions|
  {
    actions != [] ==> Enabled(s, actions[0]) && Valid(Step(s, actions[0]), actions[1..])
  }

  function Run(s: State, actions: seq<Action>): State
    requires Valid(s, actions)
    decreases |actions|
  {
    if actions == [] then s else Run(Step(s, actions[0]), actions[1..])
  }

  /** All ticks kept so far, sent first, without loss, repetition or reordering. */
  ghost predicate Conserved(s: State) {
    s.sent + s.pending == s.kept
  }

  ghost predicate NoRepeats(ticks: seq<S.Tick>) {
    forall i, j :: 0 <= i < j < |ticks| ==> ticks[i] != ticks[j]
  }

  // ----- As long as nothing has gone wrong -----

  /** What a flush holds is pending, or the start of what is pending, or starts with a tick already sent. */
  ghost predicate Held(s: State, batch: seq<S.Tick>) {
    batch != [] && (batch <= s.pending || batch[0] in s.sent)
  }

  /** What an append has loaded is pending, unless a flush sent and cleared it meanwhile. */
  ghost predicate Loaded(s: State) {
    s.loaded.Some? ==>
      || (s.loaded.value == s.pending && !s.overtaken)
      || (s.overtaken && s.pending == [] && s.loaded.value != [] && s.loaded.value[0] in s.sent)
  }

  /** No flush is between acceptance and clearing; exactly the uninterrupted ones hold all that is pending. */
  ghost predicate Resting(s: State) {
    && Conserved(s) && Loaded(s)
    && (forall id :: id in s.flushes ==>
          && s.flushes[id].Holding? && Held(s, s.flushes[id].batch)
          && (s.flushes[id].batch == s.pending <==> id !in s.interrupted))
  }

  /** One flush, uninterrupted, has been accepted and not cleared: everything kept has been sent. */
  ghost predicate Between(s: State, flusher: Id) {
    && s.sent == s.kept && s.pending != [] && s.pending[0] in s.sent && Loaded(s)
    && flusher in s.flushes && s.flushes[flusher].Clearing? && flusher !in s.interrupted
    && (forall id :: id in s.flushes && id != flusher ==>
          s.flushes[id].Holding? && s.flushes[id].batch != [] && s.flushes[id].batch[0] in s.sent)
  }

  ghost predicate Fine(s: State) {
    !s.disturbed && (Resting(s) || exists id :: Between(s, id))
  }

  // ----- Once something has -----

  ghost predicate Touches(batch: seq<S.Tick>, sent: seq<S.Tick>) {
    exists x :: x in batch && x in sent
  }

  ghost predicate SomeClearing(s: State) {
    exists id :: id in s.flushes && s.flushes[id].Clearing?
  }

  /** A tick that cannot be sent any more without sending another one twice. */
  ghost predicate Lost(s: State, y: S.Tick) {
    && y in s.kept && y !in s.sent
    && (forall id :: id in s.flushes && s.flushes[id].Holding? && y in s.flushes[id].batch ==>
          Touches(s.flushes[id].batch, s.sent))
    && (y in s.pending ==> Touches(s.pending, s.sent))
    && (s.loaded.Some? && y in s.loaded.value ==> Touches(s.loaded.value, s.sent))
  }

  ghost predicate Broken(s: State) {
    !NoRepeats(s.sent) || exists y :: Lost(s, y)
  }

  ghost predicate Guilty(s: State) {
    s.disturbed || exists id :: id in s.flushes && s.flushes[id].Clearing? && id in s.interrupted
  }

  // ----- One step -----

  lemma RepeatsStay(sent: seq<S.Tick>, batch: seq<S.Tick>)
    requires !NoRepeats(sent) || Touches(batch, sent)
    ensures !NoRepeats(sent + batch)
  {
    var longer := sent + batch;
    if NoRepeats(sent) {
      var x :| x in batch && x in sent;
      var i :| 0 <= i < |sent| && sent[i] == x;
      var j :| 0 <= j < |batch| && batch[j] == x;
      assert longer[i] == longer[|sent| + j];
    } else {
      var i, j :| 0 <= i < j < |sent| && sent[i] == sent[j];
      assert longer[i] == longer[j];
    }
  }

  lemma GuiltyStep(s: State, a: Action)
    requires Guilty(s) && Enabled(s, a)
    ensures Guilty(Step(s, a))
  {
    if !s.disturbed {
      var id :| id in s.flushes && s.flushes[id].Clearing? && id in s.interrupted;
      if a != Clear(id) {
        assert Step(s, a).flushes[id].Clearing? && id in Step(s, a).interrupted;
      }
    }
  }

  lemma LostStep(s: State, a: Action, y: S.Tick)
    requires Lost(s, y) && Enabled(s, a) && NoRepeats(Step(s, a).kept)
    ensures Broken(Step(s, a))
  {
    match a
    case Store(ticks) => LostStore(s, ticks, y);
    case Send(id, accepted) =>
      if accepted {
        LostSend(s, id, y);
      } else {
        assert Lost(Step(s, a), y);
      }
    case _ => assert Lost(Step(s, a), y);
  }

  lemma LostStore(s: State, ticks: seq<S.Tick>, y: S.Tick)
    requires Lost(s, y) && Enabled(s, Store(ticks)) && NoRepeats(s.kept + ticks)
    ensures Broken(Step(s, Store(ticks)))
  {
    var t := Step(s, Store(ticks));
    forall j | 0 <= j < |ticks| ensures ticks[j] != y {
      NewTick(s.kept, ticks, j);
    }
    if y in t.pending {
      var x :| x in s.loaded.value && x in s.sent;
      assert x in t.pending;
    }
    assert Lost(t, y);
  }

  lemma TouchesMore(batch: seq<S.Tick>, sent: seq<S.Tick>, more: seq<S.Tick>)
    ensures Touches(batch, sent) ==> Touches(batch, sent + more)
  {
    if Touches(batch, sent) {
      var x :| x in batch && x in sent;
      assert x in sent + more;
    }
  }

  lemma LostSend(s: State, id: Id, y: S.Tick)
    requires Lost(s, y) && Enabled(s, Send(id, true))
    ensures Broken(Step(s, Send(id, true)))
  {
    var t, batch := Step(s, Send(id, true)), s.flushes[id].batch;
    if y in batch {
      RepeatsStay(s.sent, batch);
    } else {
      forall other | other in t.flushes && t.flushes[other].Holding? && y in t.flushes[other].batch
        ensures Touches(t.flushes[other].batch, t.sent)
      {
        TouchesMore(s.flushes[other].batch, s.sent, batch);
      }
      TouchesMore(s.pending, s.sent, batch);
      if s.loaded.Some? {
        TouchesMore(s.loaded.value, s.sent, batch);
      }
      assert Lost(t, y);
    }
  }

  lemma BrokenStep(s: State, a: Action)
    requires Broken(s) && Enabled(s, a) && NoRepeats(Step(s, a).kept)
    ensures Broken(Step(s, a))
  {
    if NoRepeats(s.sent) {
      var y :| Lost(s, y);
      LostStep(s, a, y);
    } else if a.Send? && a.accepted {
      RepeatsStay(s.sent, s.flushes[a.id].batch);
    }
  }

  /** In a sequence without repetitions what comes later is new. */
  lemma NewTick(a: seq<S.Tick>, b: seq<S.Tick>, j: nat)
    requires NoRepeats(a + b) && j < |b|
    ensures b[j] !in a
  {
    assert (a + b)[|a| + j] == b[j];
    assert forall i :: 0 <= i < |a| ==> (a + b)[i] == a[i];
  }

  lemma RestingStore(s: State, ticks: seq<S.Tick>)
    requires Resting(s) && Enabled(s, Store(ticks)) && NoRepeats(s.kept + ticks) && !s.overtaken
    ensures Resting(Step(s, Store(ticks)))
  {
    var t := Step(s, Store(ticks));
    assert s.sent + (s.pending + ticks) == s.kept + ticks;
    NewTick(s.sent, t.pending, 0);
  }

  /** A tick behind one already sent: it cannot be sent or kept without the other. */
  lemma StuckBehind(s: State, ticks: seq<S.Tick>)
    requires Enabled(s, Store(ticks)) && s.sent == s.kept && NoRepeats(s.kept + ticks)
    requires s.loaded.value != [] && s.loaded.value[0] in s.sent
    requires forall id :: id in s.flushes && s.flushes[id].Holding? ==>
               s.flushes[id].batch != [] && s.flushes[id].batch[0] in s.sent
    ensures Broken(Step(s, Store(ticks)))
  {
    var t, y := Step(s, Store(ticks)), ticks[0];
    NewTick(s.kept, ticks, 0);
    assert t.kept[|s.kept|] == y && t.pending[0] in t.sent;
    forall id | id in t.flushes && t.flushes[id].Holding? ensures Touches(t.flushes[id].batch, t.sent) {
      assert t.flushes[id].batch[0] in t.sent;
    }
    assert Lost(t, y);
  }

  lemma RestingOvertaken(s: State, ticks: seq<S.Tick>)
    requires Resting(s) && Enabled(s, Store(ticks)) && NoRepeats(s.kept + ticks) && s.overtaken
    ensures Broken(Step(s, Store(ticks))) && Guilty(Step(s, Store(ticks)))
  {
    assert s.sent == s.kept;
    StuckBehind(s, ticks);
  }

  lemma RestingSend(s: State, id: Id)
    requires Resting(s) && Enabled(s, Send(id, true)) && NoRepeats(s.kept)
    ensures var t := Step(s, Send(id, true)); Between(t, id) || (Broken(t) && id in t.interrupted)
  {
    var t, batch := Step(s, Send(id, true)), s.flushes[id].batch;
    if id !in s.interrupted {
      assert t.sent[|s.sent|] == s.pending[0];
      assert forall x :: x in s.sent ==> x in t.sent;
    } else if batch[0] in s.sent {
      RepeatsStay(s.sent, batch);
    } else {
      RestingSendEarly(s, id);
    }
  }

  /** Ticks appended since the read will be cleared away unsent. */
  lemma RestingSendEarly(s: State, id: Id)
    requires Resting(s) && Enabled(s, Send(id, true)) && NoRepeats(s.kept)
    requires s.flushes[id].batch < s.pending
    ensures Broken(Step(s, Send(id, true)))
  {
    var t, batch := Step(s, Send(id, true)), s.flushes[id].batch;
    var rest := s.pending[|batch|..];
    assert s.pending == batch + rest && (s.sent + batch) + rest == s.kept;
    NewTick(s.sent + batch, rest, 0);
    var x, y := s.pending[0], rest[0];
    assert t.sent[|s.sent|] == x && s.kept[|s.sent| + |batch|] == y;
    forall other | other in t.flushes && t.flushes[other].Holding? && y in t.flushes[other].batch
      ensures Touches(t.flushes[other].batch, t.sent)
    {
      var held := t.flushes[other].batch;
      assert Held(s, held);
      assert held[0] in t.sent;
    }
    assert x in t.pending && y in t.pending;
    assert Lost(t, y);
  }

  lemma BetweenStore(s: State, flusher: Id, ticks: seq<S.Tick>)
    requires Between(s, flusher) && Enabled(s, Store(ticks)) && NoRepeats(s.kept + ticks)
    ensures Broken(Step(s, Store(ticks))) && Guilty(Step(s, Store(ticks)))
  {
    StuckBehind(s, ticks);
    assert Step(s, Store(ticks)).flushes[flusher].Clearing? && flusher in Step(s, Store(ticks)).interrupted;
  }

  lemma BetweenSend(s: State, flusher: Id, id: Id)
    requires Between(s, flusher) && Enabled(s, Send(id, true))
    ensures Broken(Step(s, Send(id, true))) && Guilty(Step(s, Send(id, true)))
  {
    assert s.flushes[id].batch[0] in s.sent;
    RepeatsStay(s.sent, s.flushes[id].batch);
    assert Step(s, Send(id, true)).flushes[flusher].Clearing? && flusher in Step(s, Send(id, true)).interrupted;
  }

  lemma FineStep(s: State, a: Action)
    requires Fine(s) && Enabled(s, a) && NoRepeats(s.kept) && NoRepeats(Step(s, a).kept)
    ensures Fine(Step(s, a)) || (Broken(Step(s, a)) && Guilty(Step(s, a)))
  {
    var t := Step(s, a);
    if Resting(s) {
      match a
      case Load => assert Resting(t);
      case Store(ticks) =>
        if s.overtaken {
          RestingOvertaken(s, ticks);
        } else {
          RestingStore(s, ticks);
        }
      case Send(id, accepted) =>
        if accepted {
          RestingSend(s, id);
          assert id in t.flushes && t.flushes[id].Clearing?;
        } else {
          assert Resting(t);
        }
      case Read(_) => assert Resting(t);
      case Clear(_) =>
    } else {
      var flusher :| Between(s, flusher);
      match a
      case Load => assert Between(t, flusher);
      case Store(ticks) => BetweenStore(s, flusher, ticks);
      case Send(id, accepted) =>
        if accepted {
          BetweenSend(s, flusher, id);
        } else {
          assert Between(t, flusher);
        }
      case Clear(_) => assert Resting(t);
      case Read(_) => assert Between(t, flusher);
    }
  }

  // ----- Every run -----

  lemma {:induction false} KeptGrows(s: State, actions: seq<Action>)
    requires Valid(s, actions)
    ensures s.kept <= Run(s, actions).kept
    decreases |actions|
  {
    if actions != [] {
      KeptGrows(Step(s, actions[0]), actions[1..]);
    }
  }

  lemma PrefixNoRepeats(a: seq<S.Tick>, b: seq<S.Tick>)
    requires a <= b && NoRepeats(b)
    ensures NoRepeats(a)
  {
  }

  lemma {:induction false} EitherWay(s: State, actions: seq<Action>)
    requires Valid(s, actions) && NoRepeats(Run(s, actions).kept)
    requires Fine(s) || (Broken(s) && Guilty(s))
    ensures Fine(Run(s, actions)) || (Broken(Run(s, actions)) && Guilty(Run(s, actions)))
    decreases |actions|
  {
    if actions != [] {
      var t := Step(s, actions[0]);
      KeptGrows(s, actions);
      KeptGrows(t, actions[1..]);
      PrefixNoRepeats(s.kept, Run(s, actions).kept);
      PrefixNoRepeats(t.kept, Run(s, actions).kept);
      if Fine(s) {
        FineStep(s, actions[0]);
      } else {
        BrokenStep(s, actions[0]);
        GuiltyStep(s, actions[0]);
      }
      EitherWay(t, actions[1..]);
    }
  }

  lemma BrokenLoses(s: State)
    requires Broken(s) && NoRepeats(s.kept)
    ensures !Conserved(s)
  {
    if NoRepeats(s.sent) {
      var y :| Lost(s, y);
      if y in s.pending {
        RepeatsStay(s.sent, s.pending);
      } else {
        assert y !in s.sent + s.pending;
      }
    } else {
      RepeatsStay(s.sent, s.pending);
    }
  }

  /**
   Whenever no flush is between acceptance and clearing, the ticks are conserved if and only if
   no flush that went through was interrupted between its read and its clearing, by a stored
   append or by another flush's acceptance or clearing, and no flush cleared between an append's
   load and its store. Ticks are distinct, as their numbers are.
   */
  lemma OverlapExactly(actions: seq<Action>, s: State)
    requires Valid(START, actions) && s == Run(START, actions) && NoRepeats(s.kept) && !SomeClearing(s)
    ensures Conserved(s) <==> !s.disturbed
  {
    EitherWay(START, actions);
    if Broken(s) && Guilty(s) {
      BrokenLoses(s);
    }
  }

  // ----- Three ways to go wrong -----

  ghost predicate Reaches(s: State) {
    exists actions :: Valid(START, actions) && Run(START, actions) == s
  }

  lemma {:induction false} RunMore(s: State, actions: seq<Action>, a: Action)
    requires Valid(s, actions) && Enabled(Run(s, actions), a)
    ensures Valid(s, actions + [a]) && Run(s, actions + [a]) == Step(Run(s, actions), a)
    decreases |actions|
  {
    if actions == [] {
      assert [a][1..] == [];
      assert actions + [a] == [a];
    } else {
      RunMore(Step(s, actions[0]), actions[1..], a);
      assert (actions + [a])[1..] == actions[1..] + [a];
    }
  }

  lemma Then(s: State, a: Action) returns (t: State)
    requires Reaches(s) && Enabled(s, a)
    ensures Reaches(t) && t == Step(s, a)
  {
    var actions :| Valid(START, actions) && Run(START, actions) == s;
    RunMore(START, actions, a);
    t := Step(s, a);
  }

  lemma FirstAppend(ticks: seq<S.Tick>) returns (s: State)
    requires ticks != []
    ensures Reaches(s) && s.sent == [] && s.pending == s.kept == ticks && s.loaded.None? && s.flushes == map[]
  {
    assert Valid(START, []) && Run(START, []) == START;
    s := Then(START, Load);
    s := Then(s, Store(ticks));
    assert s.pending == ticks && s.kept == ticks;
  }

  /** Two flushes that half overlap send the same batch twice. */
  lemma FlushedTwice(ticks: seq<S.Tick>) returns (s: State)
    requires ticks != []
    ensures Reaches(s) && !SomeClearing(s) && s.kept == ticks && s.sent == ticks + ticks && s.pending == []
  {
    s := FirstAppend(ticks);
    s := Then(s, Read(1));
    s := Then(s, Read(2));
    s := Then(s, Send(1, true));
    s := Then(s, Send(2, true));
    s := Then(s, Clear(1));
    s := Then(s, Clear(2));
  }

  /** Ticks stored between a callback's read and its clearing are cleared away unsent. */
  lemma AppendLost(ticks: seq<S.Tick>, more: seq<S.Tick>) returns (s: State)
    requires ticks != [] && more != []
    ensures Reaches(s) && !SomeClearing(s) && s.kept == ticks + more && s.sent == ticks && s.pending == []
  {
    s := FirstAppend(ticks);
    s := Then(s, Read(1));
    s := Then(s, Load);
    s := Then(s, Store(more));
    s := Then(s, Send(1, true));
    s := Then(s, Clear(1));
  }

  /** A whole flush, itself undisturbed, between an append's load and its store leaves its batch pending again. */
  lemma StoredAgain(ticks: seq<S.Tick>, more: seq<S.Tick>) returns (s: State)
    requires ticks != [] && more != []
    ensures Reaches(s) && !SomeClearing(s) && s.kept == ticks + more && s.sent == ticks && s.pending == ticks + more
  {
    s := FirstAppend(ticks);
    s := Then(s, Load);
    s := Then(s, Read(1));
    s := Then(s, Send(1, true));
    s := Then(s, Clear(1));
    s := Then(s, Store(more));
  }
}
