/** Which ticks the generator enters, which it drops at a full channel, and what the delivery filter keeps. */
module SessionTicks {
  import opened Options
  import opened Session
  import QP = WriteQueueProofs

  // ----- The generator -----

  function Generates(moves: seq<Move>): nat {
    if moves == [] then 0 else (if moves[0].Generate? then 1 else 0) + Generates(moves[1..])
  }

  /** The generator's ticks that find a hundred batches waiting. */
  ghost function Drops(s: State, moves: seq<Move>): nat
    requires Valid(s, moves)
    decreases |moves|
  {
    if moves == [] then 0 else
      (if moves[0].Generate? && |s.channel| >= 100 then 1 else 0) + Drops(Step(s, moves[0]), moves[1..])
  }

  lemma GenerateOnly(s: State, m: Move)
    requires Enabled(s, m)
    ensures Step(s, m).produced == s.produced + if m.Generate? && |s.channel| < 100 then 1 else 0
    ensures |s.channel| <= 100 ==> |Step(s, m).channel| <= 100
  {
  }

  lemma {:induction false} GeneratedRun(s: State, moves: seq<Move>)
    requires Valid(s, moves) && |s.channel| <= 100
    ensures Run(s, moves).produced + Drops(s, moves) == s.produced + Generates(moves)
    ensures |Run(s, moves).channel| <= 100
    decreases |moves|
  {
    if moves != [] {
      GenerateOnly(s, moves[0]);
      GeneratedRun(Step(s, moves[0]), moves[1..]);
    }
  }

  /** The channel never holds more than a hundred batches, and exactly the ticks that find it full are dropped. */
  lemma GeneratedExactly(capacity: nat, timeout: nat, now: int, moves: seq<Move>)
    requires Valid(Initial(capacity, timeout, now), moves)
    ensures var s := Run(Initial(capacity, timeout, now), moves);
            && s.produced + Drops(Initial(capacity, timeout, now), moves) == Generates(moves)
            && |s.channel| <= 100
  {
    GeneratedRun(Initial(capacity, timeout, now), moves);
  }

  // ----- The filter -----

  /** The ticks of the mode, and no others, are kept, each as often as it occurs and in order. */
  lemma {:induction false} FilteredExactly(ticks: seq<Tick>, mode: Mode, tick: Tick)
    ensures QP.Subsequence(Matching(ticks, Some(mode)), ticks)
    ensures multiset(Matching(ticks, Some(mode)))[tick] == if tick.mode == mode then multiset(ticks)[tick] else 0
    ensures Matching(ticks, None) == []
  {
    if ticks != [] {
      var front, last := ticks[..|ticks| - 1], ticks[|ticks| - 1];
      FilteredExactly(front, mode, tick);
      assert ticks == front + [last];
    }
  }
}
