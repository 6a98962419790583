/**
 The resource breach handler: four signals with an upper and a lower threshold each, one flag per
 signal, a common refusal of new connections and a count of degradation events. Usage samples are
 parameters; percentages and counts are real numbers.
 */
module BreachHandler {

  datatype Signal = Memory | Descriptors | Goroutines | Connections

  datatype Usage = Usage(memoryPercent: real, descriptorPercent: real, goroutines: int, connections: int)

  function Level(u: Usage, s: Signal): real {
    match s
    case Memory => u.memoryPercent
    case Descriptors => u.descriptorPercent
    case Goroutines => u.goroutines as real
    case Connections => u.connections as real
  }

  function Upper(s: Signal): real {
    match s
    case Memory => 90.0
    case Descriptors => 90.0
    case Goroutines => 50000.0
    case Connections => 95000.0
  }

  function Lower(s: Signal): real {
    match s
    case Memory => 80.0
    case Descriptors => 80.0
    case Goroutines => 40000.0
    case Connections => 90000.0
  }

  predicate High(u: Usage, s: Signal) {
    Level(u, s) > Upper(s)
  }

  predicate Low(u: Usage, s: Signal) {
    Level(u, s) < Lower(s)
  }

  // ----- What the samples call for -----

  /** The latest sample outside the signal's dead band was above it. */
  ghost predicate Breached(samples: seq<Usage>, s: Signal) {
    exists i :: 0 <= i < |samples| && High(samples[i], s) && NeverLowAfter(samples, i, s)
  }

  ghost predicate NeverLowAfter(samples: seq<Usage>, i: int, s: Signal) {
    forall j :: i < j < |samples| && 0 <= j ==> !Low(samples[j], s)
  }

  /** The same, sample by sample. */
  predicate Flag(samples: seq<Usage>, s: Signal) {
    samples != [] &&
    var front, last := samples[..|samples| - 1], samples[|samples| - 1];
    High(last, s) || (!Low(last, s) && Flag(front, s))
  }

  lemma {:induction false} FlagSet(samples: seq<Usage>, i: nat, s: Signal)
    requires i < |samples| && High(samples[i], s) && NeverLowAfter(samples, i, s)
    ensures Flag(samples, s)
    decreases |samples|
  {
    if i < |samples| - 1 {
      FlagSet(samples[..|samples| - 1], i, s);
    }
  }

  lemma {:induction false} FlagCause(samples: seq<Usage>, s: Signal) returns (i: nat)
    requires Flag(samples, s)
    ensures i < |samples| && High(samples[i], s) && NeverLowAfter(samples, i, s)
    decreases |samples|
  {
    var front, last := samples[..|samples| - 1], samples[|samples| - 1];
    if High(last, s) {
      i := |samples| - 1;
    } else {
      i := FlagCause(front, s);
      assert forall j :: 0 <= j < |front| ==> samples[j] == front[j];
    }
  }

  lemma {:induction false} FlagMeaning(samples: seq<Usage>, s: Signal)
    ensures Flag(samples, s) <==> Breached(samples, s)
  {
    if Flag(samples, s) {
      var i := FlagCause(samples, s);
    }
    forall i | 0 <= i < |samples| && High(samples[i], s) && NeverLowAfter(samples, i, s) ensures Flag(samples, s) {
      FlagSet(samples, i, s);
    }
  }

  /** How many samples turned the signal's flag on. */
  function RisingEdges(samples: seq<Usage>, s: Signal): nat {
    if samples == [] then 0 else
      var front := samples[..|samples| - 1];
      RisingEdges(front, s) + (if Flag(samples, s) && !Flag(front, s) then 1 else 0)
  }

  function Events(samples: seq<Usage>): nat {
    RisingEdges(samples, Memory) + RisingEdges(samples, Descriptors)
    + RisingEdges(samples, Goroutines) + RisingEdges(samples, Connections)
  }

  // ----- The handler -----

  class Handler {
    const monitored: bool
    var breached: set<Signal>
    var rejectNewConnections: bool
    var degradationEvents: nat
    ghost var samples: seq<Usage>

    /** The flags, the refusal and the count are what the samples so far call for. */
    ghost predicate Valid()
      reads this
    {
      && (forall s :: s in breached <==> Flag(samples, s))
      && (rejectNewConnections <==> breached != {})
      && degradationEvents == Events(samples)
    }

    constructor (monitored: bool)
      ensures Valid() && samples == [] && this.monitored == monitored
    {
      this.monitored := monitored;
      breached, rejectNewConnections, degradationEvents, samples := {}, false, 0, [];
    }

    method Raise(s: Signal)
      modifies `breached, `rejectNewConnections, `degradationEvents
      ensures breached == old(breached) + {s} && rejectNewConnections
      ensures degradationEvents == old(degradationEvents) + 1
    {
      breached := breached + {s};
      rejectNewConnections := true;
      degradationEvents := degradationEvents + 1;
    }

    method Clear(s: Signal)
      modifies `breached, `rejectNewConnections
      ensures breached == old(breached) - {s}
      ensures rejectNewConnections == (old(rejectNewConnections) && breached != {})
    {
      breached := breached - {s};
      CheckAllBreaches();
    }

    method CheckAllBreaches()
      modifies `rejectNewConnections
      ensures rejectNewConnections == (old(rejectNewConnections) && breached != {})
    {
      if breached == {} {
        rejectNewConnections := false;
      }
    }

    /** One signal of one check. */
    method CheckSignal(u: Usage, s: Signal)
      requires rejectNewConnections <==> breached != {}
      modifies `breached, `rejectNewConnections, `degradationEvents
      ensures rejectNewConnections <==> breached != {}
      ensures forall t :: t != s ==> (t in breached <==> t in old(breached))
      ensures s in breached <==> High(u, s) || (!Low(u, s) && s in old(breached))
      ensures degradationEvents == old(degradationEvents) + (if s in breached && s !in old(breached) then 1 else 0)
    {
      if High(u, s) {
        if s !in breached {
          Raise(s);
        }
      } else if s in breached && Low(u, s) {
        Clear(s);
      }
    }

    method CheckResourceLimits(u: Usage)
      requires Valid()
      modifies this
      ensures Valid() && samples == if monitored then old(samples) + [u] else old(samples)
    {
      if !monitored {
        return;
      }
      CheckSignal(u, Memory);
      CheckSignal(u, Descriptors);
      CheckSignal(u, Goroutines);
      CheckSignal(u, Connections);
      samples := samples + [u];
      assert samples[..|samples| - 1] == old(samples);
      forall s ensures s in breached <==> Flag(samples, s) {
        match s
        case Memory =>
        case Descriptors =>
        case Goroutines =>
        case Connections =>
      }
    }

    /** Refusing connections means that some signal's latest sample outside its dead band was above it. */
    method ShouldRejectConnection() returns (reject: bool)
      requires Valid()
      ensures reject <==> exists s :: Breached(samples, s)
    {
      reject := rejectNewConnections;
      forall s ensures s in breached <==> Breached(samples, s) {
        FlagMeaning(samples, s);
      }
      assert breached == {} || exists s :: s in breached;
    }
  }

  // ----- Over a run -----

  /** A breach ends only with a sample below the signal's lower threshold. */
  lemma EndsBelow(samples: seq<Usage>, n: nat, s: Signal)
    requires n <= |samples| && Breached(samples[..n], s) && !Breached(samples, s)
    ensures exists j :: n <= j < |samples| && Low(samples[j], s)
  {
    var i :| 0 <= i < n && High(samples[..n][i], s) && NeverLowAfter(samples[..n], i, s);
    assert High(samples[i], s) && !NeverLowAfter(samples, i, s);
  }

  /** The thresholds in numbers: which sample starts a breach, and which ones let it last. */
  lemma BreachInNumbers(samples: seq<Usage>)
    ensures Breached(samples, Memory) <==>
            exists i :: 0 <= i < |samples| && samples[i].memoryPercent > 90.0
                     && forall j :: i < j < |samples| ==> samples[j].memoryPercent >= 80.0
    ensures Breached(samples, Descriptors) <==>
            exists i :: 0 <= i < |samples| && samples[i].descriptorPercent > 90.0
                     && forall j :: i < j < |samples| ==> samples[j].descriptorPercent >= 80.0
    ensures Breached(samples, Goroutines) <==>
            exists i :: 0 <= i < |samples| && samples[i].goroutines > 50_000
                     && forall j :: i < j < |samples| ==> samples[j].goroutines >= 40_000
    ensures Breached(samples, Connections) <==>
            exists i :: 0 <= i < |samples| && samples[i].connections > 95_000
                     && forall j :: i < j < |samples| ==> samples[j].connections >= 90_000
  {
  }
}
