/** Many state keys in one control directory: which calls can touch which state and log. */
module AdaptiveStore {
  import opened OperatingModes
  import opened AdaptiveKeys
  import opened AdaptiveOperatingSystem
  import opened OperatingRuns

  /** One call of the machine: its inputs and whether it persists. */
  datatype Call = Call(e: Evaluation, persist: bool)

  /** What a call that loads its state from the store leaves there. */
  function StoreStep(store: Store, c: Call): Store
  {
    var k := SafeKeySuffix(c.e.stateKey);
    if c.persist then store.Record(k, NextState(store.StateAt(k), c.e), Entries(store.StateAt(k), c.e)) else store
  }

  function StoreRun(store: Store, calls: seq<Call>): Store
  {
    if calls == [] then store else StoreStep(StoreRun(store, calls[..|calls| - 1]), calls[|calls| - 1])
  }

  predicate Touches(c: Call, suffix: string) { c.persist && SafeKeySuffix(c.e.stateKey) == suffix }

  /** The evaluations that are persisted under a suffix, in order. */
  function Project(calls: seq<Call>, suffix: string): seq<Evaluation>
  {
    if calls == [] then []
    else
      var c := calls[|calls| - 1];
      Project(calls[..|calls| - 1], suffix) + (if Touches(c, suffix) then [c.e] else [])
  }

  lemma RecordReadsBack(store: Store, k: string, next: OperatingState, entries: seq<Transition>, suffix: string)
    ensures store.Record(k, next, entries).StateAt(suffix) == if k == suffix then next else store.StateAt(suffix)
    ensures store.Record(k, next, entries).LogAt(suffix)
         == store.LogAt(suffix) + (if k == suffix then entries else [])
  {
  }

  lemma TouchedKeyAdvances(store: Store, c: Call, suffix: string)
    requires Touches(c, suffix)
    ensures StoreStep(store, c).StateAt(suffix) == NextState(store.StateAt(suffix), c.e)
    ensures StoreStep(store, c).LogAt(suffix) == store.LogAt(suffix) + Entries(store.StateAt(suffix), c.e)
  {
    RecordReadsBack(store, suffix, NextState(store.StateAt(suffix), c.e), Entries(store.StateAt(suffix), c.e), suffix);
  }

  lemma OtherKeysStay(store: Store, c: Call, suffix: string)
    requires !Touches(c, suffix)
    ensures StoreStep(store, c).StateAt(suffix) == store.StateAt(suffix)
    ensures StoreStep(store, c).LogAt(suffix) == store.LogAt(suffix)
  {
    var k := SafeKeySuffix(c.e.stateKey);
    RecordReadsBack(store, k, NextState(store.StateAt(k), c.e), Entries(store.StateAt(k), c.e), suffix);
  }

  /** The store agrees with a private run of the suffix. */
  predicate Matches(store: Store, suffix: string, st: OperatingState, log: seq<Transition>, es: seq<Evaluation>)
  {
    store.StateAt(suffix) == Run(st, es) && store.LogAt(suffix) == log + History(st, es)
  }

  lemma TouchedMatches(store: Store, c: Call, suffix: string, st: OperatingState, log: seq<Transition>, es: seq<Evaluation>)
    requires Matches(store, suffix, st, log, es) && Touches(c, suffix)
    ensures Matches(StoreStep(store, c), suffix, st, log, es + [c.e])
  {
    TouchedKeyAdvances(store, c, suffix);
    RunExtends(st, es, c.e);
  }

  lemma OtherMatches(store: Store, c: Call, suffix: string, st: OperatingState, log: seq<Transition>, es: seq<Evaluation>)
    requires Matches(store, suffix, st, log, es) && !Touches(c, suffix)
    ensures Matches(StoreStep(store, c), suffix, st, log, es)
  {
    OtherKeysStay(store, c, suffix);
  }

  /**
   Isolation: what a store holds under a suffix after any interleaving of calls is exactly what a
   private run of that suffix's own persisted evaluations produces.
   */
  lemma {:induction false} KeysAreIsolated(store: Store, calls: seq<Call>, suffix: string)
    ensures Matches(StoreRun(store, calls), suffix, store.StateAt(suffix), store.LogAt(suffix), Project(calls, suffix))
  {
    if calls != [] {
      var n := |calls| - 1;
      var before, own := StoreRun(store, calls[..n]), Project(calls[..n], suffix);
      KeysAreIsolated(store, calls[..n], suffix);
      if Touches(calls[n], suffix) {
        TouchedMatches(before, calls[n], suffix, store.StateAt(suffix), store.LogAt(suffix), own);
      } else {
        OtherMatches(before, calls[n], suffix, store.StateAt(suffix), store.LogAt(suffix), own);
        assert own + [] == own;
      }
    }
  }

  lemma EvaluationChangesState(st: OperatingState, e: Evaluation)
    ensures NextState(st, e) != st
  {
  }

  /** Calls under one key never change what is stored under the other. */
  ghost predicate Independent(key: string, other: string)
  {
    forall store: Store, c: Call :: c.e.stateKey == key ==>
      && StoreStep(store, c).StateAt(SafeKeySuffix(other)) == store.StateAt(SafeKeySuffix(other))
      && StoreStep(store, c).LogAt(SafeKeySuffix(other)) == store.LogAt(SafeKeySuffix(other))
  }

  /** Different keys are not enough: independence holds exactly when their file suffixes differ. */
  lemma IndependentIffSuffixesDiffer(key: string, other: string, snap: Snapshot)
    ensures Independent(key, other) <==> SafeKeySuffix(key) != SafeKeySuffix(other)
  {
    if SafeKeySuffix(key) == SafeKeySuffix(other) {
      var store := Store(map[], map[]);
      var c := Call(Evaluation(snap, DEFAULT_CONFIG, 0.0, key), true);
      EvaluationChangesState(FRESH_STATE, c.e);
      TouchedKeyAdvances(store, c, SafeKeySuffix(other));
      assert StoreStep(store, c).StateAt(SafeKeySuffix(other)) != store.StateAt(SafeKeySuffix(other));
    } else {
      forall store: Store, c: Call | c.e.stateKey == key
        ensures StoreStep(store, c).StateAt(SafeKeySuffix(other)) == store.StateAt(SafeKeySuffix(other))
        ensures StoreStep(store, c).LogAt(SafeKeySuffix(other)) == store.LogAt(SafeKeySuffix(other))
      {
        OtherKeysStay(store, c, SafeKeySuffix(other));
      }
    }
  }

  /** Different clean keys are independent. */
  lemma CleanKeysAreIndependent(key: string, other: string, snap: Snapshot)
    requires IsClean(key) && IsClean(other) && key != other
    ensures Independent(key, other)
  {
    CleanKeysAreKept(key);
    CleanKeysAreKept(other);
    IndependentIffSuffixesDiffer(key, other, snap);
  }
}
