/**
 * The debounced persistence of the rule cache: a one-slot signal channel, any
 * number of goroutines that change what is to be saved, and one loop that saves.
 */
module CachePersist {
  /** The loop waits, sleeps and drains, is about to copy, has copied the rules, or saves a snapshot. */
  datatype Loop<R, E> = Idle | Debouncing | Copying | CopiedRules(r: R) | Saving(r: R, e: E)

  /** What a snapshot is made of, in its two separately locked parts. */
  datatype Snapshot<R, E> = Snapshot(rules: R, endpoints: E)

  datatype State<R, E> = State(
    memory: Snapshot<R, E>,
    signal: bool,            // the channel holds a signal
    owed: nat,               // changes whose persistRuleCache call is still to come
    loop: Loop<R, E>,
    last: Snapshot<R, E>,    // what the loop copied last, part by part
    disk: Snapshot<R, E>)    // what was saved last

  datatype Step<R, E> =
    | ChangeRules(r: R)      // a sync handler, under the rules lock
    | ChangeEndpoints(e: E)  // getExitEndpoint, under the endpoint lock
    | ChangeSilently(r: R)   // updateRuleCache, under the rules lock: no call of persistRuleCache follows
    | Persist                // persistRuleCache
    | Receive
    | DrainSignal
    | StartCopy              // nothing left to drain
    | CopyRules
    | CopyEndpoints
    | Save(ok: bool)

  predicate Enabled<R, E>(s: State<R, E>, step: Step<R, E>) {
    match step
    case ChangeRules(_) => true
    case ChangeEndpoints(_) => true
    case ChangeSilently(_) => true
    case Persist => s.owed > 0
    case Receive => s.loop.Idle? && s.signal
    case DrainSignal => s.loop.Debouncing? && s.signal
    case StartCopy => s.loop.Debouncing? && !s.signal
    case CopyRules => s.loop.Copying?
    case CopyEndpoints => s.loop.CopiedRules?
    case Save(_) => s.loop.Saving?
  }

  function Next<R, E>(s: State<R, E>, step: Step<R, E>): State<R, E>
    requires Enabled(s, step)
  {
    match step
    case ChangeRules(r) => s.(memory := s.memory.(rules := r), owed := s.owed + 1)
    case ChangeEndpoints(e) => s.(memory := s.memory.(endpoints := e), owed := s.owed + 1)
    case ChangeSilently(r) => s.(memory := s.memory.(rules := r))
    case Persist => s.(signal := true, owed := s.owed - 1)
    case Receive => s.(signal := false, loop := Debouncing)
    case DrainSignal => s.(signal := false)
    case StartCopy => s.(loop := Copying)
    case CopyRules => s.(loop := CopiedRules(s.memory.rules), last := s.last.(rules := s.memory.rules))
    case CopyEndpoints =>
      s.(loop := Saving(s.loop.r, s.memory.endpoints), last := s.last.(endpoints := s.memory.endpoints))
    case Save(ok) => s.(loop := Idle, disk := if ok then Snapshot(s.loop.r, s.loop.e) else s.disk)
  }

  /** Memory, the last copy and the file agree when the agent starts. */
  function Init<R, E>(start: Snapshot<R, E>): State<R, E> {
    State(start, false, 0, Idle, start, start)
  }

  // ---- No lost update ----

  /** Somebody will still make the loop copy. */
  predicate Announced<R, E>(s: State<R, E>) {
    s.signal || s.owed > 0 || s.loop.Debouncing? || s.loop.Copying?
  }

  /** The loop's copies are what it says, and changed endpoints are announced: so it is in every run. */
  predicate Coherent<R(==), E(==)>(s: State<R, E>) {
    && (s.memory.endpoints != s.last.endpoints ==> Announced(s) || s.loop.CopiedRules?)
    && (s.loop.CopiedRules? ==> s.loop.r == s.last.rules)
    && (s.loop.Saving? ==> Snapshot(s.loop.r, s.loop.e) == s.last)
  }

  predicate NothingLost<R(==), E(==)>(s: State<R, E>) {
    Coherent(s) && (s.memory.rules != s.last.rules ==> Announced(s))
  }

  predicate Valid<R, E>(s: State<R, E>, run: seq<Step<R, E>>)
    decreases |run|
  {
    run == [] || (Enabled(s, run[0]) && Valid(Next(s, run[0]), run[1..]))
  }

  function After<R, E>(s: State<R, E>, run: seq<Step<R, E>>): State<R, E>
    requires Valid(s, run)
    decreases |run|
  {
    if run == [] then s else After(Next(s, run[0]), run[1..])
  }

  /** A change without a signal that is still covered: somebody else has made the loop copy, or nothing differs. */
  predicate Covered<R(==), E>(s: State<R, E>, step: Step<R, E>) {
    step.ChangeSilently? ==> step.r == s.last.rules || Announced(s)
  }

  predicate AllCovered<R(==), E>(s: State<R, E>, run: seq<Step<R, E>>)
    requires Valid(s, run)
    decreases |run|
  {
    run == [] || (Covered(s, run[0]) && AllCovered(Next(s, run[0]), run[1..]))
  }

  lemma {:induction false} RunLosesNothing<R, E>(s: State<R, E>, run: seq<Step<R, E>>)
    requires NothingLost(s) && Valid(s, run) && AllCovered(s, run)
    ensures NothingLost(After(s, run))
    decreases |run|
  {
    if run != [] {
      RunLosesNothing(Next(s, run[0]), run[1..]);
    }
  }

  lemma {:induction false} RunStaysCoherent<R, E>(s: State<R, E>, run: seq<Step<R, E>>)
    requires Coherent(s) && Valid(s, run)
    ensures Coherent(After(s, run))
    decreases |run|
  {
    if run != [] {
      RunStaysCoherent(Next(s, run[0]), run[1..]);
    }
  }

  /**
   * In every run whose silent changes are covered: if memory differs from the
   * last snapshot taken, a signal is queued, a changer still owes its signal, or
   * the loop has yet to copy the part that differs.
   */
  lemma UpdatesStayAnnounced<R, E>(start: Snapshot<R, E>, run: seq<Step<R, E>>)
    requires Valid(Init(start), run) && AllCovered(Init(start), run)
    ensures var s := After(Init(start), run); s.memory != s.last ==> Announced(s) || s.loop.CopiedRules?
  {
    RunLosesNothing(Init(start), run);
  }

  // ---- The loop gets there ----

  predicate OfLoop<R, E>(step: Step<R, E>) {
    !step.ChangeRules? && !step.ChangeEndpoints? && !step.ChangeSilently? && !step.Persist?
  }

  /** How much the loop still has to do. */
  function Rank<R, E>(s: State<R, E>): nat {
    (if s.signal then 10 else 0) +
    match s.loop
    case Idle => 0
    case Debouncing => 4
    case Copying => 3
    case CopiedRules(_) => 2
    case Saving(_, _) => 1
  }

  predicate AtRest<R, E>(s: State<R, E>) {
    s.loop.Idle? && !s.signal && s.owed == 0
  }

  /** The loop can always go on, and every step of it brings it closer to rest. */
  lemma LoopAdvances<R, E>(s: State<R, E>) returns (step: Step<R, E>)
    requires !AtRest(s) && s.owed == 0
    ensures OfLoop(step) && step != Save(false) && Enabled(s, step)
    ensures forall t: Step<R, E> :: OfLoop(t) && Enabled(s, t) ==> Rank(Next(s, t)) < Rank(s)
  {
    step := match s.loop
      case Idle => Receive
      case Debouncing => if s.signal then DrainSignal else StartCopy
      case Copying => CopyRules
      case CopiedRules(_) => CopyEndpoints
      case Saving(_, _) => Save(true);
  }

  /**
   * Once everyone has signalled and no more changes come, the loop comes to rest
   * by itself; then the last snapshot is the memory, and so is the file unless
   * the last save failed.
   */
  lemma {:induction false} LoopSettles<R, E>(s: State<R, E>) returns (run: seq<Step<R, E>>)
    requires NothingLost(s) && s.owed == 0
    ensures Valid(s, run) && (forall i :: 0 <= i < |run| ==> OfLoop(run[i]))
    ensures AtRest(After(s, run)) && After(s, run).last == After(s, run).memory == s.memory
    ensures run != [] ==> After(s, run).disk == s.memory
    decreases Rank(s)
  {
    if AtRest(s) {
      run := [];
    } else {
      var step := LoopAdvances(s);
      var t := Next(s, step);
      assert NothingLost(t);
      var rest := LoopSettles(t);
      run := [step] + rest;
      assert run[1..] == rest;
      if rest == [] { assert step == Save(true); }
    }
  }

  // ---- Changes that never signal ----

  lemma {:induction false} LoopKeepsLost<R, E>(s: State<R, E>, run: seq<Step<R, E>>)
    requires Coherent(s) && Valid(s, run) && forall i :: 0 <= i < |run| ==> OfLoop(run[i])
    ensures NothingLost(After(s, run)) <==> NothingLost(s)
    decreases |run|
  {
    if run != [] {
      var t := Next(s, run[0]);
      assert Coherent(t) && (NothingLost(t) <==> NothingLost(s));
      LoopKeepsLost(t, run[1..]);
    }
  }

  /**
   * Exactly when a change is lost. Take the last step of a run that is not the
   * loop's own: the rules in memory are lost if and only if it was a change
   * without a signal, to rules other than those last copied, made while nothing
   * was announced. The loop alone neither loses nor finds anything.
   */
  lemma LostExactly<R, E>(start: Snapshot<R, E>, before: seq<Step<R, E>>, step: Step<R, E>, after: seq<Step<R, E>>)
    requires Valid(Init(start), before)
    requires var s := After(Init(start), before);
      !OfLoop(step) && Enabled(s, step) && Valid(Next(s, step), after)
    requires forall i :: 0 <= i < |after| ==> OfLoop(after[i])
    ensures var s := After(Init(start), before);
      NothingLost(After(Next(s, step), after)) <==> Covered(s, step)
  {
    RunStaysCoherent(Init(start), before);
    LoopKeepsLost(Next(After(Init(start), before), step), after);
  }

  /** A lost change leaves the loop nothing to do once it is idle, and the file as it was. */
  lemma UnsignalledChangeIsLost<R, E>(start: Snapshot<R, E>, r: R)
    requires r != start.rules
    ensures var s := Next(Init(start), ChangeSilently(r));
      && AtRest(s) && !NothingLost(s) && s.disk == start && s.memory.rules == r
      && forall step: Step<R, E> :: OfLoop(step) || step.Persist? ==> !Enabled(s, step)
  {
  }

  /**
   * Whatever was changed silently before: as soon as anybody has announced a
   * change, the goroutines that owe a signal and the loop alone bring the whole
   * memory into the file.
   */
  lemma {:induction false} AnnouncedReachesFile<R, E>(s: State<R, E>) returns (more: seq<Step<R, E>>)
    requires Coherent(s) && Announced(s)
    ensures Valid(s, more) && forall i :: 0 <= i < |more| ==> OfLoop(more[i]) || more[i].Persist?
    ensures AtRest(After(s, more)) && After(s, more).disk == After(s, more).memory == s.memory
    decreases s.owed
  {
    if s.owed == 0 {
      more := LoopSettles(s);
    } else {
      var rest := AnnouncedReachesFile(Next(s, Persist));
      more := [Persist] + rest;
      assert more[1..] == rest;
    }
  }

  lemma SilentChangeReachesFile<R, E>(start: Snapshot<R, E>, run: seq<Step<R, E>>) returns (more: seq<Step<R, E>>)
    requires Valid(Init(start), run) && Announced(After(Init(start), run))
    ensures var s := After(Init(start), run);
      && Valid(s, more) && (forall i :: 0 <= i < |more| ==> OfLoop(more[i]) || more[i].Persist?)
      && AtRest(After(s, more)) && After(s, more).disk == s.memory
  {
    RunStaysCoherent(Init(start), run);
    more := AnnouncedReachesFile(After(Init(start), run));
  }

  // ---- What the file holds ----

  predicate OfOthers<R, E>(run: seq<Step<R, E>>) {
    forall i :: 0 <= i < |run| ==> !OfLoop(run[i])
  }

  lemma {:induction false} OthersLeaveTheLoop<R, E>(s: State<R, E>, run: seq<Step<R, E>>)
    requires Valid(s, run) && OfOthers(run)
    ensures After(s, run).loop == s.loop && After(s, run).last == s.last && After(s, run).disk == s.disk
    decreases |run|
  {
    if run != [] {
      OthersLeaveTheLoop(Next(s, run[0]), run[1..]);
    }
  }

  /**
   * The file gets the rules as they were when they were copied and the endpoints
   * as they were when they were, whatever changed in between or since; a failed
   * save leaves it as it was.
   */
  lemma FileIsWhatWasCopied<R, E>(s: State<R, E>, a: seq<Step<R, E>>, b: seq<Step<R, E>>, ok: bool)
    requires Enabled(s, CopyRules) && OfOthers(a) && OfOthers(b)
    requires Valid(Next(s, CopyRules), a)
    ensures var t := After(Next(s, CopyRules), a);
      && Enabled(t, CopyEndpoints)
      && (Valid(Next(t, CopyEndpoints), b) ==>
            var u := After(Next(t, CopyEndpoints), b);
            Enabled(u, Save(ok)) && Next(u, Save(ok)).disk == if ok then Snapshot(s.memory.rules, t.memory.endpoints) else s.disk)
  {
    OthersLeaveTheLoop(Next(s, CopyRules), a);
    var t := After(Next(s, CopyRules), a);
    if Valid(Next(t, CopyEndpoints), b) {
      OthersLeaveTheLoop(Next(t, CopyEndpoints), b);
    }
  }

  // ---- The object ----

  class Persister<R, E> {
    var rules: R
    var endpoints: E
    var cachePersistCh: bool
    ghost var owed: nat
    ghost var loop: Loop<R, E>
    ghost var last: Snapshot<R, E>
    ghost var disk: Snapshot<R, E>

    ghost function Value(): State<R, E>
      reads this
    {
      State(Snapshot(rules, endpoints), cachePersistCh, owed, loop, last, disk)
    }

    constructor (r: R, e: E)
      ensures Value() == Init(Snapshot(r, e))
    {
      rules, endpoints, cachePersistCh, owed, loop := r, e, false, 0, Idle;
      last, disk := Snapshot(r, e), Snapshot(r, e);
    }

    /** A send that does not block: with a signal in the channel already, nothing happens. */
    method PersistRuleCache()
      requires owed > 0
      modifies this`cachePersistCh, this`owed
      ensures Value() == Next(old(Value()), Step.Persist)
    {
      if !cachePersistCh {
        cachePersistCh := true;
      }
      owed := owed - 1;
    }

    method WriteRuleCache() returns (snap: Snapshot<R, E>)
      requires loop == Copying
      modifies this`loop, this`last
      ensures Value() == After(old(Value()), [CopyRules, CopyEndpoints]) && snap == last == Snapshot(rules, endpoints)
    {
      ghost var run: seq<Step<R, E>> := [CopyRules, CopyEndpoints];
      assert run[1..] == [CopyEndpoints];
      var r := rules;
      loop, last := CopiedRules(r), last.(rules := r);
      var e := endpoints;
      snap := Snapshot(r, e);
      loop, last := Saving(r, e), last.(endpoints := e);
    }
  }
}
