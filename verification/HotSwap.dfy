/**
 * Replacing a rule's message handler while connections are being set up. The
 * TLS and the WebSocket server run the same protocol; each step is one critical
 * section of the handler lock or of the connection lock.
 */
module HotSwap {
  type RuleID = string

  type ConnID = nat

  /** The handlers of a rule are numbered in the order in which AddHandler installs them. */
  type Handler = nat

  /** How far handleConnection has got; found and told are its local variable handler. */
  datatype Phase =
    | Looking
    | Found(found: Handler)
    | Registered(found: Handler)
    | Rebinding(found: Handler, current: Handler)
    | Bound(told: Handler)

  datatype Setup = Setup(rule: RuleID, phase: Phase)

  datatype Server = Server(
    handlers: map<RuleID, Handler>,
    looping: set<RuleID>,               // a handler was replaced, its connections are still to be updated
    setups: map<ConnID, Setup>,
    connHandler: map<ConnID, Handler>,
    connRule: map<ConnID, RuleID>)

  const EMPTY := Server(map[], {}, map[], map[], map[])

  datatype Step =
    | Install(rule: RuleID)             // AddHandler, first critical section
    | UpdateConns(rule: RuleID)         // AddHandler, loop over the connections
    | Arrive(c: ConnID, rule: RuleID)
    | LookUp(c: ConnID)
    | Register(c: ConnID)
    | DoubleCheck(c: ConnID)
    | Rebind(c: ConnID)
    | Leave(c: ConnID)

  predicate Enabled(s: Server, step: Step) {
    match step
    case Install(r) => r !in s.looping  // one AddHandler per rule at a time
    case UpdateConns(r) => r in s.looping && r in s.handlers
    case Arrive(c, r) => c !in s.setups && c !in s.connHandler
    case LookUp(c) => c in s.setups && s.setups[c].phase.Looking? && s.setups[c].rule in s.handlers
    case Register(c) => c in s.setups && s.setups[c].phase.Found?
    case DoubleCheck(c) => c in s.setups && s.setups[c].phase.Registered? && s.setups[c].rule in s.handlers
    case Rebind(c) => c in s.setups && s.setups[c].phase.Rebinding?
    case Leave(c) => c in s.setups && (s.setups[c].phase.Bound? || s.setups[c].phase.Looking?)
  }

  function WithPhase(s: Server, c: ConnID, p: Phase): Server
    requires c in s.setups
  {
    s.(setups := s.setups[c := s.setups[c].(phase := p)])
  }

  function HandlerIn(ids: set<ConnID>, c: ConnID, h: Handler): Handler
    requires c in ids
  {
    h
  }

  /** Every connection registered for the rule gets its handler, except those in rest. */
  function Updated(m: map<ConnID, Handler>, connRule: map<ConnID, RuleID>, rest: set<ConnID>, rule: RuleID, h: Handler)
    : map<ConnID, Handler>
  {
    var ids := set c | c in connRule && c !in rest && connRule[c] == rule;
    m + map c | c in ids :: HandlerIn(ids, c, h)
  }

  function Next(s: Server, step: Step): Server
    requires Enabled(s, step)
  {
    match step
    case Install(r) =>
      if r in s.handlers then s.(handlers := s.handlers[r := s.handlers[r] + 1], looping := s.looping + {r})
      else s.(handlers := s.handlers[r := 0])
    case UpdateConns(r) =>
      s.(connHandler := Updated(s.connHandler, s.connRule, {}, r, s.handlers[r]), looping := s.looping - {r})
    case Arrive(c, r) => s.(setups := s.setups[c := Setup(r, Looking)])
    case LookUp(c) => WithPhase(s, c, Found(s.handlers[s.setups[c].rule]))
    case Register(c) =>
      var h := s.setups[c].phase.found;
      WithPhase(s, c, Registered(h)).(connHandler := s.connHandler[c := h], connRule := s.connRule[c := s.setups[c].rule])
    case DoubleCheck(c) =>
      var h, current := s.setups[c].phase.found, s.handlers[s.setups[c].rule];
      WithPhase(s, c, if current != h then Rebinding(h, current) else Bound(h))
    case Rebind(c) =>
      var current := s.setups[c].phase.current;
      WithPhase(s, c, Bound(current)).(connHandler := s.connHandler[c := current])
    case Leave(c) =>
      s.(setups := s.setups - {c}, connHandler := s.connHandler - {c}, connRule := s.connRule - {c})
  }

  // ---- The invariant ----

  /** The connection's handler is the rule's newest, or will be once the update loop has run. */
  predicate UpToDate(s: Server, c: ConnID)
    requires c in s.setups && c in s.connHandler
  {
    var r := s.setups[c].rule;
    r in s.handlers && (s.connHandler[c] == s.handlers[r] || r in s.looping)
  }

  /** What holds of a connection in every run. */
  predicate ConnShape(s: Server, c: ConnID)
    requires c in s.setups
  {
    var r, p := s.setups[c].rule, s.setups[c].phase;
    && (p.Looking? || p.Found? ==> c !in s.connHandler && c !in s.connRule)
    && (!p.Looking? ==> r in s.handlers)
    && (p.Registered? || p.Rebinding? || p.Bound? ==>
          c in s.connHandler && c in s.connRule && s.connRule[c] == r && s.connHandler[c] <= s.handlers[r])
    && (p.Found? ==> p.found <= s.handlers[r])
    && (p.Registered? ==> p.found <= s.connHandler[c])
    && (p.Rebinding? ==> p.found < p.current <= s.handlers[r])
    && (p.Bound? ==> p.told <= s.connHandler[c])
  }

  predicate ServerShape(s: Server) {
    && (forall c :: c in s.setups ==> ConnShape(s, c))
    && s.connHandler.Keys + s.connRule.Keys <= s.setups.Keys
    && (forall r :: r in s.looping ==> r in s.handlers)
  }

  predicate IsBound(s: Server, c: ConnID) {
    c in s.setups && s.setups[c].phase.Bound?
  }

  predicate ServerOk(s: Server) {
    ServerShape(s) && forall c :: c in s.setups && s.setups[c].phase.Bound? ==> ConnShape(s, c) && UpToDate(s, c)
  }

  /** The last write of a setup is not behind the update loop. */
  predicate InTime(s: Server, step: Step) {
    step.Rebind? && step.c in s.setups && s.setups[step.c].phase.Rebinding? && s.setups[step.c].rule in s.handlers ==>
      var r := s.setups[step.c].rule;
      s.setups[step.c].phase.current == s.handlers[r] || r in s.looping
  }

  /** At most one replacement of the rule's handler since the connection looked it up. */
  predicate OneReplacement(s: Server, step: Step) {
    step.Rebind? && step.c in s.setups && s.setups[step.c].phase.Rebinding? && s.setups[step.c].rule in s.handlers ==>
      s.handlers[s.setups[step.c].rule] <= s.setups[step.c].phase.found + 1
  }

  // ---- Steps ----

  lemma ShapeStep(s: Server, step: Step)
    requires ServerShape(s) && Enabled(s, step)
    ensures ServerShape(Next(s, step))
  {
    match step
    case Install(r) => ShapeAddHandler(s, step);
    case UpdateConns(r) => ShapeAddHandler(s, step);
    case _ => ShapeSetup(s, step);
  }

  lemma ShapeAddHandler(s: Server, step: Step)
    requires ServerShape(s) && Enabled(s, step) && (step.Install? || step.UpdateConns?)
    ensures ServerShape(Next(s, step))
  {
    var t := Next(s, step);
    forall c | c in t.setups
      ensures ConnShape(t, c)
    {
      assert ConnShape(s, c);
    }
  }

  lemma ShapeSetup(s: Server, step: Step)
    requires ServerShape(s) && Enabled(s, step) && !step.Install? && !step.UpdateConns?
    ensures ServerShape(Next(s, step))
  {
    var t := Next(s, step);
    forall c | c in t.setups
      ensures ConnShape(t, c)
    {
      if c in s.setups { assert ConnShape(s, c); }
    }
  }

  /** A bound connection becomes up to date only when its rule's handler is replaced, and then stays so. */
  lemma BoundStep(s: Server, step: Step, c: ConnID)
    requires ServerShape(s) && Enabled(s, step) && IsBound(s, c) && ConnShape(s, c) && step != Leave(c)
    ensures var t := Next(s, step);
      && IsBound(t, c) && t.setups[c] == s.setups[c] && c in t.connHandler
      && (UpToDate(t, c) <==> UpToDate(s, c) || step == Install(s.setups[c].rule))
  {
  }

  /** A step that completes a setup leaves it up to date exactly when it was in time. */
  lemma BindingStep(s: Server, step: Step, c: ConnID)
    requires ServerShape(s) && Enabled(s, step) && c in s.setups && ConnShape(s, c)
    requires !IsBound(s, c) && IsBound(Next(s, step), c)
    ensures (step == DoubleCheck(c) || step == Rebind(c)) && c in Next(s, step).connHandler
    ensures UpToDate(Next(s, step), c) <==> InTime(s, step)
    ensures Next(s, step).setups[c].phase.told == Next(s, step).connHandler[c]
  {
  }

  /** The last write of a setup keeps the invariant exactly when it is not behind the update loop. */
  lemma RebindOkExactly(s: Server, c: ConnID)
    requires ServerOk(s) && Enabled(s, Rebind(c))
    ensures var r := s.setups[c].rule;
      r in s.handlers && (ServerOk(Next(s, Rebind(c))) <==> s.setups[c].phase.current == s.handlers[r] || r in s.looping)
  {
    assert ConnShape(s, c);
    BindingStep(s, Rebind(c), c);
    if InTime(s, Rebind(c)) {
      StepOk(s, Rebind(c));
    }
  }

  lemma StepOk(s: Server, step: Step)
    requires ServerOk(s) && Enabled(s, step) && InTime(s, step)
    ensures ServerOk(Next(s, step))
  {
    var t := Next(s, step);
    ShapeStep(s, step);
    forall c | c in t.setups && t.setups[c].phase.Bound?
      ensures ConnShape(t, c) && UpToDate(t, c)
    {
      assert ConnShape(t, c);
      assert ConnShape(s, c);
      if IsBound(s, c) {
        BoundStep(s, step, c);
      } else {
        BindingStep(s, step, c);
      }
    }
  }

  // ---- Runs ----

  predicate Valid(s: Server, run: seq<Step>)
    decreases |run|
  {
    run == [] || (Enabled(s, run[0]) && Valid(Next(s, run[0]), run[1..]))
  }

  function After(s: Server, run: seq<Step>): Server
    requires Valid(s, run)
    decreases |run|
  {
    if run == [] then s else After(Next(s, run[0]), run[1..])
  }

  predicate AllInTime(s: Server, run: seq<Step>)
    requires Valid(s, run)
    decreases |run|
  {
    run == [] || (InTime(s, run[0]) && AllInTime(Next(s, run[0]), run[1..]))
  }

  predicate OneEach(s: Server, run: seq<Step>)
    requires Valid(s, run)
    decreases |run|
  {
    run == [] || (OneReplacement(s, run[0]) && OneEach(Next(s, run[0]), run[1..]))
  }

  lemma {:induction false} RunShape(s: Server, run: seq<Step>)
    requires ServerShape(s) && Valid(s, run)
    ensures ServerShape(After(s, run))
    decreases |run|
  {
    if run != [] {
      ShapeStep(s, run[0]);
      RunShape(Next(s, run[0]), run[1..]);
    }
  }

  lemma {:induction false} RunOk(s: Server, run: seq<Step>)
    requires ServerOk(s) && Valid(s, run) && AllInTime(s, run)
    ensures ServerOk(After(s, run))
    decreases |run|
  {
    if run != [] {
      StepOk(s, run[0]);
      RunOk(Next(s, run[0]), run[1..]);
    }
  }

  /** Where no setup sees a second replacement, every setup is in time. */
  lemma {:induction false} OneEachIsInTime(s: Server, run: seq<Step>)
    requires ServerShape(s) && Valid(s, run) && OneEach(s, run)
    ensures AllInTime(s, run)
    decreases |run|
  {
    if run != [] {
      if run[0].Rebind? { assert ConnShape(s, run[0].c); }
      ShapeStep(s, run[0]);
      OneEachIsInTime(Next(s, run[0]), run[1..]);
    }
  }

  /**
   * Hot swap: in any interleaving of replacements with any number of setups in
   * which every last write is in time, which is so where no setup sees a second
   * replacement, once no update loop is pending every finished connection is
   * bound to its rule's newest handler.
   */
  lemma AllBoundToNewest(run: seq<Step>, c: ConnID)
    requires Valid(EMPTY, run) && (AllInTime(EMPTY, run) || OneEach(EMPTY, run))
    requires After(EMPTY, run).looping == {}
    ensures var s := After(EMPTY, run);
      c in s.setups && s.setups[c].phase.Bound? ==>
        c in s.connHandler && s.setups[c].rule in s.handlers && s.connHandler[c] == s.handlers[s.setups[c].rule]
  {
    if OneEach(EMPTY, run) {
      OneEachIsInTime(EMPTY, run);
    }
    RunOk(EMPTY, run);
  }

  lemma {:induction false} BoundRun(s: Server, run: seq<Step>, c: ConnID)
    requires ServerShape(s) && Valid(s, run) && IsBound(s, c) && ConnShape(s, c) && Leave(c) !in run
    ensures var t := After(s, run);
      && IsBound(t, c) && t.setups[c] == s.setups[c] && c in t.connHandler
      && (UpToDate(t, c) <==> UpToDate(s, c) || Install(s.setups[c].rule) in run)
    decreases |run|
  {
    if run != [] {
      BoundStep(s, run[0], c);
      ShapeStep(s, run[0]);
      var t := Next(s, run[0]);
      assert ConnShape(t, c);
      BoundRun(t, run[1..], c);
      assert run == [run[0]] + run[1..];
    }
  }

  /**
   * Exactly when one connection ends with the newest handler, in any run at all:
   * the step that completed its setup was in time, or the handler was replaced
   * again afterwards. Without either it stays with an old handler for good.
   */
  lemma BoundToNewestExactly(before: seq<Step>, step: Step, after: seq<Step>, c: ConnID)
    requires Valid(EMPTY, before)
    requires var s := After(EMPTY, before);
      && Enabled(s, step) && Valid(Next(s, step), after)
      && c in s.setups && !IsBound(s, c) && IsBound(Next(s, step), c)
    requires Leave(c) !in after
    requires var t := After(Next(After(EMPTY, before), step), after);
      IsBound(t, c) ==> t.setups[c].rule !in t.looping
    ensures var s := After(EMPTY, before);
      var t, r := After(Next(s, step), after), s.setups[c].rule;
      && IsBound(t, c) && t.setups[c].rule == r && c in t.connHandler && r in t.handlers
      && (t.connHandler[c] == t.handlers[r] <==> InTime(s, step) || Install(r) in after)
  {
    RunShape(EMPTY, before);
    var s := After(EMPTY, before);
    assert ConnShape(s, c);
    BindingStep(s, step, c);
    ShapeStep(s, step);
    var t := Next(s, step);
    assert ConnShape(t, c);
    BoundRun(t, after, c);
    RunShape(t, after);
    assert ConnShape(After(t, after), c);
  }

  // ---- An undisturbed setup ----

  /** Another connection's step, or a replacement of another rule's handler. */
  predicate Elsewhere(step: Step, c: ConnID, r: RuleID) {
    match step
    case Install(k) => k != r
    case UpdateConns(_) => true
    case Arrive(d, _) => d != c
    case LookUp(d) => d != c
    case Register(d) => d != c
    case DoubleCheck(d) => d != c
    case Rebind(d) => d != c
    case Leave(d) => d != c
  }

  predicate AllElsewhere(run: seq<Step>, c: ConnID, r: RuleID) {
    forall i :: 0 <= i < |run| ==> Elsewhere(run[i], c, r)
  }

  /** The setup of c has got to phase p with the newest handler h of its rule r. */
  predicate With(s: Server, c: ConnID, r: RuleID, p: Phase, h: Handler) {
    && c in s.setups && s.setups[c] == Setup(r, p) && r in s.handlers && s.handlers[r] == h
    && (c in s.connHandler ==> s.connHandler[c] == h)
  }

  lemma ElsewhereKeeps(s: Server, step: Step, c: ConnID, r: RuleID, p: Phase, h: Handler)
    requires ServerShape(s) && Enabled(s, step) && Elsewhere(step, c, r) && With(s, c, r, p, h)
    ensures With(Next(s, step), c, r, p, h)
  {
    assert ConnShape(s, c);
  }

  lemma {:induction false} AllElsewhereKeeps(s: Server, run: seq<Step>, c: ConnID, r: RuleID, p: Phase, h: Handler)
    requires ServerShape(s) && Valid(s, run) && AllElsewhere(run, c, r) && With(s, c, r, p, h)
    ensures With(After(s, run), c, r, p, h) && ServerShape(After(s, run))
    decreases |run|
  {
    if run != [] {
      ElsewhereKeeps(s, run[0], c, r, p, h);
      ShapeStep(s, run[0]);
      AllElsewhereKeeps(Next(s, run[0]), run[1..], c, r, p, h);
    }
  }

  /**
   * While nobody replaces the rule's handler, a setup finds the newest handler,
   * registers with it, needs no second write, and ends bound to it, whatever
   * other connections and rules do in between.
   */
  lemma UndisturbedSetup(s: Server, c: ConnID, first: seq<Step>, second: seq<Step>)
    requires ServerShape(s) && Enabled(s, LookUp(c))
    requires AllElsewhere(first, c, s.setups[c].rule) && AllElsewhere(second, c, s.setups[c].rule)
    requires Valid(Next(s, LookUp(c)), first)
    ensures var found := After(Next(s, LookUp(c)), first);
      && Enabled(found, Register(c))
      && (Valid(Next(found, Register(c)), second) ==>
            var registered := After(Next(found, Register(c)), second);
            && Enabled(registered, DoubleCheck(c))
            && var t := Next(registered, DoubleCheck(c));
               && IsBound(t, c) && TellsCurrent(t, c) && UpToDate(t, c)
               && t.connHandler[c] == s.handlers[s.setups[c].rule])
  {
    var r := s.setups[c].rule;
    var h := s.handlers[r];
    assert ConnShape(s, c);
    ShapeStep(s, LookUp(c));
    AllElsewhereKeeps(Next(s, LookUp(c)), first, c, r, Found(h), h);
    var found := After(Next(s, LookUp(c)), first);
    ShapeStep(found, Register(c));
    if Valid(Next(found, Register(c)), second) {
      AllElsewhereKeeps(Next(found, Register(c)), second, c, r, Registered(h), h);
      var registered := After(Next(found, Register(c)), second);
      assert ConnShape(registered, c);
    }
  }

  // ---- Who is told of the end ----

  /** When the connection leaves now, it tells the handler that it is bound to. */
  predicate TellsCurrent(s: Server, c: ConnID) {
    IsBound(s, c) && c in s.connHandler && s.setups[c].phase.told == s.connHandler[c]
  }

  /** The update loop of AddHandler reaches the connection with another handler than the one of its setup. */
  predicate Moves(s: Server, step: Step, c: ConnID) {
    IsBound(s, c) && s.setups[c].rule in s.handlers
    && step == UpdateConns(s.setups[c].rule) && s.handlers[s.setups[c].rule] != s.setups[c].phase.told
  }

  predicate EverMoves(s: Server, run: seq<Step>, c: ConnID)
    requires Valid(s, run)
    decreases |run|
  {
    run != [] && (Moves(s, run[0], c) || EverMoves(Next(s, run[0]), run[1..], c))
  }

  lemma TellsCurrentStep(s: Server, step: Step, c: ConnID)
    requires ServerShape(s) && Enabled(s, step) && TellsCurrent(s, c)
    ensures TellsCurrent(Next(s, step), c) <==> step != Leave(c) && !Moves(s, step, c)
  {
    assert ConnShape(s, c);
  }

  /** Once moved, a connection never gets back to the handler of its setup. */
  lemma {:induction false} MovedForGood(s: Server, run: seq<Step>, c: ConnID)
    requires ServerShape(s) && Valid(s, run) && Leave(c) !in run
    requires IsBound(s, c) && c in s.connHandler && s.setups[c].phase.told < s.connHandler[c]
    ensures var t := After(s, run);
      IsBound(t, c) && c in t.connHandler && t.setups[c].phase.told < t.connHandler[c]
    decreases |run|
  {
    if run != [] {
      assert ConnShape(s, c);
      ShapeStep(s, run[0]);
      MovedForGood(Next(s, run[0]), run[1..], c);
    }
  }

  /**
   * Exactly when a leaving connection tells the handler that it is bound to: over
   * any run from the end of its setup, if and only if no update loop has moved
   * it to another handler. Told is always the handler of the setup.
   */
  lemma {:induction false} TellsCurrentExactly(s: Server, run: seq<Step>, c: ConnID)
    requires ServerShape(s) && Valid(s, run) && TellsCurrent(s, c) && Leave(c) !in run
    ensures TellsCurrent(After(s, run), c) <==> !EverMoves(s, run, c)
    decreases |run|
  {
    if run != [] {
      var t := Next(s, run[0]);
      TellsCurrentStep(s, run[0], c);
      ShapeStep(s, run[0]);
      assert ConnShape(s, c);
      if Moves(s, run[0], c) {
        MovedForGood(t, run[1..], c);
      } else {
        TellsCurrentExactly(t, run[1..], c);
      }
    }
  }

  /** Every setup ends with the connection telling the handler that it is bound to. */
  lemma SetupTellsCurrent(before: seq<Step>, step: Step, after: seq<Step>, c: ConnID)
    requires Valid(EMPTY, before)
    requires var s := After(EMPTY, before);
      && Enabled(s, step) && Valid(Next(s, step), after)
      && c in s.setups && !IsBound(s, c) && IsBound(Next(s, step), c)
    requires Leave(c) !in after
    ensures var t := Next(After(EMPTY, before), step);
      TellsCurrent(After(t, after), c) <==> !EverMoves(t, after, c)
  {
    RunShape(EMPTY, before);
    var s := After(EMPTY, before);
    assert ConnShape(s, c);
    BindingStep(s, step, c);
    ShapeStep(s, step);
    TellsCurrentExactly(Next(s, step), after, c);
  }

  // ---- What goes wrong otherwise ----

  lemma Prepend(s: Server, step: Step, rest: seq<Step>) returns (run: seq<Step>)
    requires Enabled(s, step) && Valid(Next(s, step), rest)
    ensures run == [step] + rest && Valid(s, run) && After(s, run) == After(Next(s, step), rest)
  {
    run := [step] + rest;
    assert run[1..] == rest;
  }

  /** Replacing a handler in both critical sections. */
  lemma Replace(s: Server, r: RuleID, rest: seq<Step>) returns (run: seq<Step>)
    requires r in s.handlers && r !in s.looping
    requires Valid(Next(Next(s, Install(r)), UpdateConns(r)), rest)
    ensures Valid(s, run) && After(s, run) == After(Next(Next(s, Install(r)), UpdateConns(r)), rest)
  {
    run := Prepend(Next(s, Install(r)), UpdateConns(r), rest);
    run := Prepend(s, Install(r), run);
  }

  /** One connection has looked up handler 0, registered, and read handler 1 in its double check. */
  function Halfway(r: RuleID): Server {
    Server(map[r := 1], {}, map[1 := Setup(r, Rebinding(0, 1))], map[1 := 1], map[1 := r])
  }

  lemma ReachHalfway(r: RuleID, rest: seq<Step>) returns (run: seq<Step>)
    requires Valid(Halfway(r), rest)
    ensures Valid(EMPTY, run) && After(EMPTY, run) == After(Halfway(r), rest)
  {
    var s1 := Next(EMPTY, Install(r));
    var s2 := Next(s1, Arrive(1, r));
    var s3 := Next(s2, LookUp(1));
    var s4 := Next(s3, Register(1));
    var s5 := Next(Next(s4, Install(r)), UpdateConns(r));
    assert s5.connHandler == map[1 := 1] && s5.looping == {};
    assert Next(s5, DoubleCheck(1)) == Halfway(r);
    run := Prepend(s5, DoubleCheck(1), rest);
    run := Replace(s4, r, run);
    run := Prepend(s3, Register(1), run);
    run := Prepend(s2, LookUp(1), run);
    run := Prepend(s1, Arrive(1, r), run);
    run := Prepend(EMPTY, Install(r), run);
  }

  /**
   * With two replacements in one setup a connection can stay with the handler
   * in between for good: everything is finished and it is not bound to the newest.
   */
  lemma TwoReplacements(r: RuleID) returns (run: seq<Step>)
    ensures Valid(EMPTY, run)
    ensures var t := After(EMPTY, run);
      && t.looping == {} && 1 in t.setups && t.setups[1].phase.Bound? && 1 in t.connHandler && r in t.handlers
      && t.setups[1].rule == r && t.connHandler[1] != t.handlers[r]
  {
    var s := Next(Next(Halfway(r), Install(r)), UpdateConns(r));
    assert s.looping == {};
    run := Prepend(s, Rebind(1), []);
    run := Replace(Halfway(r), r, run);
    run := ReachHalfway(r, run);
  }

  /** One connection is set up with handler 0. */
  function Settled(r: RuleID): Server {
    Server(map[r := 0], {}, map[1 := Setup(r, Bound(0))], map[1 := 0], map[1 := r])
  }

  /** One replacement after the setup: the connection is bound to handler 1, may leave, and will tell handler 0. */
  lemma LeavingTellsTheOldHandler(r: RuleID) returns (run: seq<Step>)
    ensures Valid(EMPTY, run)
    ensures var t := After(EMPTY, run);
      && Enabled(t, Leave(1)) && t.looping == {} && 1 in t.connHandler
      && t.connHandler[1] == 1 && t.setups[1] == Setup(r, Bound(0)) && !TellsCurrent(t, 1)
  {
    var s1 := Next(EMPTY, Install(r));
    var s2 := Next(s1, Arrive(1, r));
    var s3 := Next(s2, LookUp(1));
    var s4 := Next(s3, Register(1));
    assert Next(s4, DoubleCheck(1)) == Settled(r);
    var t := Next(Next(Settled(r), Install(r)), UpdateConns(r));
    assert t.looping == {} && t.connHandler[1] == 1;
    run := Replace(Settled(r), r, []);
    run := Prepend(s4, DoubleCheck(1), run);
    run := Prepend(s3, Register(1), run);
    run := Prepend(s2, LookUp(1), run);
    run := Prepend(s1, Arrive(1, r), run);
    run := Prepend(EMPTY, Install(r), run);
  }

  // ---- The object ----

  class TunnelServer {
    var handlers: map<RuleID, Handler>
    var connHandler: map<ConnID, Handler>
    var connRuleID: map<ConnID, RuleID>
    ghost var looping: set<RuleID>
    ghost var setups: map<ConnID, Setup>

    ghost function State(): Server
      reads this
    {
      Server(handlers, looping, setups, connHandler, connRuleID)
    }

    constructor ()
      ensures State() == EMPTY
    {
      handlers, connHandler, connRuleID, looping, setups := map[], map[], map[], {}, map[];
    }

    method AddHandlerInstall(rule: RuleID) returns (replaced: bool)
      requires Enabled(State(), Install(rule))
      modifies this`handlers, this`looping
      ensures State() == Next(old(State()), Install(rule)) && (replaced <==> rule in old(handlers))
    {
      replaced := rule in handlers;
      if replaced {
        handlers, looping := handlers[rule := handlers[rule] + 1], looping + {rule};
      } else {
        handlers := handlers[rule := 0];
      }
    }

    /** The loop over connRuleID, in any order. */
    method AddHandlerUpdate(rule: RuleID)
      requires Enabled(State(), UpdateConns(rule))
      modifies this`connHandler, this`looping
      ensures State() == Next(old(State()), UpdateConns(rule))
    {
      var rest := connRuleID.Keys;
      NoneUpdated(connHandler, connRuleID, rule, handlers[rule]);
      while rest != {}
        invariant rest <= connRuleID.Keys && looping == old(looping)
        invariant connHandler == Updated(old(connHandler), connRuleID, rest, rule, handlers[rule])
        decreases |rest|
      {
        var c :| c in rest;
        NextUpdated(old(connHandler), connRuleID, rest, rule, handlers[rule], c);
        rest := rest - {c};
        if connRuleID[c] == rule {
          connHandler := connHandler[c := handlers[rule]];
        }
      }
      looping := looping - {rule};
    }

    method RegisterConn(c: ConnID, rule: RuleID, handler: Handler)
      requires c in setups && setups[c] == Setup(rule, Found(handler))
      modifies this`connHandler, this`connRuleID, this`setups
      ensures State() == Next(old(State()), Register(c))
    {
      connHandler := connHandler[c := handler];
      connRuleID := connRuleID[c := rule];
      setups := setups[c := Setup(rule, Registered(handler))];
    }

    /** Reads the handler again and reports the one the connection is to use. */
    method DoubleCheckConn(c: ConnID, rule: RuleID, handler: Handler) returns (current: Handler)
      requires c in setups && setups[c] == Setup(rule, Registered(handler)) && rule in handlers
      modifies this`setups
      ensures State() == Next(old(State()), DoubleCheck(c)) && current == handlers[rule]
    {
      current := handlers[rule];
      setups := setups[c := Setup(rule, if current != handler then Rebinding(handler, current) else Bound(handler))];
    }

    method RebindConn(c: ConnID, rule: RuleID, handler: Handler, current: Handler)
      requires c in setups && setups[c] == Setup(rule, Rebinding(handler, current))
      modifies this`connHandler, this`setups
      ensures State() == Next(old(State()), Rebind(c))
    {
      connHandler := connHandler[c := current];
      setups := setups[c := Setup(rule, Bound(current))];
    }
  }

  lemma NoneUpdated(m: map<ConnID, Handler>, connRule: map<ConnID, RuleID>, rule: RuleID, h: Handler)
    ensures Updated(m, connRule, connRule.Keys, rule, h) == m
  {
    assert Updated(m, connRule, connRule.Keys, rule, h).Keys == m.Keys;
  }

  lemma NextUpdated(m: map<ConnID, Handler>, connRule: map<ConnID, RuleID>, rest: set<ConnID>, rule: RuleID, h: Handler, c: ConnID)
    requires c in rest && c in connRule
    ensures Updated(m, connRule, rest - {c}, rule, h)
         == if connRule[c] == rule then Updated(m, connRule, rest, rule, h)[c := h] else Updated(m, connRule, rest, rule, h)
  {
  }
}
