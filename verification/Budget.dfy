/** The reasoning-budget clock: it counts reasoning tokens per think block and re-arms
    when a new block opens. */
module Budget {
  const U32_MAX: nat := 0xFFFF_FFFF

  datatype ForceKind = Sample | Bias | Force

  /** What the splitter reports after a token: inside a think block, and holding a partial tag. */
  datatype Seen = Seen(inReason: bool, holding: bool)

  datatype Clock = Clock(budget: nat, grace: nat, counted: nat, wasInReason: bool, forcing: bool, done: bool) {
    /** One observation. */
    function Observe(s: Seen): Clock {
      if done then
        if s.inReason && !wasInReason then Armed(budget, grace).(wasInReason := true)
        else this.(wasInReason := s.inReason)
      else if forcing then
        if !s.inReason then this.(done := true, forcing := false, wasInReason := false)
        else this.(wasInReason := true)
      else if s.inReason && wasInReason then
        var n := SaturatingInc(counted);
        this.(counted := n, forcing := n >= budget && !s.holding)
      else this.(done := wasInReason && !s.inReason, wasInReason := s.inReason)
    }

    function BiasAt(): nat {
      if budget < grace then 0 else budget - grace
    }

    function Kind(s: Seen): ForceKind {
      if done || !s.inReason then Sample
      else if (forcing || counted >= budget) && !s.holding then Force
      else if counted >= BiasAt() then Bias
      else Sample
    }
  }

  function SaturatingInc(n: nat): nat {
    if n < U32_MAX then n + 1 else n
  }

  function Armed(budget: nat, grace: nat): Clock {
    Clock(budget, grace, 0, false, false, false)
  }

  class BudgetClock {
    var budget: nat
    var grace: nat
    var counted: nat
    var wasInReason: bool
    var forcing: bool
    var done: bool

    function State(): Clock
      reads this
    {
      Clock(budget, grace, counted, wasInReason, forcing, done)
    }

    constructor (budget: nat, grace: nat)
      ensures State() == Armed(budget, grace)
    {
      this.budget, this.grace, counted := budget, grace, 0;
      wasInReason, forcing, done := false, false, false;
    }

    method Observe(inReason: bool, holding: bool)
      modifies this
      ensures State() == old(State()).Observe(Seen(inReason, holding))
    {
      if done {
        if inReason && !wasInReason {
          counted, forcing, done := 0, false, false;
          wasInReason := true;
        } else {
          wasInReason := inReason;
        }
        return;
      }
      if forcing {
        if !inReason {
          done := true;
          forcing := false;
        }
        wasInReason := inReason;
        return;
      }
      if inReason && wasInReason {
        counted := SaturatingInc(counted);
        if counted >= budget && !holding {
          forcing := true;
        }
      } else if wasInReason && !inReason {
        done := true;
      }
      wasInReason := inReason;
    }

    method NextKind(inReason: bool, holding: bool) returns (k: ForceKind)
      ensures k == State().Kind(Seen(inReason, holding))
    {
      if done || !inReason {
        return Sample;
      }
      if (forcing || counted >= budget) && !holding {
        return Force;
      }
      var biasAt := if budget < grace then 0 else budget - grace;
      k := if counted >= biasAt then Bias else Sample;
    }
  }

  // ---- over a whole trace of observations -------------------------------------------

  function RunClock(c: Clock, trace: seq<Seen>): Clock {
    if trace == [] then c
    else RunClock(c, trace[..|trace| - 1]).Observe(trace[|trace| - 1])
  }

  /** The running total kept beside the clock: the increases of its count. */
  function Tally(c: Clock, trace: seq<Seen>): nat {
    if trace == [] then 0
    else
      var n := |trace| - 1;
      var before := RunClock(c, trace[..n]).counted;
      SaturatingAdd(Tally(c, trace[..n]), Increase(before, RunClock(c, trace).counted))
  }

  function SaturatingAdd(a: nat, b: nat): nat {
    if a + b < U32_MAX then a + b else U32_MAX
  }

  function Increase(before: nat, after: nat): nat {
    if before <= after then after - before else 0
  }

  /** Tokens seen while the block was already open: adjacent pairs of in-reasoning observations. */
  function InsidePairs(trace: seq<Seen>): nat {
    if |trace| < 2 then 0
    else
      var n := |trace| - 1;
      InsidePairs(trace[..n]) + if trace[n - 1].inReason && trace[n].inReason then 1 else 0
  }

  /** The unbounded counter: budget `U32_MAX`, no grace. */
  const COUNTER := Armed(U32_MAX, 0)

  lemma {:induction false} CounterInvariant(trace: seq<Seen>)
    requires |trace| < U32_MAX
    ensures var c := RunClock(COUNTER, trace);
            && c.budget == U32_MAX && c.counted <= |trace| && !c.forcing && (c.done ==> !c.wasInReason)
            && c.wasInReason == (trace != [] && trace[|trace| - 1].inReason)
  {
    if trace != [] {
      CounterInvariant(trace[..|trace| - 1]);
    }
  }

  /** The total counts exactly the adjacent in-reasoning pairs, over all blocks. */
  lemma {:induction false} TallyIsInsidePairs(trace: seq<Seen>)
    requires |trace| < U32_MAX
    ensures Tally(COUNTER, trace) == InsidePairs(trace) <= |trace|
  {
    if trace != [] {
      var init := trace[..|trace| - 1];
      TallyIsInsidePairs(init);
      CounterInvariant(init);
    }
  }

  /** Since the clock was last armed: counted steps at or past the budget on which a
      partial tag was held. */
  function HeldPast(budget: nat, grace: nat, trace: seq<Seen>): nat {
    if trace == [] then 0
    else
      var n := |trace| - 1;
      var c := RunClock(Armed(budget, grace), trace[..n]);
      var next := c.Observe(trace[n]);
      if c.done && !next.done then 0
      else
        HeldPast(budget, grace, trace[..n])
        + if next.counted > c.counted && next.counted >= budget && trace[n].holding then 1 else 0
  }

  /** The count passes a budget of at least one by no more than the held steps; once the
      clock forces, by exactly that many. */
  lemma {:induction false} OvershootIsHeldSteps(budget: nat, grace: nat, trace: seq<Seen>)
    requires 1 <= budget && |trace| < U32_MAX
    ensures var c := RunClock(Armed(budget, grace), trace);
            var held := HeldPast(budget, grace, trace);
            && c.budget == budget && c.grace == grace && c.counted <= |trace|
            && (c.done ==> !c.wasInReason && !c.forcing)
            && (c.forcing ==> c.counted >= budget && c.counted - budget == held)
            && (c.counted < budget ==> held == 0)
            && (c.counted >= budget ==> held - 1 <= c.counted - budget <= held)
            && (c.counted >= budget && !c.forcing && !c.done ==> c.counted - budget == held - 1)
  {
    if trace != [] {
      OvershootIsHeldSteps(budget, grace, trace[..|trace| - 1]);
    }
  }

  /** With a zero budget the bound fails: the first counted token is already over it. */
  lemma ZeroBudgetOvershoots()
    ensures var trace := [Seen(true, false), Seen(true, false)];
            RunClock(Armed(0, 0), trace).counted == 1 && HeldPast(0, 0, trace) == 0
  {
    var trace := [Seen(true, false), Seen(true, false)];
    assert trace[..1] == [Seen(true, false)] && trace[..1][..0] == [];
    assert RunClock(Armed(0, 0), []) == Armed(0, 0);
    assert RunClock(Armed(0, 0), trace[..1]) == Armed(0, 0).(wasInReason := true);
    assert HeldPast(0, 0, trace[..1]) == 0;
  }

  /** A close is forced exactly while the open block has used up its budget and no partial
      tag is held. */
  lemma ForceExactly(budget: nat, grace: nat, trace: seq<Seen>, s: Seen)
    requires 1 <= budget && |trace| < U32_MAX
    ensures var c := RunClock(Armed(budget, grace), trace);
            c.Kind(s) == Force <==> !c.done && s.inReason && !s.holding && c.counted >= budget
  {
    OvershootIsHeldSteps(budget, grace, trace);
  }

  // ---- the answers of the clock, from the trace alone ------------------------------------

  /** The observations inside the block that is open at the end of the trace. */
  function OpenFor(trace: seq<Seen>): nat {
    if trace == [] || !trace[|trace| - 1].inReason then 0 else 1 + OpenFor(trace[..|trace| - 1])
  }

  /** The clock's count is the number of tokens seen inside the open block, unless it has been
      forcing since a count that used up the budget. */
  lemma {:induction false} CountIsOpenFor(budget: nat, grace: nat, trace: seq<Seen>)
    requires |trace| < U32_MAX
    ensures var c := RunClock(Armed(budget, grace), trace);
            && c.budget == budget && c.grace == grace && OpenFor(trace) <= |trace|
            && c.wasInReason == (OpenFor(trace) > 0)
            && (c.wasInReason ==> !c.done && c.counted <= OpenFor(trace) - 1)
            && (c.wasInReason && c.counted < OpenFor(trace) - 1 ==> c.forcing)
            && (c.forcing ==> c.wasInReason && c.counted >= budget)
            && (!c.wasInReason && !c.done ==> c.counted == 0)
  {
    if trace != [] {
      CountIsOpenFor(budget, grace, trace[..|trace| - 1]);
    }
  }

  /** After any trace, the answer for its last observation: with `n` tokens seen inside the open
      block, a close is forced if `n` has reached the budget and no partial tag is held, else
      closing is favoured if `n` is within the grace of it, and outside blocks never. */
  lemma KindExactly(budget: nat, grace: nat, trace: seq<Seen>)
    requires 0 < |trace| < U32_MAX
    ensures var (s, n) := (trace[|trace| - 1], OpenFor(trace) - 1);
            var kind := RunClock(Armed(budget, grace), trace).Kind(s);
            && (kind == Force <==> s.inReason && n >= budget && !s.holding)
            && (kind == Bias <==> s.inReason && n + grace >= budget && (n < budget || s.holding))
  {
    CountIsOpenFor(budget, grace, trace);
  }
}
