/**
 * The runtime hooks the offloader pass calls at the boundaries of
 * offloaded blocks when the program runs under the zsim simulator.
 *
 * `PIMProfOffloader` keeps a stack of the decisions of the enclosing
 * scopes (a sentinel -1 at the bottom for the global scope) and tells the
 * simulator, with a magic instruction, when execution moves onto PIM or
 * back to the CPU. The magic instructions are modelled as an emitted
 * trace of operations.
 */
module ZSimHooks {

  /** The simulator's magic operations the hooks emit. */
  datatype MagicOp = RoiBegin | RoiEnd | FunctionBegin | FunctionEnd

  /** The operation numbers agreed with the simulator. */
  function Code(op: MagicOp): (c: int)
    ensures 1025 <= c <= 1032
  {
    match op
    case RoiBegin => 1025
    case RoiEnd => 1026
    case FunctionBegin => 1031
    case FunctionEnd => 1032
  }

  /** No two operations share a number. */
  lemma CodesDistinct(a: MagicOp, b: MagicOp)
    ensures Code(a) == Code(b) <==> a == b
  {
  }

  /**
   * Whether the process is still running: a failed `assert` ends it, and
   * so does `top` or `pop` on an empty stack, which is undefined.
   */
  datatype Status = Running | AssertFailed | EmptyStack

  /** The hooks' global state: the initialised flag, the scope stack (top last) and what was emitted. */
  datatype HookState = HookState(initialized: bool, scope: seq<int>, trace: seq<MagicOp>, status: Status)

  const START: HookState := HookState(false, [], [], Running)

  /** The decision a scope entry must have to be accepted under a scope whose decision is top. */
  function Toggle(top: int): int
  {
    if top == 1 then 0 else 1
  }

  /** The event that moves onto PIM (decision 1) or back to the CPU (decision 0). */
  function Switch(decision: int): MagicOp
  {
    if decision == 1 then FunctionBegin else FunctionEnd
  }

  /**
   * `PIMProfOffloader(decision, mode, ...)`: the first call pushes the
   * sentinel; mode 0 (entering a block) emits the end of a PIM region
   * when a CPU block opens inside a PIM scope, its beginning when a PIM
   * block opens outside one, fails otherwise, and pushes the decision;
   * mode 1 (leaving) pops and then emits the mirror event under the same
   * conditions, or fails. Any other mode does nothing more.
   */
  function Call(s: HookState, decision: int, mode: int): (r: HookState)
    ensures s.status != Running ==> r == s
    ensures r.status == Running && s.status == Running ==> (mode == 0 || mode == 1 ==> |r.trace| == |s.trace| + 1)
  {
    if s.status != Running then s
    else
      var s1 := if s.initialized then s else s.(initialized := true, scope := s.scope + [-1]);
      if mode == 0 then
        if s1.scope == [] then s1.(status := EmptyStack)
        else
          var top := s1.scope[|s1.scope| - 1];
          if top == 1 && decision == 0 then s1.(trace := s1.trace + [FunctionEnd], scope := s1.scope + [decision])
          else if top != decision && decision == 1 then s1.(trace := s1.trace + [FunctionBegin], scope := s1.scope + [decision])
          else s1.(status := AssertFailed)
      else if mode == 1 then
        if |s1.scope| <= 1 then s1.(status := EmptyStack, scope := [])
        else
          var popped := s1.scope[..|s1.scope| - 1];
          var top := popped[|popped| - 1];
          if top == 1 && decision == 0 then s1.(trace := s1.trace + [FunctionBegin], scope := popped)
          else if top != decision && decision == 1 then s1.(trace := s1.trace + [FunctionEnd], scope := popped)
          else s1.(status := AssertFailed, scope := popped)
      else s1
  }

  /** `PIMProfOffloader2(mode)`: the region of interest begins (mode 0) or ends (mode 1); any other mode fails. */
  function Roi(s: HookState, mode: int): (r: HookState)
    ensures r.scope == s.scope && r.initialized == s.initialized
  {
    if s.status != Running then s
    else if mode == 0 then s.(trace := s.trace + [RoiBegin])
    else if mode == 1 then s.(trace := s.trace + [RoiEnd])
    else s.(status := AssertFailed)
  }

  // ---------------------------------------------------------------------
  // The scope invariant
  // ---------------------------------------------------------------------

  /** The PIM region events of a trace, in order. */
  function RegionEvents(t: seq<MagicOp>): (r: seq<MagicOp>)
    ensures |r| <= |t|
    ensures forall k | 0 <= k < |r| :: r[k] == FunctionBegin || r[k] == FunctionEnd
  {
    if t == [] then []
    else
      var rest := RegionEvents(t[..|t| - 1]);
      if t[|t| - 1] in {FunctionBegin, FunctionEnd} then rest + [t[|t| - 1]] else rest
  }

  /** Every entry above the sentinel is the toggle of the one below it: 1, 0, 1, 0, ... */
  predicate Alternating(scope: seq<int>)
  {
    forall i | 1 <= i < |scope| :: scope[i] == Toggle(scope[i - 1])
  }

  /** Region events begin with a beginning and then alternate. */
  predicate Paired(ev: seq<MagicOp>)
  {
    forall i | 0 <= i < |ev| :: ev[i] == (if i % 2 == 0 then FunctionBegin else FunctionEnd)
  }

  /** Execution is on PIM: the innermost scope is a PIM block. */
  predicate OnPim(s: HookState)
  {
    s.initialized && s.scope != [] && s.scope[|s.scope| - 1] == 1
  }

  /**
   * What a running process keeps: the sentinel at the bottom, alternating
   * decisions above it, and a PIM region open in the simulator exactly
   * when the innermost scope is a PIM block.
   */
  predicate Inv(s: HookState)
  {
    s.status == Running ==>
      (if s.initialized then s.scope != [] && s.scope[0] == -1 else s.scope == [])
      && Alternating(s.scope)
      && Paired(RegionEvents(s.trace))
      && (|RegionEvents(s.trace)| % 2 == 1 <==> OnPim(s))
  }

  lemma StartInv()
    ensures Inv(START)
  {
  }

  lemma RegionEventsAppend(t: seq<MagicOp>, op: MagicOp)
    ensures RegionEvents(t + [op]) == RegionEvents(t) + (if op in {FunctionBegin, FunctionEnd} then [op] else [])
  {
    assert (t + [op])[..|t|] == t;
  }

  /** Every call keeps the invariant. */
  lemma CallInv(s: HookState, decision: int, mode: int)
    requires Inv(s)
    ensures Inv(Call(s, decision, mode))
  {
    if s.status == Running {
      var s1 := if s.initialized then s else s.(initialized := true, scope := s.scope + [-1]);
      assert Inv(s1);
      if mode == 0 {
        EnterInv(s1, decision);
      } else if mode == 1 {
        LeaveInv(s1, decision);
      }
    }
  }

  /** Mode 0 on an initialised stack keeps the invariant. */
  lemma EnterInv(s: HookState, decision: int)
    requires Inv(s) && s.status == Running && s.initialized
    ensures Inv(Call(s, decision, 0))
  {
    var r := Call(s, decision, 0);
    if r.status == Running {
      var op := Switch(decision);
      assert r.trace == s.trace + [op] && r.scope == s.scope + [decision];
      RegionEventsAppend(s.trace, op);
    }
  }

  /** Mode 1 on an initialised stack keeps the invariant. */
  lemma LeaveInv(s: HookState, decision: int)
    requires Inv(s) && s.status == Running && s.initialized
    ensures Inv(Call(s, decision, 1))
  {
    var r := Call(s, decision, 1);
    if r.status == Running {
      var n := |s.scope|;
      assert s.scope[n - 1] == Toggle(s.scope[n - 2]);
      assert decision == s.scope[n - 1];
      var op := Switch(1 - decision);
      assert r.trace == s.trace + [op] && r.scope == s.scope[..n - 1];
      RegionEventsAppend(s.trace, op);
      assert |RegionEvents(s.trace)| % 2 == 1 <==> decision == 1;
    }
  }

  /** The region hooks never change the scope, and a region event does not touch the region pairing. */
  lemma RoiInv(s: HookState, mode: int)
    requires Inv(s)
    ensures Inv(Roi(s, mode))
  {
    var r := Roi(s, mode);
    if s.status == Running && r.status == Running {
      RegionEventsAppend(s.trace, if mode == 0 then RoiBegin else RoiEnd);
    }
  }

  /** Entering a block succeeds exactly when its decision is the toggle of the enclosing scope's, and emits the switch to it. */
  lemma EnterIff(s: HookState, decision: int)
    requires Inv(s) && s.status == Running
    ensures var top := if s.initialized then s.scope[|s.scope| - 1] else -1;
      Call(s, decision, 0).status == Running <==> decision == Toggle(top)
    ensures var top := if s.initialized then s.scope[|s.scope| - 1] else -1;
      decision == Toggle(top) ==> Call(s, decision, 0).trace == s.trace + [Switch(decision)]
  {
  }

  /** Leaving a block succeeds exactly when its decision is the one on top of the stack. */
  lemma LeaveIff(s: HookState, decision: int)
    requires Inv(s) && s.status == Running && s.initialized && |s.scope| >= 2
    ensures Call(s, decision, 1).status == Running <==> decision == s.scope[|s.scope| - 1]
  {
    var n := |s.scope|;
    assert s.scope[n - 1] == Toggle(s.scope[n - 2]);
  }

  /**
   * A block entered and left with the same decision leaves the stack as
   * it was (with the sentinel pushed if this was the first call) and
   * emits a switch and the switch back.
   */
  lemma EnterLeave(s: HookState, decision: int)
    requires Inv(s) && Call(s, decision, 0).status == Running
    ensures var t := Call(Call(s, decision, 0), decision, 1);
      t.status == Running
      && t.scope == (if s.initialized then s.scope else [-1])
      && t.trace == s.trace + [Switch(decision), Switch(1 - decision)]
  {
    var e := Call(s, decision, 0);
    assert e.scope[..|e.scope| - 1] == (if s.initialized then s.scope else [-1]);
  }

  // ---------------------------------------------------------------------
  // The hooks as the program runs them
  // ---------------------------------------------------------------------

  /** The hooks' global variables and the simulator's view of what they emitted. */
  class Hooks {
    var scopeInitialized: bool
    var scope: seq<int>
    var trace: seq<MagicOp>
    var status: Status

    function State(): HookState
      reads this
    {
      HookState(scopeInitialized, scope, trace, status)
    }

    constructor ()
      ensures State() == START
    {
      scopeInitialized, scope, trace, status := false, [], [], Running;
    }

    /** `PIMProfOffloader`; the block id and the parallel flag are not used. */
    method Offloader(decision: int, mode: int, bblid: int, parallel: int) returns (r: int)
      modifies this
      ensures State() == Call(old(State()), decision, mode)
      ensures r == 0
    {
      r := 0;
      if status != Running {
        return;
      }
      if !scopeInitialized {
        scopeInitialized := true;
        scope := scope + [-1];
      }
      if mode == 0 {
        if scope == [] {
          status := EmptyStack;
          return;
        }
        var top := scope[|scope| - 1];
        if top == 1 && decision == 0 {
          trace := trace + [FunctionEnd];
        } else if top != decision && decision == 1 {
          trace := trace + [FunctionBegin];
        } else {
          status := AssertFailed;
          return;
        }
        scope := scope + [decision];
      }
      if mode == 1 {
        if |scope| <= 1 {
          status, scope := EmptyStack, [];
          return;
        }
        scope := scope[..|scope| - 1];
        var top := scope[|scope| - 1];
        if top == 1 && decision == 0 {
          trace := trace + [FunctionBegin];
        } else if top != decision && decision == 1 {
          trace := trace + [FunctionEnd];
        } else {
          status := AssertFailed;
        }
      }
    }

    /** `PIMProfOffloaderNull`: returns 0 and changes nothing. */
    method OffloaderNull(decision: int, mode: int, bblid: int, parallel: int) returns (r: int)
      ensures r == 0
    {
      r := 0;
    }

    /** `PIMProfOffloader2`: the region-of-interest markers. */
    method Offloader2(mode: int) returns (r: int)
      modifies this
      ensures State() == Roi(old(State()), mode)
      ensures r == 0
    {
      r := 0;
      if status != Running {
        return;
      }
      if mode == 0 {
        trace := trace + [RoiBegin];
      } else if mode == 1 {
        trace := trace + [RoiEnd];
      } else {
        status := AssertFailed;
      }
    }
  }
}
