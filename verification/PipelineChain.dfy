/** A chain of streaming operators between a source and a sink, and what pushing a chunk through it
    means: each operator's outputs go down the rest of the chain one after another, depth first. */
module PipelineChain {

  /** An operator's answer to one input chunk: it refuses more input, or it emits these chunks. */
  datatype Reply<S, C> = Finished(state: S) | Outs(chunks: seq<C>, state: S)

  /** `ops` are the operators from source to sink, each with a local state; `has` tells whether a chunk
      holds rows; `sink` takes a chunk and says whether it is full. */
  datatype Chain<!S, !C, !T> = Chain(ops: seq<(S, C) -> Reply<S, C>>, has: C -> bool, sink: (T, C) -> (T, bool))

  /** The operators' states, the sink's state, whether anyone has said FINISHED, and how many times an
      operator was called. */
  datatype World<S, T> = World(states: seq<S>, sink: T, stopped: bool, calls: nat)

  function Called<S, T>(w: World<S, T>): World<S, T> {
    w.(calls := w.calls + 1)
  }

  /** An operator answers at least once per input, and every answer before its last holds rows. */
  ghost predicate ChainOk<S(!new), C(!new), T>(p: Chain<S, C, T>) {
    forall k, s, c {:trigger p.ops[k](s, c)} | 0 <= k < |p.ops| && p.ops[k](s, c).Outs? ::
      var cs := p.ops[k](s, c).chunks;
      cs != [] && forall i | 0 <= i < |cs| - 1 :: p.has(cs[i])
  }

  /** Chunk `c` at boundary k goes through operators k+1 and later, or into the sink. */
  function Down<S, C, T>(p: Chain<S, C, T>, k: nat, c: C, w: World<S, T>): (w': World<S, T>)
    requires k <= |p.ops| == |w.states|
    ensures |w'.states| == |w.states| && w'.calls >= w.calls
    decreases |p.ops| - k, 1, 0
  {
    if k == |p.ops| then
      var (t, full) := p.sink(w.sink, c);
      w.(sink := t, stopped := full)
    else
      match p.ops[k](w.states[k], c)
      case Finished(s) => Called(w).(states := w.states[k := s], stopped := true)
      case Outs(cs, s) => DownAll(p, k + 1, cs, w.(states := w.states[k := s]))
  }

  /** The chunks one after another, one call each; empty ones go nowhere, and nothing moves once someone
      has finished. */
  function DownAll<S, C, T>(p: Chain<S, C, T>, k: nat, cs: seq<C>, w: World<S, T>): (w': World<S, T>)
    requires k <= |p.ops| == |w.states|
    ensures |w'.states| == |w.states| && w'.calls >= w.calls
    decreases |p.ops| - k, 2, |cs|
  {
    if w.stopped || cs == [] then w
    else DownAll(p, k, cs[1..], if p.has(cs[0]) then Down(p, k, cs[0], Called(w)) else Called(w))
  }

  /** The suspended operators, innermost last, push what they still owe, innermost first. */
  function Resume<S, C, T>(p: Chain<S, C, T>, stack: seq<nat>, owed: seq<seq<C>>, w: World<S, T>): (w': World<S, T>)
    requires |owed| == |p.ops| == |w.states| && forall i | 0 <= i < |stack| :: 0 < stack[i] <= |p.ops|
    ensures |w'.states| == |w.states| && w'.calls >= w.calls
  {
    if w.stopped || stack == [] then w
    else
      var top := stack[|stack| - 1];
      Resume(p, stack[..|stack| - 1], owed, DownAll(p, top, owed[top - 1], w))
  }

  // ---------------------------------------------------------------- what is suspended

  /** The stack grows strictly from bottom to top, holds operators below `cur`, and exactly the operators
      on it owe output. */
  predicate Suspended<C>(n: nat, stack: seq<nat>, owed: seq<seq<C>>, cur: nat) {
    && |owed| == n
    && (forall i | 0 <= i < |stack| :: 0 < stack[i] < cur && stack[i] <= n)
    && (forall i, j | 0 <= i < j < |stack| :: stack[i] < stack[j])
    && (forall k {:trigger owed[k]} | 0 <= k < n && k + 1 != cur :: owed[k] != [] <==> k + 1 in stack)
  }

  /** What an operator owes holds rows except possibly its last chunk. */
  predicate OwedOk<C>(has: C -> bool, owed: seq<seq<C>>) {
    forall k, i {:trigger owed[k][i]} | 0 <= k < |owed| && 0 <= i < |owed[k]| - 1 :: has(owed[k][i])
  }

  /** Other operators' debts do not matter. */
  lemma {:induction false} ResumeFrame<S, C, T>(p: Chain<S, C, T>, stack: seq<nat>, owed: seq<seq<C>>,
          owed': seq<seq<C>>, w: World<S, T>)
    requires |owed| == |owed'| == |p.ops| == |w.states| && forall i | 0 <= i < |stack| :: 0 < stack[i] <= |p.ops|
    requires forall i | 0 <= i < |stack| :: owed'[stack[i] - 1] == owed[stack[i] - 1]
    ensures Resume(p, stack, owed', w) == Resume(p, stack, owed, w)
  {
    if !w.stopped && stack != [] {
      var top := stack[|stack| - 1];
      assert owed'[top - 1] == owed[top - 1];
      ResumeFrame(p, stack[..|stack| - 1], owed, owed', DownAll(p, top, owed[top - 1], w));
    }
  }

  lemma {:induction false} ResumeStopped<S, C, T>(p: Chain<S, C, T>, stack: seq<nat>, owed: seq<seq<C>>, w: World<S, T>)
    requires |owed| == |p.ops| == |w.states| && (forall i | 0 <= i < |stack| :: 0 < stack[i] <= |p.ops|) && w.stopped
    ensures Resume(p, stack, owed, w) == w
  {
  }

  // ---------------------------------------------------------------- one call of an operator

  /** An operator answers with the first of `cs` and keeps the rest: whether it then goes on the stack
      and its first answer goes down, or not, the work left is the same. */
  lemma Answered<S, C, T>(p: Chain<S, C, T>, cur: nat, cs: seq<C>, stack: seq<nat>, owed: seq<seq<C>>, w: World<S, T>)
    requires 0 < cur <= |p.ops| == |owed| == |w.states| && cs != [] && !w.stopped
    requires forall i | 0 <= i < |stack| :: 0 < stack[i] < cur
    ensures var after := owed[cur - 1 := cs[1..]];
            var stack' := if cs[1..] != [] then stack + [cur] else stack;
            var w' := if p.has(cs[0]) then Down(p, cur, cs[0], Called(w)) else Called(w);
            Resume(p, stack, owed, DownAll(p, cur, cs, w)) == Resume(p, stack', after, w')
  {
    var after := owed[cur - 1 := cs[1..]];
    var w' := if p.has(cs[0]) then Down(p, cur, cs[0], Called(w)) else Called(w);
    assert DownAll(p, cur, cs, w) == DownAll(p, cur, cs[1..], w');
    ResumeFrame(p, stack, owed, after, DownAll(p, cur, cs, w));
    if cs[1..] != [] {
      assert (stack + [cur])[..|stack|] == stack;
      if w'.stopped {
        ResumeStopped(p, stack, after, w');
      }
    }
  }

  /** The world the work ahead leads to when operator `cur` is next with chunk `c` at its input, or when
      `c` is the last operator's output (`cur` one past the last operator). */
  function Ahead<S, C, T>(p: Chain<S, C, T>, cur: nat, c: C, stack: seq<nat>, owed: seq<seq<C>>,
          w: World<S, T>): World<S, T>
    requires 0 < cur <= |p.ops| + 1 && |owed| == |p.ops| == |w.states| && forall i | 0 <= i < |stack| ::
             0 < stack[i] <= |p.ops|
  {
    if cur <= |p.ops| && owed[cur - 1] != [] then Resume(p, stack, owed, DownAll(p, cur, owed[cur - 1], w))
    else Resume(p, stack, owed, Down(p, cur - 1, c, w))
  }

  /** Operator `cur`'s answers: what it owes if it was suspended, its reply to `c` otherwise; `w1` has its
      new state. */
  ghost predicate Answers<S, C, T>(p: Chain<S, C, T>, cur: nat, c: C, owed: seq<seq<C>>, w: World<S, T>, cs: seq<C>,
          w1: World<S, T>)
    requires 0 < cur <= |p.ops| == |owed| == |w.states|
  {
    if owed[cur - 1] != [] then cs == owed[cur - 1] && w1 == w
    else p.ops[cur - 1](w.states[cur - 1], c).Outs? &&
         var reply := p.ops[cur - 1](w.states[cur - 1], c);
         cs == reply.chunks && w1 == w.(states := w.states[cur - 1 := reply.state])
  }

  /** After the call the work ahead is that of the first answer and of everyone who still owes. */
  lemma AnswerWork<S, C, T>(p: Chain<S, C, T>, cur: nat, c: C, stack: seq<nat>, owed: seq<seq<C>>, w: World<S, T>,
          cs: seq<C>, w1: World<S, T>)
    requires 0 < cur <= |p.ops| == |owed| == |w.states| && !w.stopped && cs != []
    requires (forall i | 0 <= i < |stack| :: 0 < stack[i] < cur) && Answers(p, cur, c, owed, w, cs, w1)
    ensures var stack' := if cs[1..] != [] then stack + [cur] else stack;
            var w' := if p.has(cs[0]) then Down(p, cur, cs[0], Called(w1)) else Called(w1);
            Ahead(p, cur, c, stack, owed, w) == Resume(p, stack', owed[cur - 1 := cs[1..]], w')
  {
    Answered(p, cur, cs, stack, owed, w1);
  }

  /** An operator that refuses more input ends everything. */
  lemma FinishedWork<S, C, T>(p: Chain<S, C, T>, cur: nat, c: C, stack: seq<nat>, owed: seq<seq<C>>, w: World<S, T>)
    requires 0 < cur <= |p.ops| == |owed| == |w.states| && !w.stopped && owed[cur - 1] == []
    requires Suspended(|p.ops|, stack, owed, cur) && p.ops[cur - 1](w.states[cur - 1], c).Finished?
    ensures var s := p.ops[cur - 1](w.states[cur - 1], c).state;
            Ahead(p, cur, c, stack, owed, w) == Called(w).(states := w.states[cur - 1 := s], stopped := true)
  {
  }

  lemma SuspendedAfter<C>(n: nat, stack: seq<nat>, owed: seq<seq<C>>, cur: nat, rest: seq<C>)
    requires 0 < cur <= n && Suspended(n, stack, owed, cur)
    ensures rest != [] ==> Suspended(n, stack + [cur], owed[cur - 1 := rest], cur + 1)
    ensures rest == [] ==>
            Suspended(n, stack, owed[cur - 1 := rest], cur + 1) && Suspended(n, stack, owed[cur - 1 := rest], n + 1)
    ensures cur < n ==> owed[cur] == []
  {
    var owed' := owed[cur - 1 := rest];
    var stack' := if rest != [] then stack + [cur] else stack;
    forall k | 0 <= k < n ensures owed'[k] != [] <==> k + 1 in stack' {
      if k + 1 != cur {
        assert owed[k] != [] <==> k + 1 in stack;
      }
    }
    if cur < n {
      assert owed[cur] != [] <==> cur + 1 in stack;
    }
  }

  /** The input chunk of every suspended operator is what it was given. */
  ghost predicate InputsKept<C>(stack: seq<nat>, chunks: seq<C>, given: seq<C>) {
    forall k | k in stack :: 0 < k <= |chunks| && k <= |given| && chunks[k - 1] == given[k - 1]
  }

  /** Writing boundary `cur` leaves the inputs of operators up to `cur` alone. */
  lemma KeptAfter<C>(n: nat, stack: seq<nat>, owed: seq<seq<C>>, chunks: seq<C>, given: seq<C>, given': seq<C>,
          cur: nat, output: C)
    requires 0 < cur <= n && Suspended(n, stack, owed, cur) && InputsKept(stack, chunks, given)
    requires |given| == |given'| == n && |chunks| == n + 1 && given'[cur - 1] == chunks[cur - 1]
    requires forall j | 0 <= j < n && j != cur - 1 :: given'[j] == given[j]
    ensures InputsKept(stack, chunks[cur := output], given') && InputsKept(stack + [cur], chunks[cur := output], given')
  {
    forall k | k in stack ensures chunks[cur := output][k - 1] == given'[k - 1] {
      var i :| 0 <= i < |stack| && stack[i] == k;
    }
  }

  /** Everything a call changes, and the work ahead staying the same. */
  lemma AdvanceFacts<S, C, T>(p: Chain<S, C, T>, cur: nat, chunks: seq<C>, stack: seq<nat>, owed: seq<seq<C>>,
          given: seq<C>, w: World<S, T>, output: C, rest: seq<C>, given': seq<C>, w1: World<S, T>)
    requires 0 < cur <= |p.ops| == |owed| == |w.states| == |given| == |given'| && |chunks| == |p.ops| + 1 && !w.stopped
    requires Suspended(|p.ops|, stack, owed, cur) && InputsKept(stack, chunks, given)
    requires given' == given[cur - 1 := chunks[cur - 1]]
    requires Answers(p, cur, chunks[cur - 1], owed, w, [output] + rest, w1) && (rest != [] ==> p.has(output))
    ensures var owed' := owed[cur - 1 := rest];
            var stack' := if rest != [] then stack + [cur] else stack;
            && Suspended(|p.ops|, stack', owed', if p.has(output) then cur + 1 else |p.ops| + 1)
            && InputsKept(stack', chunks[cur := output], given')
            && Ahead(p, cur, chunks[cur - 1], stack, owed, w) ==
               (if p.has(output) then Ahead(p, cur + 1, output, stack', owed', Called(w1))
                 else Resume(p, stack', owed', Called(w1)))
            && (cur < |p.ops| ==> owed'[cur] == [])
  {
    hide Resume, Down, DownAll;
    AnswerWork(p, cur, chunks[cur - 1], stack, owed, w, [output] + rest, w1);
    assert ([output] + rest)[1..] == rest;
    SuspendedAfter(|p.ops|, stack, owed, cur, rest);
    KeptAfter(|p.ops|, stack, owed, chunks, given, given', cur, output);
  }
}
