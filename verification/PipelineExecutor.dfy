/** How one task pulls every chunk of its source through the operators into the sink, coming back to an
    operator that has more to give. */
module PipelineRun {
  import opened PipelineChain

  datatype OperatorResult = NEED_MORE_INPUT | HAVE_MORE_OUTPUT | FINISHED

  class PipelineExecutor<S(!new), C(!new), T(!new)> {
    const p: Chain<S, C, T>
    /** `owed[k]` is what operator k+1 has computed and not yet handed out for the chunk `given[k]`. */
    var states: seq<S>
    var owed: seq<seq<C>>
    var given: seq<C>
    /** `chunks[k]` is the chunk at boundary k: the source's, then each operator's output. */
    var chunks: seq<C>
    var inProcess: seq<nat>
    var sinkState: T
    var source: seq<C>
    ghost var calls: nat
    /** An empty chunk. */
    const blank: C

    constructor (p: Chain<S, C, T>, states: seq<S>, sinkState: T, source: seq<C>, blank: C)
      requires ChainOk(p) && |states| == |p.ops| && !p.has(blank)
      ensures this.p == p && this.states == states && this.sinkState == sinkState && this.source == source
      ensures Idle() && calls == 0 && this.blank == blank
    {
      this.p, this.states, this.sinkState, this.source, this.blank := p, states, sinkState, source, blank;
      owed, given := seq(|p.ops|, _ => []), seq(|p.ops|, _ => blank);
      chunks, inProcess, calls := seq(|p.ops| + 1, _ => blank), [], 0;
    }

    /** No operator is suspended. */
    ghost predicate Idle()
      reads this
    {
      Parked(|p.ops| + 1) && inProcess == [] && !p.has(blank)
    }

    ghost predicate Shape()
      reads this
    {
      |states| == |owed| == |given| == |p.ops| && |chunks| == |p.ops| + 1 && OwedOk(p.has, owed) && ChainOk(p)
    }

    /** The suspended operators are below `cur`, and the input chunk of each is still what it was given. */
    ghost predicate Parked(cur: nat)
      reads this
    {
      && Shape() && Suspended(|p.ops|, inProcess, owed, cur)
      && InputsKept(inProcess, chunks, given)
    }

    ghost function Now(stopped: bool): World<S, T>
      reads this
    {
      World(states, sinkState, stopped, calls)
    }

    /** Call operator `k` on the chunk at boundary k-1. A suspended operator goes on with the chunk it was
        given. */
    method Call(k: nat) returns (output: C, result: OperatorResult)
      requires Shape() && 0 < k <= |p.ops|
      requires owed[k - 1] != [] ==> chunks[k - 1] == given[k - 1]
      modifies this`states, this`owed, this`given, this`calls
      ensures Shape() && calls == old(calls) + 1
      ensures owed == old(owed)[k - 1 := owed[k - 1]] && given == old(given)[k - 1 := chunks[k - 1]]
      ensures result == FINISHED <==>
                old(owed)[k - 1] == [] && p.ops[k - 1](old(states)[k - 1], chunks[k - 1]).Finished?
      ensures result == FINISHED ==>
                owed == old(owed) &&
                  states == old(states)[k - 1 := p.ops[k - 1](old(states)[k - 1], chunks[k - 1]).state]
      ensures result != FINISHED ==>
                && Answers(p, k, chunks[k - 1], old(owed), old(Now(false)), [output] +
                   owed[k - 1], old(Now(false)).(states := states))
                && result == (if owed[k - 1] != [] then HAVE_MORE_OUTPUT else NEED_MORE_INPUT)
      ensures result == HAVE_MORE_OUTPUT ==> p.has(output)
    {
      calls := calls + 1;
      if owed[k - 1] == [] {
        given := given[k - 1 := chunks[k - 1]];
        var reply := p.ops[k - 1](states[k - 1], chunks[k - 1]);
        states := states[k - 1 := reply.state];
        match reply
        case Finished(_) => return chunks[k - 1], FINISHED;
        case Outs(cs, _) =>
          output := cs[0];
          owed := owed[k - 1 := cs[1..]];
      } else {
        output := owed[k - 1][0];
        owed := owed[k - 1 := owed[k - 1][1..]];
      }
      result := if owed[k - 1] != [] then HAVE_MORE_OUTPUT else NEED_MORE_INPUT;
    }

    /** The world the work ahead leads to when operator `cur` is next. */
    ghost function Goal(cur: nat): World<S, T>
      requires 0 < cur <= |p.ops| + 1 && Parked(cur)
      reads this
    {
      Ahead(p, cur, chunks[cur - 1], inProcess, owed, Now(false))
    }

    /** Take the innermost suspended operator. */
    method GoToSource() returns (cur: nat)
      requires Parked(|p.ops| + 1) && inProcess != []
      modifies this`inProcess
      ensures 0 < cur <= |p.ops| && Parked(cur) && owed[cur - 1] != [] && chunks[cur - 1] == given[cur - 1]
      ensures Goal(cur) == Resume(p, old(inProcess), owed, Now(false))
    {
      cur := inProcess[|inProcess| - 1];
      assert cur in inProcess && owed[cur - 1] != [];
      inProcess := inProcess[..|inProcess| - 1];
      assert forall k | k in inProcess :: k in old(inProcess);
    }

    /** Operator `cur` runs; what it answers goes to the next boundary, and it is suspended if it owes
        more. */
    method Advance(cur: nat) returns (result: OperatorResult)
      requires 0 < cur <= |p.ops| && Parked(cur)
      requires owed[cur - 1] != [] ==> chunks[cur - 1] == given[cur - 1]
      modifies this`states, this`owed, this`given, this`calls, this`chunks, this`inProcess
      ensures calls == old(calls) + 1 && |chunks| == |old(chunks)| && chunks == old(chunks)[cur := chunks[cur]]
      ensures result == FINISHED ==> Shape() && old(Goal(cur)) == Now(true)
      ensures result != FINISHED && p.has(chunks[cur]) ==>
                Parked(cur + 1) && old(Goal(cur)) == Goal(cur + 1) && (cur < |p.ops| ==> owed[cur] == [])
      ensures result != FINISHED && !p.has(chunks[cur]) ==>
                Parked(|p.ops| + 1) && old(Goal(cur)) == Resume(p, inProcess, owed, Now(false))
    {
      hide Resume, DownAll, Down, Ahead, OwedOk, InputsKept, ChainOk, Answers, Suspended;
      ghost var w, stack, owed0, given0 := Now(false), inProcess, owed, given;
      var output;
      output, result := Call(cur);
      if result == FINISHED {
        FinishedWork(p, cur, chunks[cur - 1], stack, owed0, w);
        return;
      }
      AdvanceFacts(p, cur, chunks, stack, owed0, given0, w, output, owed[cur - 1], given, w.(states := states));
      chunks := chunks[cur := output];
      if result == HAVE_MORE_OUTPUT {
        inProcess := inProcess + [cur];
      }
    }

    /** What is left once the last operator's output, if any, has been taken. */
    ghost function Left(): World<S, T>
      requires Parked(|p.ops| + 1)
      reads this
    {
      Resume(p, inProcess, owed, if p.has(chunks[|p.ops|]) then Down(p, |p.ops|, chunks[|p.ops|], Now(false))
        else Now(false))
    }

    /** Run the chain until it yields a chunk for the sink or has nothing left for this input. */
    method Execute(ghost goal: World<S, T>) returns (result: OperatorResult)
      requires |p.ops| > 0 && Parked(|p.ops| + 1) && !p.has(chunks[|p.ops|])
      requires goal == if inProcess == [] then Down(p, 0, chunks[0], Now(false))
               else Resume(p, inProcess, owed, Now(false))
      modifies this`states, this`owed, this`given, this`calls, this`chunks, this`inProcess
      ensures calls > old(calls) && |chunks| == |old(chunks)| && chunks[0] == old(chunks)[0]
      ensures result == FINISHED ==> Shape() && goal == Now(true)
      ensures result != FINISHED ==> Parked(|p.ops| + 1) && goal == Left()
      ensures result != FINISHED ==> (result == NEED_MORE_INPUT <==> inProcess == [])
    {
      hide Resume, DownAll, Down, Suspended, InputsKept, OwedOk, ChainOk;
      var cur: nat;
      if inProcess != [] {
        cur := GoToSource();
      } else {
        cur := 1;
        StartFresh(p, owed, chunks[0], Now(false));
      }
      while cur <= |p.ops|
        invariant 0 < cur <= |p.ops| + 1 && Parked(cur) && goal == Goal(cur)
        invariant cur <= |p.ops| ==>
                  !p.has(chunks[|p.ops|]) && (owed[cur - 1] != [] ==> chunks[cur - 1] == given[cur - 1])
        invariant cur > |p.ops| ==> p.has(chunks[|p.ops|])
        invariant |chunks| == |old(chunks)| && chunks[0] == old(chunks)[0]
        invariant calls >= old(calls) && (cur > |p.ops| ==> calls > old(calls))
        decreases goal.calls - calls, |p.ops| + 1 - cur
      {
        CallsLeft(p, cur, chunks[cur - 1], inProcess, owed, Now(false));
        result := Advance(cur);
        if result == FINISHED {
          return;
        }
        if !p.has(chunks[cur]) {
          if inProcess == [] {
            ResumeNothing(p, owed, Now(false));
            return NEED_MORE_INPUT;
          }
          cur := GoToSource();
        } else {
          cur := cur + 1;
        }
      }
      result := if inProcess == [] then NEED_MORE_INPUT else HAVE_MORE_OUTPUT;
    }

    /** Hand a chunk to the sink. */
    method Sink(c: C) returns (full: bool)
      requires Shape()
      modifies this`sinkState
      ensures Down(p, |p.ops|, c, old(Now(false))) == Now(full)
    {
      var r := p.sink(sinkState, c);
      sinkState, full := r.0, r.1;
    }

    /** Push the source chunk through the chain until it is used up or someone has finished. */
    method ExecutePush(ghost goal: World<S, T>) returns (finished: bool)
      requires Parked(|p.ops| + 1) && !p.has(blank) && (|p.ops| == 0 ==> inProcess == [])
      requires goal == if inProcess == [] then Down(p, 0, chunks[0], Now(false))
               else Resume(p, inProcess, owed, Now(false))
      modifies this`states, this`owed, this`given, this`calls, this`chunks, this`inProcess, this`sinkState
      ensures goal == Now(finished) && |chunks| == |old(chunks)| && Shape()
      ensures !finished ==> Idle()
    {
      hide Resume, DownAll, Down, InputsKept, OwedOk, ChainOk;
      if |p.ops| == 0 {
        finished := Sink(chunks[0]);
        return;
      }
      ResumeCalls(p, inProcess, owed, chunks[0], Now(false));
      while true
        invariant Parked(|p.ops| + 1) && !p.has(blank) && |chunks| == |old(chunks)|
        invariant goal == if inProcess == [] then Down(p, 0, chunks[0], Now(false))
                  else Resume(p, inProcess, owed, Now(false))
        invariant goal.calls >= calls
        decreases goal.calls - calls
      {
        LastBoundary(|p.ops|, inProcess, owed, chunks, given, blank);
        chunks := chunks[|p.ops| := blank];
        var result := Execute(goal);
        if result == FINISHED {
          return true;
        }
        LeftCalls(p, inProcess, owed, Now(false), chunks[|p.ops|]);
        if p.has(chunks[|p.ops|]) {
          finished := Sink(chunks[|p.ops|]);
          if finished {
            ResumeStopped(p, inProcess, owed, Now(true));
            return;
          }
        }
        if result == NEED_MORE_INPUT {
          ResumeNothing(p, owed, Now(false));
          return false;
        }
      }
    }

    /** The next source chunk; the source may say it is exhausted along with its last chunk or only when
        asked again. */
    method FetchFromSource(eager: bool) returns (c: C, exhausted: bool)
      modifies this`source
      ensures old(source) == [] ==> c == blank && exhausted && source == []
      ensures old(source) != [] ==> c == old(source)[0] && source == old(source)[1..] && (exhausted ==> source == [])
    {
      if source == [] {
        return blank, true;
      }
      c, source := source[0], source[1..];
      exhausted := eager && source == [];
    }

    /** Drain the source. The sink and the operators end as if each source chunk had been pushed through
        the composed operators in turn, until someone finished. */
    method Run(eager: bool) returns (finished: bool)
      requires Idle()
      modifies this`states, this`owed, this`given, this`calls, this`chunks, this`inProcess, this`sinkState, this`source
      ensures Now(finished) == Pour(p, old(source), old(Now(false)))
    {
      hide Resume, DownAll, Down, Suspended, InputsKept, OwedOk, ChainOk;
      finished := false;
      var exhausted := false;
      ghost var goal := Pour(p, source, Now(false));
      while !finished
        invariant Shape() && (!finished ==> Idle())
        invariant goal == if finished then Now(true) else Pour(p, source, Now(false))
        invariant exhausted ==> source == []
        decreases !finished, |source|, !exhausted
      {
        if exhausted {
          break;
        }
        var c, end := FetchFromSource(eager);
        exhausted := end;
        SourceBoundary(owed, chunks, given, c);
        chunks := chunks[0 := c];
        if p.has(c) {
          ghost var next := Down(p, 0, c, Now(false));
          finished := ExecutePush(next);
        }
      }
    }
  }

  lemma StartFresh<S, C, T>(p: Chain<S, C, T>, owed: seq<seq<C>>, c: C, w: World<S, T>)
    requires 0 < |p.ops| == |owed| == |w.states| && Suspended(|p.ops|, [], owed, |p.ops| + 1)
    ensures Suspended(|p.ops|, [], owed, 1) && Ahead(p, 1, c, [], owed, w) == Down(p, 0, c, w) && owed[0] == []
  {
    assert owed[0] == [];
  }

  /** At least one call is ahead when an operator is next. */
  lemma CallsLeft<S, C, T>(p: Chain<S, C, T>, cur: nat, c: C, stack: seq<nat>, owed: seq<seq<C>>, w: World<S, T>)
    requires 0 < cur <= |p.ops| == |owed| == |w.states| && Suspended(|p.ops|, stack, owed, cur)
    ensures Ahead(p, cur, c, stack, owed, w).calls >= w.calls
  {
  }

  lemma ResumeCalls<S, C, T>(p: Chain<S, C, T>, stack: seq<nat>, owed: seq<seq<C>>, c: C, w: World<S, T>)
    requires |p.ops| == |owed| == |w.states| && Suspended(|p.ops|, stack, owed, |p.ops| + 1)
    ensures Resume(p, stack, owed, w).calls >= w.calls && Down(p, 0, c, w).calls >= w.calls
  {
  }

  lemma LeftCalls<S, C, T>(p: Chain<S, C, T>, stack: seq<nat>, owed: seq<seq<C>>, w: World<S, T>, c: C)
    requires |p.ops| == |owed| == |w.states| && Suspended(|p.ops|, stack, owed, |p.ops| + 1)
    ensures forall i | 0 <= i < |stack| :: 0 < stack[i] <= |p.ops|
    ensures Resume(p, stack, owed, w).calls >= w.calls &&
            Resume(p, stack, owed, Down(p, |p.ops|, c, w)).calls >= w.calls
  {
  }

  /** No operator reads the last boundary. */
  lemma LastBoundary<C>(n: nat, stack: seq<nat>, owed: seq<seq<C>>, chunks: seq<C>, given: seq<C>, c: C)
    requires Suspended(n, stack, owed, n + 1) && |chunks| == n + 1 && InputsKept(stack, chunks, given)
    ensures InputsKept(stack, chunks[n := c], given)
  {
    forall k | k in stack ensures chunks[n := c][k - 1] == chunks[k - 1] {
      var i :| 0 <= i < |stack| && stack[i] == k;
    }
  }

  lemma SourceBoundary<C>(owed: seq<seq<C>>, chunks: seq<C>, given: seq<C>, c: C)
    requires |chunks| > 0
    ensures InputsKept([], chunks[0 := c], given)
  {
  }

  /** Each source chunk in turn goes down the whole chain. */
  function Pour<S, C, T>(p: Chain<S, C, T>, source: seq<C>, w: World<S, T>): World<S, T>
    requires |w.states| == |p.ops|
  {
    if w.stopped || source == [] then w
    else Pour(p, source[1..], if p.has(source[0]) then Down(p, 0, source[0], w) else w)
  }

  lemma ResumeNothing<S, C, T>(p: Chain<S, C, T>, owed: seq<seq<C>>, w: World<S, T>)
    requires |owed| == |p.ops| == |w.states|
    ensures Resume(p, [], owed, w) == w
  {
  }

  // ---------------------------------------------------------------- plain operators

  /** What chunk `c` at boundary k becomes under operators without state: the depth-first concatenation
      of the composed outputs. */
  function Flat<C>(fs: seq<C -> seq<C>>, has: C -> bool, k: nat, c: C): seq<C>
    requires k <= |fs|
    decreases |fs| - k, 1, 0
  {
    if k == |fs| then [c] else FlatAll(fs, has, k + 1, fs[k](c))
  }

  function FlatAll<C>(fs: seq<C -> seq<C>>, has: C -> bool, k: nat, cs: seq<C>): seq<C>
    requires k <= |fs|
    decreases |fs| - k, 2, |cs|
  {
    if cs == [] then []
    else (if has(cs[0]) then Flat(fs, has, k, cs[0]) else []) + FlatAll(fs, has, k, cs[1..])
  }

  /** Operators without state that never refuse input, and a sink that collects chunks. */
  ghost predicate Collecting<S(!new), C(!new)>(p: Chain<S, C, seq<C>>, fs: seq<C -> seq<C>>) {
    && |fs| == |p.ops|
    && (forall k, s, c {:trigger p.ops[k](s, c)} | 0 <= k < |fs| :: p.ops[k](s, c) == Outs(fs[k](c), s))
    && (forall t, c {:trigger p.sink(t, c)} :: p.sink(t, c) == (t + [c], false))
  }

  lemma {:induction false} DownCollects<S(!new), C(!new)>(p: Chain<S, C, seq<C>>, fs: seq<C -> seq<C>>, k: nat, c: C,
          w: World<S, seq<C>>)
    requires Collecting(p, fs) && k <= |p.ops| == |w.states| && !w.stopped
    ensures var w' := Down(p, k, c, w);
            w'.states == w.states && !w'.stopped && w'.sink == w.sink + Flat(fs, p.has, k, c)
    decreases |p.ops| - k, 1, 0
  {
    if k < |p.ops| {
      assert w.states[k := w.states[k]] == w.states;
      DownAllCollects(p, fs, k + 1, fs[k](c), w);
    }
  }

  lemma {:induction false} DownAllCollects<S(!new), C(!new)>(p: Chain<S, C, seq<C>>, fs: seq<C -> seq<C>>, k: nat,
          cs: seq<C>, w: World<S, seq<C>>)
    requires Collecting(p, fs) && k <= |p.ops| == |w.states| && !w.stopped
    ensures var w' := DownAll(p, k, cs, w);
            w'.states == w.states && !w'.stopped && w'.sink == w.sink + FlatAll(fs, p.has, k, cs)
    decreases |p.ops| - k, 2, |cs|
  {
    if cs != [] {
      var w1 := if p.has(cs[0]) then Down(p, k, cs[0], Called(w)) else Called(w);
      if p.has(cs[0]) {
        DownCollects(p, fs, k, cs[0], Called(w));
      }
      DownAllCollects(p, fs, k, cs[1..], w1);
    }
  }

  /** With such operators the sink ends with exactly the composed outputs of every source chunk, in order,
      none lost or repeated. */
  lemma {:induction false} PourCollects<S(!new), C(!new)>(p: Chain<S, C, seq<C>>, fs: seq<C -> seq<C>>, source: seq<C>,
          w: World<S, seq<C>>)
    requires Collecting(p, fs) && |p.ops| == |w.states| && !w.stopped
    ensures var w' := Pour(p, source, w); !w'.stopped && w'.sink == w.sink + FlatAll(fs, p.has, 0, source)
  {
    if source != [] {
      var w1 := if p.has(source[0]) then Down(p, 0, source[0], w) else w;
      if p.has(source[0]) {
        DownCollects(p, fs, 0, source[0], w);
      }
      PourCollects(p, fs, source[1..], w1);
    }
  }
}
