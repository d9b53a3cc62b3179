/** How many checkpoints the loop can record. */
module CheckpointCadence {
  import opened Worklist

  predicate Paced<A, E>(c: Config, e: Env<A, E>) {
    && e.prevInsns <= e.insns && e.prevJmps <= e.jmps
    && |e.ckpts| <= e.insns && (|e.ckpts| <= c.Limit() || (e.failed && |e.ckpts| == c.Limit() + 1))
    && (c.Sparse() ==> 8 * e.unforced <= e.prevInsns && 2 * e.unforced <= e.prevJmps)
  }

  lemma ExpandedKeepsPace<A, E>(p: Program, c: Config, o: Oracle<A, E>, e: Env<A, E>, s: State<A>)
    requires e.prevInsns <= e.insns && e.prevJmps <= e.jmps && |e.ckpts| <= e.insns && |e.ckpts| <= c.Limit() + 1
    requires c.Sparse() ==> 8 * e.unforced <= e.prevInsns && 2 * e.unforced <= e.prevJmps
    ensures Paced(c, Expanded(p, c, o, e, s).env)
  {
    hide Complete;
  }

  lemma ProcessKeepsPace<A, E>(p: Program, c: Config, o: Oracle<A, E>, e: Env<A, E>, s: State<A>)
    requires Paced(c, e) && !e.failed
    ensures Paced(c, Process(p, c, o, e, s).env)
  {
    hide Complete, Expanded;
    var s1 := Arrived(p, o, s);
    var e1 := e.(arrivals := e.arrivals + [s1]);
    var k := Looked(p, c, o, e1, s1);
    if s1.pc !in p.invalid && !k.prune {
      var r := Checkpointed(p, c, k.env, k.state, k.active);
      ExpandedKeepsPace(p, c, o, r.env, r.succs[0]);
    }
  }

  lemma {:induction false} TurnsKeepPace<A, E>(p: Program, c: Config, o: Oracle<A, E>, l: Loop<A, E>, n: nat)
    requires Paced(c, l.env)
    ensures Paced(c, Turns(p, c, o, l, n).env)
    decreases n
  {
    hide Process, Pushed;
    if n > 0 && Live(l) {
      ProcessKeepsPace(p, c, o, l.env, l.pending[|l.pending| - 1]);
      TurnsKeepPace(p, c, o, Turn(p, c, o, l), n - 1);
    }
  }

  /**
   At every loop head of every run: never more checkpoints than instructions looked at, at most
   one more than the complexity limit, and with sparse caching the checkpoints that no rule forced
   are at most an eighth of the instructions and half of the jumps processed.
   */
  lemma CheckpointsAreBounded<A, E>(p: Program, c: Config, o: Oracle<A, E>, aux: E, s: State<A>, n: nat)
    ensures var e := Turns(p, c, o, Start(aux, s), n).env;
            && |e.ckpts| <= e.insns && |e.ckpts| <= c.Limit() + 1
            && (c.Sparse() ==> e.unforced <= e.insns / 8 && e.unforced <= e.jmps / 2)
  {
    TurnsKeepPace(p, c, o, Start(aux, s), n);
  }
}
