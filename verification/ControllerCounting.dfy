/**
 What the input counters mean.  Records pass from `flushed` to `total_input_records` to
 `buffered_input_records`, in that order, and `consume_buffered_inputs` moves them on.
 */
module ControllerCounting {
  import opened ControllerModel
  import opened Sums

  /** Flushed by the probe, not yet in `total_input_records`. */
  function Untotalled(p: Probe): nat {
    if p.pc.AddingTotal? then p.pc.n else 0
  }

  /** In `total_input_records`, not yet in `buffered_input_records`. */
  function Uncounted(p: Probe): nat {
    if p.pc.AddingBuffered? then p.pc.n else 0
  }

  function AllUntotalled(ins: seq<Probe>): seq<nat> {
    seq(|ins|, e requires 0 <= e < |ins| => Untotalled(ins[e]))
  }

  function AllUncounted(ins: seq<Probe>): seq<nat> {
    seq(|ins|, e requires 0 <= e < |ins| => Uncounted(ins[e]))
  }

  function AllOwn(ins: seq<Probe>): seq<nat> {
    seq(|ins|, e requires 0 <= e < |ins| => ins[e].own)
  }

  /** Between the reset of the global counter and the return of the circuit step. */
  predicate ResetInProgress(pc: CircuitPc) {
    pc.ResettingEndpoints? || pc.ReadingTotal? || pc.WakingBackpressureThread? || pc.CallingStep? || pc.Stepping?
  }

  ghost predicate InputsCounted(g: Shared, ins: seq<Probe>, past: Past) {
    && past.flushed == g.total + Sum(AllUntotalled(ins))
    && g.total == past.drained + g.buffered + Sum(AllUncounted(ins))
    && g.buffered == Sum(AllOwn(ins))
  }

  ghost predicate ResetsCounted(g: Shared, t: Circuit, past: Past) {
    && past.resets <= past.drained
    && past.resets == |past.steps| + (if ResetInProgress(t.pc) then 1 else 0)
    && (t.armed ==> g.buffered > 0)
    && (t.pc.ResettingGlobal? ==> g.buffered > 0 && !t.armed)
  }

  ghost predicate Counting(s: State) {
    InputsCounted(s.shared, s.ins, s.past) && ResetsCounted(s.shared, s.circuit, s.past)
  }

  lemma UpdateSums(ins: seq<Probe>, e: nat, p: Probe)
    requires e < |ins|
    ensures Sum(AllUntotalled(ins[e := p])) == Sum(AllUntotalled(ins)) - Untotalled(ins[e]) + Untotalled(p)
    ensures Sum(AllUncounted(ins[e := p])) == Sum(AllUncounted(ins)) - Uncounted(ins[e]) + Uncounted(p)
    ensures Sum(AllOwn(ins[e := p])) == Sum(AllOwn(ins)) - ins[e].own + p.own
  {
    assert AllUntotalled(ins[e := p]) == AllUntotalled(ins)[e := Untotalled(p)];
    assert AllUncounted(ins[e := p]) == AllUncounted(ins)[e := Uncounted(p)];
    assert AllOwn(ins[e := p]) == AllOwn(ins)[e := p.own];
    SumUpdate(AllUntotalled(ins), e, Untotalled(p));
    SumUpdate(AllUncounted(ins), e, Uncounted(p));
    SumUpdate(AllOwn(ins), e, p.own);
  }

  lemma MarkResetsSums(ins: seq<Probe>)
    ensures Sum(AllUntotalled(MarkResets(ins))) == Sum(AllUntotalled(ins))
    ensures Sum(AllUncounted(MarkResets(ins))) == Sum(AllUncounted(ins))
    ensures Sum(AllOwn(MarkResets(ins))) == 0
  {
    assert AllUntotalled(MarkResets(ins)) == AllUntotalled(ins);
    assert AllUncounted(MarkResets(ins)) == AllUncounted(ins);
    SumZero(AllOwn(MarkResets(ins)));
  }

  lemma CountingInit(c: Config, s: State)
    requires Init(c, s)
    ensures Counting(s)
  {
    SumZero(AllUntotalled(s.ins));
    SumZero(AllUncounted(s.ins));
    SumZero(AllOwn(s.ins));
  }

  lemma ProbeCounted(c: Config, g: Shared, ins: seq<Probe>, past: Past, e: nat, max: nat)
    requires e < |ins| && InputsCounted(g, ins, past)
    ensures InputsCounted(ProbeShared(g, ins[e].pc), ins[e := ProbeMove(c, g.buffered, max, ins[e])], past)
  {
    ProbeMoves(c, g, max, ins[e]);
    UpdateSums(ins, e, ProbeMove(c, g.buffered, max, ins[e]));
  }

  /** What an access of a probe takes from one place it adds to the next. */
  lemma ProbeMoves(c: Config, g: Shared, max: nat, p: Probe)
    ensures var g', p' := ProbeShared(g, p.pc), ProbeMove(c, g.buffered, max, p);
            && g'.total + Untotalled(p') == g.total + Untotalled(p)
            && g'.total - g'.buffered - Uncounted(p') == g.total - g.buffered - Uncounted(p)
            && g'.buffered - p'.own == g.buffered - p.own
  {
  }

  lemma ResetCounted(g: Shared, ins: seq<Probe>, past: Past)
    requires InputsCounted(g, ins, past)
    ensures InputsCounted(g.(buffered := 0), MarkResets(ins),
                          past.(drained := past.drained + g.buffered, resets := past.resets + 1))
  {
    MarkResetsSums(ins);
  }
}
