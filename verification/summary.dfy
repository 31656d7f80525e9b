/** The totals and the verdict over the workers. */
module Summary {
  import opened Base
  import opened Protocol
  import opened ProtocolCounts
  import opened ProtocolPhases
  import opened ProtocolTotals

  function ErrorOf(w: Worker): int { if w.failed then 1 else 0 }

  lemma {:induction false} FailuresAreErrors(ws: seq<Worker>)
    ensures FailureCount(ws) == Sum(ws, ErrorOf)
  {
    if ws == [] {
    } else {
      FailuresAreErrors(ws[1..]);
    }
  }

  lemma TakeOneMore<T>(xs: seq<T>, i: nat, f: T -> int)
    requires i < |xs|
    ensures Sum(xs[..i + 1], f) == Sum(xs[..i], f) + f(xs[i])
  {
    SumAppend(xs[..i], xs[i], f);
    assert xs[..i + 1] == xs[..i] + [xs[i]];
  }

  /** A worker's wall time in each direction; the clock is an input. */
  datatype Timing = Timing(enc: nat, dec: nat)

  function EncTime(t: Timing): int { t.enc }
  function DecTime(t: Timing): int { t.dec }

  datatype Totals = Totals(
    iters: nat, bytesEnc: nat, bytesDec: nat, nanosEnc: nat, nanosDec: nat, errors: nat, code: nat)

  ghost predicate TotalsOf(ws: seq<Worker>, ts: seq<Timing>, t: Totals) {
    && t.iters == Sum(ws, ItersBy) && t.bytesEnc == Sum(ws, BytesEncBy) && t.bytesDec == Sum(ws, BytesDecBy)
    && t.nanosEnc == Sum(ts, EncTime) && t.nanosDec == Sum(ts, DecTime)
    && t.errors == FailureCount(ws)
    && t.code == if forall i :: 0 <= i < |ws| ==> !ws[i].failed then 0 else 1
  }

  /** Adds every worker's counters up; the code is 0 exactly when no worker
      recorded an error. */
  method FinalSummary(ws: seq<Worker>, ts: seq<Timing>) returns (t: Totals)
    requires |ts| == |ws|
    ensures TotalsOf(ws, ts, t)
  {
    var iters, bytesEnc, bytesDec, nanosEnc, nanosDec, errors := 0, 0, 0, 0, 0, 0;
    for i := 0 to |ws|
      invariant iters == Sum(ws[..i], ItersBy)
      invariant bytesEnc == Sum(ws[..i], BytesEncBy) && bytesDec == Sum(ws[..i], BytesDecBy)
      invariant nanosEnc == Sum(ts[..i], EncTime) && nanosDec == Sum(ts[..i], DecTime)
      invariant errors == Sum(ws[..i], ErrorOf)
      invariant 0 <= iters && 0 <= bytesEnc && 0 <= bytesDec && 0 <= nanosEnc && 0 <= nanosDec && 0 <= errors
    {
      TakeOneMore(ws, i, ItersBy);
      TakeOneMore(ws, i, BytesEncBy);
      TakeOneMore(ws, i, BytesDecBy);
      TakeOneMore(ws, i, ErrorOf);
      TakeOneMore(ts, i, EncTime);
      TakeOneMore(ts, i, DecTime);
      var w := ws[i];
      iters := iters + w.tally.iters;
      bytesEnc := bytesEnc + w.tally.bytesEnc;
      bytesDec := bytesDec + w.tally.bytesDec;
      nanosEnc := nanosEnc + ts[i].enc;
      nanosDec := nanosDec + ts[i].dec;
      if w.failed {
        errors := errors + 1;
      }
    }
    assert ws[..|ws|] == ws && ts[..|ts|] == ts;
    FailuresAreErrors(ws);
    NoFailures(ws);
    t := Totals(iters, bytesEnc, bytesDec, nanosEnc, nanosDec, errors, if errors == 0 then 0 else 1);
  }

  /** What the summary reports of a run besides the totals. */
  datatype Report = Report(totals: Totals, elapsed: int, rekeys: nat, cycles: nat)

  /** At the point where run calls it, the summary reports the run's own record: byte
      totals of payload times iterations, an elapsed time that is not negative, and
      the code main goes on to exit with, which is 0 exactly when no worker failed; in
      a failure-free run the rekeys and reopens are those the intervals call for. */
  method RunSummary(cfg: Config, s: State, ts: seq<Timing>) returns (r: Report)
    requires Reachable(cfg, s) && s.board.main.Summary? && |ts| == |s.ws|
    ensures TotalsOf(s.ws, ts, r.totals)
    ensures r.totals.bytesEnc == r.totals.bytesDec == r.totals.iters * cfg.payload
    ensures r.totals.code == 0 <==> FailureFree(s)
    ensures forall c :: MainStep(cfg, s, c).board.main == Teardown(r.totals.code)
    ensures r.elapsed == s.board.finishNs - s.board.startNs && 0 <= r.elapsed
    ensures r.rekeys == Sum(s.ws, RekeyedBy) && r.cycles == Sum(s.ws, CycledBy)
    ensures FailureFree(s) ==>
      r.rekeys == Sum(s.ws, ExpectedRekeys(cfg)) && r.cycles == Sum(s.ws, ExpectedCycles(cfg))
  {
    var t := FinalSummary(s.ws, ts);
    RunFacts(cfg, s);
    hide Reachable;
    r := Report(t, s.board.finishNs - s.board.startNs, s.rekeys, s.cycles);
  }

  lemma RunFacts(cfg: Config, s: State)
    requires Reachable(cfg, s) && s.board.main.Summary?
    ensures Sum(s.ws, BytesEncBy) == Sum(s.ws, BytesDecBy) == Sum(s.ws, ItersBy) * cfg.payload
    ensures s.board.startNs <= s.board.finishNs
    ensures s.rekeys == Sum(s.ws, RekeyedBy) && s.cycles == Sum(s.ws, CycledBy)
    ensures FailureFree(s) ==>
      s.rekeys == Sum(s.ws, ExpectedRekeys(cfg)) && s.cycles == Sum(s.ws, ExpectedCycles(cfg))
    ensures forall c :: MainStep(cfg, s, c).board.main == Teardown(if FailureFree(s) then 0 else 1)
  {
    BytesAddUp(cfg, s);
    ActiveCountsWorkers(cfg, s);
    SharedCounters(cfg, s);
    NoFailures(s.ws);
    if FailureFree(s) { OpsAddUp(cfg, s); }
    hide Reachable;
  }
}
