/** The per-worker state of the stage-skip path and the code that updates it
    (src/app.cpp, `WorkerLlmInference`): the phase resets made while a control
    packet is read, the delta norm taken against the previous activation row,
    and the accept / reject / forced-full decision of the stage before the target. */
module SkipDecision {
  import opened Common

  type Vec = seq<int>

  /** The fields of `LlmControlPacket` that change from one packet to the next. */
  datatype Packet = Packet(position: nat, batchSize: nat, decode: bool)

  /** The stage-skip fields of the control packet; they are fixed for a session. */
  datatype SkipOptions = SkipOptions(
    execute: bool, shadow: bool, target: nat, theta: real, maxConsecutive: nat, maxRejectStreak: nat)
  {
    predicate Tracking() { execute || shadow }

    predicate IsDecisionStage(ppRank: nat) { target != 0 && ppRank + 1 == target }
  }

  /** The value of a worker's fields; `kv` stands for everything `executor.forward()` keeps. */
  datatype Worker = Worker(
    kv: Vec, decodePhase: bool, hasPrev: bool, prevRow: Vec, accepts: nat, rejectStreak: nat, forcedFull: nat)

  predicate DecodeSingle(pkt: Packet) { pkt.decode && pkt.batchSize == 1 }

  function AfterControl(w: Worker, pkt: Packet): Worker
  {
    if w.decodePhase == pkt.decode then w
    else w.(decodePhase := pkt.decode, hasPrev := false, accepts := 0, rejectStreak := 0, forcedFull := 0)
  }

  /** The delta norm of a received row against the remembered one; `norm` is `computeDeltaNormEncoded`. */
  function Delta(o: SkipOptions, norm: (Vec, Vec) -> Option<real>, w: Worker, pkt: Packet, row: Vec): Option<real>
  {
    if o.Tracking() && DecodeSingle(pkt) && w.hasPrev then norm(row, w.prevRow) else None
  }

  function AfterRow(o: SkipOptions, w: Worker, pkt: Packet, row: Vec): Worker
  {
    if o.Tracking() && DecodeSingle(pkt) then w.(hasPrev := true, prevRow := row) else w
  }

  predicate Decides(o: SkipOptions, ppRank: nat, pkt: Packet, delta: Option<real>)
  {
    o.Tracking() && o.IsDecisionStage(ppRank) && DecodeSingle(pkt) && delta.Some?
  }

  predicate MustRunFull(o: SkipOptions, w: Worker) { w.rejectStreak >= o.maxRejectStreak }

  predicate Accepts(o: SkipOptions, ppRank: nat, w: Worker, pkt: Packet, delta: Option<real>)
  {
    && Decides(o, ppRank, pkt, delta)
    && delta.value <= o.theta
    && w.accepts < o.maxConsecutive
    && !MustRunFull(o, w)
  }

  function AfterDecision(o: SkipOptions, ppRank: nat, w: Worker, pkt: Packet, delta: Option<real>): Worker
  {
    if !Decides(o, ppRank, pkt, delta) then w
    else if Accepts(o, ppRank, w, pkt, delta) then w.(accepts := w.accepts + 1, rejectStreak := 0)
    else if MustRunFull(o, w) then w.(accepts := 0, rejectStreak := 0, forcedFull := w.forcedFull + 1)
    else w.(accepts := 0, rejectStreak := w.rejectStreak + 1)
  }

  /** The worker object of the source, restricted to the fields above. */
  class WorkerLlmInference {
    const ppRank: nat
    const options: SkipOptions
    const norm: (Vec, Vec) -> Option<real>

    var controlPacket: Packet
    var decodePhase: bool
    var hasPrevXPipeRow: bool
    var prevXPipeRow: Vec
    var hasLastDeltaNorm: bool
    var lastDeltaNorm: real
    var hasLastSkipDecision: bool
    var lastSkipDecisionAccept: nat
    var skipConsecutiveAccepts: nat
    var skipRejectStreak: nat
    var skipForcedFullByRejectStreak: nat

    ghost function View(kv: Vec): Worker
      reads this
    {
      Worker(kv, decodePhase, hasPrevXPipeRow, prevXPipeRow,
             skipConsecutiveAccepts, skipRejectStreak, skipForcedFullByRejectStreak)
    }

    ghost function LastDelta(): Option<real>
      reads this
    {
      if hasLastDeltaNorm then Some(lastDeltaNorm) else None
    }

    constructor (ppRank: nat, options: SkipOptions, norm: (Vec, Vec) -> Option<real>)
      ensures this.ppRank == ppRank && this.options == options && this.norm == norm
      ensures View([]) == Worker([], false, false, [], 0, 0, 0)
    {
      this.ppRank, this.options, this.norm := ppRank, options, norm;
      controlPacket := Packet(0, 0, false);
      decodePhase, hasPrevXPipeRow, prevXPipeRow := false, false, [];
      hasLastDeltaNorm, lastDeltaNorm := false, 0.0;
      hasLastSkipDecision, lastSkipDecisionAccept := false, 0;
      skipConsecutiveAccepts, skipRejectStreak, skipForcedFullByRejectStreak := 0, 0, 0;
    }

    /** The part of `tryReadControlPacket` that follows a successful read. */
    method AcceptControlPacket(pkt: Packet)
      modifies this
      ensures controlPacket == pkt
      ensures forall kv :: View(kv) == AfterControl(old(View(kv)), pkt)
    {
      controlPacket := pkt;
      var prevDecodePhase := decodePhase;
      decodePhase := pkt.decode;
      if !prevDecodePhase && decodePhase {
        hasPrevXPipeRow := false;
        skipConsecutiveAccepts, skipRejectStreak, skipForcedFullByRejectStreak := 0, 0, 0;
      }
      if prevDecodePhase && !decodePhase {
        hasPrevXPipeRow := false;
        skipConsecutiveAccepts, skipRejectStreak, skipForcedFullByRejectStreak := 0, 0, 0;
      }
    }

    /** The tail of `beforeForward`, for a row that is not a bypass marker. */
    method ObserveRow(row: Vec)
      requires decodePhase == controlPacket.decode
      modifies this
      ensures controlPacket == old(controlPacket)
      ensures LastDelta() == Delta(options, norm, old(View([])), controlPacket, row)
      ensures forall kv :: View(kv) == AfterRow(options, old(View(kv)), controlPacket, row)
    {
      hasLastDeltaNorm := false;
      var decodeSingle := decodePhase && controlPacket.batchSize == 1;
      if (options.shadow || options.execute) && decodeSingle {
        if hasPrevXPipeRow {
          var deltaNorm := norm(row, prevXPipeRow);
          if deltaNorm.Some? {
            hasLastDeltaNorm := true;
            lastDeltaNorm := deltaNorm.value;
          }
        }
        prevXPipeRow := row;
        hasPrevXPipeRow := true;
      }
    }

    method EvaluateStageSkipDecision()
      requires decodePhase == controlPacket.decode
      modifies this
      ensures controlPacket == old(controlPacket)
      ensures hasLastSkipDecision == Decides(options, ppRank, controlPacket, old(LastDelta()))
      ensures (hasLastSkipDecision && lastSkipDecisionAccept == 1)
          <==> Accepts(options, ppRank, old(View([])), controlPacket, old(LastDelta()))
      ensures forall kv :: View(kv) == AfterDecision(options, ppRank, old(View(kv)), controlPacket, old(LastDelta()))
    {
      hasLastSkipDecision := false;
      lastSkipDecisionAccept := 0;
      if !(options.shadow || options.execute) || !options.IsDecisionStage(ppRank) {
        return;
      }
      if !decodePhase || controlPacket.batchSize != 1 {
        return;
      }
      if !hasLastDeltaNorm {
        return;
      }
      hasLastSkipDecision := true;
      var accept := lastDeltaNorm <= options.theta;
      var forceFullByRejectStreak := false;
      if accept && skipConsecutiveAccepts >= options.maxConsecutive {
        accept := false;
      }
      if skipRejectStreak >= options.maxRejectStreak {
        accept := false;
        forceFullByRejectStreak := true;
      }
      lastSkipDecisionAccept := if accept then 1 else 0;
      if accept {
        skipConsecutiveAccepts := skipConsecutiveAccepts + 1;
        skipRejectStreak := 0;
      } else {
        skipConsecutiveAccepts := 0;
        if forceFullByRejectStreak {
          skipRejectStreak := 0;
          skipForcedFullByRejectStreak := skipForcedFullByRejectStreak + 1;
        } else {
          skipRejectStreak := skipRejectStreak + 1;
        }
      }
    }
  }

  // ---- The decision stage over a whole decode phase ---------------------------------------

  /** What the decision stage sees for one token of a decode phase. */
  datatype Token = Token(batchSize: nat, row: Vec)

  function ServeToken(o: SkipOptions, norm: (Vec, Vec) -> Option<real>, ppRank: nat, w: Worker, t: Token)
    : (r: (Worker, bool, bool))
  {
    var pkt := Packet(0, t.batchSize, true);
    var w0 := AfterControl(w, pkt);
    var delta := Delta(o, norm, w0, pkt, t.row);
    var w1 := AfterRow(o, w0, pkt, t.row);
    (AfterDecision(o, ppRank, w1, pkt, delta),
     Decides(o, ppRank, pkt, delta),
     Accepts(o, ppRank, w1, pkt, delta))
  }

  datatype Tally = Tally(worker: Worker, accepts: nat, rejects: nat)

  /** The state and the decision counts after a decode phase entered from prefill. */
  function Phase(o: SkipOptions, norm: (Vec, Vec) -> Option<real>, ppRank: nat, w: Worker, tokens: seq<Token>): Tally
  {
    if tokens == [] then Tally(AfterControl(w, Packet(0, 1, true)), 0, 0)
    else
      var t := Phase(o, norm, ppRank, w, tokens[..|tokens| - 1]);
      var (w', decided, accepted) := ServeToken(o, norm, ppRank, t.worker, tokens[|tokens| - 1]);
      if !decided then t.(worker := w')
      else if accepted then Tally(w', t.accepts + 1, t.rejects)
      else Tally(w', t.accepts, t.rejects + 1)
  }

  /** What one decode token can do to the three counters. */
  lemma ServeTokenCases(
    o: SkipOptions, norm: (Vec, Vec) -> Option<real>, ppRank: nat, w: Worker, t: Token)
    requires w.decodePhase
    ensures var (w', decided, accepted) := ServeToken(o, norm, ppRank, w, t);
      && w'.decodePhase
      && (accepted ==> decided)
      && (accepted ==> w.accepts < o.maxConsecutive && w.rejectStreak < o.maxRejectStreak)
      && (accepted ==> w'.accepts == w.accepts + 1 && w'.rejectStreak == 0 && w'.forcedFull == w.forcedFull)
      && (decided && !accepted ==> w'.accepts == 0)
      && (decided && !accepted && w.rejectStreak >= o.maxRejectStreak ==>
            w'.rejectStreak == 0 && w'.forcedFull == w.forcedFull + 1)
      && (decided && !accepted && w.rejectStreak < o.maxRejectStreak ==>
            w'.rejectStreak == w.rejectStreak + 1 && w'.forcedFull == w.forcedFull)
      && (!decided ==>
            w'.accepts == w.accepts && w'.rejectStreak == w.rejectStreak && w'.forcedFull == w.forcedFull)
  {
  }

  lemma Distribute(a: nat, b: nat)
    ensures a * (b + 1) == a * b + a && (b + 1) * a == b * a + a
  {
  }

  /** Between phase resets: at most `maxConsecutive` accepts for each reject plus the current
      run, and a forced full-path token costs `maxRejectStreak` rejects plus itself. */
  lemma {:induction false} PhaseBudgets(
    o: SkipOptions, norm: (Vec, Vec) -> Option<real>, ppRank: nat, w: Worker, tokens: seq<Token>)
    requires !w.decodePhase
    ensures var t := Phase(o, norm, ppRank, w, tokens);
      && t.worker.decodePhase
      && t.worker.accepts <= o.maxConsecutive
      && t.worker.rejectStreak <= o.maxRejectStreak
      && t.accepts <= o.maxConsecutive * t.rejects + t.worker.accepts
      && t.worker.forcedFull * (o.maxRejectStreak + 1) + t.worker.rejectStreak <= t.rejects
  {
    if tokens != [] {
      PhaseBudgets(o, norm, ppRank, w, tokens[..|tokens| - 1]);
      var t := Phase(o, norm, ppRank, w, tokens[..|tokens| - 1]);
      ServeTokenCases(o, norm, ppRank, t.worker, tokens[|tokens| - 1]);
      Distribute(o.maxConsecutive, t.rejects);
      Distribute(o.maxRejectStreak + 1, t.worker.forcedFull);
    }
  }

  lemma PhaseTotals(
    o: SkipOptions, norm: (Vec, Vec) -> Option<real>, ppRank: nat, w: Worker, tokens: seq<Token>)
    requires !w.decodePhase
    ensures var t := Phase(o, norm, ppRank, w, tokens);
      && t.accepts <= o.maxConsecutive * (t.rejects + 1)
      && t.worker.forcedFull * (o.maxRejectStreak + 1) <= t.rejects
  {
    PhaseBudgets(o, norm, ppRank, w, tokens);
    Distribute(o.maxConsecutive, Phase(o, norm, ppRank, w, tokens).rejects);
  }
}
