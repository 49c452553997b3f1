/** Which client ids the crank's orders carry: within a round no two orders of a side share
    one, however the round is cut into calls. */
module CrankIds {
  import opened Checked
  import opened Planner
  import opened Ladder
  import opened Placement
  import opened Crank
  import opened CrankSafety

  // ---- The invariant ----

  /** The ids a round has placed so far are distinct, nonzero and drawn. */
  ghost predicate RoundIds(c: CrankState) {
    && c.round.validBuy <= 10 && c.round.validSell <= 10
    && Distinct(c.round.replaceBuy[..c.round.validBuy])
    && Drawn(c.round.replaceBuy[..c.round.validBuy], c.clientId)
    && Distinct(c.round.replaceSell[..c.round.validSell])
    && Drawn(c.round.replaceSell[..c.round.validSell], c.clientId)
  }

  predicate InRound(c: CrankState) {
    !c.reset && (c.phase.PlaceOrders? || c.phase.PurgeOrders?)
  }

  ghost predicate LiveIds(bids: seq<u64>, asks: seq<u64>, clientId: u64) {
    Distinct(bids) && Drawn(bids, clientId) && Distinct(asks) && Drawn(asks, clientId)
  }

  ghost predicate Inv(w: World) {
    && CrankInv(w.settings, w.crank)
    && LiveIds(w.bids, w.asks, w.crank.clientId)
    && (InRound(w.crank) ==> RoundIds(w.crank))
  }

  // ---- Placing ----

  lemma DeskOpens(s: Settings, c: CrankState, inp: Inputs)
    requires PlacingWell(s, c) && RoundIds(c) && LiveIds(inp.bids, inp.asks, c.clientId)
    ensures DeskOk(DeskOf(c, inp))
  {
    OpenSide(c.round.validBuy, c.round.replaceBuy, inp.bids, c.clientId);
    OpenSide(c.round.validSell, c.round.replaceSell, inp.asks, c.clientId);
    hide SideOk;
  }

  /** A placing call draws at most twenty ids and keeps the round's ids distinct. */
  lemma PlaceKeepsIds(s: Settings, c: CrankState, inp: Inputs)
    requires CrankInv(s, c) && !c.reset && c.phase.PlaceOrders? && RoundIds(c)
    requires LiveIds(inp.bids, inp.asks, c.clientId)
    requires c.clientId + 20 < U64_LIMIT && DoPlace(s, c, inp).Success?
    ensures var r := DoPlace(s, c, inp).value;
      RoundIds(r) && c.clientId <= r.clientId <= c.clientId + 20
  {
    hide PlaceSome, PlanInv, Survey, RoundIds;
    assert RoundIds(c.(phase := CancelAllOrders)) && RoundIds(c.(phase := Idle)) by {
      SameRound(c, c.(phase := CancelAllOrders));
      SameRound(c, c.(phase := Idle));
    }
    if Survey(s, inp.pc, inp.coin).Success? {
      var (x, y) := Survey(s, inp.pc, inp.coin).value;
      if PlaceSome(s, c, inp, x, y).Success? {
        PlaceSomeKeepsIds(s, c, inp, x, y);
      }
    }
  }

  lemma SameRound(c: CrankState, r: CrankState)
    requires RoundIds(c) && r.round == c.round && r.clientId == c.clientId
    ensures RoundIds(r)
  {
  }

  lemma PlaceSomeKeepsIds(s: Settings, c: CrankState, inp: Inputs, x: u128, y: u128)
    requires CrankInv(s, c) && !c.reset && c.phase.PlaceOrders? && RoundIds(c)
    requires LiveIds(inp.bids, inp.asks, c.clientId)
    requires c.clientId + 20 < U64_LIMIT && PlaceSome(s, c, inp, x, y).Success?
    ensures var r := PlaceSome(s, c, inp, x, y).value;
      RoundIds(r) && c.clientId <= r.clientId <= c.clientId + 20
  {
    DeskOpens(s, c, inp);
    var end := ChunkEnd(s, c.round.cur, inp.placeLimit);
    var d := DeskOf(c, inp);
    PlaceRangeKeepsDesk(s.scale, c.plan, c.round.cur, end, d, inp.funds);
    hide PlaceRange, Retain, PlanInv, Survey;
  }

  lemma OntoIsDistinct(live: seq<u64>, placed: seq<u64>)
    requires Distinct(live)
    ensures Distinct(Onto(live, placed))
    decreases |placed|
  {
    if placed != [] {
      if placed[0] in live {
        OntoIsDistinct(live, placed[1..]);
      } else {
        OntoIsDistinct(live + [placed[0]], placed[1..]);
      }
    }
  }

  lemma BookAfterPlacing(live: seq<u64>, before: u64, ids: Ids, after: u64, drawn: u64, counter: u64)
    requires Distinct(live) && Drawn(live, drawn) && drawn <= counter
    requires after <= 10 && Drawn(ids[..after], counter)
    ensures var book := Onto(live, NewlyPlaced(ids, before, after));
      Distinct(book) && Drawn(book, counter)
  {
    var placed := NewlyPlaced(ids, before, after);
    OntoIsDistinct(live, placed);
    var book := Onto(live, placed);
    forall i | 0 <= i < |book| ensures 0 < book[i] <= counter {
      assert book[i] in book;
      if book[i] in placed {
        var k :| 0 <= k < |placed| && placed[k] == book[i];
        assert placed[k] == ids[..after][before + k];
      }
    }
  }

  // ---- Every step, every run ----

  lemma MonitorKeepsIds(s: Settings, c: CrankState, inp: Inputs)
    requires CrankInv(s, c) && LiveIds(inp.bids, inp.asks, c.clientId) && (InRound(c) ==> RoundIds(c))
    requires c.clientId + 20 < U64_LIMIT && MonitorStep(s, c, inp).Success?
    ensures var r := MonitorStep(s, c, inp).value;
      && c.clientId <= r.clientId <= c.clientId + 20
      && (InRound(r) ==> RoundIds(r))
      && (!c.reset && c.phase.PlaceOrders? ==> RoundIds(r))
  {
    if !c.reset && s.orderNum > 0 && inp.status.OrderbookPermission() {
      match c.phase
      case Idle => IdleKeeps(s, c, inp);
      case PlanOrders =>
        PlanKeeps(s, c, inp);
        PlanStartsRound(s, c, inp);
      case PlaceOrders => PlaceKeepsIds(s, c, inp);
      case CancelAllOrders =>
      case PurgeOrders =>
        SameRound(c, DoPurge(c, inp));
    }
    hide DoIdle, DoPlan, DoPlace, PlanInv, RoundIds;
  }

  lemma PlanStartsRound(s: Settings, c: CrankState, inp: Inputs)
    requires CrankInv(s, c) && !c.reset && s.orderNum > 0 && c.phase.PlanOrders? && DoPlan(s, c, inp).Success?
    ensures var r := DoPlan(s, c, inp).value; InRound(r) ==> RoundIds(r)
  {
    PlanKeeps(s, c, inp);
    hide DoPlan, PlanInv;
  }

  lemma DrawnSurvives(ids: seq<u64>, clientId: u64, counter: u64)
    requires Drawn(ids, clientId) && clientId <= counter
    ensures Drawn(ids, counter)
  {
  }

  lemma MonitorStepKeepsInv(w: World, inp: Inputs)
    requires Inv(w) && w.crank.clientId + 20 < U64_LIMIT
    requires MonitorStep(w.settings, w.crank, Seen(w, inp)).Success?
    ensures var r := AfterMonitor(w, MonitorStep(w.settings, w.crank, Seen(w, inp)).value);
      Inv(r) && r.crank.clientId <= w.crank.clientId + 20
  {
    MonitorKeeps(w.settings, w.crank, Seen(w, inp));
    MonitorKeepsIds(w.settings, w.crank, Seen(w, inp));
    var c := MonitorStep(w.settings, w.crank, Seen(w, inp)).value;
    hide MonitorStep, CrankInv, Distinct, Drawn;
    DrawnSurvives(w.bids, w.crank.clientId, c.clientId);
    DrawnSurvives(w.asks, w.crank.clientId, c.clientId);
    if w.crank.phase.PlaceOrders? && !w.crank.reset {
      var was, now := w.crank, c.round;
      BookAfterPlacing(w.bids, was.round.validBuy, now.replaceBuy, now.validBuy, was.clientId, c.clientId);
      BookAfterPlacing(w.asks, was.round.validSell, now.replaceSell, now.validSell, was.clientId, c.clientId);
    }
  }

  lemma RemainsKeepsBook(after: seq<u64>, before: seq<u64>, clientId: u64)
    requires Remains(after, before) && Drawn(before, clientId)
    ensures Distinct(after) && Drawn(after, clientId)
  {
    forall i | 0 <= i < |after| ensures 0 < after[i] <= clientId {
      assert after[i] in before;
    }
  }

  /** With twenty ids left on the counter, every step keeps the ids apart. */
  lemma StepKeepsIds(w: World, step: Step)
    requires Inv(w) && w.crank.clientId + 20 < U64_LIMIT
    ensures Inv(Exec(w, step)) && Exec(w, step).crank.clientId <= w.crank.clientId + 20
  {
    StepKeepsInv(w, step);
    if Apply(w, step).Success? {
      match step
      case Monitor(inp) => MonitorStepKeepsInv(w, inp);
      case Adjust(change) => AdjustKeeps(w.settings, w.crank, change);
      case Move(scale) =>
      case Trade(bids, asks) =>
        RemainsKeepsBook(bids, w.bids, w.crank.clientId);
        RemainsKeepsBook(asks, w.asks, w.crank.clientId);
      case Settle(owed, calcX, calcY) =>
        if InRound(w.crank) {
          SameRound(w.crank, Rewritten(w.crank, owed, calcX, calcY));
        }
    }
    hide MonitorStep, SetParams, AfterMonitor, CrankInv, Remains, RoundIds;
  }

  /** Every run that cannot exhaust the 64-bit counter keeps them apart. */
  lemma {:induction false} RunKeepsIds(w: World, steps: seq<Step>)
    requires Inv(w) && w.crank.clientId + 20 * |steps| < U64_LIMIT
    ensures Inv(Run(w, steps))
    decreases |steps|
  {
    hide Inv, Apply, Exec;
    if steps != [] {
      StepKeepsIds(w, steps[0]);
      RunKeepsIds(Exec(w, steps[0]), steps[1..]);
    }
  }

  /** On every state such a run reaches, the ids of a round are pairwise distinct and
      nonzero on each side, and so are the ids of the live orders. */
  lemma EveryRoundHasDistinctIds(w: World, steps: seq<Step>)
    requires Created(w) && 20 * |steps| < U64_LIMIT
    ensures var r := Run(w, steps);
      && (InRound(r.crank) ==> RoundIds(r.crank))
      && LiveIds(r.bids, r.asks, r.crank.clientId)
  {
    CreatedIsKept(w);
    RunKeepsIds(w, steps);
    hide Run, CrankInv;
  }

  /** Past the wrap the counter can draw an id the round has already placed. */
  lemma WrapCanRepeatId(side: Side, clientId: u64)
    requires clientId == U64_LIMIT - 1 && side.valid == 1 && side.replaced[0] == 1 && side.queue == []
    ensures SideOk(side, clientId)
    ensures TakeId(side, clientId).Success? && !Distinct(TakeId(side, clientId).value.0.replaced[..2])
  {
    var next := TakeId(side, clientId).value.0;
    assert next.replaced[..2][0] == next.replaced[..2][1];
  }
}
