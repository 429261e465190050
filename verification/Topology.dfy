/** The agent's units and the channels between them (agent/agent.go): how Run wires them up, and how
    they shut down one after the other when the inputs stop. */
module Topology {

  /** A channel, if there is one. */
  datatype Link = None | Some(value: nat)

  /** A unit reads its source channel, sends to its destination, and closes the destination when it is
      done. The aggregator unit also forwards original metrics straight to the outputs. `helpers` is
      the number of goroutines of the unit besides its main loop that may still send: the pushers of
      the aggregators, and the plugin of an input or processor until its Stop returns. */
  datatype Unit = Unit(src: Link, dst: Link, forward: Link, helpers: nat)

  datatype Config = Config(processors: nat, aggregators: nat, aggProcessors: nat)

  /** Unit 0 is the outputs and the last unit is the inputs; unit `i` reads channel `i` and owns
      channel `i - 1`; only channel 0 gets metrics from a second unit. */
  ghost predicate Linked(u: Unit, i: nat, inputs: bool) {
    && u.src == (if inputs then None else Some(i))
    && u.dst == (if i == 0 then None else Some(i - 1))
    && (u.forward == None || (i > 0 && u.forward == Some(0)))
  }

  /** The units from the outputs up to but not including the inputs. */
  ghost predicate Chain(units: seq<Unit>) {
    forall i :: 0 <= i < |units| ==> Linked(units[i], i, false)
  }

  ghost predicate WellFormed(units: seq<Unit>) {
    |units| >= 2 && forall i :: 0 <= i < |units| ==> Linked(units[i], i, i == |units| - 1)
  }

  /** Sets up a processor chain in front of channel `dst`. */
  method StartProcessors(dst: nat, count: nat, before: seq<Unit>) returns (src: nat, units: seq<Unit>)
    requires Chain(before) && |before| == dst + 1
    ensures Chain(units) && |units| == |before| + count && before <= units && src == |units| - 1
  {
    units := before;
    src := dst;
    for k := 0 to count
      invariant Chain(units) && |units| == |before| + k && before <= units && src == |units| - 1
    {
      var c := |units|;   // a new channel
      units := units + [Unit(Some(c), Some(src), None, 1)];
      src := c;
    }
  }

  /** The wiring of Run: outputs, then aggregator processors and aggregators if there are any
      aggregators, then processors, then inputs. */
  method Build(cfg: Config) returns (units: seq<Unit>)
    ensures WellFormed(units)
    ensures |units| == 2 + cfg.processors + (if cfg.aggregators == 0 then 0 else cfg.aggProcessors + 1)
    ensures cfg.aggregators != 0 ==>
              var agg := units[cfg.aggProcessors + 1];
              agg.helpers == cfg.aggregators && agg.forward == Some(0)
  {
    units := [Unit(Some(0), None, None, 0)];
    var next := 0;
    if cfg.aggregators != 0 {
      var aggC := next;
      if cfg.aggProcessors != 0 {
        aggC, units := StartProcessors(next, cfg.aggProcessors, units);
      }
      var src := |units|;   // a new channel
      units := units + [Unit(Some(src), Some(aggC), Some(next), cfg.aggregators)];
      next := src;
    }
    if cfg.processors != 0 {
      next, units := StartProcessors(next, cfg.processors, units);
    }
    units := units + [Unit(None, Some(next), None, 1)];
  }

  // Running and shutting down.

  datatype Phase =
    | Running    // the main loop goes on
    | Draining   // the main loop has ended, helpers may still send
    | Finished   // the destination has been closed

  /** `pending` is the channel that the main loop is blocked on in a send, `waiting` the number of sends in
      which helpers are blocked. */
  datatype Activity = Activity(phase: Phase, helpers: nat, pending: Link, waiting: nat)

  datatype Channel = Channel(items: nat, closes: nat)

  datatype Agent = Agent(acts: seq<Activity>, chans: seq<Channel>, panicked: bool)

  function Initial(units: seq<Unit>): Agent
    requires |units| >= 2
  {
    Agent(seq(|units|, i requires 0 <= i < |units| => Activity(Running, units[i].helpers, None, 0)),
          seq(|units| - 1, _ => Channel(0, 0)), false)
  }

  datatype Step =
    | Receive(u: nat)      // the main loop takes an item from the source
    | Send(u: nat)         // the main loop begins to send to the destination
    | Forward(u: nat)      // the main loop of the aggregator unit begins to forward to the outputs
    | HelperSend(u: nat)   // a helper begins to send to the destination
    | Pass(u: nat)         // the send of the main loop goes through
    | HelperPass(u: nat)   // the send of a helper goes through
    | EndLoop(u: nat)      // the source is closed and empty; the inputs end when the context is done
    | HelperEnds(u: nat)   // a pusher has made its last push, or a plugin's Stop has returned
    | Close(u: nat)        // all goroutines of the unit are done, it closes its destination

  /** Steps in which a plugin decides to emit a metric; all others only carry on what has begun. */
  predicate Begins(s: Step) {
    s.Send? || s.Forward? || s.HelperSend?
  }

  predicate Fits(units: seq<Unit>, a: Agent) {
    |units| >= 2 && |a.acts| == |units| && |a.chans| == |units| - 1
  }

  predicate Valid(c: Link, a: Agent) {
    c.Some? && c.value < |a.chans|
  }

  /** A send goes through if there is room; a blocked send on a channel that has been closed panics. */
  predicate CanPass(a: Agent, cap: nat, c: Link) {
    Valid(c, a) && (a.chans[c.value].items < cap || a.chans[c.value].closes > 0)
  }

  predicate Enabled(units: seq<Unit>, cap: nat, a: Agent, s: Step)
    requires Fits(units, a)
  {
    && s.u < |units|
    && var unit, act := units[s.u], a.acts[s.u];
       match s
       case Receive(u) => && act.phase.Running? && act.pending.None?
                          && Valid(unit.src, a) && a.chans[unit.src.value].items > 0
       case Send(u) => act.phase.Running? && act.pending.None? && Valid(unit.dst, a)
       case Forward(u) => act.phase.Running? && act.pending.None? && Valid(unit.forward, a)
       case HelperSend(u) => !act.phase.Finished? && act.helpers > 0 && Valid(unit.dst, a)
       case Pass(u) => CanPass(a, cap, act.pending)
       case HelperPass(u) => act.waiting > 0 && CanPass(a, cap, unit.dst)
       case EndLoop(u) => && act.phase.Running? && act.pending.None?
                          && (unit.src.None? || (Valid(unit.src, a) && a.chans[unit.src.value].items == 0
                                                 && a.chans[unit.src.value].closes > 0))
       case HelperEnds(u) => act.phase.Draining? && act.waiting < act.helpers
       case Close(u) => && act.phase.Draining? && act.helpers == 0 && act.waiting == 0
                        && (unit.dst.None? || Valid(unit.dst, a))
  }

  function Put(a: Agent, c: nat, items: nat): Agent
    requires c < |a.chans|
  {
    a.(chans := a.chans[c := a.chans[c].(items := items)])
  }

  /** Sending on a closed channel panics. */
  function SendTo(a: Agent, c: nat): Agent
    requires c < |a.chans|
  {
    Put(a, c, a.chans[c].items + 1).(panicked := a.panicked || a.chans[c].closes > 0)
  }

  function Act(a: Agent, u: nat, act: Activity): Agent
    requires u < |a.acts|
  {
    a.(acts := a.acts[u := act])
  }

  function Next(units: seq<Unit>, cap: nat, a: Agent, s: Step): Agent
    requires Fits(units, a) && Enabled(units, cap, a, s)
  {
    var unit, act := units[s.u], a.acts[s.u];
    match s
    case Receive(u) => Put(a, unit.src.value, a.chans[unit.src.value].items - 1)
    case Send(u) => Act(a, u, act.(pending := unit.dst))
    case Forward(u) => Act(a, u, act.(pending := unit.forward))
    case HelperSend(u) => Act(a, u, act.(waiting := act.waiting + 1))
    case Pass(u) => SendTo(Act(a, u, act.(pending := None)), act.pending.value)
    case HelperPass(u) => SendTo(Act(a, u, act.(waiting := act.waiting - 1)), unit.dst.value)
    case EndLoop(u) => Act(a, u, act.(phase := Draining))
    case HelperEnds(u) => Act(a, u, act.(helpers := act.helpers - 1))
    case Close(u) =>
      var b := Act(a, u, act.(phase := Finished));
      if unit.dst.None? then b
      else
        // closing a closed channel panics
        var c := unit.dst.value;
        b.(chans := a.chans[c := a.chans[c].(closes := a.chans[c].closes + 1)],
           panicked := a.panicked || a.chans[c].closes > 0)
  }

  /** The channel that unit `u` owns is closed once, as the unit's last action. */
  ghost predicate ClosedByOwner(a: Agent, u: nat)
    requires 0 < u < |a.acts| == |a.chans| + 1
  {
    a.chans[u - 1].closes == if a.acts[u].phase.Finished? then 1 else 0
  }

  /** Unit `u` leaves its main loop only when its source is closed and drained. */
  ghost predicate DrainedFirst(a: Agent, u: nat)
    requires u < |a.chans| == |a.acts| - 1
  {
    !a.acts[u].phase.Running? ==> a.chans[u] == Channel(0, 1)
  }

  /** Only a main loop that goes on is in a send, to one of its two channels, and helpers only while there are
      some. */
  ghost predicate SendsProperly(unit: Unit, act: Activity) {
    && (act.pending.Some? ==> act.phase.Running? && (act.pending == unit.dst || act.pending == unit.forward))
    && (act.waiting > 0 ==> act.helpers > 0 && unit.dst.Some?)
    && (act.phase.Finished? ==> act.helpers == 0)
  }

  ghost predicate Inv(units: seq<Unit>, a: Agent) {
    && WellFormed(units) && Fits(units, a) && !a.panicked
    && (forall u :: 0 < u < |a.acts| ==> ClosedByOwner(a, u))
    && (forall u :: 0 <= u < |a.chans| ==> DrainedFirst(a, u))
    && (forall u :: 0 <= u < |a.acts| ==> SendsProperly(units[u], a.acts[u]))
  }

  /** Shutdown is a cascade: a unit that has left its main loop has only finished units before it. */
  lemma {:induction false} Cascade(units: seq<Unit>, a: Agent, u: nat, v: nat)
    requires Inv(units, a) && u < v < |units| && !a.acts[u].phase.Running?
    ensures a.acts[v].phase.Finished?
    decreases v - u
  {
    assert DrainedFirst(a, u) && ClosedByOwner(a, u + 1);
    if u + 1 < v {
      Cascade(units, a, u + 1, v);
    }
  }

  /** A unit that may still send does so on an open channel, whose reader goes on reading. */
  lemma {:induction false} SendsOnOpenChannel(units: seq<Unit>, a: Agent, u: nat, c: nat)
    requires Inv(units, a) && u < |units| && !a.acts[u].phase.Finished? && c < u
    ensures a.chans[c].closes == 0 && a.acts[c].phase.Running?
  {
    assert ClosedByOwner(a, c + 1);
    if !a.acts[c].phase.Running? {
      Cascade(units, a, c, u);
    }
    if a.acts[c + 1].phase.Finished? && c + 1 < u {
      Cascade(units, a, c + 1, u);
    }
  }

  /** Changing the number of items in an open channel that is being read is harmless. */
  lemma {:induction false} ItemsKeepInv(units: seq<Unit>, a: Agent, c: nat, items: nat)
    requires Inv(units, a) && c < |a.chans| && a.acts[c].phase.Running?
    ensures Inv(units, Put(a, c, items))
  {
    var b := Put(a, c, items);
    forall u | 0 < u < |b.acts|
      ensures ClosedByOwner(b, u)
    {
      assert ClosedByOwner(a, u);
    }
    forall u | 0 <= u < |b.chans|
      ensures DrainedFirst(b, u)
    {
      assert DrainedFirst(a, u);
    }
  }

  /** Beginning a send, or its going through, is harmless as far as the unit itself is concerned. */
  lemma {:induction false} ActKeepsInv(units: seq<Unit>, a: Agent, u: nat, act: Activity)
    requires Inv(units, a) && u < |units| && act.phase == a.acts[u].phase && SendsProperly(units[u], act)
    ensures Inv(units, Act(a, u, act))
  {
    var b := Act(a, u, act);
    forall v | 0 < v < |b.acts|
      ensures ClosedByOwner(b, v)
    {
      assert ClosedByOwner(a, v);
    }
    forall v | 0 <= v < |b.chans|
      ensures DrainedFirst(b, v)
    {
      assert DrainedFirst(a, v);
    }
  }

  lemma {:induction false} PhaseKeepsInv(units: seq<Unit>, cap: nat, a: Agent, s: Step)
    requires Inv(units, a) && Enabled(units, cap, a, s) && (s.EndLoop? || s.Close?)
    ensures Inv(units, Next(units, cap, a, s))
  {
    var b := Next(units, cap, a, s);
    assert Linked(units[s.u], s.u, s.u == |units| - 1) && SendsProperly(units[s.u], a.acts[s.u]);
    if s.Close? && s.u > 0 {
      SendsOnOpenChannel(units, a, s.u, s.u - 1);
    }
    if s.EndLoop? && s.u < |units| - 1 {
      assert ClosedByOwner(a, s.u + 1);
    }
    forall u | 0 < u < |b.acts|
      ensures ClosedByOwner(b, u)
    {
      assert ClosedByOwner(a, u);
    }
    forall u | 0 <= u < |b.chans|
      ensures DrainedFirst(b, u)
    {
      assert DrainedFirst(a, u);
    }
  }

  /** A send that goes through. */
  lemma {:induction false} PassKeepsInv(units: seq<Unit>, cap: nat, a: Agent, s: Step)
    requires Inv(units, a) && Enabled(units, cap, a, s) && (s.Pass? || s.HelperPass?)
    ensures Inv(units, Next(units, cap, a, s))
  {
    var unit, act := units[s.u], a.acts[s.u];
    assert Linked(unit, s.u, s.u == |units| - 1) && SendsProperly(unit, act);
    var c := if s.Pass? then act.pending.value else unit.dst.value;
    var b := Act(a, s.u, if s.Pass? then act.(pending := None) else act.(waiting := act.waiting - 1));
    ActKeepsInv(units, a, s.u, b.acts[s.u]);
    SendsOnOpenChannel(units, b, s.u, c);
    ItemsKeepInv(units, b, c, a.chans[c].items + 1);
  }

  lemma {:induction false} StepKeepsInv(units: seq<Unit>, cap: nat, a: Agent, s: Step)
    requires Inv(units, a) && Enabled(units, cap, a, s)
    ensures Inv(units, Next(units, cap, a, s))
  {
    assert Linked(units[s.u], s.u, s.u == |units| - 1) && SendsProperly(units[s.u], a.acts[s.u]);
    if s.Receive? {
      ItemsKeepInv(units, a, s.u, a.chans[s.u].items - 1);
    } else if s.Pass? || s.HelperPass? {
      PassKeepsInv(units, cap, a, s);
    } else if s.EndLoop? || s.Close? {
      PhaseKeepsInv(units, cap, a, s);
    } else {
      ActKeepsInv(units, a, s.u, Next(units, cap, a, s).acts[s.u]);
    }
  }

  // Whole runs.

  /** The steps can be taken one after the other from the start, and lead to `a`. */
  ghost predicate LeadsTo(units: seq<Unit>, cap: nat, steps: seq<Step>, a: Agent)
    requires |units| >= 2
  {
    if steps == [] then a == Initial(units)
    else
      var before, s := steps[..|steps| - 1], steps[|steps| - 1];
      exists b: Agent :: LeadsTo(units, cap, before, b) && Fits(units, b) && Enabled(units, cap, b, s)
                         && a == Next(units, cap, b, s)
  }

  lemma {:induction false} EveryRunKeepsInv(units: seq<Unit>, cap: nat, steps: seq<Step>, a: Agent)
    requires WellFormed(units) && LeadsTo(units, cap, steps, a)
    ensures Inv(units, a)
  {
    if steps == [] {
      assert forall u :: 0 < u < |a.acts| ==> ClosedByOwner(a, u);
      assert forall u :: 0 <= u < |a.chans| ==> DrainedFirst(a, u);
      assert forall u :: 0 <= u < |units| ==> SendsProperly(units[u], a.acts[u]);
    } else {
      var before, s := steps[..|steps| - 1], steps[|steps| - 1];
      var b: Agent :| LeadsTo(units, cap, before, b) && Fits(units, b) && Enabled(units, cap, b, s)
                      && a == Next(units, cap, b, s);
      EveryRunKeepsInv(units, cap, before, b);
      StepKeepsInv(units, cap, b, s);
    }
  }

  /** Whoever is in a send finds the channel open, and whoever is about to close one finds it open. */
  lemma {:induction false} ChannelsAreOpen(units: seq<Unit>, a: Agent, u: nat)
    requires Inv(units, a) && u < |units|
    ensures var unit, act := units[u], a.acts[u];
            && (act.pending.Some? ==> Valid(act.pending, a) && a.chans[act.pending.value].closes == 0)
            && (act.waiting > 0 ==> Valid(unit.dst, a) && a.chans[unit.dst.value].closes == 0)
            && (act.phase.Draining? && unit.dst.Some? ==> Valid(unit.dst, a) && a.chans[unit.dst.value].closes == 0)
  {
    var unit, act := units[u], a.acts[u];
    assert Linked(unit, u, u == |units| - 1) && SendsProperly(unit, act);
    if !act.phase.Finished? {
      if act.pending.Some? {
        SendsOnOpenChannel(units, a, u, act.pending.value);
      }
      if unit.dst.Some? {
        SendsOnOpenChannel(units, a, u, unit.dst.value);
      }
    }
  }

  /** In every topology and every run, whatever the capacity of the channels: no send on a closed channel
      and no channel closed twice, a channel is drained before its reader stops reading, and when the outputs
      have finished every unit has, every channel was closed exactly once, and no metric is left in any of
      them. */
  lemma {:induction false} ShutdownIsSafe(units: seq<Unit>, cap: nat, steps: seq<Step>, a: Agent)
    requires WellFormed(units) && LeadsTo(units, cap, steps, a)
    ensures Fits(units, a) && !a.panicked
    ensures forall u :: 0 <= u < |units| && a.acts[u].pending.Some? ==>
              Valid(a.acts[u].pending, a) && a.chans[a.acts[u].pending.value].closes == 0
    ensures forall u :: 0 <= u < |units| && units[u].dst.Some? ==>
              (a.acts[u].waiting > 0 || a.acts[u].phase.Draining? ==>
                Valid(units[u].dst, a) && a.chans[units[u].dst.value].closes == 0)
    ensures forall c :: 0 <= c < |a.chans| ==> a.chans[c].closes <= 1
    ensures forall c :: 0 <= c < |a.chans| && !a.acts[c].phase.Running? ==> a.chans[c] == Channel(0, 1)
    ensures !a.acts[0].phase.Running? ==>
              && (forall u :: 0 < u < |units| ==> a.acts[u].phase.Finished?)
              && (forall c :: 0 <= c < |a.chans| ==> a.chans[c] == Channel(0, 1))
  {
    EveryRunKeepsInv(units, cap, steps, a);
    forall u | 0 <= u < |units|
      ensures a.acts[u].pending.Some? ==> Valid(a.acts[u].pending, a) && a.chans[a.acts[u].pending.value].closes == 0
      ensures (a.acts[u].waiting > 0 || a.acts[u].phase.Draining?) && units[u].dst.Some? ==>
                Valid(units[u].dst, a) && a.chans[units[u].dst.value].closes == 0
    {
      ChannelsAreOpen(units, a, u);
    }
    forall c | 0 <= c < |a.chans|
      ensures a.chans[c].closes <= 1 && (!a.acts[c].phase.Running? ==> a.chans[c] == Channel(0, 1))
    {
      assert ClosedByOwner(a, c + 1) && DrainedFirst(a, c);
    }
    if !a.acts[0].phase.Running? {
      forall u | 0 < u < |units|
        ensures a.acts[u].phase.Finished?
      {
        Cascade(units, a, 0, u);
      }
    }
  }

  // No metric is lost on the way.

  /** Whether the step begins to send a metric to channel `c`. */
  predicate Starts(units: seq<Unit>, s: Step, c: nat) {
    && s.u < |units|
    && (((s.Send? || s.HelperSend?) && units[s.u].dst == Some(c)) || (s.Forward? && units[s.u].forward == Some(c)))
  }

  /** Whether the step takes a metric from channel `c`. */
  predicate Takes(units: seq<Unit>, s: Step, c: nat) {
    s.Receive? && s.u < |units| && units[s.u].src == Some(c)
  }

  function Started(units: seq<Unit>, steps: seq<Step>, c: nat): nat {
    if steps == [] then 0
    else Started(units, steps[..|steps| - 1], c) + if Starts(units, steps[|steps| - 1], c) then 1 else 0
  }

  function Taken(units: seq<Unit>, steps: seq<Step>, c: nat): nat {
    if steps == [] then 0
    else Taken(units, steps[..|steps| - 1], c) + if Takes(units, steps[|steps| - 1], c) then 1 else 0
  }

  /** How many sends to channel `c` a unit is blocked in. */
  function InSend(unit: Unit, act: Activity, c: nat): nat {
    (if act.pending == Some(c) then 1 else 0) + (if unit.dst == Some(c) then act.waiting else 0)
  }

  function Underway(units: seq<Unit>, acts: seq<Activity>, c: nat): nat
    requires |acts| <= |units|
  {
    if acts == [] then 0
    else Underway(units, acts[..|acts| - 1], c) + InSend(units[|acts| - 1], acts[|acts| - 1], c)
  }

  lemma {:induction false} UnderwayUpdate(units: seq<Unit>, acts: seq<Activity>, u: nat, act: Activity, c: nat)
    requires u < |acts| <= |units|
    ensures Underway(units, acts[u := act], c)
            == Underway(units, acts, c) - InSend(units[u], acts[u], c) + InSend(units[u], act, c)
  {
    var n := |acts| - 1;
    if u < n {
      UnderwayUpdate(units, acts[..n], u, act, c);
      assert acts[u := act][..n] == acts[..n][u := act];
    } else {
      assert acts[u := act][..n] == acts[..n];
    }
  }

  lemma {:induction false} NoneUnderway(units: seq<Unit>, acts: seq<Activity>, c: nat)
    requires |acts| <= |units| && forall u :: 0 <= u < |acts| ==> InSend(units[u], acts[u], c) == 0
    ensures Underway(units, acts, c) == 0
  {
    if acts != [] {
      NoneUnderway(units, acts[..|acts| - 1], c);
    }
  }

  /** Every step accounts for the metrics it moves. */
  lemma {:induction false} StepAccounts(units: seq<Unit>, cap: nat, a: Agent, s: Step, c: nat)
    requires Fits(units, a) && Enabled(units, cap, a, s) && c < |a.chans|
    ensures var b := Next(units, cap, a, s);
            && Fits(units, b)
            && (if Starts(units, s, c) then 1 else 0) + a.chans[c].items + Underway(units, a.acts, c)
               == (if Takes(units, s, c) then 1 else 0) + b.chans[c].items + Underway(units, b.acts, c)
  {
    if !s.Receive? {
      UnderwayUpdate(units, a.acts, s.u, Next(units, cap, a, s).acts[s.u], c);
    }
  }

  /** In every run every metric whose sending has begun has been received, is in the channel, or is still in its
      send. */
  lemma {:induction false} EveryRunAccounts(units: seq<Unit>, cap: nat, steps: seq<Step>, a: Agent, c: nat)
    requires |units| >= 2 && LeadsTo(units, cap, steps, a) && c < |units| - 1
    ensures Fits(units, a)
    ensures Started(units, steps, c) == Taken(units, steps, c) + a.chans[c].items + Underway(units, a.acts, c)
  {
    if steps == [] {
      NoneUnderway(units, a.acts, c);
    } else {
      var before, s := steps[..|steps| - 1], steps[|steps| - 1];
      var b: Agent :| LeadsTo(units, cap, before, b) && Fits(units, b) && Enabled(units, cap, b, s)
                      && a == Next(units, cap, b, s);
      EveryRunAccounts(units, cap, before, b, c);
      StepAccounts(units, cap, b, s, c);
    }
  }

  /** In every topology and every run, when the outputs have left their loop every metric that any unit ever began
      to send on any channel has been received by the reader of that channel. */
  lemma {:induction false} NothingIsLost(units: seq<Unit>, cap: nat, steps: seq<Step>, a: Agent, c: nat)
    requires WellFormed(units) && LeadsTo(units, cap, steps, a) && c < |units| - 1
    requires Fits(units, a) && !a.acts[0].phase.Running?
    ensures Started(units, steps, c) == Taken(units, steps, c)
  {
    EveryRunKeepsInv(units, cap, steps, a);
    ShutdownIsSafe(units, cap, steps, a);
    EveryRunAccounts(units, cap, steps, a, c);
    forall u | 0 <= u < |units|
      ensures InSend(units[u], a.acts[u], c) == 0
    {
      assert Linked(units[u], u, u == |units| - 1) && SendsProperly(units[u], a.acts[u]);
    }
    NoneUnderway(units, a.acts, c);
  }

  // Progress with channels of limited capacity.

  ghost predicate CanCarryOn(units: seq<Unit>, cap: nat, a: Agent)
    requires Fits(units, a)
  {
    exists s: Step :: !Begins(s) && Enabled(units, cap, a, s)
  }

  predicate AllFinished(a: Agent) {
    forall u :: 0 <= u < |a.acts| ==> a.acts[u].phase.Finished?
  }

  /** The nonempty channel nearest to the outputs can be read, or its reader can go on with a send to a
      channel in front of it, which is empty. */
  lemma {:induction false} FullChannelMoves(units: seq<Unit>, cap: nat, a: Agent, c: nat)
    requires Inv(units, a) && cap >= 1 && c < |a.chans| && a.chans[c].items > 0
    requires forall d :: 0 <= d < c ==> a.chans[d].items == 0
    ensures CanCarryOn(units, cap, a)
  {
    assert DrainedFirst(a, c) && Linked(units[c], c, false) && SendsProperly(units[c], a.acts[c]);
    var s := if a.acts[c].pending.None? then Receive(c) else Pass(c);
    assert !Begins(s) && Enabled(units, cap, a, s);
  }

  /** With all channels empty every send goes through. */
  lemma {:induction false} EmptyChannelsMove(units: seq<Unit>, cap: nat, a: Agent)
    requires Inv(units, a) && cap >= 1 && !AllFinished(a)
    requires forall c :: 0 <= c < |a.chans| ==> a.chans[c].items == 0
    ensures CanCarryOn(units, cap, a)
  {
    var u := LastUnfinished(units, a);
    var act := a.acts[u];
    assert Linked(units[u], u, u == |units| - 1) && SendsProperly(units[u], act);
    if u < |units| - 1 {
      assert ClosedByOwner(a, u + 1);
    }
    var s := if act.pending.Some? then Pass(u)
             else if act.waiting > 0 then HelperPass(u)
             else if act.phase.Running? then EndLoop(u)
             else if act.helpers > 0 then HelperEnds(u)
             else Close(u);
    assert !Begins(s) && Enabled(units, cap, a, s);
  }

  /** Shutdown always goes on: with channels of any capacity of at least one, unless all units have finished,
      a step is possible that does not depend on a plugin emitting another metric. */
  lemma {:induction false} ShutdownGoesOn(units: seq<Unit>, cap: nat, a: Agent)
    requires Inv(units, a) && cap >= 1 && !AllFinished(a)
    ensures CanCarryOn(units, cap, a)
  {
    var c := 0;
    while c < |a.chans| && a.chans[c].items == 0
      invariant c <= |a.chans| && forall d :: 0 <= d < c ==> a.chans[d].items == 0
    {
      c := c + 1;
    }
    if c < |a.chans| {
      FullChannelMoves(units, cap, a, c);
    } else {
      EmptyChannelsMove(units, cap, a);
    }
  }

  /** The unfinished unit nearest to the inputs. */
  lemma {:induction false} LastUnfinished(units: seq<Unit>, a: Agent) returns (u: nat)
    requires Fits(units, a) && !AllFinished(a)
    ensures u < |units| && !a.acts[u].phase.Finished? && forall v :: u < v < |units| ==> a.acts[v].phase.Finished?
  {
    u := |units| - 1;
    while a.acts[u].phase.Finished?
      invariant u < |units| && forall v :: u < v < |units| ==> a.acts[v].phase.Finished?
      decreases u
    {
      var v :| 0 <= v < |units| && !a.acts[v].phase.Finished?;
      assert v < u;
      u := u - 1;
    }
  }

  // Termination.

  /** What a unit has still to do if no plugin emits another metric. */
  function Work(act: Activity): nat {
    (if act.phase.Running? then 2 else if act.phase.Draining? then 1 else 0)
    + act.helpers + (if act.pending.Some? then 2 else 0) + 2 * act.waiting
  }

  function UnitsWork(acts: seq<Activity>): nat {
    if acts == [] then 0 else UnitsWork(acts[..|acts| - 1]) + Work(acts[|acts| - 1])
  }

  function ItemsWork(chans: seq<Channel>): nat {
    if chans == [] then 0 else ItemsWork(chans[..|chans| - 1]) + chans[|chans| - 1].items
  }

  function Remaining(a: Agent): nat {
    UnitsWork(a.acts) + ItemsWork(a.chans)
  }

  lemma {:induction false} UnitsWorkUpdate(acts: seq<Activity>, u: nat, act: Activity)
    requires u < |acts|
    ensures UnitsWork(acts[u := act]) == UnitsWork(acts) - Work(acts[u]) + Work(act)
  {
    var n := |acts| - 1;
    if u < n {
      UnitsWorkUpdate(acts[..n], u, act);
      assert acts[u := act][..n] == acts[..n][u := act];
    } else {
      assert acts[u := act][..n] == acts[..n];
    }
  }

  lemma {:induction false} ItemsWorkUpdate(chans: seq<Channel>, c: nat, ch: Channel)
    requires c < |chans|
    ensures ItemsWork(chans[c := ch]) == ItemsWork(chans) - chans[c].items + ch.items
  {
    var n := |chans| - 1;
    if c < n {
      ItemsWorkUpdate(chans[..n], c, ch);
      assert chans[c := ch][..n] == chans[..n][c := ch];
    } else {
      assert chans[c := ch][..n] == chans[..n];
    }
  }

  /** Every step uses up some of the work, except for those in which a plugin emits a metric, which cost two
      more steps each. */
  lemma {:induction false} StepsRunOut(units: seq<Unit>, cap: nat, a: Agent, s: Step)
    requires Inv(units, a) && Enabled(units, cap, a, s)
    ensures var b := Next(units, cap, a, s);
            if Begins(s) then Remaining(b) == Remaining(a) + 2 else Remaining(b) < Remaining(a)
  {
    var unit, act, b := units[s.u], a.acts[s.u], Next(units, cap, a, s);
    assert Linked(unit, s.u, s.u == |units| - 1) && SendsProperly(unit, act);
    if !s.Receive? {
      UnitsWorkUpdate(a.acts, s.u, b.acts[s.u]);
    }
    match s
    case Receive(u) => ItemsWorkUpdate(a.chans, u, b.chans[u]);
    case Pass(u) => ItemsWorkUpdate(a.chans, act.pending.value, b.chans[act.pending.value]);
    case HelperPass(u) => ItemsWorkUpdate(a.chans, unit.dst.value, b.chans[unit.dst.value]);
    case Close(u) => if unit.dst.Some? { ItemsWorkUpdate(a.chans, unit.dst.value, b.chans[unit.dst.value]); }
    case _ =>
  }

  ghost predicate CarriesOn(units: seq<Unit>, cap: nat, a: Agent, b: Agent) {
    && Fits(units, a)
    && exists s: Step :: !Begins(s) && Enabled(units, cap, a, s) && b == Next(units, cap, a, s)
  }

  /** Once no plugin emits another metric, whatever the scheduler does the agent stops within the number of
      steps given by its state, and it stops only when all units have finished. */
  lemma {:induction false} ShutdownEnds(units: seq<Unit>, cap: nat, run: seq<Agent>)
    requires cap >= 1 && |run| > 0 && Inv(units, run[0])
    requires forall i :: 0 < i < |run| ==> CarriesOn(units, cap, run[i - 1], run[i])
    ensures |run| - 1 <= Remaining(run[0])
    ensures Inv(units, run[|run| - 1])
    ensures !CanCarryOn(units, cap, run[|run| - 1]) ==> AllFinished(run[|run| - 1])
    decreases |run|
  {
    if |run| == 1 {
      if !AllFinished(run[0]) {
        ShutdownGoesOn(units, cap, run[0]);
      }
    } else {
      assert CarriesOn(units, cap, run[0], run[1]);
      var s: Step :| !Begins(s) && Enabled(units, cap, run[0], s) && run[1] == Next(units, cap, run[0], s);
      StepKeepsInv(units, cap, run[0], s);
      StepsRunOut(units, cap, run[0], s);
      var rest := run[1..];
      forall i | 0 < i < |rest|
        ensures CarriesOn(units, cap, rest[i - 1], rest[i])
      {
        var k := i + 1;
        assert CarriesOn(units, cap, run[k - 1], run[k]);
      }
      ShutdownEnds(units, cap, rest);
    }
  }
}
