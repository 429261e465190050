/** The derivative aggregator (plugins/aggregators/derivative/derivative.go), over real numbers. */
module Derivative {
  import opened Times

  /** The numeric fields of a metric, and its time in nanoseconds. */
  datatype Event = Event(fields: map<string, real>, time: int)

  /** The first and the last event of a series; One if both are the same event, not just equal. */
  datatype Ends = One(e: Event) | Two(f: Event, l: Event) {
    function First(): Event { if One? then e else f }
    function Last(): Event { if One? then e else l }
  }

  datatype Aggregate = Aggregate(ends: Ends, rollOver: nat)

  function Upsert(target: Event, source: Event): Event {
    target.(fields := target.fields + source.fields)
  }

  // One series: adding an event, and reset.

  datatype Op = Add(e: Event) | Reset

  datatype Maybe = None | Some(a: Aggregate)

  function AddEvent(m: Maybe, e: Event): Aggregate {
    if m.None? then Aggregate(One(e), 0)
    else
      match m.a.ends
      case One(c) =>
        if e.time < c.time then Aggregate(Two(e, c), 0)
        else if e.time == c.time then Aggregate(One(Upsert(c, e)), 0)
        else Aggregate(Two(c, e), 0)
      case Two(f, l) =>
        var first := if e.time < f.time then e else if e.time == f.time then Upsert(f, e) else f;
        var last := if e.time > l.time then e else if e.time == l.time then Upsert(l, e) else l;
        Aggregate(Two(first, last), if f.time < e.time < l.time then m.a.rollOver else 0)
  }

  function ResetSeries(maxRollOver: nat, m: Maybe): Maybe {
    if m.Some? && m.a.rollOver < maxRollOver then Some(Aggregate(One(m.a.ends.Last()), m.a.rollOver + 1)) else None
  }

  function After(maxRollOver: nat, ops: seq<Op>): Maybe {
    if ops == [] then None
    else
      var m := After(maxRollOver, ops[..|ops| - 1]);
      match ops[|ops| - 1]
      case Add(e) => Some(AddEvent(m, e))
      case Reset => ResetSeries(maxRollOver, m)
  }

  // What a series should remember.

  predicate HasAdd(ops: seq<Op>) {
    exists i :: 0 <= i < |ops| && ops[i].Add?
  }

  /** The number of resets since the last event. */
  function Quiet(ops: seq<Op>): nat {
    if ops == [] || ops[|ops| - 1].Add? then 0 else Quiet(ops[..|ops| - 1]) + 1
  }

  predicate Remembered(maxRollOver: nat, ops: seq<Op>) {
    HasAdd(ops) && Quiet(ops) <= maxRollOver
  }

  /** All fields of the events at time `t`, later ones overriding earlier ones. */
  function MergedAt(xs: seq<Event>, t: int): map<string, real> {
    if xs == [] then map[]
    else
      var e := xs[|xs| - 1];
      MergedAt(xs[..|xs| - 1], t) + if e.time == t then e.fields else map[]
  }

  ghost predicate IsEarliest(xs: seq<Event>, e: Event) {
    && (exists i :: 0 <= i < |xs| && xs[i].time == e.time)
    && (forall i :: 0 <= i < |xs| ==> e.time <= xs[i].time)
    && e.fields == MergedAt(xs, e.time)
  }

  ghost predicate IsLatest(xs: seq<Event>, e: Event) {
    && (exists i :: 0 <= i < |xs| && xs[i].time == e.time)
    && (forall i :: 0 <= i < |xs| ==> xs[i].time <= e.time)
    && e.fields == MergedAt(xs, e.time)
  }

  /** The ends of the events `xs`; the two are different events exactly if their times differ. */
  ghost predicate EndsOf(xs: seq<Event>, ends: Ends) {
    && IsEarliest(xs, ends.First())
    && IsLatest(xs, ends.Last())
    && (ends.Two? <==> ends.First().time < ends.Last().time)
  }

  function MaxTime(xs: seq<Event>): (t: int)
    requires xs != []
    ensures (exists i :: 0 <= i < |xs| && xs[i].time == t) && forall i :: 0 <= i < |xs| ==> xs[i].time <= t
  {
    var e := xs[|xs| - 1];
    if |xs| == 1 then e.time
    else
      var t := MaxTime(xs[..|xs| - 1]);
      assert exists i :: 0 <= i < |xs| - 1 && xs[..|xs| - 1][i].time == t && xs[i].time == t;
      if e.time > t then e.time else t
  }

  /** Everything seen at the latest time. */
  function LatestOf(xs: seq<Event>): Event
    requires xs != []
  {
    Event(MergedAt(xs, MaxTime(xs)), MaxTime(xs))
  }

  /** The events that count for the current period: the latest event of the period before, as long as the series
      is remembered, and those added since the last reset. */
  function Period(maxRollOver: nat, ops: seq<Op>): seq<Event> {
    if ops == [] then []
    else
      var before := Period(maxRollOver, ops[..|ops| - 1]);
      match ops[|ops| - 1]
      case Add(e) => before + [e]
      case Reset => if Remembered(maxRollOver, ops) && before != [] then [LatestOf(before)] else []
  }

  // The proof.

  lemma {:induction false} MergedSnoc(xs: seq<Event>, e: Event, t: int)
    ensures MergedAt(xs + [e], t) == MergedAt(xs, t) + if e.time == t then e.fields else map[]
  {
    assert (xs + [e])[..|xs|] == xs;
  }

  lemma {:induction false} NothingAt(xs: seq<Event>, t: int)
    requires forall i :: 0 <= i < |xs| ==> xs[i].time != t
    ensures MergedAt(xs, t) == map[]
  {
    if xs != [] {
      NothingAt(xs[..|xs| - 1], t);
    }
  }

  lemma {:induction false} TimesSnoc(xs: seq<Event>, e: Event, t: int)
    ensures (exists i :: 0 <= i < |xs + [e]| && (xs + [e])[i].time == t)
            <==> (exists i :: 0 <= i < |xs| && xs[i].time == t) || e.time == t
  {
    if i :| 0 <= i < |xs| && xs[i].time == t {
      assert (xs + [e])[i].time == t;
    }
    if e.time == t {
      assert (xs + [e])[|xs|].time == t;
    }
  }

  /** The first event after one more event. */
  lemma {:induction false} EarliestSnoc(xs: seq<Event>, f: Event, e: Event)
    requires IsEarliest(xs, f)
    ensures IsEarliest(xs + [e], if e.time < f.time then e else if e.time == f.time then Upsert(f, e) else f)
  {
    var t := if e.time < f.time then e.time else f.time;
    TimesSnoc(xs, e, t);
    MergedSnoc(xs, e, t);
    if e.time < f.time {
      NothingAt(xs, e.time);
    }
  }

  lemma {:induction false} LatestSnoc(xs: seq<Event>, l: Event, e: Event)
    requires IsLatest(xs, l)
    ensures IsLatest(xs + [e], if e.time > l.time then e else if e.time == l.time then Upsert(l, e) else l)
  {
    var t := if e.time > l.time then e.time else l.time;
    TimesSnoc(xs, e, t);
    MergedSnoc(xs, e, t);
    if e.time > l.time {
      NothingAt(xs, e.time);
    }
  }

  lemma {:induction false} LatestIs(xs: seq<Event>, l: Event)
    requires IsLatest(xs, l)
    ensures xs != [] && l == LatestOf(xs)
  {
    var t := MaxTime(xs);
    var i :| 0 <= i < |xs| && xs[i].time == t;
    var j :| 0 <= j < |xs| && xs[j].time == l.time;
  }

  lemma {:induction false} OnlyEvent(e: Event)
    ensures EndsOf([e], One(e))
  {
    MergedSnoc([], e, e.time);
    assert [] + [e] == [e];
    assert [e][0].time == e.time;
  }

  lemma {:induction false} AddKeepsEnds(xs: seq<Event>, a: Aggregate, e: Event)
    requires EndsOf(xs, a.ends)
    ensures EndsOf(xs + [e], AddEvent(Some(a), e).ends)
  {
    EarliestSnoc(xs, a.ends.First(), e);
    LatestSnoc(xs, a.ends.Last(), e);
  }

  /** What holds of a series after any operations: it is remembered exactly if an event was added and not
      more than maxRollOver resets have happened since; and then it knows the ends of its period. */
  ghost predicate SeriesInv(maxRollOver: nat, ops: seq<Op>, m: Maybe) {
    && (m.Some? <==> Remembered(maxRollOver, ops))
    && (m.None? ==> Period(maxRollOver, ops) == [])
    && (m.Some? ==> && EndsOf(Period(maxRollOver, ops), m.a.ends)
                    && m.a.rollOver == Quiet(ops)
                    && (m.a.ends.Two? ==> m.a.rollOver == 0))
  }

  lemma {:induction false} HasAddSnoc(ops: seq<Op>)
    requires ops != []
    ensures HasAdd(ops) <==> HasAdd(ops[..|ops| - 1]) || ops[|ops| - 1].Add?
  {
    var n := |ops| - 1;
    if HasAdd(ops[..n]) {
      var i :| 0 <= i < n && ops[..n][i].Add?;
      assert ops[i].Add?;
    }
  }

  lemma {:induction false} AddKeepsInv(maxRollOver: nat, ops: seq<Op>)
    requires ops != [] && ops[|ops| - 1].Add?
    requires SeriesInv(maxRollOver, ops[..|ops| - 1], After(maxRollOver, ops[..|ops| - 1]))
    ensures SeriesInv(maxRollOver, ops, After(maxRollOver, ops))
  {
    var before, e := ops[..|ops| - 1], ops[|ops| - 1].e;
    var m := After(maxRollOver, before);
    if m.Some? {
      AddKeepsEnds(Period(maxRollOver, before), m.a, e);
    } else {
      OnlyEvent(e);
      assert [] + [e] == [e];
    }
    HasAddSnoc(ops);
  }

  lemma {:induction false} ResetKeepsInv(maxRollOver: nat, ops: seq<Op>)
    requires ops != [] && ops[|ops| - 1].Reset?
    requires SeriesInv(maxRollOver, ops[..|ops| - 1], After(maxRollOver, ops[..|ops| - 1]))
    ensures SeriesInv(maxRollOver, ops, After(maxRollOver, ops))
  {
    var m := After(maxRollOver, ops[..|ops| - 1]);
    if m.Some? {
      OnlyEvent(m.a.ends.Last());
      LatestIs(Period(maxRollOver, ops[..|ops| - 1]), m.a.ends.Last());
    }
    HasAddSnoc(ops);
  }

  /** In every run of a series, first and last are the earliest and the latest of the event carried over and
      those added since the last reset, and distinct ends have distinct times; the series is forgotten
      exactly at reset number maxRollOver + 1 after its last event. */
  lemma {:induction false} EveryRunKeepsInv(maxRollOver: nat, ops: seq<Op>)
    ensures SeriesInv(maxRollOver, ops, After(maxRollOver, ops))
  {
    if ops != [] {
      EveryRunKeepsInv(maxRollOver, ops[..|ops| - 1]);
      if ops[|ops| - 1].Add? {
        AddKeepsInv(maxRollOver, ops);
      } else {
        ResetKeepsInv(maxRollOver, ops);
      }
    }
  }

  // The aggregator: all series together.

  datatype Call = AddCall(id: nat, e: Event) | ResetCall

  /** What a series sees of the calls. */
  function Project(calls: seq<Call>, id: nat): seq<Op> {
    if calls == [] then []
    else
      var c := calls[|calls| - 1];
      Project(calls[..|calls| - 1], id)
      + if c.ResetCall? then [Reset] else if c.id == id then [Add(c.e)] else []
  }

  function Lookup(cache: map<nat, Aggregate>, id: nat): Maybe {
    if id in cache then Some(cache[id]) else None
  }

  lemma {:induction false} ProjectSnoc(maxRollOver: nat, calls: seq<Call>, c: Call, id: nat)
    ensures var m := After(maxRollOver, Project(calls, id));
            After(maxRollOver, Project(calls + [c], id))
            == if c.ResetCall? then ResetSeries(maxRollOver, m) else if c.id == id then Some(AddEvent(m, c.e)) else m
  {
    assert (calls + [c])[..|calls|] == calls;
    var ops := Project(calls, id);
    if c.ResetCall? {
      assert (ops + [Reset])[..|ops|] == ops;
    } else if c.id == id {
      assert (ops + [Add(c.e)])[..|ops|] == ops;
    } else {
      assert ops + [] == ops;
    }
  }

  /** What Push does with a series: nothing, or a derivative for each of some fields. */
  datatype Pushed = Skipped | Derivatives(values: map<string, real>)

  /** The change of time, or of the derivation variable. */
  function Change(ends: Ends, variable: string): real
    requires variable != "" ==> variable in ends.First().fields && variable in ends.Last().fields
  {
    if variable == "" then Seconds(ends.Last().time - ends.First().time)
    else ends.Last().fields[variable] - ends.First().fields[variable]
  }

  predicate CanDerive(ends: Ends, variable: string) {
    && ends.Two?
    && (variable != "" ==> && variable in ends.First().fields && variable in ends.Last().fields
                           && ends.First().fields[variable] != ends.Last().fields[variable])
  }

  /** The derivatives of the fields that both ends have: each times the change of the time or variable gives
      the change of the field. */
  method PushSeries(ends: Ends, variable: string) returns (r: Pushed)
    requires EndsApart(ends)
    ensures r.Derivatives? <==> CanDerive(ends, variable)
    ensures r.Derivatives? ==> Change(ends, variable) != 0.0 && (variable == "" ==> Change(ends, variable) > 0.0)
    ensures r.Derivatives? ==> r.values.Keys == (ends.First().fields.Keys * ends.Last().fields.Keys) - {variable}
    ensures r.Derivatives? ==> forall key :: key in r.values ==>
              r.values[key] * Change(ends, variable) == ends.Last().fields[key] - ends.First().fields[key]
  {
    if ends.One? {
      return Skipped;
    }
    var first, last := ends.f, ends.l;
    var denominator := Seconds(last.time - first.time);
    if |variable| > 0 {
      if variable !in first.fields {
        return Skipped;
      }
      if variable !in last.fields {
        return Skipped;
      }
      denominator := last.fields[variable] - first.fields[variable];
    }
    if denominator == 0.0 {
      return Skipped;
    }
    var values := map[];
    var left := first.fields.Keys;
    while left != {}
      invariant left <= first.fields.Keys
      invariant values.Keys == ((first.fields.Keys - left) * last.fields.Keys) - {variable}
      invariant forall key :: key in values ==> values[key] * denominator == last.fields[key] - first.fields[key]
    {
      var key :| key in left;
      left := left - {key};
      if key == variable {
        continue;
      }
      if key in last.fields {
        DivideBack(last.fields[key] - first.fields[key], denominator);
        values := values[key := (last.fields[key] - first.fields[key]) / denominator];
      }
    }
    return Derivatives(values);
  }

  lemma DivideBack(a: real, b: real)
    requires b != 0.0
    ensures (a / b) * b == a
  {
  }

  class Aggregator {
    const variable: string
    const maxRollOver: nat
    var cache: map<nat, Aggregate>
    ghost var calls: seq<Call>

    ghost predicate Valid()
      reads this
    {
      forall id :: Lookup(cache, id) == After(maxRollOver, Project(calls, id))
    }

    constructor (variable: string, maxRollOver: nat)
      ensures Valid() && this.variable == variable && this.maxRollOver == maxRollOver && calls == []
    {
      this.variable, this.maxRollOver := variable, maxRollOver;
      cache, calls := map[], [];
    }

    method AddMetric(id: nat, e: Event)
      requires Valid()
      modifies this
      ensures Valid() && calls == old(calls) + [AddCall(id, e)]
    {
      calls := calls + [AddCall(id, e)];
      forall k: nat
        ensures After(maxRollOver, Project(calls, k))
                == if k == id then Some(AddEvent(Lookup(old(cache), id), e)) else Lookup(old(cache), k)
      {
        ProjectSnoc(maxRollOver, old(calls), AddCall(id, e), k);
      }
      if id !in cache {
        cache := cache[id := Aggregate(One(e), 0)];
        return;
      }
      var current := cache[id];
      var first, last, same := current.ends.First(), current.ends.Last(), current.ends.One?;
      if first.time > e.time {
        first, same := e, false;
        current := current.(rollOver := 0);
      } else if first.time == e.time {
        first := Upsert(first, e);
        if same {
          last := first;
        }
        current := current.(rollOver := 0);
      }
      if last.time < e.time {
        last, same := e, false;
        current := current.(rollOver := 0);
      } else if last.time == e.time {
        last := Upsert(last, e);
        if same {
          first := last;
        }
        current := current.(rollOver := 0);
      }
      current := current.(ends := if same then One(first) else Two(first, last));
      UpsertTwice(old(cache)[id].ends.First(), e);
      cache := cache[id := current];
    }

    /** Carry the last event of every series over to the next period, unless it has been carried over too
        often. */
    method ResetAll()
      requires Valid()
      modifies this
      ensures Valid() && calls == old(calls) + [ResetCall]
    {
      calls := calls + [ResetCall];
      var ids := cache.Keys;
      while ids != {}
        invariant ids <= cache.Keys && calls == old(calls) + [ResetCall]
        invariant forall id :: Lookup(cache, id)
                    == if id in ids then Lookup(old(cache), id) else ResetSeries(maxRollOver, Lookup(old(cache), id))
      {
        var id :| id in ids;
        ids := ids - {id};
        assert Lookup(cache, id) == Lookup(old(cache), id);
        var aggregate := cache[id];
        if aggregate.rollOver < maxRollOver {
          cache := cache[id := Aggregate(One(aggregate.ends.Last()), aggregate.rollOver + 1)];
        } else {
          cache := cache - {id};
        }
      }
      forall id: nat
        ensures After(maxRollOver, Project(calls, id)) == ResetSeries(maxRollOver, Lookup(old(cache), id))
      {
        ProjectSnoc(maxRollOver, old(calls), ResetCall, id);
      }
    }

    /** Push the derivatives of every series between the ends of its period. */
    method Push() returns (out: map<nat, Pushed>)
      requires Valid()
      ensures forall id :: PushedRight(maxRollOver, Project(calls, id), variable, out, id)
    {
      forall id | id in cache
        ensures EndsApart(cache[id].ends)
      {
        assert Lookup(cache, id) == After(maxRollOver, Project(calls, id));
        EveryRunKeepsInv(maxRollOver, Project(calls, id));
      }
      out := PushCache(cache, variable);
      forall id: nat
        ensures PushedRight(maxRollOver, Project(calls, id), variable, out, id)
      {
        assert Lookup(cache, id) == After(maxRollOver, Project(calls, id));
        EveryRunKeepsInv(maxRollOver, Project(calls, id));
      }
    }
  }

  predicate EndsApart(ends: Ends) {
    ends.Two? ==> ends.f.time < ends.l.time
  }

  /** Push every series in the cache that allows it, in any order. */
  method PushCache(cache: map<nat, Aggregate>, variable: string) returns (out: map<nat, Pushed>)
    requires forall id :: id in cache ==> EndsApart(cache[id].ends)
    ensures forall id :: id in out <==> id in cache && CanDerive(cache[id].ends, variable)
    ensures forall id :: id in out ==> Derives(cache[id].ends, variable, out[id])
  {
    out := map[];
    var ids := cache.Keys;
    while ids != {}
      invariant ids <= cache.Keys
      invariant forall id :: id in out <==> id in cache && id !in ids && CanDerive(cache[id].ends, variable)
      invariant forall id :: id in out ==> Derives(cache[id].ends, variable, out[id])
    {
      var id :| id in ids;
      ids := ids - {id};
      var r := PushSeries(cache[id].ends, variable);
      if r.Derivatives? {
        out := out[id := r];
      }
    }
  }

  /** A series is pushed exactly if it is remembered and the ends of its period allow it, and with the right
      derivatives. */
  ghost predicate PushedRight(maxRollOver: nat, ops: seq<Op>, variable: string, out: map<nat, Pushed>, id: nat) {
    var m := After(maxRollOver, ops);
    && SeriesInv(maxRollOver, ops, m)
    && (id in out <==> m.Some? && CanDerive(m.a.ends, variable))
    && (id in out ==> Derives(m.a.ends, variable, out[id]))
  }

  ghost predicate Derives(ends: Ends, variable: string, r: Pushed) {
    && CanDerive(ends, variable)
    && r.Derivatives?
    && r.values.Keys == (ends.First().fields.Keys * ends.Last().fields.Keys) - {variable}
    && forall key :: key in r.values ==>
         r.values[key] * Change(ends, variable) == ends.Last().fields[key] - ends.First().fields[key]
  }

  lemma UpsertTwice(t: Event, e: Event)
    ensures Upsert(Upsert(t, e), e) == Upsert(t, e)
  {
    assert t.fields + e.fields + e.fields == t.fields + e.fields;
  }
}
