/** The delivery loop of the AMQP consumer (plugins/inputs/amqp_consumer/amqp_consumer.go) with the
    bounded notification channel of its tracking accumulator (agent/accumulator.go), for one
    connection. The loop takes a semaphore token for every message it keeps open; notifications
    arrive from other goroutines at any time. */
module AmqpConsumer {

  /** A notification: the tracking id of a message's metric group, and whether it was delivered. */
  datatype Note = Note(id: nat, delivered: bool)

  /** A message that has been acknowledged or rejected at the broker. */
  datatype Settlement = Settlement(msg: nat, ack: bool)

  datatype Loop =
    | Head                          // at the outer select
    | Holding                       // at the inner select, with a fresh token
    | Adding(id: nat, msg: nat)     // in onMessage, the group is tracked but not yet recorded
    | Left                          // process has returned

  datatype Consumer = Consumer(
    max: nat,                       // MaxUndeliveredMessages
    loop: Loop,
    sem: nat,                       // tokens in the semaphore
    deliveries: map<nat, nat>,      // open messages by tracking id
    notes: seq<Note>,               // the accumulator's channel of notifications
    tracked: set<nat>,              // groups that have not been notified yet
    nextId: nat,
    received: nat,                  // number of messages taken from the broker
    settled: seq<Settlement>,
    panicked: bool,                 // a notification found the channel full
    stuck: bool)                    // a token was taken back that was not there

  function Initial(max: nat): Consumer {
    Consumer(max, Head, 0, map[], [], {}, 0, 0, [], false, false)
  }

  datatype Step =
    | Acquire                        // sem <- empty{}
    | HeadNote | HoldNote            // a notification is read at the outer or inner select
    | GoodMessage | BadMessage       // a message is read; the bad one fails to decode or parse
    | Record                         // onMessage records the group it has added
    | Notify(id: nat, delivered: bool)
    | Leave                          // context done, or the broker's channel closed

  predicate Enabled(c: Consumer, s: Step) {
    match s
    case Acquire => c.loop.Head? && c.sem < c.max
    case HeadNote => c.loop.Head? && c.notes != []
    case HoldNote => c.loop.Holding? && c.notes != []
    case GoodMessage => c.loop.Holding?
    case BadMessage => c.loop.Holding?
    case Record => c.loop.Adding?
    case Notify(id, _) => id in c.tracked
    case Leave => c.loop.Head? || c.loop.Holding?
  }

  /** onDelivery: settles the message of a notification; false if the id is not known. */
  function OnDelivery(c: Consumer, n: Note): (Consumer, bool) {
    if n.id !in c.deliveries then (c, false)
    else (c.(settled := c.settled + [Settlement(c.deliveries[n.id], n.delivered)],
             deliveries := c.deliveries - {n.id}), true)
  }

  /** Takes `k` tokens back. */
  function Release(c: Consumer, k: nat): Consumer {
    if c.sem < k then c.(stuck := true) else c.(sem := c.sem - k)
  }

  function Next(c: Consumer, s: Step): (d: Consumer)
    requires Enabled(c, s)
    ensures d.max == c.max
  {
    match s
    case Acquire => c.(sem := c.sem + 1, loop := Holding)
    case HeadNote =>
      var (d, ok) := OnDelivery(c.(notes := c.notes[1..]), c.notes[0]);
      if ok then Release(d, 1) else d
    case HoldNote =>
      var (d, ok) := OnDelivery(c.(notes := c.notes[1..], loop := Head), c.notes[0]);
      if ok then Release(d, 2) else d
    case GoodMessage =>
      c.(loop := Adding(c.nextId, c.received), tracked := c.tracked + {c.nextId},
         nextId := c.nextId + 1, received := c.received + 1)
    case BadMessage =>
      Release(c.(loop := Head, received := c.received + 1,
                 settled := c.settled + [Settlement(c.received, true)]), 1)
    case Record => c.(deliveries := c.deliveries[c.loop.id := c.loop.msg], loop := Head)
    case Notify(id, delivered) =>
      var d := c.(tracked := c.tracked - {id});
      if |c.notes| >= c.max then d.(panicked := true) else d.(notes := c.notes + [Note(id, delivered)])
    case Leave => c.(loop := Left)
  }

  // What every run keeps.

  /** Tokens held by the loop for something that is not recorded in `deliveries`. */
  function Extra(c: Consumer): nat {
    if c.loop.Holding? || c.loop.Adding? then 1 else 0
  }

  function NoteIds(notes: seq<Note>): set<nat> {
    set i | 0 <= i < |notes| :: notes[i].id
  }

  /** The ids of all groups that the loop has added and not yet settled. */
  function Open(c: Consumer): set<nat> {
    c.deliveries.Keys + if c.loop.Adding? then {c.loop.id} else {}
  }

  /** Every open group is either still tracked or has exactly one unread notification. */
  ghost predicate NotesMatch(c: Consumer) {
    && NoteIds(c.notes) + c.tracked == Open(c)
    && NoteIds(c.notes) !! c.tracked
    && (forall i, j :: 0 <= i < j < |c.notes| ==> c.notes[i].id != c.notes[j].id)
    && (forall id :: id in Open(c) ==> id < c.nextId)
    && (c.loop.Adding? ==> c.loop.id !in c.deliveries)
  }

  ghost predicate IsSettled(c: Consumer, msg: nat) {
    exists i :: 0 <= i < |c.settled| && c.settled[i].msg == msg
  }

  ghost predicate IsOpen(c: Consumer, msg: nat) {
    (c.loop.Adding? && c.loop.msg == msg) || exists id :: id in c.deliveries && c.deliveries[id] == msg
  }

  /** Every message received is open or settled but not both, and none is settled or open twice. */
  ghost predicate MessagesOnce(c: Consumer) {
    && (forall m: nat :: m < c.received <==> IsSettled(c, m) || IsOpen(c, m))
    && (forall m: nat :: !(IsSettled(c, m) && IsOpen(c, m)))
    && (forall i, j :: 0 <= i < j < |c.settled| ==> c.settled[i].msg != c.settled[j].msg)
    && (forall x, y :: x in c.deliveries && y in c.deliveries && c.deliveries[x] == c.deliveries[y] ==> x == y)
    && (c.loop.Adding? ==> forall x :: x in c.deliveries ==> c.deliveries[x] != c.loop.msg)
  }

  // What the steps of a run say about the messages. Message `m` is the one that was read after `m` others, and
  // group `id` the one that was made after `id` others.

  function Messages(steps: seq<Step>): nat {
    if steps == [] then 0
    else
      var s := steps[|steps| - 1];
      Messages(steps[..|steps| - 1]) + if s.GoodMessage? || s.BadMessage? then 1 else 0
  }

  function Groups(steps: seq<Step>): nat {
    if steps == [] then 0 else Groups(steps[..|steps| - 1]) + if steps[|steps| - 1].GoodMessage? then 1 else 0
  }

  /** How many steps answer the broker: those that read a notification or a bad message. */
  function Answers(steps: seq<Step>): nat {
    if steps == [] then 0
    else
      var s := steps[|steps| - 1];
      Answers(steps[..|steps| - 1]) + if s.HeadNote? || s.HoldNote? || s.BadMessage? then 1 else 0
  }

  /** Message `m` parsed, and its metrics became group `id`. */
  ghost predicate Parsed(steps: seq<Step>, m: nat, id: nat) {
    exists i :: 0 <= i < |steps| && steps[i].GoodMessage? && Messages(steps[..i]) == m && Groups(steps[..i]) == id
  }

  /** Message `m` did not parse. */
  ghost predicate Unparsed(steps: seq<Step>, m: nat) {
    exists i :: 0 <= i < |steps| && steps[i].BadMessage? && Messages(steps[..i]) == m
  }

  ghost predicate Notified(steps: seq<Step>, id: nat) {
    Notify(id, true) in steps || Notify(id, false) in steps
  }

  /** A settlement passes on what was notified for the message's group; a message that could not be
      parsed is acknowledged, so that the broker discards it. */
  ghost predicate Honest(steps: seq<Step>, s: Settlement) {
    || (Unparsed(steps, s.msg) && s.ack)
    || exists id :: Parsed(steps, s.msg, id) && Notify(id, s.ack) in steps
  }

  /** The steps account for every settlement, every notification and every open message. */
  ghost predicate Explains(c: Consumer, steps: seq<Step>) {
    && (forall i :: 0 <= i < |c.settled| ==> Honest(steps, c.settled[i]))
    && (forall i :: 0 <= i < |c.notes| ==> Notify(c.notes[i].id, c.notes[i].delivered) in steps)
    && (forall id :: id in c.deliveries ==> Parsed(steps, c.deliveries[id], id))
    && (c.loop.Adding? ==> Parsed(steps, c.loop.msg, c.loop.id))
  }

  /** The steps of the run explain the state. */
  ghost predicate Explained(c: Consumer, steps: seq<Step>) {
    && c.received == Messages(steps) && c.nextId == Groups(steps) && |c.settled| == Answers(steps)
    && Explains(c, steps)
    && (forall id: nat :: id in c.tracked <==> id < Groups(steps) && !Notified(steps, id))
    && (forall id: nat :: Notified(steps, id) ==> id < Groups(steps))
  }

  ghost predicate Inv(c: Consumer) {
    && !c.panicked && !c.stuck
    && (c.loop.Left? || c.sem == |c.deliveries| + Extra(c))
    && |c.deliveries| + Extra(c) <= c.max
    && NotesMatch(c) && MessagesOnce(c)
  }

  /** Distinct notifications are as many as their ids. */
  lemma {:induction false} CountIds(notes: seq<Note>)
    requires forall i, j :: 0 <= i < j < |notes| ==> notes[i].id != notes[j].id
    ensures |NoteIds(notes)| == |notes|
  {
    if notes != [] {
      var n := |notes| - 1;
      CountIds(notes[..n]);
      assert NoteIds(notes) == NoteIds(notes[..n]) + {notes[n].id};
    }
  }

  /** Unread notifications never exceed the bound, and there is room for every one still to come. */
  lemma NotesFit(c: Consumer)
    requires Inv(c)
    ensures |c.notes| + |c.tracked| <= c.max
  {
    CountIds(c.notes);
    assert |NoteIds(c.notes) + c.tracked| == |NoteIds(c.notes)| + |c.tracked|;
    assert |c.deliveries.Keys| == |c.deliveries|;
    if c.loop.Adding? {
      assert |Open(c)| == |c.deliveries| + 1;
    }
  }

  lemma NoteIdsSnoc(notes: seq<Note>, n: Note)
    ensures NoteIds(notes + [n]) == NoteIds(notes) + {n.id}
  {
    var more := notes + [n];
    assert more[|notes|] == n;
    forall x | x in NoteIds(notes)
      ensures x in NoteIds(more)
    {
      var i :| 0 <= i < |notes| && notes[i].id == x;
      assert more[i].id == x;
    }
  }

  /** A notification takes the place of a tracked group. */
  lemma NotesAfterNotify(c: Consumer, d: Consumer, n: Note)
    requires NotesMatch(c) && n.id in c.tracked
    requires d == c.(tracked := c.tracked - {n.id}, notes := c.notes + [n])
    ensures NotesMatch(d)
  {
    NoteIdsSnoc(c.notes, n);
    forall i | 0 <= i < |c.notes|
      ensures d.notes[i].id != n.id
    {
      assert c.notes[i].id in NoteIds(c.notes);
    }
  }

  lemma NotifyKeepsInv(c: Consumer, id: nat, delivered: bool)
    requires Inv(c) && Enabled(c, Notify(id, delivered))
    ensures Inv(Next(c, Notify(id, delivered)))
  {
    var d := Next(c, Notify(id, delivered));
    TrackedLeavesRoom(c, id);
    NotesAfterNotify(c, d, Note(id, delivered));
    SameMessages(c, d);
  }

  lemma SameMessages(c: Consumer, d: Consumer)
    requires MessagesOnce(c) && d.settled == c.settled && d.deliveries == c.deliveries && d.received == c.received
    requires d.loop == c.loop || !(c.loop.Adding? || d.loop.Adding?)
    ensures MessagesOnce(d)
  {
    assert forall m: nat :: IsSettled(d, m) == IsSettled(c, m) && IsOpen(d, m) == IsOpen(c, m);
  }

  lemma WaitingKeepsInv(c: Consumer, s: Step)
    requires Inv(c) && Enabled(c, s) && (s.Acquire? || s.Leave?)
    ensures Inv(Next(c, s))
  {
    var d := Next(c, s);
    assert Open(d) == Open(c);
    SameMessages(c, d);
  }

  /** Reading the first notification closes its group. */
  lemma NotesAfterRead(c: Consumer, d: Consumer)
    requires NotesMatch(c) && c.notes != [] && !c.loop.Adding? && !d.loop.Adding?
    requires d.notes == c.notes[1..] && d.tracked == c.tracked && d.nextId == c.nextId
    requires d.deliveries == c.deliveries - {c.notes[0].id}
    ensures c.notes[0].id in c.deliveries && NotesMatch(d)
  {
    assert c.notes[0].id in NoteIds(c.notes);
    assert c.notes[0].id in Open(c);
    assert NoteIds(d.notes) == NoteIds(c.notes) - {c.notes[0].id} by {
      forall x | x in NoteIds(c.notes) && x != c.notes[0].id
        ensures x in NoteIds(d.notes)
      {
        var i :| 0 <= i < |c.notes| && c.notes[i].id == x;
        assert d.notes[i - 1].id == x;
      }
    }
  }

  /** A message that was open is settled once. */
  lemma MessagesAfterSettle(c: Consumer, d: Consumer, id: nat, ack: bool)
    requires MessagesOnce(c) && id in c.deliveries && !c.loop.Adding? && !d.loop.Adding?
    requires d.deliveries == c.deliveries - {id} && d.received == c.received
    requires d.settled == c.settled + [Settlement(c.deliveries[id], ack)]
    ensures MessagesOnce(d)
  {
    var msg := c.deliveries[id];
    assert IsOpen(c, msg);
    SettledSnoc(c, d, msg);
    forall m: nat
      ensures IsOpen(d, m) <==> IsOpen(c, m) && m != msg
    {
      if IsOpen(c, m) && m != msg {
        var x :| x in c.deliveries && c.deliveries[x] == m;
        assert x in d.deliveries && d.deliveries[x] == m;
      }
    }
  }

  lemma SettledSnoc(c: Consumer, d: Consumer, msg: nat)
    requires |d.settled| == |c.settled| + 1
    requires d.settled[..|c.settled|] == c.settled && d.settled[|c.settled|].msg == msg
    ensures forall m: nat :: IsSettled(d, m) <==> IsSettled(c, m) || m == msg
  {
    forall m: nat
      ensures IsSettled(d, m) <==> IsSettled(c, m) || m == msg
    {
      assert d.settled[|c.settled|].msg == msg;
      if IsSettled(c, m) {
        var i :| 0 <= i < |c.settled| && c.settled[i].msg == m;
        assert d.settled[i].msg == m;
      }
      if IsSettled(d, m) && m != msg {
        var i :| 0 <= i < |d.settled| && d.settled[i].msg == m;
        assert c.settled[i].msg == m;
      }
    }
  }

  /** Every notification read belongs to an open message, so it is settled and its tokens come back. */
  lemma ReadKeepsInv(c: Consumer, s: Step)
    requires Inv(c) && Enabled(c, s) && (s.HeadNote? || s.HoldNote?)
    ensures Inv(Next(c, s)) && Next(c, s).loop.Head?
    ensures |Next(c, s).settled| == |c.settled| + 1
  {
    var d := Next(c, s);
    var id := c.notes[0].id;
    NotesAfterRead(c, c.(notes := c.notes[1..], deliveries := c.deliveries - {id}));
    assert |(c.deliveries - {id}).Keys| == |c.deliveries.Keys - {id}| by {
      assert (c.deliveries - {id}).Keys == c.deliveries.Keys - {id};
    }
    NotesAfterRead(c, d);
    MessagesAfterSettle(c, d, id, c.notes[0].delivered);
  }

  lemma BadMessageKeepsInv(c: Consumer)
    requires Inv(c) && Enabled(c, BadMessage)
    ensures Inv(Next(c, BadMessage))
  {
    var d := Next(c, BadMessage);
    assert Open(d) == Open(c);
    assert !IsSettled(c, c.received) && !IsOpen(c, c.received);
    SettledSnoc(c, d, c.received);
    assert forall m: nat :: IsOpen(d, m) == IsOpen(c, m);
    forall i | 0 <= i < |c.settled|
      ensures d.settled[i].msg != c.received
    {
      assert IsSettled(c, c.settled[i].msg);
    }
  }

  lemma MessagesAfterGood(c: Consumer, d: Consumer)
    requires MessagesOnce(c) && !c.loop.Adding? && d.loop.Adding? && d.loop.msg == c.received
    requires d.settled == c.settled && d.deliveries == c.deliveries && d.received == c.received + 1
    ensures MessagesOnce(d)
  {
    assert !IsSettled(c, c.received) && !IsOpen(c, c.received);
    assert forall m: nat :: IsSettled(d, m) == IsSettled(c, m);
    assert forall m: nat :: IsOpen(d, m) <==> IsOpen(c, m) || m == c.received;
    forall x | x in c.deliveries
      ensures c.deliveries[x] != c.received
    {
      assert IsOpen(c, c.deliveries[x]);
    }
  }

  lemma NotesAfterGood(c: Consumer, d: Consumer)
    requires NotesMatch(c) && c.loop.Holding? && d == Next(c, GoodMessage)
    ensures NotesMatch(d)
  {
    assert Open(d) == Open(c) + {c.nextId};
    assert c.nextId !in Open(c);
  }

  lemma GoodMessageKeepsInv(c: Consumer)
    requires Inv(c) && Enabled(c, GoodMessage)
    ensures Inv(Next(c, GoodMessage))
  {
    var d := Next(c, GoodMessage);
    NotesAfterGood(c, d);
    MessagesAfterGood(c, d);
  }

  lemma MessagesAfterRecord(c: Consumer, d: Consumer)
    requires MessagesOnce(c) && c.loop.Adding? && c.loop.id !in c.deliveries && d == Next(c, Record)
    ensures MessagesOnce(d)
  {
    assert forall m: nat :: IsSettled(d, m) == IsSettled(c, m);
    forall m: nat
      ensures IsOpen(d, m) == IsOpen(c, m)
    {
      assert d.deliveries[c.loop.id] == c.loop.msg;
      if x :| x in c.deliveries && c.deliveries[x] == m {
        assert x in d.deliveries && d.deliveries[x] == m;
      }
    }
  }

  lemma OpenAfterRecord(c: Consumer, d: Consumer)
    requires c.loop.Adding? && c.loop.id !in c.deliveries && d == Next(c, Record)
    ensures Open(d) == Open(c) && |d.deliveries| == |c.deliveries| + 1
  {
    var keys := c.deliveries.Keys;
    assert d.deliveries.Keys == keys + {c.loop.id};
    assert |d.deliveries| == |d.deliveries.Keys| == |keys + {c.loop.id}| == |keys| + 1;
  }

  lemma NotesAfterRecord(c: Consumer, d: Consumer)
    requires NotesMatch(c) && c.loop.Adding? && d == Next(c, Record)
    ensures NotesMatch(d) && |d.deliveries| == |c.deliveries| + 1
  {
    OpenAfterRecord(c, d);
    assert d.notes == c.notes && d.tracked == c.tracked;
  }

  lemma RecordKeepsInv(c: Consumer)
    requires Inv(c) && Enabled(c, Record)
    ensures Inv(Next(c, Record))
  {
    var d := Next(c, Record);
    NotesAfterRecord(c, d);
    MessagesAfterRecord(c, d);
  }

  lemma StepKeepsInv(c: Consumer, s: Step)
    requires Inv(c) && Enabled(c, s)
    ensures Inv(Next(c, s))
  {
    match s
    case Acquire => WaitingKeepsInv(c, s);
    case Leave => WaitingKeepsInv(c, s);
    case HeadNote => ReadKeepsInv(c, s);
    case HoldNote => ReadKeepsInv(c, s);
    case GoodMessage => GoodMessageKeepsInv(c);
    case BadMessage => BadMessageKeepsInv(c);
    case Record => RecordKeepsInv(c);
    case Notify(id, delivered) => NotifyKeepsInv(c, id, delivered);
  }

  // The steps keep explaining the state.

  lemma {:induction false} Extended(steps: seq<Step>, s: Step)
    ensures Counts(steps, s, steps + [s])
  {
    assert (steps + [s])[..|steps|] == steps;
  }

  lemma {:induction false} StaysParsed(steps: seq<Step>, s: Step, m: nat, id: nat)
    requires Parsed(steps, m, id)
    ensures Parsed(steps + [s], m, id)
  {
    var i :| 0 <= i < |steps| && steps[i].GoodMessage? && Messages(steps[..i]) == m && Groups(steps[..i]) == id;
    assert (steps + [s])[..i] == steps[..i] && (steps + [s])[i] == steps[i];
  }

  lemma {:induction false} StaysUnparsed(steps: seq<Step>, s: Step, m: nat)
    requires Unparsed(steps, m)
    ensures Unparsed(steps + [s], m)
  {
    var i :| 0 <= i < |steps| && steps[i].BadMessage? && Messages(steps[..i]) == m;
    assert (steps + [s])[..i] == steps[..i] && (steps + [s])[i] == steps[i];
  }

  lemma {:induction false} StaysHonest(steps: seq<Step>, s: Step, e: Settlement)
    requires Honest(steps, e)
    ensures Honest(steps + [s], e)
  {
    if Unparsed(steps, e.msg) && e.ack {
      StaysUnparsed(steps, s, e.msg);
    } else {
      var id :| Parsed(steps, e.msg, id) && Notify(id, e.ack) in steps;
      StaysParsed(steps, s, e.msg, id);
    }
  }

  /** `more` counts one step more than `steps`. */
  ghost predicate Counts(steps: seq<Step>, s: Step, more: seq<Step>) {
    && Messages(more) == Messages(steps) + (if s.GoodMessage? || s.BadMessage? then 1 else 0)
    && Groups(more) == Groups(steps) + (if s.GoodMessage? then 1 else 0)
    && Answers(more) == Answers(steps) + (if s.HeadNote? || s.HoldNote? || s.BadMessage? then 1 else 0)
    && (forall id: nat :: Notified(more, id) <==> Notified(steps, id) || (s.Notify? && s.id == id))
  }

  /** What was explained stays explained. */
  lemma {:induction false} StaysExplained(c: Consumer, steps: seq<Step>, s: Step)
    requires Explained(c, steps)
    ensures Explains(c, steps + [s])
  {
    forall i | 0 <= i < |c.settled|
      ensures Honest(steps + [s], c.settled[i])
    {
      StaysHonest(steps, s, c.settled[i]);
    }
    forall id | id in c.deliveries
      ensures Parsed(steps + [s], c.deliveries[id], id)
    {
      StaysParsed(steps, s, c.deliveries[id], id);
    }
    if c.loop.Adding? {
      StaysParsed(steps, s, c.loop.msg, c.loop.id);
    }
  }

  lemma {:induction false} ReadEffect(c: Consumer, s: Step)
    requires Inv(c) && Enabled(c, s) && (s.HeadNote? || s.HoldNote?)
    ensures var d, n := Next(c, s), c.notes[0];
            && n.id in c.deliveries
            && d == c.(notes := c.notes[1..], deliveries := c.deliveries - {n.id}, loop := Head, sem := d.sem,
                       settled := c.settled + [Settlement(c.deliveries[n.id], n.delivered)])
  {
    ReadFindsMessage(c);
  }

  lemma {:induction false} ExplainedAfterRead(c: Consumer, steps: seq<Step>, s: Step, more: seq<Step>, d: Consumer)
    requires Explained(c, steps) && (s.HeadNote? || s.HoldNote?) && Counts(steps, s, more) && Explains(c, more)
    requires c.notes != [] && c.notes[0].id in c.deliveries && d.loop.Head?
    requires d == c.(notes := c.notes[1..], deliveries := c.deliveries - {c.notes[0].id}, loop := d.loop, sem := d.sem,
                     settled := c.settled + [Settlement(c.deliveries[c.notes[0].id], c.notes[0].delivered)])
    ensures Explained(d, more)
  {
    var n := c.notes[0];
    assert Parsed(more, c.deliveries[n.id], n.id);
    assert Honest(more, Settlement(c.deliveries[n.id], n.delivered));
  }

  lemma {:induction false} ExplainedAfterNotify(c: Consumer, steps: seq<Step>, s: Step, more: seq<Step>)
    requires Inv(c) && Explained(c, steps) && Enabled(c, s) && s.Notify?
    requires Counts(steps, s, more) && Explains(c, more) && s in more
    ensures Explained(Next(c, s), more)
  {
    TrackedLeavesRoom(c, s.id);
  }

  lemma {:induction false} ExplainedAfterMessage(c: Consumer, steps: seq<Step>, s: Step, more: seq<Step>)
    requires Explained(c, steps) && Enabled(c, s) && (s.GoodMessage? || s.BadMessage?)
    requires Counts(steps, s, more) && Explains(c, more)
    requires s.GoodMessage? ==> Parsed(more, c.received, c.nextId)
    requires s.BadMessage? ==> Unparsed(more, c.received)
    ensures Explained(Next(c, s), more)
  {
    assert s.BadMessage? ==> Honest(more, Settlement(c.received, true));
  }

  lemma {:induction false} ExplainedAfterOther(c: Consumer, steps: seq<Step>, s: Step, more: seq<Step>)
    requires Explained(c, steps) && Enabled(c, s) && (s.Acquire? || s.Record? || s.Leave?)
    requires Counts(steps, s, more) && Explains(c, more)
    ensures Explained(Next(c, s), more)
  {
  }

  lemma {:induction false} LastMessage(steps: seq<Step>, s: Step)
    ensures s.GoodMessage? ==> Parsed(steps + [s], Messages(steps), Groups(steps))
    ensures s.BadMessage? ==> Unparsed(steps + [s], Messages(steps))
  {
    assert (steps + [s])[..|steps|] == steps && (steps + [s])[|steps|] == s;
  }

  /** Every step adds itself to the explanation of the state. */
  lemma {:induction false} StepKeepsExplained(c: Consumer, steps: seq<Step>, s: Step)
    requires Inv(c) && Explained(c, steps) && Enabled(c, s)
    ensures Explained(Next(c, s), steps + [s])
  {
    Extended(steps, s);
    StaysExplained(c, steps, s);
    LastMessage(steps, s);
    if s.HeadNote? || s.HoldNote? {
      ReadEffect(c, s);
      ExplainedAfterRead(c, steps, s, steps + [s], Next(c, s));
    } else if s.Notify? {
      ExplainedAfterNotify(c, steps, s, steps + [s]);
    } else if s.GoodMessage? || s.BadMessage? {
      ExplainedAfterMessage(c, steps, s, steps + [s]);
    } else {
      ExplainedAfterOther(c, steps, s, steps + [s]);
    }
  }

  lemma {:induction false} MessagesGrow(steps: seq<Step>, i: nat, j: nat)
    requires i < j <= |steps|
    ensures Messages(steps[..j])
            >= Messages(steps[..i]) + if steps[i].GoodMessage? || steps[i].BadMessage? then 1 else 0
  {
    assert steps[..j] == steps[..j - 1] + [steps[j - 1]];
    Extended(steps[..j - 1], steps[j - 1]);
    if i < j - 1 {
      MessagesGrow(steps, i, j - 1);
    }
  }

  /** A message parses into one group, or not at all. */
  lemma {:induction false} OneOutcome(steps: seq<Step>, m: nat, id: nat)
    requires Parsed(steps, m, id)
    ensures !Unparsed(steps, m)
    ensures forall id' :: Parsed(steps, m, id') ==> id' == id
  {
    var i :| 0 <= i < |steps| && steps[i].GoodMessage? && Messages(steps[..i]) == m && Groups(steps[..i]) == id;
    forall j | 0 <= j < |steps| && (steps[j].GoodMessage? || steps[j].BadMessage?) && Messages(steps[..j]) == m
      ensures j == i
    {
      if i < j {
        MessagesGrow(steps, i, j);
      } else if j < i {
        MessagesGrow(steps, j, i);
      }
    }
  }

  lemma ReadFindsMessage(c: Consumer)
    requires Inv(c) && c.notes != [] && !c.loop.Adding?
    ensures c.notes[0].id in c.deliveries && |c.deliveries| >= 1
  {
    assert c.notes[0].id in NoteIds(c.notes);
    assert c.notes[0].id in Open(c);
    assert c.deliveries.Keys - {c.notes[0].id} + {c.notes[0].id} == c.deliveries.Keys;
  }

  lemma TrackedLeavesRoom(c: Consumer, id: nat)
    requires Inv(c) && id in c.tracked
    ensures |c.notes| < c.max
  {
    NotesFit(c);
    assert c.tracked - {id} + {id} == c.tracked;
  }

  lemma InvInitial(max: nat)
    ensures Inv(Initial(max)) && Explained(Initial(max), [])
  {
    var c := Initial(max);
    assert NoteIds(c.notes) == {} == Open(c);
    assert forall m: nat :: !IsSettled(c, m) && !IsOpen(c, m);
  }

  // Whole runs.

  /** The steps can be taken one after the other from the start, and lead to `c`. */
  ghost predicate LeadsTo(max: nat, steps: seq<Step>, c: Consumer) {
    if steps == [] then c == Initial(max)
    else
      var before, s := steps[..|steps| - 1], steps[|steps| - 1];
      exists b: Consumer :: LeadsTo(max, before, b) && Enabled(b, s) && c == Next(b, s)
  }

  lemma {:induction false} MoveKeepsInv(b: Consumer, before: seq<Step>, c: Consumer, steps: seq<Step>)
    requires Inv(b) && Explained(b, before) && steps != [] && before == steps[..|steps| - 1]
    requires Enabled(b, steps[|steps| - 1]) && c == Next(b, steps[|steps| - 1])
    ensures Inv(c) && Explained(c, steps)
  {
    StepKeepsInv(b, steps[|steps| - 1]);
    StepKeepsExplained(b, before, steps[|steps| - 1]);
    assert before + [steps[|steps| - 1]] == steps;
  }

  lemma {:induction false} EveryRunKeepsInv(max: nat, steps: seq<Step>, c: Consumer)
    requires LeadsTo(max, steps, c)
    ensures Inv(c) && Explained(c, steps) && c.max == max
  {
    if steps == [] {
      InvInitial(max);
    } else {
      var before, s := steps[..|steps| - 1], steps[|steps| - 1];
      var b: Consumer :| LeadsTo(max, before, b) && Enabled(b, s) && c == Next(b, s);
      EveryRunKeepsInv(max, before, b);
      MoveKeepsInv(b, before, c, steps);
    }
  }

  /** In every run: tokens and open messages agree at the loop head, whoever may notify finds room in the
      channel, so the panic is unreachable, every notification that can be read finds its message and the tokens
      to take back, every message that was read is either open or settled once, and while the loop waits for a
      token some group is still to be notified. */
  lemma {:induction false} InFlightIsBounded(max: nat, steps: seq<Step>, c: Consumer)
    requires LeadsTo(max, steps, c)
    ensures !c.panicked && !c.stuck
    ensures c.loop.Head? ==> c.sem == |c.deliveries|
    ensures |c.deliveries| <= max && |c.notes| + |c.tracked| <= max
    ensures forall id: nat :: id in c.tracked <==> id < Groups(steps) && !Notified(steps, id)
    ensures c.tracked != {} ==> |c.notes| < max
    ensures c.loop.Head? && c.notes == [] && c.sem == max > 0 ==> c.tracked != {}
    ensures c.notes != [] && !c.loop.Adding? ==> c.notes[0].id in c.deliveries
    ensures c.notes != [] && c.loop.Head? ==> c.sem >= 1
    ensures c.notes != [] && c.loop.Holding? ==> c.sem >= 2
    ensures forall i, j :: 0 <= i < j < |c.settled| ==> c.settled[i].msg != c.settled[j].msg
    ensures forall m: nat :: m < Messages(steps) <==> IsSettled(c, m) || IsOpen(c, m)
    ensures forall m: nat :: !(IsSettled(c, m) && IsOpen(c, m))
  {
    EveryRunKeepsInv(max, steps, c);
    NotesFit(c);
    assert c.tracked != {} ==> |c.tracked| >= 1;
    assert |c.deliveries.Keys| == |c.deliveries|;
    if c.notes != [] && !c.loop.Adding? {
      ReadFindsMessage(c);
    }
  }

  /** In every run a settlement says what the steps said: a message that did not parse is acknowledged, and one that
      parsed is acknowledged if its group was notified as delivered and rejected if it was notified as not delivered.
      There is one settlement for each notification and each bad message that was read. */
  lemma {:induction false} SettledAsNotified(max: nat, steps: seq<Step>, c: Consumer, k: nat)
    requires LeadsTo(max, steps, c) && k < |c.settled|
    ensures |c.settled| == Answers(steps)
    ensures Unparsed(steps, c.settled[k].msg) ==> c.settled[k].ack
    ensures !Unparsed(steps, c.settled[k].msg) ==> exists id :: Parsed(steps, c.settled[k].msg, id)
    ensures forall id :: Parsed(steps, c.settled[k].msg, id) ==>
              Notify(id, c.settled[k].ack) in steps && Notify(id, !c.settled[k].ack) !in steps
  {
    EveryRunKeepsInv(max, steps, c);
    var s := c.settled[k];
    assert Honest(steps, s);
    forall id | Parsed(steps, s.msg, id)
      ensures Notify(id, s.ack) in steps && Notify(id, !s.ack) !in steps
    {
      OneOutcome(steps, s.msg, id);
      if Notify(id, !s.ack) in steps {
        NotifiedOnce(max, steps, c, id);
      }
    }
    if Unparsed(steps, s.msg) && !s.ack {
      var id :| Parsed(steps, s.msg, id) && Notify(id, s.ack) in steps;
      OneOutcome(steps, s.msg, id);
    }
  }

  /** No group is notified both ways. */
  lemma {:induction false} NotifiedOnce(max: nat, steps: seq<Step>, c: Consumer, id: nat)
    requires LeadsTo(max, steps, c) && Notify(id, true) in steps
    ensures Notify(id, false) !in steps
  {
    var before, s := steps[..|steps| - 1], steps[|steps| - 1];
    assert steps == before + [s];
    var b: Consumer :| LeadsTo(max, before, b) && Enabled(b, s) && c == Next(b, s);
    EveryRunKeepsInv(max, before, b);
    if s.Notify? && s.id == id {
      assert !Notified(before, id);
    } else {
      NotifiedOnce(max, before, b, id);
    }
  }
}
