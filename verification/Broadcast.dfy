/** The broadcast server: handlers queue actions under a lock and notify a condition variable; one thread
  * waits for actions and applies them.  Every lock-protected section and every step between two of them
  * is a transition, and transitions interleave in any order.  Sending is assumed to succeed. */
module Broadcast {
  import opened Bytes

  type Hdl = nat
  type Text = seq<char>

  datatype Action = Subscribe(hdl: Hdl) | Unsubscribe(hdl: Hdl) | Message(hdl: Hdl, text: Text)

  /** Where the processing thread is: about to look at the queue, asleep, with an action it took, or
    * sending a message to the connections that are left. */
  datatype Consumer = Looking | Waiting | Holding(action: Action) | Sending(action: Action, todo: seq<Hdl>)

  datatype Server = Server(queue: seq<Action>, connections: set<Hdl>, consumer: Consumer, unnotified: nat,
                           enqueued: seq<Action>, processed: seq<Action>, log: seq<(Hdl, Text)>)

  const INITIAL := Server([], {}, Looking, 0, [], [], [])

  // ---------------------------------------------------------------- transitions

  /** A handler's critical section; it has yet to notify. */
  function Enqueue(s: Server, a: Action): Server {
    s.(queue := s.queue + [a], enqueued := s.enqueued + [a], unnotified := s.unnotified + 1)
  }

  /** `notify_one` wakes the only thread that can wait, and is lost on one that does not. */
  function Notify(s: Server): Server
    requires s.unnotified > 0
  {
    s.(unnotified := s.unnotified - 1, consumer := if s.consumer.Waiting? then Looking else s.consumer)
  }

  /** The critical section of the processing thread. */
  function Look(s: Server): Server
    requires s.consumer.Looking?
  {
    s.(consumer := if s.queue == [] then Waiting else Holding(s.queue[0]),
       queue := if s.queue == [] then s.queue else s.queue[1..])
  }

  /** Some order in which a set is iterated over. */
  ghost predicate Enumerates(order: seq<Hdl>, hs: set<Hdl>) {
    (forall i, j :: 0 <= i < j < |order| ==> order[i] != order[j]) && forall h :: h in hs <==> h in order
  }

  /** The subscribers after one more action. */
  function Updated(hs: set<Hdl>, a: Action): set<Hdl> {
    if a.Subscribe? then hs + {a.hdl} else if a.Unsubscribe? then hs - {a.hdl} else hs
  }

  function Apply(s: Server, order: seq<Hdl>): Server
    requires s.consumer.Holding?
  {
    var a := s.consumer.action;
    s.(connections := Updated(s.connections, a),
       consumer := if a.Message? then Sending(a, order) else Looking,
       processed := if a.Message? then s.processed else s.processed + [a])
  }

  /** Send to the next connection, or be done. */
  function Send(s: Server): Server
    requires s.consumer.Sending? && s.consumer.action.Message?
  {
    var a, todo := s.consumer.action, s.consumer.todo;
    s.(consumer := if todo == [] then Looking else Sending(a, todo[1..]),
       processed := if todo == [] then s.processed + [a] else s.processed,
       log := if todo == [] then s.log else s.log + [(todo[0], a.text)])
  }

  datatype Step =
    | EnqueueStep(action: Action) | NotifyStep | LookStep | ApplyStep(order: seq<Hdl>) | SendStep | SpuriousWakeup

  ghost predicate Enabled(s: Server, step: Step) {
    match step
    case EnqueueStep(_) => true
    case NotifyStep => s.unnotified > 0
    case LookStep => s.consumer.Looking?
    case ApplyStep(order) => s.consumer.Holding? && Enumerates(order, s.connections)
    case SendStep => s.consumer.Sending? && s.consumer.action.Message?
    case SpuriousWakeup => s.consumer.Waiting?
  }

  function Next(s: Server, step: Step): Server
    requires Enabled(s, step)
  {
    match step
    case EnqueueStep(action) => Enqueue(s, action)
    case NotifyStep => Notify(s)
    case LookStep => Look(s)
    case ApplyStep(order) => Apply(s, order)
    case SendStep => Send(s)
    case SpuriousWakeup => s.(consumer := Looking)
  }

  // ---------------------------------------------------------------- what it all should amount to

  /** Who is subscribed after some actions. */
  function Subscribed(actions: seq<Action>): set<Hdl> {
    if actions == [] then {} else Updated(Subscribed(actions[..|actions| - 1]), actions[|actions| - 1])
  }

  /** The messages among some actions that came while a connection was subscribed. */
  function Due(h: Hdl, actions: seq<Action>): seq<Text> {
    if actions == [] then []
    else
      var before, a := actions[..|actions| - 1], actions[|actions| - 1];
      Due(h, before) + (if a.Message? && h in Subscribed(before) then [a.text] else [])
  }

  /** What a connection has been sent. */
  function Received(h: Hdl, log: seq<(Hdl, Text)>): seq<Text> {
    if log == [] then []
    else
      var last := log[|log| - 1];
      Received(h, log[..|log| - 1]) + (if last.0 == h then [last.1] else [])
  }

  function InHand(c: Consumer): seq<Action> {
    if c.Holding? || c.Sending? then [c.action] else []
  }

  /** The message being sent, for those that have got it already. */
  function Already(s: Server, h: Hdl): seq<Text> {
    if s.consumer.Sending? && s.consumer.action.Message? && h in s.connections && h !in s.consumer.todo
    then [s.consumer.action.text] else []
  }

  ghost predicate Ordered(s: Server) {
    && s.enqueued == s.processed + InHand(s.consumer) + s.queue
    && s.connections == Subscribed(s.processed)
  }

  ghost predicate Delivered(s: Server) {
    forall h :: Received(h, s.log) == Due(h, s.processed) + Already(s, h)
  }

  ghost predicate Sane(c: Consumer, connections: set<Hdl>) {
    c.Sending? ==>
      && c.action.Message?
      && (forall i, j :: 0 <= i < j < |c.todo| ==> c.todo[i] != c.todo[j])
      && forall h :: h in c.todo ==> h in connections
  }

  /** Nobody sleeps on a queue with actions in it, unless a producer has yet to notify. */
  predicate Awake(s: Server) {
    s.consumer.Waiting? && s.queue != [] ==> s.unnotified > 0
  }

  ghost predicate Valid(s: Server) {
    Ordered(s) && Delivered(s) && Sane(s.consumer, s.connections) && Awake(s)
  }

  // ---------------------------------------------------------------- every transition keeps it

  lemma SubscribedSnoc(actions: seq<Action>, a: Action)
    ensures Subscribed(actions + [a]) == Updated(Subscribed(actions), a)
  {
    assert (actions + [a])[..|actions + [a]| - 1] == actions;
  }

  lemma DueSnoc(h: Hdl, actions: seq<Action>, a: Action)
    ensures Due(h, actions + [a]) == Due(h, actions) + (if a.Message? && h in Subscribed(actions) then [a.text] else [])
  {
    assert (actions + [a])[..|actions + [a]| - 1] == actions;
  }

  lemma ReceivedSnoc(h: Hdl, log: seq<(Hdl, Text)>, entry: (Hdl, Text))
    ensures Received(h, log + [entry]) == Received(h, log) + (if entry.0 == h then [entry.1] else [])
  {
    assert (log + [entry])[..|log + [entry]| - 1] == log;
  }

  lemma LookKeeps(s: Server)
    requires Valid(s) && s.consumer.Looking?
    ensures Valid(Look(s))
  {
    hide Subscribed, Due, Received;
    var t := Look(s);
    if s.queue != [] {
      assert s.queue == [s.queue[0]] + s.queue[1..];
      assert s.processed + [] + s.queue == s.processed + [s.queue[0]] + s.queue[1..];
    }
    assert forall h :: Already(t, h) == Already(s, h);
  }

  lemma ApplyKeeps(s: Server, order: seq<Hdl>)
    requires Valid(s) && s.consumer.Holding? && Enumerates(order, s.connections)
    ensures Valid(Apply(s, order))
  {
    var a, t := s.consumer.action, Apply(s, order);
    SubscribedSnoc(s.processed, a);
    forall h ensures Received(h, t.log) == Due(h, t.processed) + Already(t, h) {
      DueSnoc(h, s.processed, a);
    }
    hide Subscribed, Due, Received;
    assert s.processed + [a] + s.queue == s.processed + [a] + [] + s.queue;
  }

  lemma SendKeeps(s: Server)
    requires Valid(s) && s.consumer.Sending?
    ensures Valid(Send(s))
  {
    var a, todo, t := s.consumer.action, s.consumer.todo, Send(s);
    SubscribedSnoc(s.processed, a);
    forall h ensures Received(h, t.log) == Due(h, t.processed) + Already(t, h) {
      DueSnoc(h, s.processed, a);
      if todo != [] {
        ReceivedSnoc(h, s.log, (todo[0], a.text));
        SentOnce(todo, h);
      }
    }
    hide Subscribed, Due, Received;
    assert s.processed + [a] + s.queue == s.processed + [a] + [] + s.queue;
  }

  lemma SentOnce(todo: seq<Hdl>, h: Hdl)
    requires todo != [] && forall i, j :: 0 <= i < j < |todo| ==> todo[i] != todo[j]
    ensures h in todo <==> h == todo[0] || h in todo[1..]
    ensures h == todo[0] ==> h !in todo[1..]
  {
  }

  lemma NextValid(s: Server, step: Step)
    requires Valid(s) && Enabled(s, step)
    ensures Valid(Next(s, step))
  {
    match step
    case LookStep => LookKeeps(s);
    case ApplyStep(order) => ApplyKeeps(s, order);
    case SendStep => SendKeeps(s);
    case _ => OthersKeep(s, step);
  }

  lemma OthersKeep(s: Server, step: Step)
    requires Valid(s) && Enabled(s, step) && (step.EnqueueStep? || step.NotifyStep? || step.SpuriousWakeup?)
    ensures Valid(Next(s, step))
  {
    hide Subscribed, Due, Received;
    var t := Next(s, step);
    assert forall h :: Already(t, h) == Already(s, h);
    if step.EnqueueStep? {
      assert s.processed + InHand(s.consumer) + s.queue + [step.action]
          == s.processed + InHand(s.consumer) + (s.queue + [step.action]);
    }
  }

  lemma InitialValid()
    ensures Valid(INITIAL)
  {
  }

  // ---------------------------------------------------------------- whole runs

  ghost predicate Run(trace: seq<Server>, steps: seq<Step>) {
    && |trace| == |steps| + 1
    && forall i {:trigger steps[i]} :: 0 <= i < |steps| ==>
         && Enabled(trace[i], steps[i])
         && trace[i + 1] == Next(trace[i], steps[i])
  }

  lemma {:induction false} RunValid(trace: seq<Server>, steps: seq<Step>, i: nat)
    requires Run(trace, steps) && Valid(trace[0]) && i < |trace|
    ensures Valid(trace[i])
  {
    hide Valid, Enabled, Next;
    if i > 0 {
      RunValid(trace, steps, i - 1);
      NextValid(trace[i - 1], steps[i - 1]);
    }
  }

  /** The actions that the handlers queued in the course of some steps. */
  function Asked(steps: seq<Step>): seq<Action> {
    if steps == [] then []
    else
      var last := steps[|steps| - 1];
      Asked(steps[..|steps| - 1]) + (if last.EnqueueStep? then [last.action] else [])
  }

  lemma {:induction false} AllQueued(trace: seq<Server>, steps: seq<Step>, i: nat)
    requires Run(trace, steps) && trace[0] == INITIAL && i < |trace|
    ensures trace[i].enqueued == Asked(steps[..i])
  {
    if i > 0 {
      AllQueued(trace, steps, i - 1);
      assert steps[..i][..i - 1] == steps[..i - 1] && steps[..i][i - 1] == steps[i - 1];
    }
    hide Enumerates;
  }

  /** The notifications that are still to come after some steps: one for each action. */
  function Unnotified(steps: seq<Step>): int {
    if steps == [] then 0
    else
      var last := steps[|steps| - 1];
      Unnotified(steps[..|steps| - 1]) + (if last.EnqueueStep? then 1 else if last.NotifyStep? then -1 else 0)
  }

  lemma {:induction false} EachNotifies(trace: seq<Server>, steps: seq<Step>, i: nat)
    requires Run(trace, steps) && trace[0] == INITIAL && i < |trace|
    ensures trace[i].unnotified == Unnotified(steps[..i])
  {
    if i > 0 {
      EachNotifies(trace, steps, i - 1);
      assert steps[..i][..i - 1] == steps[..i - 1] && steps[..i][i - 1] == steps[i - 1];
    }
    hide Enumerates;
  }

  /** A handler can queue an action at any time, whatever everyone else does. */
  lemma AlwaysQueues(trace: seq<Server>, steps: seq<Step>, a: Action) returns (longer: seq<Server>)
    requires Run(trace, steps)
    ensures Run(longer, steps + [EnqueueStep(a)]) && longer[..|trace|] == trace
    ensures Asked(steps + [EnqueueStep(a)]) == Asked(steps) + [a]
  {
    var s := trace[|steps|];
    longer := trace + [Next(s, EnqueueStep(a))];
    assert (steps + [EnqueueStep(a)])[..|steps|] == steps;
    hide Enumerates, Next;
  }

  /** On every run from the start, under every interleaving: the actions processed, the one in hand and
    * the queue are together the actions that the handlers have queued, in that order; a thread asleep on a
    * queue that is not empty will be notified; and each connection has been sent, in order, the messages
    * that are due to it, with none missing but the one being sent. */
  lemma Linearised(trace: seq<Server>, steps: seq<Step>, i: nat, h: Hdl)
    requires Run(trace, steps) && trace[0] == INITIAL && i < |trace|
    ensures var s := trace[i];
      && Asked(steps[..i]) == s.processed + InHand(s.consumer) + s.queue
      && (s.consumer.Waiting? && s.queue != [] ==> s.unnotified > 0)
      && Due(h, s.processed) <= Received(h, s.log) <= Due(h, Asked(steps[..i]))
  {
    AllQueued(trace, steps, i);
    InitialValid();
    RunValid(trace, steps, i);
    var s := trace[i];
    InHandDue(h, s);
    DueGrows(h, s.processed + InHand(s.consumer), s.queue);
    hide Due, Received, Subscribed, Asked;
  }

  lemma InHandDue(h: Hdl, s: Server)
    requires Ordered(s) && Sane(s.consumer, s.connections)
    ensures Due(h, s.processed) + Already(s, h) <= Due(h, s.processed + InHand(s.consumer))
  {
    if s.consumer.Sending? || s.consumer.Holding? {
      DueSnoc(h, s.processed, s.consumer.action);
    } else {
      assert s.processed + [] == s.processed;
    }
    hide Due, Subscribed;
  }

  lemma {:induction false} DueGrows(h: Hdl, actions: seq<Action>, more: seq<Action>)
    ensures Due(h, actions) <= Due(h, actions + more)
    decreases |more|
  {
    if more == [] {
      assert actions + more == actions;
    } else {
      var fewer, last := more[..|more| - 1], more[|more| - 1];
      DueGrows(h, actions, fewer);
      DueSnoc(h, actions + fewer, last);
      assert actions + more == actions + fewer + [last];
    }
  }

  /** When nothing can happen but a new action or a spurious wakeup, everything queued has been processed
    * and everyone has been sent everything that is due. */
  lemma RestMeansDelivered(s: Server)
    requires Valid(s)
    requires forall step :: Enabled(s, step) ==> step.EnqueueStep? || step.SpuriousWakeup?
    ensures s.queue == [] && s.processed == s.enqueued
    ensures forall h :: Received(h, s.log) == Due(h, s.enqueued)
  {
    assert !Enabled(s, NotifyStep) && !Enabled(s, LookStep) && !Enabled(s, SendStep);
    var order := SomeOrder(s.connections);
    assert !Enabled(s, ApplyStep(order));
    hide Due, Received, Subscribed;
    assert forall h :: Already(s, h) == [];
  }

  lemma SomeOrder(hs: set<Hdl>) returns (order: seq<Hdl>)
    ensures Enumerates(order, hs)
    decreases hs
  {
    if hs == {} {
      order := [];
    } else {
      var h :| h in hs;
      var rest := SomeOrder(hs - {h});
      order := rest + [h];
      EnumeratesMore(rest, hs - {h}, h);
      assert hs - {h} + {h} == hs;
    }
  }

  /** The most connections there can be before the next action is queued. */
  function Crowd(s: Server): nat {
    |s.connections| + |s.queue| + (if s.consumer.Holding? then 1 else 0)
  }

  /** The steps that the server may still take without a new action or a spurious wakeup: for each action
    * to look, to apply it, and to send it to everyone. */
  function Debt(s: Server): nat {
    |s.queue| * (Crowd(s) + 4) + 2 * s.unnotified + Hand(s)
  }

  /** What is left of the action in hand. */
  function Hand(s: Server): nat {
    match s.consumer
    case Waiting => 0
    case Looking => 1
    case Holding(_) => Crowd(s) + 3
    case Sending(_, todo) => |todo| + 2
  }

  lemma {:induction false} EnumeratesAll(order: seq<Hdl>, hs: set<Hdl>)
    requires Enumerates(order, hs)
    ensures |order| == |hs|
    decreases |order|
  {
    if order == [] {
      assert forall h :: h !in hs;
      assert hs == {};
    } else {
      var h, rest := order[0], order[1..];
      assert h in hs && order == [h] + rest;
      assert h !in rest;
      assert forall g :: g in hs - {h} <==> g in rest;
      EnumeratesAll(rest, hs - {h});
    }
  }

  /** The crowd never grows. */
  lemma CrowdShrinks(s: Server, step: Step)
    requires Enabled(s, step) && !step.EnqueueStep?
    ensures Crowd(Next(s, step)) <= Crowd(s)
  {
    if step.ApplyStep? {
      UpdatedGrows(s.connections, s.consumer.action);
    }
    hide Enumerates, Updated;
  }

  lemma UpdatedGrows(hs: set<Hdl>, a: Action)
    ensures |Updated(hs, a)| <= |hs| + 1
  {
  }

  lemma Cheaper(n: nat, a: nat, b: nat)
    requires a <= b
    ensures n * (a + 4) <= n * (b + 4)
  {
  }

  lemma OneFewer(n: nat, cost: nat)
    requires n > 0
    ensures n * cost == (n - 1) * cost + cost
  {
  }

  lemma StepPaysDebt(s: Server, step: Step)
    requires Enabled(s, step) && !step.EnqueueStep? && !step.SpuriousWakeup?
    ensures Debt(Next(s, step)) < Debt(s)
  {
    match step
    case LookStep => LookPays(s);
    case ApplyStep(order) => ApplyPays(s, order);
    case _ => OthersPay(s, step);
  }

  lemma LookPays(s: Server)
    requires s.consumer.Looking?
    ensures Debt(Look(s)) < Debt(s)
  {
    if s.queue != [] {
      OneFewer(|s.queue|, Crowd(s) + 4);
    }
  }

  lemma ApplyPays(s: Server, order: seq<Hdl>)
    requires s.consumer.Holding? && Enumerates(order, s.connections)
    ensures Debt(Apply(s, order)) < Debt(s)
  {
    CrowdShrinks(s, ApplyStep(order));
    Cheaper(|s.queue|, Crowd(Apply(s, order)), Crowd(s));
    EnumeratesAll(order, s.connections);
    HandPays(s, order);
    hide Crowd, Hand, Enumerates, Updated;
  }

  lemma HandPays(s: Server, order: seq<Hdl>)
    requires s.consumer.Holding? && |order| == |s.connections|
    ensures Hand(Apply(s, order)) < Hand(s)
  {
    hide Updated;
  }

  lemma OthersPay(s: Server, step: Step)
    requires Enabled(s, step) && (step.NotifyStep? || step.SendStep?)
    ensures Debt(Next(s, step)) < Debt(s)
  {
    assert Crowd(Next(s, step)) == Crowd(s);
    hide Crowd;
  }

  /** Left to itself the server always comes to rest: a run without new actions and spurious wakeups is no
    * longer than the debt it starts with, however its steps are scheduled. */
  lemma {:induction false} RunsDry(trace: seq<Server>, steps: seq<Step>, i: nat)
    requires Run(trace, steps) && i <= |steps|
    requires forall k :: 0 <= k < i ==> !steps[k].EnqueueStep? && !steps[k].SpuriousWakeup?
    ensures i + Debt(trace[i]) <= Debt(trace[0])
  {
    hide Debt, Enabled, Next;
    if i > 0 {
      RunsDry(trace, steps, i - 1);
      StepPaysDebt(trace[i - 1], steps[i - 1]);
    }
  }

  // ---------------------------------------------------------------- what is due

  function Texts(actions: seq<Action>): seq<Text> {
    if actions == [] then []
    else
      var a := actions[|actions| - 1];
      Texts(actions[..|actions| - 1]) + (if a.Message? then [a.text] else [])
  }

  lemma {:induction false} DueWhile(h: Hdl, actions: seq<Action>, more: seq<Action>)
    requires forall a :: a in more ==> a.Message? || a.hdl != h
    ensures h in Subscribed(actions + more) <==> h in Subscribed(actions)
    ensures Due(h, actions + more) == Due(h, actions) + (if h in Subscribed(actions) then Texts(more) else [])
    decreases |more|
  {
    if more == [] {
      assert actions + more == actions;
      assert Due(h, actions) + [] == Due(h, actions);
      hide Due, Subscribed;
    } else {
      var fewer, last := more[..|more| - 1], more[|more| - 1];
      assert last in more;
      assert more == fewer + [last];
      hide *;
      assert forall a :: a in fewer ==> a in more;
      DueWhile(h, actions, fewer);
      DueOneMore(h, actions, fewer, last);
    }
  }

  lemma DueOneMore(h: Hdl, actions: seq<Action>, fewer: seq<Action>, last: Action)
    requires last.Message? || last.hdl != h
    requires h in Subscribed(actions + fewer) <==> h in Subscribed(actions)
    requires Due(h, actions + fewer) == Due(h, actions) + (if h in Subscribed(actions) then Texts(fewer) else [])
    ensures h in Subscribed(actions + (fewer + [last])) <==> h in Subscribed(actions)
    ensures Due(h, actions + (fewer + [last]))
         == Due(h, actions) + (if h in Subscribed(actions) then Texts(fewer + [last]) else [])
  {
    hide *;
    var text := if last.Message? then [last.text] else [];
    TextsSnoc(fewer, last);
    DueSnoc(h, actions + fewer, last);
    SubscribedSnoc(actions + fewer, last);
    OthersUpdate(h, Subscribed(actions + fewer), last);
    Associate(actions, fewer, [last]);
    Associate(Due(h, actions), Texts(fewer), text);
    assert Due(h, actions) + [] + [] == Due(h, actions) + [];
  }

  lemma TextsSnoc(actions: seq<Action>, a: Action)
    ensures Texts(actions + [a]) == Texts(actions) + (if a.Message? then [a.text] else [])
  {
    assert (actions + [a])[..|actions + [a]| - 1] == actions;
  }

  lemma OthersUpdate(h: Hdl, hs: set<Hdl>, a: Action)
    requires a.Message? || a.hdl != h
    ensures h in Updated(hs, a) <==> h in hs
  {
  }

  /** From its subscription on, up to when it unsubscribes, a connection is due exactly the messages queued
    * in between, and from then on none. */
  lemma DueBetween(h: Hdl, before: seq<Action>, between: seq<Action>, after: seq<Action>)
    requires forall a :: a in between || a in after ==> a.Message? || a.hdl != h
    ensures Due(h, before + [Subscribe(h)] + between) == Due(h, before) + Texts(between)
    ensures Due(h, before + [Subscribe(h)] + between + [Unsubscribe(h)] + after) == Due(h, before) + Texts(between)
  {
    var s, u := before + [Subscribe(h)], before + [Subscribe(h)] + between + [Unsubscribe(h)];
    SubscribedSnoc(before, Subscribe(h));
    DueSnoc(h, before, Subscribe(h));
    DueWhile(h, s, between);
    SubscribedSnoc(s + between, Unsubscribe(h));
    DueSnoc(h, s + between, Unsubscribe(h));
    DueWhile(h, u, after);
    hide Due, Subscribed, Texts;
  }

  // ---------------------------------------------------------------- the class

  class BroadcastServer {
    var actions: seq<Action>
    var connections: set<Hdl>
    /** Where the processing thread is, the producers that have yet to notify, and the history. */
    var consumer: Consumer
    var unnotified: nat
    var enqueued: seq<Action>
    var processed: seq<Action>
    var log: seq<(Hdl, Text)>

    ghost function View(): Server
      reads this
    {
      Server(actions, connections, consumer, unnotified, enqueued, processed, log)
    }

    constructor ()
      ensures View() == INITIAL && Valid(View())
    {
      actions, connections, consumer, unnotified := [], {}, Looking, 0;
      enqueued, processed, log := [], [], [];
      new;
      InitialValid();
    }

    /** What the three handlers do under the lock. */
    method PushAction(a: Action)
      modifies this`actions, this`enqueued, this`unnotified
      ensures View() == Enqueue(old(View()), a)
      ensures old(Valid(View())) ==> Valid(View())
    {
      ghost var before := View();
      actions := actions + [a];
      enqueued := enqueued + [a];
      unnotified := unnotified + 1;
      if Valid(before) {
        NextValid(before, EnqueueStep(a));
      }
      hide Valid;
    }

    method NotifyOne()
      requires unnotified > 0
      modifies this`unnotified, this`consumer
      ensures View() == Notify(old(View()))
      ensures old(Valid(View())) ==> Valid(View())
    {
      ghost var before := View();
      unnotified := unnotified - 1;
      if consumer.Waiting? {
        consumer := Looking;
      }
      if Valid(before) {
        NextValid(before, NotifyStep);
      }
      hide Valid;
    }

    method OnOpen(hdl: Hdl)
      modifies this
      ensures View() == Notify(Enqueue(old(View()), Subscribe(hdl)))
      ensures old(Valid(View())) ==> Valid(View())
    {
      hide Valid;
      PushAction(Subscribe(hdl));
      NotifyOne();
    }

    method OnClose(hdl: Hdl)
      modifies this
      ensures View() == Notify(Enqueue(old(View()), Unsubscribe(hdl)))
      ensures old(Valid(View())) ==> Valid(View())
    {
      hide Valid;
      PushAction(Unsubscribe(hdl));
      NotifyOne();
    }

    method OnMessage(hdl: Hdl, text: Text)
      modifies this
      ensures View() == Notify(Enqueue(old(View()), Message(hdl, text)))
      ensures old(Valid(View())) ==> Valid(View())
    {
      hide Valid;
      PushAction(Message(hdl, text));
      NotifyOne();
    }

    /** Under the lock: wait, or take the front action. */
    method TakeAction()
      requires consumer.Looking? && Valid(View())
      modifies this`consumer, this`actions
      ensures View() == Look(old(View())) && Valid(View())
    {
      NextValid(View(), LookStep);
      hide Valid;
      if actions == [] {
        consumer := Waiting;
        return;
      }
      consumer := Holding(actions[0]);
      actions := actions[1..];
    }

    /** One pass of `process_messages` after the lock has been released, undisturbed. */
    method ProcessAction()
      requires consumer.Holding? && Valid(View())
      modifies this
      ensures consumer == Looking && processed == old(processed) + [old(consumer).action] && Valid(View())
      ensures actions == old(actions) && enqueued == old(enqueued) && unnotified == old(unnotified)
    {
      var a := consumer.action;
      if a.Message? {
        SendToAll(a);
      } else {
        ghost var order := SomeOrder(connections);
        NextValid(View(), ApplyStep(order));
        hide Valid;
        if a.Subscribe? {
          connections := connections + {a.hdl};
        } else {
          connections := connections - {a.hdl};
        }
        consumer := Looking;
        processed := processed + [a];
      }
    }

    /** The loop over the connections. */
    method SendToAll(a: Action)
      requires consumer == Holding(a) && a.Message? && Valid(View())
      modifies this`consumer, this`processed, this`log
      ensures consumer == Looking && processed == old(processed) + [a] && Valid(View())
    {
      var order := Iterate(connections);
      NextValid(View(), ApplyStep(order));
      hide Valid, Enumerates;
      consumer := Sending(a, order);
      while consumer.todo != []
        invariant consumer.Sending? && consumer.action == a && processed == old(processed) && Valid(View())
        decreases |consumer.todo|
      {
        NextValid(View(), SendStep);
        log := log + [(consumer.todo[0], a.text)];
        consumer := Sending(a, consumer.todo[1..]);
      }
      NextValid(View(), SendStep);
      consumer := Looking;
      processed := processed + [a];
    }

    /** The order in which the set is iterated over. */
    static method Iterate(hs: set<Hdl>) returns (order: seq<Hdl>)
      ensures Enumerates(order, hs)
    {
      var left := hs;
      order := [];
      while left != {}
        invariant left <= hs && Enumerates(order, hs - left)
        decreases left
      {
        var h :| h in left;
        EnumeratesMore(order, hs - left, h);
        order := order + [h];
        assert hs - left + {h} == hs - (left - {h});
        left := left - {h};
      }
      assert hs - left == hs;
    }
  }

  lemma EnumeratesMore(order: seq<Hdl>, hs: set<Hdl>, h: Hdl)
    requires Enumerates(order, hs) && h !in hs
    ensures Enumerates(order + [h], hs + {h})
  {
    forall k ensures k in hs + {h} <==> k in order + [h] {
      assert k in order + [h] <==> k in order || k == h;
    }
  }
}
