/**
 What one thread does: poll events and the bounded command drain (`MultiplexorWorker::process_poll_event` in
 `src/network.rs`).
 */
module Draining {
  import opened Base
  import opened ResourceIds
  import opened Remotes
  import opened Drivers

  const MAX_COMMANDS: nat := 1024

  /**
   A thread at work: its registries and queue, the commands carried out, the commands posted to workers, and
   what the user was shown, resource by resource.
   */
  datatype Thread = Thread(driver: Driver, queue: seq<Command>, done: seq<Command>, posts: seq<Command>,
                           log: seq<(Id, seq<Event>)>, ok: bool)

  function PostOf(e: Effect): seq<Command> {
    if e.post.Some? then [e.post.value] else []
  }

  /** Take the first command off the queue and carry it out. */
  function DrainOne(t: Thread, a: Answer): Thread
    requires t.queue != []
  {
    var e := Process(t.driver, t.queue[0], a);
    Thread(e.driver, t.queue[1..], t.done + [t.queue[0]], t.posts + PostOf(e),
           t.log + [(t.queue[0].id, e.events)], t.ok && e.ok)
  }

  /** What other threads post before the next command is taken. */
  function Arrive(t: Thread, arrivals: seq<seq<Command>>): Thread {
    if arrivals == [] then t else t.(queue := t.queue + arrivals[0])
  }

  function Later<T>(s: seq<T>): seq<T> {
    if s == [] then [] else s[1..]
  }

  /** Carry out commands until the queue is empty or the budget is used up. */
  function DrainFrom(t: Thread, answers: nat -> Answer, arrivals: seq<seq<Command>>, count: nat): (r: Thread)
    ensures r.ok ==> t.ok
    decreases if count < MAX_COMMANDS then MAX_COMMANDS - count else 0
  {
    if count >= MAX_COMMANDS then t
    else
      var t' := Arrive(t, arrivals);
      if t'.queue == [] then t' else DrainFrom(DrainOne(t', answers(count)), answers, Later(arrivals), count + 1)
  }

  /** One more command, or the end. */
  lemma DrainUnfolds(t: Thread, answers: nat -> Answer, arrivals: seq<seq<Command>>, count: nat)
    requires count < MAX_COMMANDS
    ensures var t', r := Arrive(t, arrivals), DrainFrom(t, answers, arrivals, count);
            if t'.queue == [] then r == t'
            else
              && r == DrainFrom(DrainOne(t', answers(count)), answers, Later(arrivals), count + 1)
              && (r.ok ==> DrainOne(t', answers(count)).ok)
  {
    hide DrainOne;
  }

  lemma DrainEnds(t: Thread, answers: nat -> Answer, arrivals: seq<seq<Command>>)
    ensures DrainFrom(t, answers, arrivals, MAX_COMMANDS) == t
  {
  }

  function Budget(count: nat): nat {
    if count < MAX_COMMANDS then MAX_COMMANDS - count else 0
  }

  /** From `t` to `r`, with `extra` arriving: in order, nothing lost or repeated, within the budget. */
  predicate InOrder(t: Thread, r: Thread, extra: seq<Command>, budget: nat) {
    && t.done <= r.done && r.done + r.queue == t.done + t.queue + extra
    && |r.done| - |t.done| <= budget
    && (|r.done| - |t.done| < budget ==> r.queue == [])
  }

  lemma ConcatLater(arrivals: seq<seq<Command>>, j: nat) returns (m: nat)
    requires j <= |Later(arrivals)|
    ensures m <= |arrivals|
    ensures Concat(arrivals[..m]) == (if arrivals == [] then [] else arrivals[0]) + Concat(Later(arrivals)[..j])
  {
    if arrivals == [] {
      m := 0;
    } else {
      m := j + 1;
      assert arrivals[..m][0] == arrivals[0] && arrivals[..m][1..] == arrivals[1..][..j];
    }
  }

  /** One more command in front. */
  lemma OneMoreInOrder(t: Thread, arrivals: seq<seq<Command>>, a: Answer, r: Thread, extra: seq<Command>, budget: nat)
    requires Arrive(t, arrivals).queue != [] && InOrder(DrainOne(Arrive(t, arrivals), a), r, extra, budget)
    ensures InOrder(t, r, (if arrivals == [] then [] else arrivals[0]) + extra, budget + 1)
  {
    hide Process;
    var t' := Arrive(t, arrivals);
    var next := DrainOne(t', a);
    var first := if arrivals == [] then [] else arrivals[0];
    assert t'.queue == t.queue + first;
    assert next.done + next.queue == t'.done + t'.queue == t.done + t.queue + first;
    assert t.done + t.queue + first + extra == t.done + t.queue + (first + extra);
    assert t.done <= next.done;
  }

  /**
   Commands are carried out in the order of their arrival; none is lost or repeated; the budget is kept, and
   unless it is used up the queue is empty at the end.
   */
  lemma {:induction false} DrainInOrder(t: Thread, answers: nat -> Answer, arrivals: seq<seq<Command>>, count: nat)
    returns (m: nat)
    ensures m <= |arrivals|
    ensures InOrder(t, DrainFrom(t, answers, arrivals, count), Concat(arrivals[..m]), Budget(count))
    ensures Budget(count) == if count < 1024 then 1024 - count else 0
    decreases Budget(count)
  {
    hide DrainOne, InOrder;
    m := 0;
    if count >= MAX_COMMANDS {
      DrainsNothing(t, []);
    } else if Arrive(t, arrivals).queue == [] {
      assert arrivals != [] ==> arrivals[0] == [];
      DrainsNothing(t, arrivals);
    } else {
      var next := DrainOne(Arrive(t, arrivals), answers(count));
      var j := DrainInOrder(next, answers, Later(arrivals), count + 1);
      OneMoreInOrder(t, arrivals, answers(count), DrainFrom(t, answers, arrivals, count),
                     Concat(Later(arrivals)[..j]), Budget(count + 1));
      m := ConcatLater(arrivals, j);
    }
  }

  lemma DrainsNothing(t: Thread, arrivals: seq<seq<Command>>)
    ensures InOrder(t, t, [], 0)
    ensures Arrive(t, arrivals).queue == [] ==> forall budget: nat :: InOrder(t, Arrive(t, arrivals), [], budget)
  {
    assert t.done + t.queue + [] == t.done + t.queue;
  }

  /** One poll event: a readable or writable resource, or the waker. */
  datatype Turn =
    | ReadTurn(id: Id, answer: Answer) | WriteTurn(id: Id, answer: Answer)
    | DrainTurn(answers: nat -> Answer, arrivals: seq<seq<Command>>)

  function Shown(t: Thread, id: Id, e: Effect): Thread {
    t.(driver := e.driver, log := t.log + [(id, e.events)], ok := t.ok && e.ok)
  }

  function TakeTurn(t: Thread, turn: Turn): (r: Thread)
    ensures r.ok ==> t.ok
  {
    match turn
    case ReadTurn(id, a) => Shown(t, id, ProcessRead(t.driver, id, a))
    case WriteTurn(id, a) => Shown(t, id, ProcessWrite(t.driver, id, a))
    case DrainTurn(answers, arrivals) => DrainFrom(t, answers, arrivals, 0)
  }

  function TakeTurns(t: Thread, turns: seq<Turn>): (r: Thread)
    ensures r.ok ==> t.ok
    decreases turns
  {
    if turns == [] then t else TakeTurns(TakeTurn(t, turns[0]), turns[1..])
  }

  function EventsIn(log: seq<(Id, seq<Event>)>, id: Id): seq<Event> {
    if log == [] then []
    else EventsIn(log[..|log| - 1], id) + if log[|log| - 1].0 == id then log[|log| - 1].1 else []
  }

  function PostsTo(posts: seq<Command>, workers: nat, k: nat): seq<Command>
    requires workers > 0
  {
    if posts == [] then []
    else
      PostsTo(posts[..|posts| - 1], workers, k)
      + if posts[|posts| - 1].id % workers == k then [posts[|posts| - 1]] else []
  }

  lemma EventsSnoc(log: seq<(Id, seq<Event>)>, own: Id, events: seq<Event>, id: Id)
    ensures EventsIn(log + [(own, events)], id) == EventsIn(log, id) + if own == id then events else []
  {
    var all := log + [(own, events)];
    assert all[..|all| - 1] == log;
  }

  lemma PostsSnoc(posts: seq<Command>, c: Command, workers: nat, k: nat)
    requires workers > 0
    ensures PostsTo(posts + [c], workers, k) == PostsTo(posts, workers, k) + if c.id % workers == k then [c] else []
  {
    var all := posts + [c];
    assert all[..|all| - 1] == posts;
  }
}

/** The thread as the object that `src/network.rs` drives. */
module WorkerObjects {
  import opened ResourceIds
  import opened Remotes
  import opened Drivers
  import opened Draining
  import opened DriverObjects

  class MultiplexorWorker {
    var commands: seq<Command>
    const driver: DriverObject
    ghost var done: seq<Command>
    var posts: seq<Command>
    var log: seq<(Id, seq<Event>)>

    ghost function View(): (t: Thread)
      ensures t.queue == commands && t.ok
      reads this, driver, driver.remotes, driver.locals, driver.remotes.resources.Values
    {
      Thread(driver.View(), commands, done, posts, log, true)
    }

    constructor (driver: DriverObject)
      ensures this.driver == driver && View() == Thread(driver.View(), [], [], [], [], true)
    {
      this.driver, commands, done, posts, log := driver, [], [], [], [];
    }

    /** Another thread posts. */
    method Receive(posted: seq<Command>)
      modifies this`commands
      ensures View() == old(View()).(queue := old(View()).queue + posted)
    {
      commands := commands + posted;
    }

    method CarryNext(a: Answer)
      requires driver.Valid() && commands != [] && DrainOne(View(), a).ok
      modifies this, driver.remotes, driver.locals
      ensures driver.Valid() && View() == DrainOne(old(View()), a)
      ensures fresh(driver.remotes.resources.Values - old(driver.remotes.resources.Values))
    {
      hide Process, DriverObject.View, DriverObject.Valid;
      ghost var before := View();
      var command := commands[0];
      commands := commands[1..];
      var events, _, post := driver.Carry(command, a);
      done := done + [command];
      posts := posts + if post.Some? then [post.value] else [];
      log := log + [(command.id, events)];
      assert Process(before.driver, command, a).events == events;
    }

    /** The drain on a waker event; `arrivals` is what other threads post before each command is taken. */
    method ProcessCommands(answers: nat -> Answer, arrivals: seq<seq<Command>>)
      requires driver.Valid() && DrainFrom(View(), answers, arrivals, 0).ok
      modifies this, driver.remotes, driver.locals
      ensures driver.Valid() && View() == DrainFrom(old(View()), answers, arrivals, 0)
      ensures fresh(driver.remotes.resources.Values - old(driver.remotes.resources.Values))
    {
      hide DrainOne, DrainFrom, Later, MultiplexorWorker.View;
      var count, coming := 0, arrivals;
      ghost var start := View();
      while count < MAX_COMMANDS
        invariant count <= MAX_COMMANDS && driver.Valid()
        invariant DrainFrom(View(), answers, coming, count) == DrainFrom(start, answers, arrivals, 0)
        invariant fresh(driver.remotes.resources.Values - old(driver.remotes.resources.Values))
        decreases MAX_COMMANDS - count
      {
        DrainUnfolds(View(), answers, coming, count);
        if coming != [] {
          Receive(coming[0]);
        }
        if commands == [] {
          return;
        }
        CarryNext(answers(count));
        coming := Later(coming);
        count := count + 1;
      }
      DrainEnds(View(), answers, coming);
    }

    method ProcessPollEvent(turn: Turn)
      requires driver.Valid() && TakeTurn(View(), turn).ok
      modifies this, driver.remotes, driver.locals, driver.remotes.resources.Values
      ensures driver.Valid() && View() == TakeTurn(old(View()), turn)
      ensures fresh(driver.remotes.resources.Values - old(driver.remotes.resources.Values))
    {
      hide DrainFrom, ProcessRead, ProcessWrite;
      match turn {
        case ReadTurn(id, a) =>
          var events := driver.Read(id, a);
          log := log + [(id, events)];
        case WriteTurn(id, a) =>
          var events := driver.Write(id, a);
          log := log + [(id, events)];
        case DrainTurn(answers, arrivals) =>
          ProcessCommands(answers, arrivals);
      }
    }

    /** The events of a poll, and of the polls after it, in turn. */
    method ProcessPollEvents(turns: seq<Turn>)
      requires driver.Valid() && TakeTurns(View(), turns).ok
      modifies this, driver.remotes, driver.locals, driver.remotes.resources.Values
      ensures driver.Valid() && View() == TakeTurns(old(View()), turns)
      ensures fresh(driver.remotes.resources.Values - old(driver.remotes.resources.Values))
    {
      hide TakeTurn, MultiplexorWorker.View;
      var rest := turns;
      ghost var start := View();
      while rest != []
        invariant driver.Valid()
        invariant TakeTurns(View(), rest) == TakeTurns(start, turns)
        invariant fresh(driver.remotes.resources.Values - old(driver.remotes.resources.Values))
        decreases |rest|
      {
        ProcessPollEvent(rest[0]);
        rest := rest[1..];
      }
    }
  }
}
