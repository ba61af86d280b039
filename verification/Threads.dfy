/**
 How the work of one thread is a run of the node (`src/network.rs`, `src/node.rs`): alone, and among others.
 */

/** A thread that works alone for a while: its work is a run of the node, event by event and post by post. */
module ThreadRuns {
  import opened ResourceIds
  import opened Remotes
  import opened Drivers
  import opened Nodes
  import opened Lifecycle
  import opened Draining

  ghost predicate TracksEvents(start: Node, n: Node, log: seq<(Id, seq<Event>)>) {
    forall id: Id :: n.PastOf(id).events == start.PastOf(id).events + EventsIn(log, id)
  }

  ghost predicate TracksPosts(start: Node, n: Node, k: nat, posts: seq<Command>)
    requires start.Shaped() && n.Shaped() && n.workers == start.workers
  {
    forall j | 0 <= j <= n.workers && j != k ::
      n.queues[j] == start.queues[j] + PostsTo(posts, n.workers, j) && n.drivers[j] == start.drivers[j]
  }

  /**
   Thread `k` has taken the node from `start` to `n` by the work recorded in `t`: its registries and queue are
   those of `t`, every resource's events have grown by what was shown, every other queue by what was posted.
   */
  ghost predicate Tracks(start: Node, n: Node, k: nat, t: Thread) {
    && start.Shaped() && n.Shaped() && n.workers == start.workers && k <= n.workers
    && t.ok && t.driver == n.drivers[k] && t.queue == n.queues[k]
    && TracksEvents(start, n, t.log) && TracksPosts(start, n, k, t.posts)
  }

  lemma LogGrows(start: Node, n: Node, n': Node, log: seq<(Id, seq<Event>)>, own: Id, events: seq<Event>)
    requires TracksEvents(start, n, log)
    requires forall id: Id :: n'.PastOf(id).events == n.PastOf(id).events + if id == own then events else []
    ensures TracksEvents(start, n', log + [(own, events)])
  {
    forall id: Id ensures n'.PastOf(id).events == start.PastOf(id).events + EventsIn(log + [(own, events)], id) {
      EventsSnoc(log, own, events, id);
    }
  }

  lemma OnlyConnectPosts(d: Driver, c: Command, a: Answer)
    ensures Process(d, c, a).post.Some? ==> c.Connect? && Process(d, c, a).post.value.id == c.id
  {
    hide SendFrom, Adapter, Mounted, IsLocal;
  }

  /** A command carried out changes thread `k`, the worker it posts to, and nothing else. */
  lemma CarryThread(n: Node, k: nat, a: Answer)
    requires Inv(n) && k <= n.workers && n.queues[k] != []
    ensures var c, n' := n.queues[k][0], Carry(n, k, a);
            var e := Process(n.drivers[k], c, a);
            && e.ok && n'.workers == n.workers && n'.Shaped()
            && n'.drivers == n.drivers[k := e.driver]
            && n'.queues[k] == n.queues[k][1..]
            && (forall j | 0 <= j <= n.workers && j != k ::
                  n'.queues[j] == n.queues[j] + if j == n.Route(c.id) then PostOf(e) else [])
            && (e.post.Some? ==> e.post.value.id == c.id && n.Route(c.id) != k)
  {
    hide Whole, CommandsBorn, IssuedOnce, OnlyTouches, Process, PastAfterCommand, Born;
    var c := n.queues[k][0];
    var e := Process(n.drivers[k], c, a);
    PoppedBorn(n, k, e);
    assert Whole(n, c.id);
    CommandOwn(n, k, c, e);
    if e.post.Some? {
      OnlyConnectPosts(n.drivers[k], c, a);
      ClaimAtHead(n, k, c);
    }
  }

  lemma CarryEvents(n: Node, k: nat, a: Answer, id: Id)
    requires n.Shaped() && k <= n.workers && n.queues[k] != []
    ensures var c := n.queues[k][0];
            Carry(n, k, a).PastOf(id).events
            == n.PastOf(id).events + if id == c.id then Process(n.drivers[k], c, a).events else []
  {
    hide Process, LifeAfterCommand;
  }

  /** One command: the node follows the thread. */
  lemma CarryTracks(start: Node, n: Node, k: nat, t: Thread, a: Answer)
    requires Inv(n) && Tracks(start, n, k, t) && t.queue != []
    ensures Take(n, ProcessNext(k, a)).Shaped() && Tracks(start, Take(n, ProcessNext(k, a)), k, DrainOne(t, a))
  {
    hide Inv, Carry, Process, TracksEvents, TracksPosts;
    assert n.Shaped();
    CarryThread(n, k, a);
    var c, n' := n.queues[k][0], Carry(n, k, a);
    var e := Process(n.drivers[k], c, a);
    forall id: Id ensures n'.PastOf(id).events == n.PastOf(id).events + if id == c.id then e.events else [] {
      CarryEvents(n, k, a, id);
    }
    LogGrows(start, n, n', t.log, c.id, e.events);
    PostsGrow(start, n, n', k, t.posts, c.id, e);
  }

  lemma PostsGrow(start: Node, n: Node, n': Node, k: nat, posts: seq<Command>, id: Id, e: Effect)
    requires start.Shaped() && n.Shaped() && n'.Shaped() && n.workers == start.workers && n'.workers == n.workers
    requires TracksPosts(start, n, k, posts) && (e.post.Some? ==> e.post.value.id == id)
    requires forall j | 0 <= j <= n.workers && j != k ::
               n'.drivers[j] == n.drivers[j]
               && n'.queues[j] == n.queues[j] + if j == n.Route(id) then PostOf(e) else []
    ensures TracksPosts(start, n', k, posts + PostOf(e))
  {
    forall j | 0 <= j <= n.workers && j != k
      ensures n'.queues[j] == start.queues[j] + PostsTo(posts + PostOf(e), n.workers, j)
      ensures n'.drivers[j] == start.drivers[j]
    {
      if e.post.Some? {
        PostsSnoc(posts, e.post.value, n.workers, j);
      } else {
        assert posts + [] == posts;
      }
    }
  }

  lemma TracksShape(start: Node, n: Node, k: nat, t: Thread)
    requires Tracks(start, n, k, t)
    ensures n.Shaped() && k <= n.workers
  {
  }

  lemma PollIsOk(n: Node, k: nat, id: Id, a: Answer)
    requires Inv(n) && k <= n.workers && Born(n, id)
    ensures ProcessRead(n.drivers[k], id, a).ok && ProcessWrite(n.drivers[k], id, a).ok
  {
    hide Whole, CommandsBorn, IssuedOnce, ProcessRead, ProcessWrite, Born;
    PollStepKeeps(n, k, id, a);
  }

  // ---------------------------------------------------------------- turns as steps of the node

  /** A drain of a queue of this many commands, as steps. */
  function DrainSteps(k: nat, commands: nat, answers: nat -> Answer, count: nat): seq<Step>
    decreases commands
  {
    if count >= MAX_COMMANDS || commands == 0 then []
    else [ProcessNext(k, answers(count))] + DrainSteps(k, commands - 1, answers, count + 1)
  }

  lemma RunOneMore(n: Node, step: Step, steps: seq<Step>)
    requires n.Shaped()
    ensures Take(n, step).Shaped() && Run(n, [step] + steps) == Run(Take(n, step), steps)
  {
    hide Take;
    TakeShaped(n, step);
    assert ([step] + steps)[1..] == steps;
  }

  lemma {:induction false} RunAppend(n: Node, a: seq<Step>, b: seq<Step>)
    requires n.Shaped()
    ensures Run(n, a).Shaped() && Run(n, a + b) == Run(Run(n, a), b)
    decreases a
  {
    hide Take;
    if a == [] {
      assert a + b == b;
    } else {
      TakeShaped(n, a[0]);
      RunAppend(Take(n, a[0]), a[1..], b);
      assert (a + b)[0] == a[0] && (a + b)[1..] == a[1..] + b;
    }
  }

  /**
   In every reachable state, a drain is the run of its commands: none panics, none adds to the queue being
   drained, and what it shows and posts is exactly what the run adds to the events and queues of the node.
   */
  lemma {:induction false} DrainIsRun(start: Node, n: Node, k: nat, t: Thread, answers: nat -> Answer, count: nat)
    requires Inv(n) && Tracks(start, n, k, t)
    ensures n.Shaped()
    ensures var n' := Run(n, DrainSteps(k, |t.queue|, answers, count));
            Inv(n') && Tracks(start, n', k, DrainFrom(t, answers, [], count))
    decreases |t.queue|
  {
    hide Inv, Take, DrainOne, Tracks;
    TracksShape(start, n, k, t);
    if count < MAX_COMMANDS && t.queue != [] {
      var a := answers(count);
      CarryTracks(start, n, k, t, a);
      TakeKeeps(n, ProcessNext(k, a));
      var n1, t1 := Take(n, ProcessNext(k, a)), DrainOne(t, a);
      assert |t1.queue| == |t.queue| - 1 by { OneLess(t, a); }
      DrainIsRun(start, n1, k, t1, answers, count + 1);
      RunOneMore(n, ProcessNext(k, a), DrainSteps(k, |t1.queue|, answers, count + 1));
    }
  }

  lemma OneLess(t: Thread, a: Answer)
    requires t.queue != []
    ensures |DrainOne(t, a).queue| == |t.queue| - 1
  {
  }

  function Idle(n: Node, k: nat): Thread
    requires n.Shaped() && k <= n.workers
  {
    Thread(n.drivers[k], n.queues[k], [], [], [], true)
  }
}

/** A thread that drains while others are at work: what they post is seen, and its own resources are its own. */
module ThreadsTogether {
  import opened Base
  import opened ResourceIds
  import opened Remotes
  import opened Drivers
  import opened Nodes
  import opened Lifecycle
  import opened Runs
  import opened Draining
  import opened ThreadRuns

  /** Neither a poll event nor a command of thread `k`; its accepts only mint. */
  predicate Foreign(step: Step, k: nat) {
    match step
    case PollRead(j, _, _) => j != k
    case PollWrite(j, _, _) => j != k
    case ProcessNext(j, _) => j != k
    case _ => true
  }

  predicate AllForeign(steps: seq<Step>, k: nat) {
    forall step | step in steps :: Foreign(step, k)
  }

  /** The thread on which a resource lives. */
  function Home(n: Node, id: Id): nat
    requires n.workers > 0
  {
    if IsLocal(id) then n.workers else n.Route(id)
  }

  /** Thread `k` keeps its registries, its queue only grows, and the events of its resources stay. */
  ghost predicate LeftAlone(n: Node, n': Node, k: nat) {
    && n.Shaped() && n'.Shaped() && n'.workers == n.workers && k <= n.workers
    && n'.drivers[k] == n.drivers[k] && n.queues[k] <= n'.queues[k]
    && forall id: Id | Home(n, id) == k :: n'.PastOf(id).events == n.PastOf(id).events
  }

  lemma PostLeavesAlone(n: Node, id: Id, p: Past, j: nat, c: Command, k: nat)
    requires n.Shaped() && j <= n.workers && k <= n.workers && p.events == n.PastOf(id).events
    ensures LeftAlone(n, Post(SetPast(n, id, p), j, c), k) && LeftAlone(n, Post(n, j, c), k)
  {
    hide IsLocal;
  }

  lemma MintLeavesAlone(n: Node, adapter: nat, local: bool, origin: Option<Id>, k: nat)
    requires Inv(n) && k <= n.workers
    ensures LeftAlone(n, Mint(n, adapter, local, origin), k)
  {
    hide Pack, Adapter, IsLocal, BaseValue, CommandsBorn, IssuedOnce, Whole;
    var base := if local then n.nextLocal else n.nextRemote;
    if Mounted(adapter) && base < BASE_LIMIT {
      var id := Pack(adapter, local, base);
      FieldsDecode(adapter, local, base);
      assert Whole(n, id);
      MintedIsFresh(n, id);
    }
  }

  lemma PollLeavesAlone(n: Node, j: nat, id: Id, a: Answer, k: nat)
    requires Inv(n) && j <= n.workers && k <= n.workers && j != k
    ensures LeftAlone(n, Poll(n, j, id, ProcessRead(n.drivers[j], id, a)), k)
    ensures LeftAlone(n, Poll(n, j, id, ProcessWrite(n.drivers[j], id, a)), k)
  {
    hide Adapter, Mounted, IsLocal, CommandsBorn, IssuedOnce, Settle, ReadFromRemote, LifeAfter, Whole;
    assert Whole(n, id);
    if id in n.drivers[j].remotes {
      RemoteIsPlaced(n, id, j);
    } else {
      assert n.PastOf(id).events + [] == n.PastOf(id).events;
    }
  }

  lemma CarryLeavesAlone(n: Node, j: nat, a: Answer, k: nat)
    requires Inv(n) && j <= n.workers && n.queues[j] != [] && k <= n.workers && j != k
    ensures LeftAlone(n, Carry(n, j, a), k)
  {
    hide Carry, Process, IsLocal, CommandsBorn, IssuedOnce, Whole;
    CarryThread(n, j, a);
    var n' := Carry(n, j, a);
    forall id: Id | Home(n, id) == k ensures n'.PastOf(id).events == n.PastOf(id).events {
      CarryEvents(n, j, a, id);
      if id == n.queues[j][0].id {
        assert Whole(n, id);
        AwayIsQuiet(n, j, n.queues[j][0], a);
      }
    }
  }

  /** A command carried out away from its resource shows nothing. */
  lemma AwayIsQuiet(n: Node, j: nat, c: Command, a: Answer)
    requires n.Shaped() && j <= n.workers && Whole(n, c.id) && Home(n, c.id) != j
    ensures Process(n.drivers[j], c, a).events == []
  {
    hide Adapter, Mounted, IsLocal, PastOk, QueueOk, SendFrom;
    assert DriverOk(n, c.id, j);
  }

  /** Steps of the user. */
  lemma UserLeavesAlone(n: Node, step: Step, k: nat)
    requires Inv(n) && k <= n.workers
    requires step.PostConnect? || step.PostListen? || step.PostAccept? || step.UserSend? || step.UserClose?
    ensures LeftAlone(n, Take(n, step), k)
  {
    hide Whole, CommandsBorn, IssuedOnce, IsLocal, LeftAlone;
    LeftAloneItself(n, k);
    var id := step.id;
    var p := n.PastOf(id);
    match step
    case PostConnect(_) => PostLeavesAlone(n, id, p.(life := Requested), n.workers, Connect(id), k);
    case PostListen(_) => PostLeavesAlone(n, id, p.(life := Requested), n.workers, Listen(id), k);
    case PostAccept(_) =>
      if p.origin.Some? {
        PostLeavesAlone(n, id, p.(life := Handed), n.Route(id), AcceptRegister(p.origin.value, id), k);
      }
    case UserSend(_, data) => PostLeavesAlone(n, id, p.(posted := p.posted + [data]), n.Route(id), Send(id, data), k);
    case UserClose(_) => PostLeavesAlone(n, id, p, if IsLocal(id) then n.workers else n.Route(id), Close(id), k);
  }

  lemma ForeignLeavesAlone(n: Node, step: Step, k: nat)
    requires Inv(n) && k <= n.workers && Foreign(step, k)
    ensures LeftAlone(n, Take(n, step), k)
  {
    hide Whole, CommandsBorn, IssuedOnce, Mint, Poll, Carry, PostMinted, IsLocal, Adapter, ProcessRead,
         ProcessWrite, LeftAlone;
    LeftAloneItself(n, k);
    match step
    case MintRemote(adapter) => MintLeavesAlone(n, adapter, false, None, k);
    case MintLocal(adapter) => MintLeavesAlone(n, adapter, true, None, k);
    case Accept(j, l) => MintLeavesAlone(n, Adapter(l), false, Some(l), k);
    case PollRead(j, id, a) => if j <= n.workers { PollLeavesAlone(n, j, id, a, k); }
    case PollWrite(j, id, a) => if j <= n.workers { PollLeavesAlone(n, j, id, a, k); }
    case ProcessNext(j, a) => if j <= n.workers && n.queues[j] != [] { CarryLeavesAlone(n, j, a, k); }
    case _ => UserLeavesAlone(n, step, k);
  }

  lemma LeftAloneTransitive(a: Node, b: Node, c: Node, k: nat)
    requires LeftAlone(a, b, k) && LeftAlone(b, c, k)
    ensures LeftAlone(a, c, k)
  {
    hide IsLocal;
    forall id: Id | Home(a, id) == k ensures c.PastOf(id).events == a.PastOf(id).events {
      assert Home(b, id) == k;
    }
  }

  lemma {:induction false} RunLeavesAlone(n: Node, steps: seq<Step>, k: nat)
    requires Inv(n) && k <= n.workers && AllForeign(steps, k)
    ensures LeftAlone(n, Run(n, steps), k) && Inv(Run(n, steps))
    decreases steps
  {
    hide Whole, CommandsBorn, IssuedOnce, Take, LeftAlone, Foreign;
    if steps == [] {
      assert LeftAlone(n, n, k) by { LeftAloneItself(n, k); }
    } else {
      assert steps[0] in steps;
      ForeignLeavesAlone(n, steps[0], k);
      TakeKeeps(n, steps[0]);
      TakeShaped(n, steps[0]);
      var n1 := Take(n, steps[0]);
      RunLeavesAlone(n1, steps[1..], k);
      LeftAloneTransitive(n, n1, Run(n1, steps[1..]), k);
    }
  }

  lemma LeftAloneItself(n: Node, k: nat)
    requires n.Shaped() && k <= n.workers
    ensures LeftAlone(n, n, k)
  {
  }

  // ---------------------------------------------------------------- a thread at work among others

  /** The node, and what the steps of one thread have so far added to each queue. */
  datatype Shared = Shared(node: Node, added: seq<seq<Command>>) {
    predicate Shaped() {
      node.Shaped() && |added| == node.workers + 1
    }
  }

  function Growth(before: seq<Command>, after: seq<Command>): seq<Command> {
    if |before| <= |after| then after[|before|..] else []
  }

  function OwnStep(x: Shared, k: nat, step: Step): (r: Shared)
    requires x.Shaped()
    ensures r.Shaped() && r.node.workers == x.node.workers
  {
    TakeShaped(x.node, step);
    var n' := Take(x.node, step);
    Shared(n', seq(|x.added|, j requires 0 <= j < |x.added| =>
                     x.added[j] + if j == k then [] else Growth(x.node.queues[j], n'.queues[j])))
  }

  function OthersRun(x: Shared, steps: seq<Step>): (r: Shared)
    requires x.Shaped()
    ensures r.Shaped() && r.node.workers == x.node.workers
  {
    RunShaped(x.node, steps);
    Shared(Run(x.node, steps), x.added)
  }

  lemma RunShaped(n: Node, steps: seq<Step>)
    requires n.Shaped()
    ensures Run(n, steps).Shaped() && Run(n, steps).workers == n.workers
  {
    RunWorkers(n, steps);
    RunAppend(n, steps, []);
  }

  /** A drain with steps of others before each command. */
  function DrainAmong(x: Shared, k: nat, answers: nat -> Answer, others: seq<seq<Step>>, count: nat): (r: Shared)
    requires x.Shaped() && k <= x.node.workers
    ensures r.Shaped() && r.node.workers == x.node.workers
    decreases if count < MAX_COMMANDS then MAX_COMMANDS - count else 0
  {
    if count >= MAX_COMMANDS then x
    else
      var x' := OthersRun(x, if others == [] then [] else others[0]);
      if x'.node.queues[k] == [] then x'
      else DrainAmong(OwnStep(x', k, ProcessNext(k, answers(count))), k, answers, Later(others), count + 1)
  }

  /** A poll event, with what users and other threads do before it, and before each command of a drain. */
  datatype Shift =
    | ReadShift(before: seq<Step>, id: Id, answer: Answer)
    | WriteShift(before: seq<Step>, id: Id, answer: Answer)
    | DrainShift(answers: nat -> Answer, others: seq<seq<Step>>)

  function ShiftAmong(x: Shared, k: nat, shift: Shift): (r: Shared)
    requires x.Shaped() && k <= x.node.workers
    ensures r.Shaped() && r.node.workers == x.node.workers
  {
    match shift
    case ReadShift(before, id, a) => OwnStep(OthersRun(x, before), k, PollRead(k, id, a))
    case WriteShift(before, id, a) => OwnStep(OthersRun(x, before), k, PollWrite(k, id, a))
    case DrainShift(answers, others) => DrainAmong(x, k, answers, others, 0)
  }

  function ShiftsAmong(x: Shared, k: nat, shifts: seq<Shift>): (r: Shared)
    requires x.Shaped() && k <= x.node.workers
    ensures r.Shaped() && r.node.workers == x.node.workers
    decreases shifts
  {
    if shifts == [] then x else ShiftsAmong(ShiftAmong(x, k, shifts[0]), k, shifts[1..])
  }

  ghost predicate AllOthers(others: seq<seq<Step>>, k: nat) {
    forall steps | steps in others :: AllForeign(steps, k)
  }

  /** The others are others, and poll events are about resources issued by then. */
  ghost predicate Possible(x: Shared, k: nat, shift: Shift)
    requires x.Shaped()
  {
    match shift
    case ReadShift(before, id, _) => AllForeign(before, k) && Born(OthersRun(x, before).node, id)
    case WriteShift(before, id, _) => AllForeign(before, k) && Born(OthersRun(x, before).node, id)
    case DrainShift(_, others) => AllOthers(others, k)
  }

  ghost predicate AllPossible(x: Shared, k: nat, shifts: seq<Shift>)
    requires x.Shaped() && k <= x.node.workers
    decreases shifts
  {
    shifts != [] ==> Possible(x, k, shifts[0]) && AllPossible(ShiftAmong(x, k, shifts[0]), k, shifts[1..])
  }

  /** The turn of a thread that a shift comes to: the same event, with some commands arriving. */
  ghost predicate IsTurnOf(shift: Shift, turn: Turn) {
    match shift
    case ReadShift(_, id, a) => turn == ReadTurn(id, a)
    case WriteShift(_, id, a) => turn == WriteTurn(id, a)
    case DrainShift(answers, others) => turn.DrainTurn? && turn.answers == answers && |turn.arrivals| <= |others| + 1
  }

  // ---- the thread follows

  ghost predicate EventsAtHome(start: Node, n: Node, k: nat, log: seq<(Id, seq<Event>)>)
    requires start.workers > 0
  {
    forall id: Id | Home(start, id) == k :: n.PastOf(id).events == start.PastOf(id).events + EventsIn(log, id)
  }

  ghost predicate PostsAdded(x: Shared, k: nat, posts: seq<Command>)
    requires x.Shaped()
  {
    forall j | 0 <= j <= x.node.workers && j != k :: x.added[j] == PostsTo(posts, x.node.workers, j)
  }

  /**
   The node has followed the thread: registries, the queue (with what arrived late still to be seen), the
   events of the resources that live on the thread, and every command it has posted.
   */
  ghost predicate Follows(start: Node, x: Shared, k: nat, t: Thread, late: seq<Command>) {
    && start.Shaped() && x.Shaped() && x.node.workers == start.workers && k <= start.workers && Inv(x.node)
    && t.ok && t.driver == x.node.drivers[k] && x.node.queues[k] == t.queue + late
    && EventsAtHome(start, x.node, k, t.log) && PostsAdded(x, k, t.posts)
  }

  lemma FollowsShape(start: Node, x: Shared, k: nat, t: Thread, late: seq<Command>)
    requires Follows(start, x, k, t, late)
    ensures x.Shaped() && k <= x.node.workers && x.node.queues[k] == t.queue + late && Inv(x.node)
  {
  }

  lemma OthersFollow(start: Node, x: Shared, k: nat, t: Thread, late: seq<Command>, steps: seq<Step>)
    returns (late': seq<Command>)
    requires Follows(start, x, k, t, late) && AllForeign(steps, k)
    ensures x.Shaped() && Follows(start, OthersRun(x, steps), k, t, late')
  {
    hide Inv, Run, AllForeign, IsLocal, EventsIn, PostsTo;
    RunLeavesAlone(x.node, steps, k);
    var n, n' := x.node, Run(x.node, steps);
    late' := n'.queues[k][|t.queue|..];
    forall id: Id | Home(start, id) == k ensures n'.PastOf(id).events == start.PastOf(id).events + EventsIn(t.log, id) {
      assert Home(n, id) == k;
    }
  }

  /** What has arrived is seen. */
  lemma SeenFollow(start: Node, x: Shared, k: nat, t: Thread, late: seq<Command>)
    requires Follows(start, x, k, t, late)
    ensures Follows(start, x, k, Arrive(t, [late]), [])
  {
    hide Inv, EventsAtHome, PostsAdded;
    assert (t.queue + late) + [] == t.queue + late;
  }

  lemma HomeEventsGrow(start: Node, n: Node, n': Node, k: nat, log: seq<(Id, seq<Event>)>, own: Id, events: seq<Event>)
    requires start.workers > 0 && EventsAtHome(start, n, k, log)
    requires forall id: Id :: n'.PastOf(id).events == n.PastOf(id).events + if id == own then events else []
    ensures EventsAtHome(start, n', k, log + [(own, events)])
  {
    hide IsLocal, EventsIn;
    forall id: Id | Home(start, id) == k
      ensures n'.PastOf(id).events == start.PastOf(id).events + EventsIn(log + [(own, events)], id)
    {
      EventsSnoc(log, own, events, id);
    }
  }

  lemma AddedGrows(x: Shared, x': Shared, k: nat, posts: seq<Command>, id: Id, e: Effect)
    requires x.Shaped() && x'.Shaped() && x'.node.workers == x.node.workers && PostsAdded(x, k, posts)
    requires e.post.Some? ==> e.post.value.id == id
    requires forall j | 0 <= j <= x.node.workers && j != k ::
               x'.added[j] == x.added[j] + if j == x.node.Route(id) then PostOf(e) else []
    ensures PostsAdded(x', k, posts + PostOf(e))
  {
    forall j | 0 <= j <= x.node.workers && j != k
      ensures x'.added[j] == PostsTo(posts + PostOf(e), x.node.workers, j)
    {
      if e.post.Some? {
        PostsSnoc(posts, e.post.value, x.node.workers, j);
      } else {
        assert posts + [] == posts;
      }
    }
  }

  lemma CarryFollows(start: Node, x: Shared, k: nat, t: Thread, a: Answer)
    requires Follows(start, x, k, t, []) && t.queue != []
    ensures x.Shaped() && Follows(start, OwnStep(x, k, ProcessNext(k, a)), k, DrainOne(t, a), [])
  {
    hide Inv, Carry, Process, EventsAtHome, PostsAdded;
    assert t.queue + [] == t.queue;
    CarryThread(x.node, k, a);
    TakeKeeps(x.node, ProcessNext(k, a));
    var c, n' := t.queue[0], Carry(x.node, k, a);
    var e := Process(t.driver, c, a);
    forall id: Id ensures n'.PastOf(id).events == x.node.PastOf(id).events + if id == c.id then e.events else [] {
      CarryEvents(x.node, k, a, id);
    }
    HomeEventsGrow(start, x.node, n', k, t.log, c.id, e.events);
    AddedGrows(x, OwnStep(x, k, ProcessNext(k, a)), k, t.posts, c.id, e);
    assert n'.queues[k] + [] == n'.queues[k];
  }

  lemma PollFollows(start: Node, x: Shared, k: nat, t: Thread, late: seq<Command>, id: Id, a: Answer)
    requires Follows(start, x, k, t, late) && Born(x.node, id)
    ensures x.Shaped()
    ensures Follows(start, OwnStep(x, k, PollRead(k, id, a)), k, TakeTurn(t, ReadTurn(id, a)), late)
    ensures Follows(start, OwnStep(x, k, PollWrite(k, id, a)), k, TakeTurn(t, WriteTurn(id, a)), late)
  {
    hide Inv, ProcessRead, ProcessWrite, Follows, DrainFrom;
    FollowsShape(start, x, k, t, late);
    PollIsOk(x.node, k, id, a);
    TakeKeeps(x.node, PollRead(k, id, a));
    TakeKeeps(x.node, PollWrite(k, id, a));
    ShownFollows(start, x, k, t, late, id, ProcessRead(x.node.drivers[k], id, a), PollRead(k, id, a));
    ShownFollows(start, x, k, t, late, id, ProcessWrite(x.node.drivers[k], id, a), PollWrite(k, id, a));
    assert t.driver == x.node.drivers[k] by { FollowsDriver(start, x, k, t, late); }
  }

  lemma FollowsDriver(start: Node, x: Shared, k: nat, t: Thread, late: seq<Command>)
    requires Follows(start, x, k, t, late)
    ensures t.driver == x.node.drivers[k]
  {
  }

  lemma ShownFollows(start: Node, x: Shared, k: nat, t: Thread, late: seq<Command>, id: Id, e: Effect, step: Step)
    requires Follows(start, x, k, t, late) && e.ok
    requires Take(x.node, step) == Poll(x.node, k, id, e) && Inv(Take(x.node, step))
    ensures Follows(start, OwnStep(x, k, step), k, Shown(t, id, e), late)
  {
    hide Inv, EventsAtHome, LifeAfter, PostsTo, Take;
    var n' := Poll(x.node, k, id, e);
    forall i: Id ensures n'.PastOf(i).events == x.node.PastOf(i).events + if i == id then e.events else [] {
    }
    HomeEventsGrow(start, x.node, n', k, t.log, id, e.events);
    var x' := OwnStep(x, k, step);
    forall j | 0 <= j <= x.node.workers && j != k ensures x'.added[j] == PostsTo(t.posts, x.node.workers, j) {
      assert n'.queues[j] == x.node.queues[j] && Growth(x.node.queues[j], n'.queues[j]) == [];
    }
  }

  /**
   Whatever users and other threads do in between, a drain carries out what they post together with what
   was queued, and the node follows it; no command panics.
   */
  lemma {:induction false} DrainAmongOthers(start: Node, x: Shared, k: nat, t: Thread, late: seq<Command>,
                                            answers: nat -> Answer, others: seq<seq<Step>>, count: nat)
    returns (arrivals: seq<seq<Command>>, late': seq<Command>)
    requires Follows(start, x, k, t, late) && AllOthers(others, k)
    ensures x.Shaped() && k <= x.node.workers && |arrivals| <= |others| + 1
    ensures late == [] ==> |arrivals| <= |others|
    ensures Follows(start, DrainAmong(x, k, answers, others, count), k, DrainFrom(t, answers, arrivals, count), late')
    decreases if count < MAX_COMMANDS then MAX_COMMANDS - count else 0
  {
    hide Inv, Take, Run, DrainOne, AllForeign, Follows, OwnStep, OthersRun;
    FollowsShape(start, x, k, t, late);
    arrivals, late' := [], late;
    if count < MAX_COMMANDS {
      var steps := if others == [] then [] else others[0];
      assert others != [] ==> others[0] in others;
      var x0 := OthersRun(x, steps);
      var seen := late;
      if others == [] {
        NoOthers(x);
      } else {
        seen := OthersFollow(start, x, k, t, late, steps);
      }
      var t0 := Arrive(t, [seen]);
      SeenFollow(start, x0, k, t, seen);
      FollowsShape(start, x0, k, t0, []);
      assert t0.queue + [] == t0.queue;
      var quiet := others == [] && late == [];
      var first := if quiet then [] else [seen];
      assert quiet ==> t.queue + [] == t.queue;
      assert Arrive(t, first) == t0;
      if t0.queue == [] {
        arrivals, late' := first, [];
      } else {
        CarryFollows(start, x0, k, t0, answers(count));
        var rest;
        rest, late' := DrainAmongOthers(start, OwnStep(x0, k, ProcessNext(k, answers(count))), k,
                                        DrainOne(t0, answers(count)), [], answers, Later(others), count + 1);
        arrivals := first + rest;
        assert Later(arrivals) == rest;
      }
    }
  }

  lemma NoOthers(x: Shared)
    requires x.Shaped()
    ensures OthersRun(x, []) == x
  {
  }

  /** One shift is one turn of the thread. */
  lemma ShiftFollows(start: Node, x: Shared, k: nat, t: Thread, late: seq<Command>, shift: Shift)
    returns (turn: Turn, late': seq<Command>)
    requires Follows(start, x, k, t, late) && x.Shaped() && Possible(x, k, shift)
    ensures k <= x.node.workers && IsTurnOf(shift, turn)
    ensures Follows(start, ShiftAmong(x, k, shift), k, TakeTurn(t, turn), late')
  {
    hide Inv, Run, AllForeign, AllOthers, Follows, OwnStep, OthersRun, DrainAmong, DrainFrom, Born;
    FollowsShape(start, x, k, t, late);
    match shift {
      case ReadShift(before, id, a) =>
        turn := ReadTurn(id, a);
        late' := OthersFollow(start, x, k, t, late, before);
        PollFollows(start, OthersRun(x, before), k, t, late', id, a);
      case WriteShift(before, id, a) =>
        turn := WriteTurn(id, a);
        late' := OthersFollow(start, x, k, t, late, before);
        PollFollows(start, OthersRun(x, before), k, t, late', id, a);
      case DrainShift(answers, others) =>
        var arrivals;
        arrivals, late' := DrainAmongOthers(start, x, k, t, late, answers, others, 0);
        turn := DrainTurn(answers, arrivals);
    }
  }

  ghost predicate AreTurnsOf(shifts: seq<Shift>, turns: seq<Turn>) {
    |shifts| == |turns| && forall i | 0 <= i < |shifts| :: IsTurnOf(shifts[i], turns[i])
  }

  lemma {:induction false} ShiftsFollow(start: Node, x: Shared, k: nat, t: Thread, late: seq<Command>,
                                        shifts: seq<Shift>)
    returns (turns: seq<Turn>, late': seq<Command>)
    requires Follows(start, x, k, t, late) && x.Shaped() && k <= x.node.workers && AllPossible(x, k, shifts)
    ensures AreTurnsOf(shifts, turns)
    ensures Follows(start, ShiftsAmong(x, k, shifts), k, TakeTurns(t, turns), late')
    decreases shifts
  {
    hide Inv, Follows, ShiftAmong, TakeTurn, IsTurnOf, Possible;
    turns, late' := [], late;
    if shifts != [] {
      var first, between := ShiftFollows(start, x, k, t, late, shifts[0]);
      var rest;
      rest, late' := ShiftsFollow(start, ShiftAmong(x, k, shifts[0]), k, TakeTurn(t, first), between, shifts[1..]);
      turns := [first] + rest;
      assert turns[1..] == rest;
    }
  }

  function Nothing(workers: nat): seq<seq<Command>> {
    seq(workers + 1, _ => [])
  }

  /**
   Wherever a run has come to, and whatever users and other threads do before each of a thread's poll events
   and before each command of its drains: the thread never panics, and the node follows it.  Its registries
   and queue are those of the node, the events of its resources grow by what it shows, and its steps add to
   the other queues exactly what it posts.
   */
  lemma ThreadAmongOthers(workers: nat, steps: seq<Step>, k: nat, shifts: seq<Shift>)
    returns (turns: seq<Turn>, late: seq<Command>)
    requires workers > 0 && k <= workers
    requires var n := Run(NewNode(workers), steps);
             n.Shaped() && n.workers == workers && AllPossible(Shared(n, Nothing(workers)), k, shifts)
    ensures AreTurnsOf(shifts, turns)
    ensures var n := Run(NewNode(workers), steps);
            var x := ShiftsAmong(Shared(n, Nothing(workers)), k, shifts);
            Follows(n, x, k, TakeTurns(Idle(n, k), turns), late)
  {
    hide Inv, Run, ShiftsAmong, TakeTurns, AllPossible, EventsIn, IsLocal;
    NewNodeInv(workers);
    RunKeeps(NewNode(workers), steps);
    var n := Run(NewNode(workers), steps);
    StartFollows(n, k);
    turns, late := ShiftsFollow(n, Shared(n, Nothing(workers)), k, Idle(n, k), [], shifts);
  }

  lemma StartFollows(n: Node, k: nat)
    requires Inv(n) && n.Shaped() && k <= n.workers
    ensures Follows(n, Shared(n, Nothing(n.workers)), k, Idle(n, k), [])
  {
    hide Inv, IsLocal;
    assert n.queues[k] + [] == n.queues[k];
  }
}
