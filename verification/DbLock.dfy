/**
 * The one database connection. Everything queues on a FIFO lock; a transaction callback awaits
 * between its statements, and only the lock keeps other callers' statements out of it.
 */
module DbLock {
  import opened Common

  // ------------------------------------------------------------------ the lock

  datatype Lock = Lock(locked: bool, waiters: seq<nat>)

  function Acquired(l: Lock, who: nat): (Lock, bool) {
    if !l.locked then (Lock(true, l.waiters), true) else (Lock(true, l.waiters + [who]), false)
  }

  /** The next waiter is handed the lock without it ever being free. */
  function Released(l: Lock): (Lock, Option<nat>) {
    if l.waiters != [] then (Lock(l.locked, l.waiters[1..]), Some(l.waiters[0])) else (Lock(false, []), None)
  }

  class Mutex {
    var locked: bool
    var waiters: seq<nat>

    ghost function View(): Lock
      reads this
    {
      Lock(locked, waiters)
    }

    constructor ()
      ensures View() == Lock(false, [])
    {
      locked, waiters := false, [];
    }

    method Acquire(who: nat) returns (granted: bool)
      modifies this
      ensures (View(), granted) == Acquired(old(View()), who)
    {
      if !locked {
        locked := true;
        return true;
      }
      waiters := waiters + [who];
      granted := false;
    }

    method Release() returns (next: Option<nat>)
      modifies this
      ensures (View(), next) == Released(old(View()))
    {
      if waiters != [] {
        next := Some(waiters[0]);
        waiters := waiters[1..];
      } else {
        locked := false;
        next := None;
      }
    }
  }

  // ------------------------------------------------------------------ callers

  /** A call made by a transaction callback: on its handle, through the module-level helpers, or a `tx` of its own. */
  datatype Call = OnHandle(stmt: nat) | Plain(stmt: nat) | Nested(body: seq<Call>)

  /**
   * `body` is every call the callback makes, up to where it throws if it does. A lone statement
   * may be refused by the database, and so may a COMMIT.
   */
  datatype Task = Transaction(body: seq<Call>, throws: bool, commits: bool) | Single(stmt: nat, accepted: bool)

  datatype Phase =
    | NotCalled
    | Queued
    | Granted
    | InTx(todo: seq<Call>, saved: seq<nat>)
    | Stuck
    | Done

  datatype Event = Began(who: nat) | Ran(who: nat, stmt: nat) | Committed(who: nat) | RolledBack(who: nat)

  /**
   * The lock, where every task stands, and two pieces of history: `order`, who asked for the lock
   * and when, and `served`, how many of them have given it back.
   */
  datatype Line = Line(lock: Lock, phases: seq<Phase>, order: seq<nat>, served: nat)

  /**
   * The database is represented by the statements in effect, oldest first: any real database is a
   * fold of that list.
   */
  datatype Pool = Pool(line: Line, inEffect: seq<nat>, log: seq<Event>)

  datatype Step = CallLock(who: nat) | Start(who: nat) | BeginFails(who: nat) | Advance(who: nat) | End(who: nat)

  predicate Enabled(tasks: seq<Task>, l: Line, step: Step) {
    && |l.phases| == |tasks| && step.who < |tasks|
    && match step
       case CallLock(w) => l.phases[w].NotCalled?
       case Start(w) => l.phases[w].Granted?
       case BeginFails(w) => l.phases[w].Granted? && tasks[w].Transaction?
       case Advance(w) => l.phases[w].InTx? && l.phases[w].todo != []
       case End(w) => l.phases[w].InTx? && l.phases[w].todo == [] && tasks[w].Transaction?
  }

  function Asked(l: Line, w: nat): Line
    requires w < |l.phases|
  {
    var (lock, granted) := Acquired(l.lock, w);
    l.(lock := lock, order := l.order + [w], phases := l.phases[w := if granted then Granted else Queued])
  }

  function Moved(l: Line, w: nat, phase: Phase): Line
    requires w < |l.phases|
  {
    l.(phases := l.phases[w := phase])
  }

  /** `finally release()`: hand over, and note who has been served. */
  function LetGo(l: Line, who: nat): Line
    requires who < |l.phases|
  {
    var (lock, next) := Released(l.lock);
    var phases := l.phases[who := Done];
    l.(lock := lock, served := l.served + 1,
       phases := if next.Some? && next.value < |phases| then phases[next.value := Granted] else phases)
  }

  /** Inside a transaction a nested `tx` is joined: its calls simply come next. */
  function Rest(todo: seq<Call>): seq<Call>
    requires todo != []
  {
    if todo[0].Nested? then todo[0].body + todo[1..] else todo[1..]
  }

  /** How a step moves the queue. */
  function NextLine(tasks: seq<Task>, p: Pool, step: Step): Line
    requires Enabled(tasks, p.line, step)
  {
    match step
    case CallLock(w) => Asked(p.line, w)
    case Start(w) =>
      if tasks[w].Transaction? then Moved(p.line, w, InTx(tasks[w].body, p.inEffect))
      else LetGo(p.line, w)               // lock, run and release with no await in between
    case BeginFails(w) => Moved(p.line, w, Stuck)   // thrown before the `try`: nothing runs the release
    case Advance(w) => Moved(p.line, w, InTx(Rest(p.line.phases[w].todo), p.line.phases[w].saved))
    case End(w) => LetGo(p.line, w)
  }

  predicate Succeeds(t: Task) { if t.Transaction? then !t.throws && t.commits else t.accepted }

  function Next(tasks: seq<Task>, p: Pool, step: Step): Pool
    requires Enabled(tasks, p.line, step)
  {
    var line := NextLine(tasks, p, step);
    match step
    case Start(w) =>
      (match tasks[w]
       case Transaction(_, _, _) => Pool(line, p.inEffect, p.log + [Began(w)])
       case Single(stmt, accepted) =>
         if accepted then Pool(line, p.inEffect + [stmt], p.log + [Ran(w, stmt)]) else Pool(line, p.inEffect, p.log))
    case Advance(w) =>
      var call := p.line.phases[w].todo[0];
      if call.Nested? then Pool(line, p.inEffect, p.log)
      else Pool(line, p.inEffect + [call.stmt], p.log + [Ran(w, call.stmt)])
    case End(w) =>
      if Succeeds(tasks[w]) then Pool(line, p.inEffect, p.log + [Committed(w)])
      else Pool(line, p.line.phases[w].saved, p.log + [RolledBack(w)])
    case _ => Pool(line, p.inEffect, p.log)
  }

  // ------------------------------------------------------------------ the serial execution it must equal

  /** The statements of a callback in the order it issues them; a nested `tx` contributes its own in place. */
  function Flatten(calls: seq<Call>): seq<nat>
    decreases calls, 0
  {
    if calls == [] then [] else Issued(calls[0]) + Flatten(calls[1..])
  }

  function Issued(call: Call): seq<nat>
    decreases call, 1
  {
    if call.Nested? then Flatten(call.body) else [call.stmt]
  }

  function Statements(t: Task): seq<nat> { if t.Transaction? then Flatten(t.body) else [t.stmt] }

  /** The task leaves its statements behind: it did not throw, and its COMMIT or lone statement was taken. */
  predicate Stays(t: Task) {
    match t
    case Transaction(_, throws, commits) => commits && !throws
    case Single(_, accepted) => accepted
  }

  /** Running the given tasks one after another, the failed ones leaving nothing. */
  function Serial(tasks: seq<Task>, who: seq<nat>): seq<nat> {
    if who == [] then []
    else
      var last := who[|who| - 1];
      Serial(tasks, who[..|who| - 1]) + if last < |tasks| && Stays(tasks[last]) then Statements(tasks[last]) else []
  }

  function Runs(who: nat, stmts: seq<nat>): seq<Event> {
    seq(|stmts|, i requires 0 <= i < |stmts| => Ran(who, stmts[i]))
  }

  /** The uninterrupted block one task leaves in the log. */
  function Block(t: Task, who: nat): seq<Event> {
    match t
    case Transaction(body, _, _) =>
      [Began(who)] + Runs(who, Flatten(body)) + [if Stays(t) then Committed(who) else RolledBack(who)]
    case Single(stmt, accepted) => if accepted then [Ran(who, stmt)] else []
  }

  function Blocks(tasks: seq<Task>, who: seq<nat>): seq<Event> {
    if who == [] then []
    else
      var last := who[|who| - 1];
      Blocks(tasks, who[..|who| - 1]) + if last < |tasks| then Block(tasks[last], last) else []
  }

  lemma {:induction false} FlattenAppend(a: seq<Call>, b: seq<Call>)
    ensures Flatten(a + b) == Flatten(a) + Flatten(b)
  {
    if a == [] {
      assert a + b == b;
    } else {
      FlattenAppend(a[1..], b);
      assert (a + b)[1..] == a[1..] + b && (a + b)[0] == a[0];
      assert Issued(a[0]) + (Flatten(a[1..]) + Flatten(b)) == (Issued(a[0]) + Flatten(a[1..])) + Flatten(b);
    }
  }

  // ------------------------------------------------------------------ the invariant

  predicate Known(tasks: seq<Task>, order: seq<nat>) { forall i :: 0 <= i < |order| ==> order[i] < |tasks| }

  predicate Active(phase: Phase) { phase.Granted? || phase.InTx? || phase.Stuck? }

  ghost predicate PhasesMatch(l: Line)
    requires l.served <= |l.order| && forall i :: 0 <= i < |l.order| ==> l.order[i] < |l.phases|
  {
    && (forall i :: 0 <= i < l.served ==> l.phases[l.order[i]].Done?)
    && (l.served < |l.order| ==> Active(l.phases[l.order[l.served]]))
    && (forall i :: l.served < i < |l.order| ==> l.phases[l.order[i]].Queued?)
    && (forall w :: 0 <= w < |l.phases| && w !in l.order ==> l.phases[w].NotCalled?)
  }

  ghost predicate InLine(tasks: seq<Task>, l: Line) {
    && |l.phases| == |tasks| && l.served <= |l.order|
    && l.lock.locked == (l.served < |l.order|)
    && l.lock.waiters == (if l.served < |l.order| then l.order[l.served + 1..] else [])
    && Distinct(l.order) && Known(tasks, l.order)
  }

  /**
   * Nobody is lost and nobody overtakes: everyone who asked was served, holds the lock, or waits,
   * in the order of asking.
   */
  ghost predicate Queueing(tasks: seq<Task>, l: Line) { InLine(tasks, l) && PhasesMatch(l) }

  predicate Holds(l: Line, w: nat) { l.served < |l.order| && l.order[l.served] == w }

  /** What a transaction has run, and what it still has to run, make up its body. */
  ghost predicate Partial(body: seq<Call>, ran: seq<nat>, todo: seq<Call>) { ran + Flatten(todo) == Flatten(body) }

  ghost predicate OpenTx(t: Task, phase: Phase, w: nat, inEffect: seq<nat>, log: seq<Event>,
                         done: seq<nat>, blocks: seq<Event>, ran: seq<nat>)
    requires phase.InTx?
  {
    && t.Transaction? && phase.saved == done && Partial(t.body, ran, phase.todo)
    && inEffect == done + ran && log == blocks + [Began(w)] + Runs(w, ran)
  }

  ghost predicate Serializable(tasks: seq<Task>, p: Pool)
    requires Queueing(tasks, p.line)
  {
    var l := p.line;
    var done, blocks := Serial(tasks, l.order[..l.served]), Blocks(tasks, l.order[..l.served]);
    if l.served < |l.order| && l.phases[l.order[l.served]].InTx? then
      var w := l.order[l.served];
      exists ran :: OpenTx(tasks[w], l.phases[w], w, p.inEffect, p.log, done, blocks, ran)
    else
      p.inEffect == done && p.log == blocks
  }

  ghost predicate Inv(tasks: seq<Task>, p: Pool) { Queueing(tasks, p.line) && Serializable(tasks, p) }

  /** Mutual exclusion: only the one at the head of the queue can take any step but asking. */
  lemma OneAtATime(tasks: seq<Task>, l: Line, step: Step)
    requires Queueing(tasks, l) && Enabled(tasks, l, step) && !step.CallLock?
    ensures Holds(l, step.who)
  {
    assert step.who in l.order;
  }

  lemma ReleaseKeepsLine(tasks: seq<Task>, l: Line, w: nat)
    requires Queueing(tasks, l) && Holds(l, w)
    ensures InLine(tasks, LetGo(l, w))
    ensures var l' := LetGo(l, w);
            && l'.served == l.served + 1 && l'.order == l.order
            && l'.phases == if l'.served < |l.order| then l.phases[w := Done][l.order[l'.served] := Granted]
                            else l.phases[w := Done]
  {
    if l.lock.waiters != [] {
      assert l.lock.waiters[0] == l.order[l.served + 1];
      assert l.lock.waiters[1..] == l.order[l.served + 2..];
    }
  }

  /** The head is done and the next one, if any, is granted: nobody else's phase moves. */
  lemma PassedOn(order: seq<nat>, n: nat, phases: seq<Phase>, phases': seq<Phase>)
    requires n < |order| && Distinct(order)
    requires forall i :: 0 <= i < |order| ==> order[i] < |phases|
    requires phases' == if n + 1 < |order| then phases[order[n] := Done][order[n + 1] := Granted]
                        else phases[order[n] := Done]
    ensures phases'[order[n]] == Done && (n + 1 < |order| ==> phases'[order[n + 1]] == Granted)
    ensures forall i :: 0 <= i < n ==> phases'[order[i]] == phases[order[i]]
    ensures forall i :: n + 1 < i < |order| ==> phases'[order[i]] == phases[order[i]]
    ensures forall v :: 0 <= v < |phases| && v !in order ==> phases'[v] == phases[v]
  {
  }

  lemma PassedOnMatches(l: Line, l': Line)
    requires l.served < |l.order| && (forall i :: 0 <= i < |l.order| ==> l.order[i] < |l.phases|) && PhasesMatch(l)
    requires l'.order == l.order && l'.served == l.served + 1 && |l'.phases| == |l.phases| && Distinct(l.order)
    requires var phases := l.phases[l.order[l.served] := Done];
             l'.phases == if l'.served < |l.order| then phases[l.order[l'.served] := Granted] else phases
    ensures PhasesMatch(l')
  {
    PassedOn(l.order, l.served, l.phases, l'.phases);
  }

  lemma ReleaseKeepsQueue(tasks: seq<Task>, l: Line, w: nat)
    requires Queueing(tasks, l) && Holds(l, w)
    ensures Queueing(tasks, LetGo(l, w))
    ensures var l' := LetGo(l, w);
            && l'.served == l.served + 1 && l'.order == l.order
            && (l'.served < |l.order| ==> l'.phases[l.order[l'.served]].Granted?)
  {
    ReleaseKeepsLine(tasks, l, w);
    PassedOnMatches(l, LetGo(l, w));
  }

  lemma Extended(order: seq<nat>, w: nat)
    requires Distinct(order) && w !in order
    ensures Distinct(order + [w])
    ensures forall v :: v in order + [w] <==> v in order || v == w
    ensures forall k :: 0 <= k < |order| ==> (order + [w])[k + 1..] == order[k + 1..] + [w] && order[k] != w
  {
  }

  lemma NotYetAsked(tasks: seq<Task>, l: Line, w: nat)
    requires Queueing(tasks, l) && w < |tasks| && l.phases[w].NotCalled?
    ensures w !in l.order
  {
    if i :| 0 <= i < |l.order| && l.order[i] == w {
      assert !l.phases[l.order[i]].NotCalled?;
    }
  }

  lemma AskedInLine(tasks: seq<Task>, l: Line, w: nat)
    requires InLine(tasks, l) && w < |tasks| && w !in l.order
    ensures InLine(tasks, Asked(l, w))
  {
    Extended(l.order, w);
    if l.served < |l.order| { assert (l.order + [w])[l.served + 1..] == l.order[l.served + 1..] + [w]; }
  }

  lemma AskingKeepsLine(tasks: seq<Task>, l: Line, w: nat)
    requires Queueing(tasks, l) && w < |tasks| && l.phases[w].NotCalled?
    ensures InLine(tasks, Asked(l, w)) && w !in l.order
  {
    NotYetAsked(tasks, l, w);
    AskedInLine(tasks, l, w);
  }

  lemma AskingKeepsQueue(tasks: seq<Task>, l: Line, w: nat)
    requires Queueing(tasks, l) && w < |tasks| && l.phases[w].NotCalled?
    ensures Queueing(tasks, Asked(l, w))
  {
    AskingKeepsLine(tasks, l, w);
    assert forall i :: 0 <= i < |l.order| ==> l.order[i] != w && Asked(l, w).phases[l.order[i]] == l.phases[l.order[i]];
    assert Asked(l, w).order[|l.order|] == w;
  }

  lemma MovingKeepsQueue(tasks: seq<Task>, l: Line, w: nat, phase: Phase)
    requires Queueing(tasks, l) && Holds(l, w) && Active(phase)
    ensures Queueing(tasks, Moved(l, w, phase))
  {
    assert w in l.order;
  }

  lemma QueueStep(tasks: seq<Task>, p: Pool, step: Step)
    requires Queueing(tasks, p.line) && Enabled(tasks, p.line, step)
    ensures Queueing(tasks, NextLine(tasks, p, step))
  {
    if step.CallLock? {
      AskingKeepsQueue(tasks, p.line, step.who);
    } else {
      OneAtATime(tasks, p.line, step);
      if step.End? || (step.Start? && tasks[step.who].Single?) {
        ReleaseKeepsQueue(tasks, p.line, step.who);
      } else {
        MovingKeepsQueue(tasks, p.line, step.who, NextLine(tasks, p, step).phases[step.who]);
      }
    }
  }

  lemma PastGrows(tasks: seq<Task>, l: Line, w: nat)
    requires Queueing(tasks, l) && Holds(l, w)
    ensures var past := l.order[..l.served];
            && Serial(tasks, l.order[..l.served + 1])
               == Serial(tasks, past) + (if Succeeds(tasks[w]) then Statements(tasks[w]) else [])
            && Blocks(tasks, l.order[..l.served + 1]) == Blocks(tasks, past) + Block(tasks[w], w)
  {
    var longer := l.order[..l.served + 1];
    assert longer[..|longer| - 1] == l.order[..l.served];
  }

  lemma LetGoSerializes(tasks: seq<Task>, l: Line, w: nat, inEffect: seq<nat>, log: seq<Event>)
    requires Queueing(tasks, l) && Holds(l, w)
    requires inEffect == Serial(tasks, l.order[..l.served]) + (if Succeeds(tasks[w]) then Statements(tasks[w]) else [])
    requires log == Blocks(tasks, l.order[..l.served]) + Block(tasks[w], w)
    ensures Inv(tasks, Pool(LetGo(l, w), inEffect, log))
  {
    PastGrows(tasks, l, w);
    ReleaseKeepsQueue(tasks, l, w);
  }

  lemma OpeningIsOpen(t: Task, w: nat, inEffect: seq<nat>, log: seq<Event>)
    requires t.Transaction?
    ensures OpenTx(t, InTx(t.body, inEffect), w, inEffect, log + [Began(w)], inEffect, log, [])
  {
    assert Runs(w, []) == [] && inEffect + [] == inEffect && log + [Began(w)] + [] == log + [Began(w)];
    assert [] + Flatten(t.body) == Flatten(t.body);
  }

  lemma StartKeeps(tasks: seq<Task>, p: Pool, w: nat)
    requires Inv(tasks, p) && Enabled(tasks, p.line, Start(w)) && Holds(p.line, w)
    ensures Inv(tasks, Next(tasks, p, Start(w)))
  {
    if tasks[w].Single? {
      assert p.log + [] == p.log && p.inEffect + [] == p.inEffect;
      var p' := Next(tasks, p, Start(w));
      LetGoSerializes(tasks, p.line, w, p'.inEffect, p'.log);
    } else {
      MovingKeepsQueue(tasks, p.line, w, InTx(tasks[w].body, p.inEffect));
      OpeningIsOpen(tasks[w], w, p.inEffect, p.log);
    }
  }

  lemma RestKeepsPartial(body: seq<Call>, ran: seq<nat>, todo: seq<Call>)
    requires todo != [] && Partial(body, ran, todo)
    ensures Partial(body, if todo[0].Nested? then ran else ran + [todo[0].stmt], Rest(todo))
  {
    assert Flatten(todo) == Issued(todo[0]) + Flatten(todo[1..]);
    if todo[0].Nested? {
      FlattenAppend(todo[0].body, todo[1..]);
    } else {
      assert (ran + [todo[0].stmt]) + Flatten(todo[1..]) == ran + ([todo[0].stmt] + Flatten(todo[1..]));
    }
  }

  lemma StatementKeepsOpen(t: Task, phase: Phase, w: nat, inEffect: seq<nat>, log: seq<Event>,
                           done: seq<nat>, blocks: seq<Event>, ran: seq<nat>)
    requires phase.InTx? && phase.todo != [] && !phase.todo[0].Nested?
    requires OpenTx(t, phase, w, inEffect, log, done, blocks, ran)
    ensures var stmt := phase.todo[0].stmt;
            OpenTx(t, InTx(Rest(phase.todo), phase.saved), w, inEffect + [stmt], log + [Ran(w, stmt)], done, blocks,
                   ran + [stmt])
  {
    var stmt := phase.todo[0].stmt;
    RestKeepsPartial(t.body, ran, phase.todo);
    assert Runs(w, ran + [stmt]) == Runs(w, ran) + [Ran(w, stmt)];
    assert done + ran + [stmt] == done + (ran + [stmt]);
    assert blocks + [Began(w)] + Runs(w, ran) + [Ran(w, stmt)] == blocks + [Began(w)] + (Runs(w, ran) + [Ran(w, stmt)]);
  }

  lemma AdvanceKeeps(tasks: seq<Task>, p: Pool, w: nat)
    requires Inv(tasks, p) && Enabled(tasks, p.line, Advance(w)) && Holds(p.line, w)
    ensures Inv(tasks, Next(tasks, p, Advance(w)))
  {
    var l, t := p.line, tasks[w];
    var phase := l.phases[w];
    MovingKeepsQueue(tasks, l, w, InTx(Rest(phase.todo), phase.saved));
    var done, blocks := Serial(tasks, l.order[..l.served]), Blocks(tasks, l.order[..l.served]);
    var ran :| OpenTx(t, phase, w, p.inEffect, p.log, done, blocks, ran);
    if phase.todo[0].Nested? {
      RestKeepsPartial(t.body, ran, phase.todo);
      assert OpenTx(t, InTx(Rest(phase.todo), phase.saved), w, p.inEffect, p.log, done, blocks, ran);
    } else {
      StatementKeepsOpen(t, phase, w, p.inEffect, p.log, done, blocks, ran);
    }
  }

  lemma WholeBodyIsBlock(t: Task, phase: Phase, w: nat, inEffect: seq<nat>, log: seq<Event>,
                         done: seq<nat>, blocks: seq<Event>, ran: seq<nat>)
    requires phase.InTx? && phase.todo == []
    requires OpenTx(t, phase, w, inEffect, log, done, blocks, ran)
    ensures inEffect == done + Statements(t) && phase.saved == done
    ensures log + [if Succeeds(t) then Committed(w) else RolledBack(w)] == blocks + Block(t, w)
  {
    assert ran + [] == ran && ran == Flatten(t.body);
    var last := [if Succeeds(t) then Committed(w) else RolledBack(w)];
    assert blocks + [Began(w)] + Runs(w, ran) + last == blocks + ([Began(w)] + Runs(w, ran) + last);
  }

  lemma EndKeeps(tasks: seq<Task>, p: Pool, w: nat)
    requires Inv(tasks, p) && Enabled(tasks, p.line, End(w)) && Holds(p.line, w)
    ensures Inv(tasks, Next(tasks, p, End(w)))
  {
    var l, p', t := p.line, Next(tasks, p, End(w)), tasks[w];
    var done, blocks := Serial(tasks, l.order[..l.served]), Blocks(tasks, l.order[..l.served]);
    var ran :| OpenTx(t, l.phases[w], w, p.inEffect, p.log, done, blocks, ran);
    WholeBodyIsBlock(t, l.phases[w], w, p.inEffect, p.log, done, blocks, ran);
    assert done + [] == done;
    LetGoSerializes(tasks, l, w, p'.inEffect, p'.log);
  }

  lemma AskKeeps(tasks: seq<Task>, p: Pool, w: nat)
    requires Inv(tasks, p) && Enabled(tasks, p.line, CallLock(w))
    ensures Inv(tasks, Next(tasks, p, CallLock(w)))
  {
    var l, l' := p.line, Asked(p.line, w);
    AskingKeepsQueue(tasks, l, w);
    assert l'.order[..l'.served] == l.order[..l.served];
    if l.served < |l.order| {
      var h := l.order[l.served];
      assert h in l.order && l'.phases[h] == l.phases[h] && l'.order[l'.served] == h;
    }
  }

  lemma StepKeeps(tasks: seq<Task>, p: Pool, step: Step)
    requires Inv(tasks, p) && Enabled(tasks, p.line, step)
    ensures Inv(tasks, Next(tasks, p, step))
  {
    if step.CallLock? {
      AskKeeps(tasks, p, step.who);
    } else {
      OneAtATime(tasks, p.line, step);
      match step
      case Start(w) => StartKeeps(tasks, p, w);
      case Advance(w) => AdvanceKeeps(tasks, p, w);
      case End(w) => EndKeeps(tasks, p, w);
      case BeginFails(w) => MovingKeepsQueue(tasks, p.line, w, Stuck);
    }
  }

  // ------------------------------------------------------------------ runs

  ghost predicate Possible(tasks: seq<Task>, p: Pool, steps: seq<Step>)
    decreases |steps|
  {
    steps == [] || (Enabled(tasks, p.line, steps[0]) && Possible(tasks, Next(tasks, p, steps[0]), steps[1..]))
  }

  ghost function Run(tasks: seq<Task>, p: Pool, steps: seq<Step>): Pool
    requires Possible(tasks, p, steps)
    decreases |steps|
  {
    if steps == [] then p else Run(tasks, Next(tasks, p, steps[0]), steps[1..])
  }

  function Fresh(tasks: seq<Task>): Pool {
    Pool(Line(Lock(false, []), seq(|tasks|, i => NotCalled), [], 0), [], [])
  }

  lemma {:induction false} RunKeeps(tasks: seq<Task>, p: Pool, steps: seq<Step>)
    requires Inv(tasks, p) && Possible(tasks, p, steps)
    ensures Inv(tasks, Run(tasks, p, steps))
    decreases |steps|
  {
    if steps != [] {
      StepKeeps(tasks, p, steps[0]);
      RunKeeps(tasks, Next(tasks, p, steps[0]), steps[1..]);
    }
  }

  /**
   * Whatever the interleaving: whenever no transaction is open, the database is what running the
   * served tasks one after another in the order they asked would have left, failed ones removed,
   * and the statement log is those tasks' blocks laid end to end.
   */
  lemma EveryRunIsSerial(tasks: seq<Task>, steps: seq<Step>)
    requires Possible(tasks, Fresh(tasks), steps)
    ensures var p := Run(tasks, Fresh(tasks), steps);
            var l := p.line;
            && l.served <= |l.order|
            && ((forall w :: 0 <= w < |l.phases| ==> !l.phases[w].InTx?) ==>
                  p.inEffect == Serial(tasks, l.order[..l.served]) && p.log == Blocks(tasks, l.order[..l.served]))
  {
    RunKeeps(tasks, Fresh(tasks), steps);
  }

  // ------------------------------------------------------------------ progress

  function CallCost(c: Call): nat
    decreases c, 0
  {
    if c.Nested? then 1 + Cost(c.body) else 1
  }

  function Cost(calls: seq<Call>): nat
    decreases calls, 0
  {
    if calls == [] then 0 else CallCost(calls[0]) + Cost(calls[1..])
  }

  lemma {:induction false} CostAppend(a: seq<Call>, b: seq<Call>)
    ensures Cost(a + b) == Cost(a) + Cost(b)
  {
    if a == [] { assert a + b == b; }
    else {
      CostAppend(a[1..], b);
      assert (a + b)[1..] == a[1..] + b;
    }
  }

  function TaskCost(t: Task): nat { if t.Transaction? then 2 + Cost(t.body) else 1 }

  function PhaseCost(t: Task, phase: Phase): nat {
    match phase
    case InTx(todo, _) => 1 + Cost(todo)
    case Done => 0
    case _ => TaskCost(t)
  }

  /** The steps still owed to those who have asked. */
  function Owed(tasks: seq<Task>, phases: seq<Phase>, order: seq<nat>): nat
    requires |phases| == |tasks| && Known(tasks, order)
  {
    if order == [] then 0
    else PhaseCost(tasks[order[0]], phases[order[0]]) + Owed(tasks, phases, order[1..])
  }

  lemma {:induction false} OwedSame(tasks: seq<Task>, phases: seq<Phase>, order: seq<nat>, phases': seq<Phase>)
    requires |phases| == |phases'| == |tasks| && Known(tasks, order)
    requires forall i :: 0 <= i < |order| ==>
               PhaseCost(tasks[order[i]], phases'[order[i]]) == PhaseCost(tasks[order[i]], phases[order[i]])
    ensures Owed(tasks, phases', order) == Owed(tasks, phases, order)
  {
    if order != [] {
      assert forall i :: 0 <= i < |order[1..]| ==> order[1..][i] == order[i + 1];
      OwedSame(tasks, phases, order[1..], phases');
    }
  }

  lemma {:induction false} OwedSplit(tasks: seq<Task>, phases: seq<Phase>, order: seq<nat>, k: nat, phases': seq<Phase>)
    requires |phases| == |phases'| == |tasks| && Known(tasks, order)
    requires k < |order|
    requires forall i :: 0 <= i < |order| && i != k ==>
               PhaseCost(tasks[order[i]], phases'[order[i]]) == PhaseCost(tasks[order[i]], phases[order[i]])
    ensures Owed(tasks, phases', order) - PhaseCost(tasks[order[k]], phases'[order[k]])
         == Owed(tasks, phases, order) - PhaseCost(tasks[order[k]], phases[order[k]])
  {
    var rest := order[1..];
    assert forall i :: 0 <= i < |rest| ==> rest[i] == order[i + 1];
    assert Known(tasks, rest);
    if k > 0 { OwedSplit(tasks, phases, rest, k - 1, phases'); }
    else { OwedSame(tasks, phases, rest, phases'); }
  }

  /** Only the holder's own phase, and the grant to the next in line, change; the grant costs nothing. */
  lemma HolderPaysOff(tasks: seq<Task>, l: Line, w: nat, phases: seq<Phase>)
    requires Queueing(tasks, l) && Holds(l, w) && |phases| == |tasks|
    requires PhaseCost(tasks[w], phases[w]) < PhaseCost(tasks[w], l.phases[w])
    requires forall v :: 0 <= v < |tasks| && v != w ==>
               PhaseCost(tasks[v], phases[v]) == PhaseCost(tasks[v], l.phases[v])
    ensures Owed(tasks, phases, l.order) < Owed(tasks, l.phases, l.order)
  {
    assert forall i :: 0 <= i < |l.order| && i != l.served ==> l.order[i] != w;
    OwedSplit(tasks, l.phases, l.order, l.served, phases);
  }

  lemma LetGoPaysOff(tasks: seq<Task>, l: Line, w: nat)
    requires Queueing(tasks, l) && Holds(l, w) && !l.phases[w].Stuck?
    ensures Owed(tasks, LetGo(l, w).phases, l.order) < Owed(tasks, l.phases, l.order)
  {
    ReleaseKeepsLine(tasks, l, w);
    assert l.served + 1 < |l.order| ==> l.order[l.served + 1] != w;
    HolderPaysOff(tasks, l, w, LetGo(l, w).phases);
  }

  lemma AdvanceCosts(todo: seq<Call>)
    requires todo != []
    ensures Cost(Rest(todo)) < Cost(todo)
  {
    if todo[0].Nested? { CostAppend(todo[0].body, todo[1..]); }
  }

  /** Every step of the holder pays off part of what is owed, and nobody jumps the queue. */
  lemma StepsPayOff(tasks: seq<Task>, p: Pool, step: Step)
    requires Queueing(tasks, p.line) && Enabled(tasks, p.line, step) && !step.CallLock? && !step.BeginFails?
    ensures NextLine(tasks, p, step).order == p.line.order
    ensures Owed(tasks, NextLine(tasks, p, step).phases, p.line.order) < Owed(tasks, p.line.phases, p.line.order)
  {
    OneAtATime(tasks, p.line, step);
    var w := step.who;
    if step.End? || (step.Start? && tasks[w].Single?) {
      LetGoPaysOff(tasks, p.line, w);
    } else {
      if step.Advance? { AdvanceCosts(p.line.phases[w].todo); }
      HolderPaysOff(tasks, p.line, w, NextLine(tasks, p, step).phases);
    }
  }

  /**
   * While anyone who asked is unserved and no BEGIN has failed, someone can move: no deadlock, nested
   * calls included.
   */
  lemma NeverDeadlocked(tasks: seq<Task>, p: Pool)
    requires Inv(tasks, p) && p.line.served < |p.line.order|
    requires forall w :: 0 <= w < |tasks| ==> !p.line.phases[w].Stuck?
    ensures exists step :: Enabled(tasks, p.line, step) && !step.CallLock? && !step.BeginFails?
  {
    var l := p.line;
    var w := l.order[l.served];
    match l.phases[w]
    case Granted => assert Enabled(tasks, l, Start(w));
    case InTx(todo, _) =>
      if todo == [] { assert Enabled(tasks, l, End(w)); } else { assert Enabled(tasks, l, Advance(w)); }
  }

  /** Whoever is stuck holds the lock, and only the holder could do anything but ask. */
  lemma OnlyAskingIsLeft(tasks: seq<Task>, l: Line, step: Step, w: nat)
    requires Queueing(tasks, l) && w < |tasks| && l.phases[w].Stuck? && Enabled(tasks, l, step)
    ensures step.CallLock? && step.who != w && l.lock.locked
  {
    assert w in l.order;
    if !step.CallLock? { OneAtATime(tasks, l, step); }
  }

  lemma StuckStaysStuck(tasks: seq<Task>, p: Pool, step: Step, w: nat)
    requires Queueing(tasks, p.line) && w < |tasks| && p.line.phases[w].Stuck? && Enabled(tasks, p.line, step)
    ensures var p' := Next(tasks, p, step);
            && w < |p'.line.phases| && p'.line.phases[w].Stuck?
            && p'.log == p.log && p'.inEffect == p.inEffect && p'.line.served == p.line.served && p'.line.lock.locked
  {
    OnlyAskingIsLeft(tasks, p.line, step, w);
  }

  /**
   * A BEGIN that throws is never followed by a release: from then on nothing runs and nobody is
   * served, whatever happens.
   */
  lemma {:induction false} FailedBeginStopsEverything(tasks: seq<Task>, p: Pool, steps: seq<Step>, w: nat)
    requires Queueing(tasks, p.line) && w < |tasks| && p.line.phases[w].Stuck? && Possible(tasks, p, steps)
    ensures var p' := Run(tasks, p, steps);
            p'.log == p.log && p'.inEffect == p.inEffect && p'.line.served == p.line.served && p'.line.lock.locked
    decreases |steps|
  {
    if steps != [] {
      var step := steps[0];
      StuckStaysStuck(tasks, p, step, w);
      QueueStep(tasks, p, step);
      FailedBeginStopsEverything(tasks, Next(tasks, p, step), steps[1..], w);
    }
  }

  /** Two steps are enough to get there: the first transaction takes the free lock, and its BEGIN throws. */
  lemma FailedBeginIsReachable(tasks: seq<Task>)
    requires tasks != [] && tasks[0].Transaction?
    ensures var steps := [CallLock(0), BeginFails(0)];
            && Possible(tasks, Fresh(tasks), steps)
            && Run(tasks, Fresh(tasks), steps).line.phases[0].Stuck?
            && Queueing(tasks, Run(tasks, Fresh(tasks), steps).line)
  {
    var steps := [CallLock(0), BeginFails(0)];
    var p0 := Fresh(tasks);
    var p1 := Next(tasks, p0, steps[0]);
    assert steps[1..] == [BeginFails(0)] && steps[1..][1..] == [];
    assert p1.line.phases[0].Granted?;
    assert Possible(tasks, p1, steps[1..]);
    RunKeeps(tasks, p0, steps);
  }
}
