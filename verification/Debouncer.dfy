/**
 The debouncer shared by the hash watcher and the package watcher: `bump` postpones a
 computation, `debounce` waits until a whole timeout has passed without a successful bump.

 The lock makes every critical section atomic, so the one `debounce` call is a little state
 machine whose turns interleave with bumps from other threads. Time only moves forward; each
 turn is told the time at which it runs.
 */
module Debouncing {
  import opened Basics

  /** Where the `debounce` call stands between two of its atomic turns. */
  datatype Pc =
    | Unstarted
    | Observed(seen: nat)                   // has read the serial, has not read the clock yet
    | Waiting(seen: nat, deadline: nat)     // suspended in the select
    | Notified(seen: nat, deadline: nat)    // consumed a notification, about to take the lock
    | Expired(seen: nat, deadline: nat)     // its timer fired, about to take the lock
    | Returned(at: nat)

  /** `bumps` is the history of the times of successful bumps. */
  datatype State = State(serial: Option<nat>, permit: bool, timeout: nat, pc: Pc, bumps: seq<nat>)

  const DEFAULT_TIMEOUT: nat := 10

  function New(timeout: nat): State {
    State(Some(0), false, timeout, Unstarted, [])
  }

  /** A bump is refused exactly when the serial has been taken away. */
  predicate Accepts(d: State) {
    d.serial.Some?
  }

  function Bump(d: State, now: nat): State {
    match d.serial
    case None => d
    case Some(previous) => d.(serial := Some(previous + 1), permit := true, bumps := d.bumps + [now])
  }

  /** The select may take the notification branch or the timer branch when both are ready. */
  datatype Branch = Notification | Timer

  predicate CanTurn(d: State, branch: Branch, now: nat) {
    match d.pc
    case Returned(_) => false
    case Waiting(_, deadline) => if branch.Notification? then d.permit else deadline <= now
    case _ => true
  }

  /** One atomic turn of `debounce`. A missing serial would make the source's `expect` panic. */
  function Turn(d: State, branch: Branch, now: nat): State
    requires CanTurn(d, branch, now) && d.serial.Some?
  {
    match d.pc
    case Unstarted => d.(pc := Observed(d.serial.value))
    case Observed(seen) => d.(pc := Waiting(seen, now + d.timeout))
    case Waiting(seen, deadline) =>
      if branch.Notification?
      then d.(permit := false, pc := Notified(seen, deadline))
      else d.(pc := Expired(seen, deadline))
    case Notified(seen, deadline) =>
      if d.serial.value == seen then d.(pc := Waiting(seen, deadline)) else d.(pc := Observed(d.serial.value))
    case Expired(seen, _) =>
      if d.serial.value == seen then d.(serial := None, pc := Returned(now)) else d.(pc := Observed(d.serial.value))
  }

  /** Every successful bump lies at least one timeout before `t`. */
  predicate QuietBefore(d: State, t: nat) {
    forall i :: 0 <= i < |d.bumps| ==> d.bumps[i] + d.timeout <= t
  }

  /** What every interleaving of bumps and turns keeps. */
  predicate Valid(d: State, now: nat) {
    && (d.serial.None? <==> d.pc.Returned?)
    && (forall i :: 0 <= i < |d.bumps| ==> d.bumps[i] <= now)
    && match d.pc
       case Unstarted => true
       case Observed(seen) => seen <= d.serial.value
       case Waiting(seen, deadline) => seen <= d.serial.value && (seen == d.serial.value ==> QuietBefore(d, deadline))
       case Notified(seen, deadline) => seen <= d.serial.value && (seen == d.serial.value ==> QuietBefore(d, deadline))
       case Expired(seen, deadline) =>
         seen <= d.serial.value && deadline <= now && (seen == d.serial.value ==> QuietBefore(d, deadline))
       case Returned(at) => at <= now && QuietBefore(d, at)
  }

  lemma BumpKeepsValid(d: State, before: nat, now: nat)
    requires Valid(d, before) && before <= now
    ensures Valid(Bump(d, now), now)
    ensures Bump(d, now).bumps == if Accepts(d) then d.bumps + [now] else d.bumps
    ensures Accepts(d) && d.pc.Waiting? ==> CanTurn(Bump(d, now), Notification, now)
  {
    var d' := Bump(d, now);
    assert forall i :: 0 <= i < |d.bumps| ==> d'.bumps[i] == d.bumps[i];
    if d.pc.Returned? { assert d' == d; }
  }

  lemma TurnKeepsValid(d: State, branch: Branch, before: nat, now: nat)
    requires Valid(d, before) && before <= now && CanTurn(d, branch, now)
    ensures Valid(Turn(d, branch, now), now)
  {
  }

  /** One thing that can happen to a debouncer. */
  datatype Action = BumpAt(now: nat) | TurnAt(branch: Branch, now: nat)

  /** The state after a run and the time of its last action, or None if an action was not possible. */
  function Run(timeout: nat, actions: seq<Action>): Option<(State, nat)> {
    if actions == [] then Some((New(timeout), 0)) else
    match Run(timeout, actions[..|actions| - 1])
    case None => None
    case Some((d, before)) =>
      var a := actions[|actions| - 1];
      if a.now < before then None
      else if a.BumpAt? then Some((Bump(d, a.now), a.now))
      else if CanTurn(d, a.branch, a.now) && d.serial.Some? then Some((Turn(d, a.branch, a.now), a.now))
      else None
  }

  lemma {:induction false} RunIsValid(timeout: nat, actions: seq<Action>)
    requires Run(timeout, actions).Some?
    ensures var (d, now) := Run(timeout, actions).value; Valid(d, now) && d.timeout == timeout
  {
    if actions != [] {
      var prefix := actions[..|actions| - 1];
      RunIsValid(timeout, prefix);
      var (d, before) := Run(timeout, prefix).value;
      var a := actions[|actions| - 1];
      if a.BumpAt? { BumpKeepsValid(d, before, a.now); } else { TurnKeepsValid(d, a.branch, before, a.now); }
    }
  }

  /** `debounce` has not returned, and will not return, before a timeout has passed since `t`. */
  predicate QuietSince(d: State, t: nat) {
    match d.pc
    case Unstarted => true
    case Observed(_) => true
    case Waiting(seen, deadline) => d.serial == Some(seen) ==> t + d.timeout <= deadline
    case Notified(seen, deadline) => d.serial == Some(seen) ==> t + d.timeout <= deadline
    case Expired(seen, deadline) => d.serial == Some(seen) ==> t + d.timeout <= deadline
    case Returned(at) => t + d.timeout <= at
  }

  lemma BumpIsQuiet(d: State, before: nat, now: nat)
    requires Valid(d, before) && Accepts(d)
    ensures QuietSince(Bump(d, now), now)
  {
  }

  lemma BumpStaysQuiet(d: State, t: nat, before: nat, now: nat)
    requires Valid(d, before) && QuietSince(d, t)
    ensures QuietSince(Bump(d, now), t)
  {
  }

  lemma TurnStaysQuiet(d: State, branch: Branch, t: nat, before: nat, now: nat)
    requires Valid(d, before) && before <= now && t <= now && CanTurn(d, branch, now) && QuietSince(d, t)
    ensures QuietSince(Turn(d, branch, now), t)
  {
  }

  /** Action `i` puts the return off: it is the first turn, or a bump before the return. */
  predicate PutsOff(timeout: nat, actions: seq<Action>, i: nat)
    requires i < |actions|
  {
    match Run(timeout, actions[..i])
    case None => false
    case Some((d, _)) => if actions[i].BumpAt? then !d.pc.Returned? else d.pc.Unstarted?
  }

  lemma LastAction(timeout: nat, actions: seq<Action>, d: State, before: nat)
    requires actions != [] && Run(timeout, actions[..|actions| - 1]) == Some((d, before)) && Run(timeout, actions).Some?
    ensures
      var a := actions[|actions| - 1];
      && before <= a.now && (a.TurnAt? ==> CanTurn(d, a.branch, a.now) && d.serial.Some?)
      && Run(timeout, actions) == Some((if a.BumpAt? then Bump(d, a.now) else Turn(d, a.branch, a.now), a.now))
  {
  }

  lemma {:induction false} QuietSinceAction(timeout: nat, actions: seq<Action>, i: nat)
    requires Run(timeout, actions).Some? && i < |actions| && PutsOff(timeout, actions, i)
    ensures actions[i].now <= Run(timeout, actions).value.1
    ensures QuietSince(Run(timeout, actions).value.0, actions[i].now)
    decreases |actions|
  {
    var prefix, a := actions[..|actions| - 1], actions[|actions| - 1];
    RunIsValid(timeout, prefix);
    var (d, before) := Run(timeout, prefix).value;
    LastAction(timeout, actions, d, before);
    if i < |prefix| {
      assert prefix[..i] == actions[..i];
      QuietSinceAction(timeout, prefix, i);
      if a.BumpAt? {
        BumpStaysQuiet(d, actions[i].now, before, a.now);
      } else {
        TurnStaysQuiet(d, a.branch, actions[i].now, before, a.now);
      }
    } else if a.BumpAt? {
      BumpIsQuiet(d, before, a.now);
    }
  }

  /**
   In every interleaving, `debounce` returns no earlier than one timeout after its first turn and after every bump
   that came before its return; bumps are refused exactly once it has returned, and a turn never finds the serial
   missing.
   */
  lemma QuietPeriod(timeout: nat, actions: seq<Action>)
    requires Run(timeout, actions).Some?
    ensures
      var (d, now) := Run(timeout, actions).value;
      && (d.pc.Returned? ==>
            forall i :: 0 <= i < |actions| && PutsOff(timeout, actions, i) ==> actions[i].now + timeout <= d.pc.at)
      && (Accepts(d) <==> !d.pc.Returned?)
      && (forall branch, later :: CanTurn(d, branch, later) ==> d.serial.Some?)
  {
    RunIsValid(timeout, actions);
    forall i | 0 <= i < |actions| && PutsOff(timeout, actions, i)
      ensures QuietSince(Run(timeout, actions).value.0, actions[i].now)
    {
      QuietSinceAction(timeout, actions, i);
    }
  }

  /** How many turns `debounce` still needs when no further bump arrives, at most. */
  function Rank(d: State): nat {
    var stale := if d.serial.None? then 0 else
      match d.pc
      case Unstarted => 0
      case Returned(_) => 0
      case Observed(seen) => if seen == d.serial.value then 0 else 10
      case Waiting(seen, _) => if seen == d.serial.value then 0 else 10
      case Notified(seen, _) => if seen == d.serial.value then 0 else 10
      case Expired(seen, _) => if seen == d.serial.value then 0 else 10;
    var place :=
      match d.pc
      case Unstarted => 4
      case Observed(_) => 3
      case Waiting(_, _) => 2
      case Notified(_, _) => 3
      case Expired(_, _) => 1
      case Returned(_) => 0;
    stale + place + if d.permit then 4 else 0
  }

  /** Between bumps `debounce` is never stuck and runs out of turns: it returns. */
  lemma TurnMakesProgress(d: State, branch: Branch, now: nat)
    requires Valid(d, now) && !d.pc.Returned?
    ensures exists later :: now <= later && CanTurn(d, Timer, later)
    ensures CanTurn(d, branch, now) ==> Rank(Turn(d, branch, now)) < Rank(d) <= 18
  {
    var later := if d.pc.Waiting? && d.pc.deadline > now then d.pc.deadline else now;
    assert CanTurn(d, Timer, later);
  }

  /** Some time up to `now`, the actions lead to the state. */
  ghost predicate Reached(timeout: nat, actions: seq<Action>, d: State, now: nat) {
    Run(timeout, actions).Some? && Run(timeout, actions).value.0 == d && Run(timeout, actions).value.1 <= now
  }

  lemma OneMoreAction(timeout: nat, actions: seq<Action>, d: State, before: nat, a: Action)
    requires Reached(timeout, actions, d, before) && before <= a.now
    requires a.TurnAt? ==> CanTurn(d, a.branch, a.now) && d.serial.Some?
    ensures Reached(timeout, actions + [a], if a.BumpAt? then Bump(d, a.now) else Turn(d, a.branch, a.now), a.now)
  {
    assert (actions + [a])[..|actions|] == actions;
  }

  /** The object itself: `debounce` is driven turn by turn, `bump` may come at any point in between. */
  class Debouncer {
    var serial: Option<nat>
    var permit: bool
    const timeout: nat
    var pc: Pc
    ghost var bumps: seq<nat>

    ghost function View(): State
      reads this
    {
      State(serial, permit, timeout, pc, bumps)
    }

    constructor (timeout: nat)
      ensures View() == New(timeout)
    {
      this.timeout := timeout;
      serial, permit, pc, bumps := Some(0), false, Unstarted, [];
    }

    method BumpNow(now: nat) returns (ok: bool)
      modifies this
      ensures ok == Accepts(old(View())) && View() == Bump(old(View()), now)
      ensures bumps == if ok then old(bumps) + [now] else old(bumps)
    {
      match serial
      case None => ok := false;
      case Some(previous) =>
        serial, permit, bumps := Some(previous + 1), true, bumps + [now];
        ok := true;
    }

    /** One pass of the loop: the select takes the picked branch if it is ready, or else waits for the timer. */
    method TurnNow(branch: Branch, now: nat)
      requires View().serial.Some? && !pc.Returned?
      modifies this
      ensures
        var before := old(View());
        var taken := if branch.Notification? && before.permit then Notification else Timer;
        View() == if CanTurn(before, taken, now) then Turn(before, taken, now) else before
    {
      match pc {
        case Unstarted => pc := Observed(serial.value);
        case Observed(seen) => pc := Waiting(seen, now + timeout);
        case Waiting(seen, deadline) =>
          if branch.Notification? && permit {
            permit, pc := false, Notified(seen, deadline);
          } else if deadline <= now {
            pc := Expired(seen, deadline);
          }
        case Notified(seen, deadline) =>
          pc := if serial.value == seen then Waiting(seen, deadline) else Observed(serial.value);
        case Expired(seen, _) =>
          if serial.value == seen { serial, pc := None, Returned(now); } else { pc := Observed(serial.value); }
        case Returned(_) => assert false;
      }
    }

    /** Bumps from other threads, all at once. */
    method BumpTimes(extra: nat, now: nat, ghost before: seq<Action>) returns (ghost actions: seq<Action>)
      requires Valid(View(), now) && !pc.Returned? && Reached(timeout, before, View(), now)
      modifies this
      ensures Valid(View(), now) && !pc.Returned? && Reached(timeout, actions, View(), now)
      ensures extra == 0 ==> View() == old(View())
    {
      actions := before;
      for k := 0 to extra
        invariant Valid(View(), now) && !pc.Returned? && Reached(timeout, actions, View(), now)
        invariant k == 0 ==> View() == old(View())
      {
        ghost var d := View();
        var ok := BumpNow(now);
        BumpKeepsValid(d, now, now);
        OneMoreAction(timeout, actions, d, now, BumpAt(now));
        actions := actions + [BumpAt(now)];
      }
    }

    /**
     The loop of `debounce`. `schedule` says, for each turn, how many bumps other threads squeeze in
     first, how long that takes and which ready branch the select picks; the call is abandoned
     when the schedule ends. Whatever happens is one of the interleavings, and if nobody bumps and there is time
     enough, the call returns.
     */
    method Debounce(start: nat, schedule: seq<(nat, nat, Branch)>)
      returns (returned: bool, now: nat, ghost actions: seq<Action>)
      requires View() == New(timeout)
      modifies this
      ensures Valid(View(), now) && Reached(timeout, actions, View(), now)
      ensures returned <==> serial.None?
      ensures returned ==> forall i :: 0 <= i < |bumps| ==> bumps[i] + timeout <= now
      ensures Calm(timeout, schedule) && |schedule| >= 4 ==> returned
    {
      returned, now, actions := false, start, [];
      var i := 0;
      while i < |schedule| && !returned
        invariant 0 <= i <= |schedule|
        invariant Valid(View(), now) && Reached(timeout, actions, View(), now)
        invariant returned <==> pc.Returned?
        invariant returned ==> QuietBefore(View(), now)
        invariant Calm(timeout, schedule) && !returned ==> OnItsWay(View(), now, i)
      {
        var (extra, delay, branch) := schedule[i];
        actions := BumpTimes(extra, now, actions);
        ghost var before := View();
        var earlier := now;
        now := now + delay;
        TurnNow(branch, now);
        returned := pc.Returned?;
        ghost var taken := if branch.Notification? && before.permit then Notification else Timer;
        if Calm(timeout, schedule) { StaysOnItsWay(before, earlier, now, i); }
        if CanTurn(before, taken, now) {
          TurnKeepsValid(before, taken, earlier, now);
          OneMoreAction(timeout, actions, before, earlier, TurnAt(taken, now));
          actions := actions + [TurnAt(taken, now)];
        }
        i := i + 1;
      }
    }
  }

  /** Nobody bumps, and every item takes a whole timeout. */
  ghost predicate Calm(timeout: nat, schedule: seq<(nat, nat, Branch)>) {
    forall k :: 0 <= k < |schedule| ==> schedule[k].0 == 0 && schedule[k].1 >= timeout
  }

  /** After `i` turns without a bump. */
  ghost predicate OnItsWay(d: State, now: nat, i: nat) {
    Rank(d) + i <= 4 && !d.permit && !d.pc.Notified? && (d.pc.Waiting? ==> d.pc.deadline <= now + d.timeout)
  }

  lemma StaysOnItsWay(d: State, before: nat, now: nat, i: nat)
    requires Valid(d, before) && !d.pc.Returned? && OnItsWay(d, before, i) && before + d.timeout <= now
    ensures CanTurn(d, Timer, now) && (Turn(d, Timer, now).pc.Returned? || OnItsWay(Turn(d, Timer, now), now, i + 1))
  {
  }
}
