/** The per-guild relay cooldown of `on_message_global` (cogs/global.py): a
    process-wide map from guild to the time of its last accepted trigger.
    The source reads `time.time()`; here the clock is an integer parameter. */
module Cooldown {

  import opened Common

  /** Seconds that must pass between two accepted triggers of one guild. */
  const Window: int := 10

  type CooldownState = map<GuildId, int>

  /** `user_last_message_timegc.get(guild, 0)`. */
  function LastStamp(c: CooldownState, g: GuildId): int {
    if g in c then c[g] else 0
  }

  datatype Admission = Admission(accepted: bool, state: CooldownState)

  /** The gate: a trigger is accepted iff a full window has passed since the
      guild's last accepted trigger; acceptance stamps the guild with `now`,
      and a rejected trigger leaves the state exactly as it was. */
  function TryAcquire(c: CooldownState, g: GuildId, now: int): (r: Admission)
    ensures r.accepted <==> now - LastStamp(c, g) >= Window
    ensures r.accepted ==> LastStamp(r.state, g) == now
    ensures !r.accepted ==> r.state == c
    ensures forall h :: h != g ==> LastStamp(r.state, h) == LastStamp(c, h)
  {
    if now - LastStamp(c, g) < Window then Admission(false, c)
    else Admission(true, c[g := now])
  }

  /** Right after an accepted trigger at `t1`, a trigger of the same guild at
      `t2` is accepted exactly when `t2 - t1 >= Window`. */
  lemma AcceptedThenNext(c: CooldownState, g: GuildId, t1: int, t2: int)
    requires TryAcquire(c, g, t1).accepted
    ensures TryAcquire(TryAcquire(c, g, t1).state, g, t2).accepted <==> t2 - t1 >= Window
  {
  }

  /** A trigger is one inbound relay message: its guild and its arrival time. */
  datatype Trigger = Trigger(guild: GuildId, time: int)

  /** `a` is `b` with some elements left out and the others kept in order. */
  predicate SubsequenceOf(a: seq<Trigger>, b: seq<Trigger>)
    decreases |b|
  {
    if |b| == 0 then |a| == 0
    else SubsequenceOf(a, b[1..]) || (|a| > 0 && a[0] == b[0] && SubsequenceOf(a[1..], b[1..]))
  }

  /** Feeds a sequence of triggers through the gate, in arrival order, and
      returns the final state and the triggers that were accepted: some of
      the triggers, in their arrival order. */
  function Run(c: CooldownState, ts: seq<Trigger>): (r: (CooldownState, seq<Trigger>))
    ensures SubsequenceOf(r.1, ts)
    decreases |ts|
  {
    if |ts| == 0 then (c, [])
    else
      var a := TryAcquire(c, ts[0].guild, ts[0].time);
      var rest := Run(a.state, ts[1..]);
      (rest.0, if a.accepted then [ts[0]] + rest.1 else rest.1)
  }

  /** Cooldown monotonicity: whatever the clock readings, even when the wall
      clock is set back, any two accepted triggers of the same guild are at
      least a window apart, the later acceptance reading the later time. */
  lemma {:induction false} AcceptedAreSpaced(c: CooldownState, ts: seq<Trigger>)
    ensures forall i, j :: 0 <= i < j < |Run(c, ts).1| && Run(c, ts).1[i].guild == Run(c, ts).1[j].guild ==>
      Run(c, ts).1[j].time - Run(c, ts).1[i].time >= Window
    decreases |ts|
  {
    if |ts| > 0 {
      var a := TryAcquire(c, ts[0].guild, ts[0].time);
      var rest := Run(a.state, ts[1..]);
      AcceptedAreSpaced(a.state, ts[1..]);
      if a.accepted {
        AcceptedAfterStamp(a.state, ts[1..], ts[0].guild, ts[0].time);
        var acc := [ts[0]] + rest.1;
        forall i, j | 0 <= i < j < |acc| && acc[i].guild == acc[j].guild
          ensures acc[j].time - acc[i].time >= Window
        {
          if i == 0 {
            assert acc[0] == ts[0];
            assert acc[j] == rest.1[j - 1];
          } else {
            assert acc[i] == rest.1[i - 1] && acc[j] == rest.1[j - 1];
          }
        }
      }
    }
  }

  /** Every later accepted trigger of guild `g` is a window past `g`'s stamp
      `t0`, whatever the clock readings: each acceptance is a window past the
      stamp it replaces. */
  lemma {:induction false} AcceptedAfterStamp(c: CooldownState, ts: seq<Trigger>, g: GuildId, t0: int)
    requires LastStamp(c, g) >= t0
    ensures forall k :: 0 <= k < |Run(c, ts).1| && Run(c, ts).1[k].guild == g ==> Run(c, ts).1[k].time - t0 >= Window
    decreases |ts|
  {
    if |ts| > 0 {
      var a := TryAcquire(c, ts[0].guild, ts[0].time);
      var rest := Run(a.state, ts[1..]);
      if a.accepted && ts[0].guild == g {
        AcceptedAfterStamp(a.state, ts[1..], g, ts[0].time);
      } else {
        AcceptedAfterStamp(a.state, ts[1..], g, t0);
      }
      var acc := if a.accepted then [ts[0]] + rest.1 else rest.1;
      forall k | 0 <= k < |acc| && acc[k].guild == g
        ensures acc[k].time - t0 >= Window
      {
        if a.accepted && k > 0 {
          assert acc[k] == rest.1[k - 1];
        }
      }
    }
  }

  /** A wall clock set back between triggers: readings 100, 95 and 110 from
      one guild accept the first and the third, still a window apart. */
  lemma ClockSetBack()
    ensures Run(map[], [Trigger(1, 100), Trigger(1, 95), Trigger(1, 110)]).1 == [Trigger(1, 100), Trigger(1, 110)]
  {
    var ts := [Trigger(1, 100), Trigger(1, 95), Trigger(1, 110)];
    assert ts[1..] == [Trigger(1, 95), Trigger(1, 110)];
    assert ts[1..][1..] == [Trigger(1, 110)];
  }
}
