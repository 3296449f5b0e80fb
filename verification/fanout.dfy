/** The fan-out loop of `send_global_chat` (cogs/global.py): a pass over the
    snapshot of enabled registry rows that skips the source room, sends the
    payload through each destination's webhook, prunes the registry when a
    destination is gone, and pauses once per destination. The platform's
    answer for each destination is an input; the pass is a fold. */
module FanOut {

  import opened Common
  import opened Registry

  /** What the platform answers for one destination: the channel cannot be
      resolved, or the webhook send ends in NotFound, Forbidden, some other
      error, or success. */
  datatype Delivery = ChannelMissing | WebhookNotFound | Forbidden | OtherError | Delivered

  /** Observable effects, in the order they happen. `Stamp` and `React` belong
      to the message handler around the fan-out. */
  datatype Effect =
    | Stamp(guild: GuildId, time: int)
    | Send(dest: Row, outcome: Delivery)
    | Prune(channel: ChannelId)
    | Pause
    | React

  /** The source room is the row whose (guild, channel) pair is the message's. */
  predicate IsSource(d: Row, srcGuild: GuildId, srcChannel: ChannelId) {
    d.guild == srcGuild && d.channel == srcChannel
  }

  /** Outcomes after which the destination's rows are deleted. */
  predicate IsDead(o: Delivery) {
    o == ChannelMissing || o == WebhookNotFound
  }

  datatype Pass = Pass(registry: Table, effects: seq<Effect>)

  /** One iteration of the loop for destination `d` with outcome `o`. */
  function Step(t: Table, d: Row, o: Delivery, srcGuild: GuildId, srcChannel: ChannelId): Pass {
    if IsSource(d, srcGuild, srcChannel) then Pass(t, [])
    else match o
      case ChannelMissing => Pass(DeleteByChannel(t, d.channel), [Prune(d.channel), Pause])
      case WebhookNotFound => Pass(DeleteByChannel(t, d.channel), [Send(d, o), Prune(d.channel), Pause])
      case _ => Pass(t, [Send(d, o), Pause])
  }

  /** The whole loop over `rows`, `outs[i]` being the answer for `rows[i]`. */
  function Broadcast(t: Table, rows: seq<Row>, outs: seq<Delivery>, srcGuild: GuildId, srcChannel: ChannelId): (p: Pass)
    requires |outs| == |rows|
    ensures forall g :: g in p.registry ==> g in t && p.registry[g] == t[g]
    ensures forall k :: 0 <= k < |p.effects| ==> !p.effects[k].Stamp? && !p.effects[k].React?
    decreases |rows|
  {
    if |rows| == 0 then Pass(t, [])
    else
      var s := Step(t, rows[0], outs[0], srcGuild, srcChannel);
      var rest := Broadcast(s.registry, rows[1..], outs[1..], srcGuild, srcChannel);
      Pass(rest.registry, s.effects + rest.effects)
  }

  // ---------------------------------------------------------------------------
  // Independent descriptions of what the loop does.
  // ---------------------------------------------------------------------------

  /** Channels of the non-source destinations that answered "gone". */
  function DeadChannels(rows: seq<Row>, outs: seq<Delivery>, srcGuild: GuildId, srcChannel: ChannelId): set<ChannelId>
    requires |outs| == |rows|
  {
    set i | 0 <= i < |rows| && !IsSource(rows[i], srcGuild, srcChannel) && IsDead(outs[i]) :: rows[i].channel
  }

  /** The rows of `t` whose channel no non-source destination reported gone,
      with their contents. */
  function Survivors(t: Table, rows: seq<Row>, outs: seq<Delivery>, srcGuild: GuildId, srcChannel: ChannelId): Table
    requires |outs| == |rows|
  {
    map g | g in t && t[g].channel !in DeadChannels(rows, outs, srcGuild, srcChannel) :: t[g]
  }

  /** The non-source destinations, in snapshot order. */
  function Destinations(rows: seq<Row>, srcGuild: GuildId, srcChannel: ChannelId): seq<Row>
    decreases |rows|
  {
    if |rows| == 0 then []
    else (if IsSource(rows[0], srcGuild, srcChannel) then [] else [rows[0]]) + Destinations(rows[1..], srcGuild, srcChannel)
  }

  /** The non-source destinations whose channel resolved, so a webhook send
      was attempted. */
  function Attempted(rows: seq<Row>, outs: seq<Delivery>, srcGuild: GuildId, srcChannel: ChannelId): seq<Row>
    requires |outs| == |rows|
    decreases |rows|
  {
    if |rows| == 0 then []
    else
      (if IsSource(rows[0], srcGuild, srcChannel) || outs[0] == ChannelMissing then [] else [rows[0]])
      + Attempted(rows[1..], outs[1..], srcGuild, srcChannel)
  }

  function Sends(es: seq<Effect>): seq<Row>
    decreases |es|
  {
    if |es| == 0 then [] else (if es[0].Send? then [es[0].dest] else []) + Sends(es[1..])
  }

  function PauseCount(es: seq<Effect>): nat
    decreases |es|
  {
    if |es| == 0 then 0 else (if es[0].Pause? then 1 else 0) + PauseCount(es[1..])
  }

  lemma {:induction false} SendsAppend(a: seq<Effect>, b: seq<Effect>)
    ensures Sends(a + b) == Sends(a) + Sends(b)
    decreases |a|
  {
    if |a| > 0 {
      assert (a + b)[1..] == a[1..] + b;
      SendsAppend(a[1..], b);
    } else {
      assert a + b == b;
    }
  }

  lemma {:induction false} PauseCountAppend(a: seq<Effect>, b: seq<Effect>)
    ensures PauseCount(a + b) == PauseCount(a) + PauseCount(b)
    decreases |a|
  {
    if |a| > 0 {
      assert (a + b)[1..] == a[1..] + b;
      PauseCountAppend(a[1..], b);
    } else {
      assert a + b == b;
    }
  }

  lemma SingleEffect(e: Effect)
    ensures Sends([e]) == if e.Send? then [e.dest] else []
    ensures PauseCount([e]) == if e.Pause? then 1 else 0
  {
    assert [e][1..] == [];
  }

  lemma StepCounts(t: Table, d: Row, o: Delivery, srcGuild: GuildId, srcChannel: ChannelId)
    ensures Sends(Step(t, d, o, srcGuild, srcChannel).effects) ==
      if IsSource(d, srcGuild, srcChannel) || o == ChannelMissing then [] else [d]
    ensures PauseCount(Step(t, d, o, srcGuild, srcChannel).effects) ==
      if IsSource(d, srcGuild, srcChannel) then 0 else 1
  {
    var es := Step(t, d, o, srcGuild, srcChannel).effects;
    if !IsSource(d, srcGuild, srcChannel) {
      SingleEffect(Send(d, o));
      SingleEffect(Prune(d.channel));
      SingleEffect(Pause);
      if o == ChannelMissing {
        assert es == [Prune(d.channel)] + [Pause];
        SendsAppend([Prune(d.channel)], [Pause]);
        PauseCountAppend([Prune(d.channel)], [Pause]);
      } else if o == WebhookNotFound {
        assert es == [Send(d, o)] + ([Prune(d.channel)] + [Pause]);
        SendsAppend([Prune(d.channel)], [Pause]);
        PauseCountAppend([Prune(d.channel)], [Pause]);
        SendsAppend([Send(d, o)], [Prune(d.channel)] + [Pause]);
        PauseCountAppend([Send(d, o)], [Prune(d.channel)] + [Pause]);
      } else {
        assert es == [Send(d, o)] + [Pause];
        SendsAppend([Send(d, o)], [Pause]);
        PauseCountAppend([Send(d, o)], [Pause]);
      }
    }
  }

  /** The registry after the pass is the registry before it minus every row
      whose channel some non-source destination reported gone. */
  lemma {:induction false} BroadcastRegistry(t: Table, rows: seq<Row>, outs: seq<Delivery>, srcGuild: GuildId, srcChannel: ChannelId)
    requires |outs| == |rows|
    ensures Broadcast(t, rows, outs, srcGuild, srcChannel).registry ==
      map g | g in t && t[g].channel !in DeadChannels(rows, outs, srcGuild, srcChannel) :: t[g]
    decreases |rows|
  {
    if |rows| > 0 {
      var s := Step(t, rows[0], outs[0], srcGuild, srcChannel);
      BroadcastRegistry(s.registry, rows[1..], outs[1..], srcGuild, srcChannel);
      var dead := DeadChannels(rows, outs, srcGuild, srcChannel);
      var deadRest := DeadChannels(rows[1..], outs[1..], srcGuild, srcChannel);
      var headDead := !IsSource(rows[0], srcGuild, srcChannel) && IsDead(outs[0]);
      assert dead == deadRest + (if headDead then {rows[0].channel} else {}) by {
        forall c | c in dead ensures c in deadRest + (if headDead then {rows[0].channel} else {}) {
          var i :| 0 <= i < |rows| && !IsSource(rows[i], srcGuild, srcChannel) && IsDead(outs[i]) && rows[i].channel == c;
          if i > 0 {
            assert rows[1..][i - 1] == rows[i] && outs[1..][i - 1] == outs[i];
          }
        }
        forall c | c in deadRest ensures c in dead {
          var i :| 0 <= i < |rows| - 1 && !IsSource(rows[1..][i], srcGuild, srcChannel) && IsDead(outs[1..][i]) && rows[1..][i].channel == c;
          assert rows[i + 1] == rows[1..][i] && outs[i + 1] == outs[1..][i];
        }
      }
    }
  }

  /** No self-echo, and the sends are exactly the attempted destinations in
      snapshot order. */
  lemma {:induction false} BroadcastSends(t: Table, rows: seq<Row>, outs: seq<Delivery>, srcGuild: GuildId, srcChannel: ChannelId)
    requires |outs| == |rows|
    ensures Sends(Broadcast(t, rows, outs, srcGuild, srcChannel).effects) == Attempted(rows, outs, srcGuild, srcChannel)
    ensures forall d :: d in Attempted(rows, outs, srcGuild, srcChannel) ==> d in rows && !IsSource(d, srcGuild, srcChannel)
    decreases |rows|
  {
    if |rows| > 0 {
      var s := Step(t, rows[0], outs[0], srcGuild, srcChannel);
      var rest := Broadcast(s.registry, rows[1..], outs[1..], srcGuild, srcChannel);
      BroadcastSends(s.registry, rows[1..], outs[1..], srcGuild, srcChannel);
      SendsAppend(s.effects, rest.effects);
      StepCounts(t, rows[0], outs[0], srcGuild, srcChannel);
      forall d | d in Attempted(rows[1..], outs[1..], srcGuild, srcChannel) ensures d in rows {
        assert d in rows[1..];
      }
    }
  }

  /** Exactly one pause per non-source destination, whatever the outcomes. */
  lemma {:induction false} BroadcastPauses(t: Table, rows: seq<Row>, outs: seq<Delivery>, srcGuild: GuildId, srcChannel: ChannelId)
    requires |outs| == |rows|
    ensures PauseCount(Broadcast(t, rows, outs, srcGuild, srcChannel).effects) == |Destinations(rows, srcGuild, srcChannel)|
    decreases |rows|
  {
    if |rows| > 0 {
      var s := Step(t, rows[0], outs[0], srcGuild, srcChannel);
      var rest := Broadcast(s.registry, rows[1..], outs[1..], srcGuild, srcChannel);
      BroadcastPauses(s.registry, rows[1..], outs[1..], srcGuild, srcChannel);
      PauseCountAppend(s.effects, rest.effects);
      StepCounts(t, rows[0], outs[0], srcGuild, srcChannel);
    }
  }

  /** Dead entries are pruned: no row of a reported-gone channel survives, and
      pruning them once more changes nothing. */
  lemma DeadPruned(t: Table, rows: seq<Row>, outs: seq<Delivery>, srcGuild: GuildId, srcChannel: ChannelId, i: nat)
    requires |outs| == |rows|
    requires i < |rows| && !IsSource(rows[i], srcGuild, srcChannel) && IsDead(outs[i])
    ensures forall g :: g in Broadcast(t, rows, outs, srcGuild, srcChannel).registry ==>
      Broadcast(t, rows, outs, srcGuild, srcChannel).registry[g].channel != rows[i].channel
    ensures DeleteByChannel(Broadcast(t, rows, outs, srcGuild, srcChannel).registry, rows[i].channel)
      == Broadcast(t, rows, outs, srcGuild, srcChannel).registry
  {
    BroadcastRegistry(t, rows, outs, srcGuild, srcChannel);
    assert rows[i].channel in DeadChannels(rows, outs, srcGuild, srcChannel);
  }

  /** Live entries are retained: a row whose channel no non-source
      destination reported gone is still there, unchanged. In particular
      Forbidden and other send errors never remove anything. */
  lemma LiveRetained(t: Table, rows: seq<Row>, outs: seq<Delivery>, srcGuild: GuildId, srcChannel: ChannelId, g: GuildId)
    requires |outs| == |rows|
    requires g in t
    requires forall i :: 0 <= i < |rows| && rows[i].channel == t[g].channel && !IsSource(rows[i], srcGuild, srcChannel) ==> !IsDead(outs[i])
    ensures g in Broadcast(t, rows, outs, srcGuild, srcChannel).registry
    ensures Broadcast(t, rows, outs, srcGuild, srcChannel).registry[g] == t[g]
  {
    BroadcastRegistry(t, rows, outs, srcGuild, srcChannel);
  }

  /** When every send succeeds or fails only transiently, the registry is
      untouched. */
  lemma NoDeadNoChange(t: Table, rows: seq<Row>, outs: seq<Delivery>, srcGuild: GuildId, srcChannel: ChannelId)
    requires |outs| == |rows|
    requires forall i :: 0 <= i < |outs| ==> !IsDead(outs[i])
    ensures Broadcast(t, rows, outs, srcGuild, srcChannel).registry == t
  {
    BroadcastRegistry(t, rows, outs, srcGuild, srcChannel);
    assert DeadChannels(rows, outs, srcGuild, srcChannel) == {};
  }
}
