/** The message handler `on_message_global` (cogs/global.py): a human
    message in a guild channel that is an enabled relay channel passes the
    guild's cooldown, the guild is stamped, the payload is fanned out, and
    the message gets a check-mark reaction. Each handler run is atomic here:
    the cooldown read and write have no suspension point between them. */
module Relay {

  import opened Common
  import opened Registry
  import opened Cooldown
  import opened Projection
  import opened FanOut

  datatype Place =
    | DirectMessage
    | InGuild(guild: GuildId, guildName: string, channel: ChannelId)

  datatype Message = Message(author: Author, place: Place, content: string)

  datatype RelayState = RelayState(registry: Table, cooldown: CooldownState)

  datatype Handled = Handled(state: RelayState, payload: Option<Payload>, effects: seq<Effect>)

  /** The message comes from a human, in a guild, in that guild's enabled
      relay channel. */
  predicate FromRelayChannel(s: RelayState, m: Message) {
    && !m.author.isBot
    && m.place.InGuild?
    && IsRelayChannel(s.registry, m.place.guild, m.place.channel)
  }

  /** Handles one message at integer time `now`. `order` is the order in which
      the registry read returns the enabled rows, and `outs[i]` is the
      platform's answer for the i-th of them. */
  function OnMessage(s: RelayState, m: Message, now: int, order: seq<GuildId>, outs: seq<Delivery>): (r: Handled)
    requires IsSnapshotOrder(s.registry, order)
    requires |outs| == |order|
    ensures !FromRelayChannel(s, m) ==> r == Handled(s, None, [])
    ensures FromRelayChannel(s, m) && now - LastStamp(s.cooldown, m.place.guild) < Window ==> r == Handled(s, None, [])
    ensures FromRelayChannel(s, m) && now - LastStamp(s.cooldown, m.place.guild) >= Window ==>
      && |r.effects| >= 2
      && r.effects[0] == Stamp(m.place.guild, now)
      && r.effects[|r.effects| - 1] == React
      && (forall k :: 0 < k < |r.effects| - 1 ==> !r.effects[k].Stamp? && !r.effects[k].React?)
      && r.state.cooldown == s.cooldown[m.place.guild := now]
      && r.payload == Some(Project(m.author, m.content, m.place.guild, m.place.guildName))
      && Sends(r.effects) == Attempted(Snapshot(s.registry, order), outs, m.place.guild, m.place.channel)
      && PauseCount(r.effects) == |Destinations(Snapshot(s.registry, order), m.place.guild, m.place.channel)|
      && r.state.registry == Survivors(s.registry, Snapshot(s.registry, order), outs, m.place.guild, m.place.channel)
    ensures forall k :: 0 <= k < |r.effects| && r.effects[k].Send? ==>
      && r.effects[k].dest in Snapshot(s.registry, order)
      && !(r.effects[k].dest.guild == m.place.guild && r.effects[k].dest.channel == m.place.channel)
  {
    if !FromRelayChannel(s, m) then Handled(s, None, [])
    else
      var g := m.place.guild;
      var a := TryAcquire(s.cooldown, g, now);
      if !a.accepted then Handled(s, None, [])
      else
        var rows := Snapshot(s.registry, order);
        var p := Broadcast(s.registry, rows, outs, g, m.place.channel);
        Relayed(s.registry, rows, outs, g, m.place.channel, now);
        Handled(RelayState(p.registry, a.state), Some(Project(m.author, m.content, g, m.place.guildName)),
                [Stamp(g, now)] + p.effects + [React])
  }

  /** The accepted path: the fan-out framed by the stamp and the reaction
      sends to the attempted destinations, pauses once per destination, and
      leaves the surviving rows. */
  lemma Relayed(t: Table, rows: seq<Row>, outs: seq<Delivery>, g: GuildId, ch: ChannelId, now: int)
    requires |outs| == |rows|
    ensures var p := Broadcast(t, rows, outs, g, ch);
      var f := [Stamp(g, now)] + p.effects + [React];
      && |f| >= 2
      && f[0] == Stamp(g, now)
      && f[|f| - 1] == React
      && (forall k :: 0 < k < |f| - 1 ==> !f[k].Stamp? && !f[k].React?)
      && Sends(f) == Attempted(rows, outs, g, ch)
      && PauseCount(f) == |Destinations(rows, g, ch)|
      && p.registry == Survivors(t, rows, outs, g, ch)
      && (forall k :: 0 <= k < |f| && f[k].Send? ==> f[k].dest in rows && !IsSource(f[k].dest, g, ch))
  {
    var p := Broadcast(t, rows, outs, g, ch);
    BroadcastSends(t, rows, outs, g, ch);
    BroadcastPauses(t, rows, outs, g, ch);
    BroadcastRegistry(t, rows, outs, g, ch);
    Framed(g, now, p.effects);
    SingleEffect(Stamp(g, now));
    SingleEffect(React);
    SendsAppend([Stamp(g, now)], p.effects);
    SendsAppend([Stamp(g, now)] + p.effects, [React]);
    PauseCountAppend([Stamp(g, now)], p.effects);
    PauseCountAppend([Stamp(g, now)] + p.effects, [React]);
  }

  /** Framing a fan-out between the stamp and the reaction: the stamp comes
      first, the reaction last, neither in between, and the sends are the
      fan-out's. */
  lemma Framed(g: GuildId, now: int, es: seq<Effect>)
    requires forall k :: 0 <= k < |es| ==> !es[k].Stamp? && !es[k].React?
    ensures var f := [Stamp(g, now)] + es + [React];
      && |f| >= 2
      && f[0] == Stamp(g, now)
      && f[|f| - 1] == React
      && (forall k :: 0 < k < |f| - 1 ==> !f[k].Stamp? && !f[k].React?)
      && (forall k :: 0 <= k < |f| && f[k].Send? ==> f[k].dest in Sends(es))
  {
    var f := [Stamp(g, now)] + es + [React];
    SendsListed(es);
    assert forall k :: 0 < k < |f| - 1 ==> f[k] == es[k - 1];
  }

  /** Every `Send` in an effect list is listed by `Sends`. */
  lemma {:induction false} SendsListed(es: seq<Effect>)
    ensures forall k :: 0 <= k < |es| && es[k].Send? ==> es[k].dest in Sends(es)
    decreases |es|
  {
    if |es| > 0 {
      SendsListed(es[1..]);
      forall k | 0 < k < |es| && es[k].Send? ensures es[k].dest in Sends(es) {
        assert es[k] == es[1..][k - 1];
      }
    }
  }

  /** A handled message never changes the registry except by pruning, and
      only an accepted one changes the cooldown. */
  lemma RegistryOnlyShrinks(s: RelayState, m: Message, now: int, order: seq<GuildId>, outs: seq<Delivery>)
    requires IsSnapshotOrder(s.registry, order)
    requires |outs| == |order|
    ensures forall g :: g in OnMessage(s, m, now, order, outs).state.registry ==>
      g in s.registry && OnMessage(s, m, now, order, outs).state.registry[g] == s.registry[g]
  {
    if FromRelayChannel(s, m) && TryAcquire(s.cooldown, m.place.guild, now).accepted {
      BroadcastRegistry(s.registry, Snapshot(s.registry, order), outs, m.place.guild, m.place.channel);
    }
  }

  // ---------------------------------------------------------------------------
  // Worked scenarios.
  // ---------------------------------------------------------------------------

  const Alice := Author(7, "Alice", false, None, "https://cdn.example/default.png")

  function TwoRooms(): Table {
    map[1 := Subscription(10, "E1", true), 2 := Subscription(20, "E2", true)]
  }

  /** Basic relay: two rooms, a message from the first reaches the second
      only, with Alice's name and the body unchanged. */
  lemma BasicRelay()
    ensures var r := OnMessage(RelayState(TwoRooms(), map[]), Message(Alice, InGuild(1, "G1", 10), "hello"), 1000, [1, 2], [Delivered, Delivered]);
      && r.effects == [Stamp(1, 1000), Send(Row(2, 20, "E2"), Delivered), Pause, React]
      && r.payload.Some? && r.payload.value.description == "hello" && r.payload.value.username == "Alice"
      && r.state.registry == TwoRooms()
  {
    var rows := Snapshot(TwoRooms(), [1, 2]);
    assert rows == [Row(1, 10, "E1"), Row(2, 20, "E2")];
    assert Broadcast(TwoRooms(), rows, [Delivered, Delivered], 1, 10)
      == Pass(TwoRooms(), [Send(Row(2, 20, "E2"), Delivered), Pause]);
  }

  /** The first message of the self-healing scenario: the second room answers
      "not found" and its row is deleted. */
  lemma NotFoundPrunes()
    ensures OnMessage(RelayState(TwoRooms(), map[]), Message(Alice, InGuild(1, "G1", 10), "hello"), 1000, [1, 2], [Delivered, WebhookNotFound]).state
      == RelayState(map[1 := Subscription(10, "E1", true)], map[1 := 1000])
  {
    var rows := Snapshot(TwoRooms(), [1, 2]);
    assert rows == [Row(1, 10, "E1"), Row(2, 20, "E2")];
    var healed := map[1 := Subscription(10, "E1", true)];
    assert DeleteByChannel(TwoRooms(), 20) == healed;
    assert Step(TwoRooms(), rows[1], WebhookNotFound, 1, 10).registry == healed;
    assert Broadcast(TwoRooms(), rows, [Delivered, WebhookNotFound], 1, 10).registry == healed;
  }

  /** The second message of the self-healing scenario: with only the source
      room left, a message a window later is stamped and reacted to but sent
      nowhere. */
  lemma HealedRelaysToNobody()
    ensures OnMessage(RelayState(map[1 := Subscription(10, "E1", true)], map[1 := 1000]),
                      Message(Alice, InGuild(1, "G1", 10), "again"), 1010, [1], [Delivered]).effects
      == [Stamp(1, 1010), React]
  {
    var healed := map[1 := Subscription(10, "E1", true)];
    assert Snapshot(healed, [1]) == [Row(1, 10, "E1")];
    assert Broadcast(healed, [Row(1, 10, "E1")], [Delivered], 1, 10) == Pass(healed, []);
  }

  /** A dead endpoint heals itself: after "not found" the second room is gone,
      and the next message (a window later) reaches nobody. */
  lemma DeadEndpointSelfHeals()
    ensures var r := OnMessage(RelayState(TwoRooms(), map[]), Message(Alice, InGuild(1, "G1", 10), "hello"), 1000, [1, 2], [Delivered, WebhookNotFound]);
      && r.state.registry == map[1 := Subscription(10, "E1", true)]
      && var r2 := OnMessage(r.state, Message(Alice, InGuild(1, "G1", 10), "again"), 1010, [1], [Delivered]);
         r2.effects == [Stamp(1, 1010), React]
  {
    NotFoundPrunes();
    HealedRelaysToNobody();
  }

  /** Cooldown suppression: triggers at 1000, 1005 and 1011 from one guild are
      accepted, rejected (nothing sent), accepted. */
  lemma CooldownSuppression()
    ensures Run(map[], [Trigger(1, 1000), Trigger(1, 1005), Trigger(1, 1011)]).1 == [Trigger(1, 1000), Trigger(1, 1011)]
  {
    var ts := [Trigger(1, 1000), Trigger(1, 1005), Trigger(1, 1011)];
    assert ts[1..] == [Trigger(1, 1005), Trigger(1, 1011)];
    assert ts[1..][1..] == [Trigger(1, 1011)];
  }
}
