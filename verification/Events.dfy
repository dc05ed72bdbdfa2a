/** Realtime events, their routing, and which of them reach webhooks. */
module Events {
  import opened Ids
  import opened Wrappers
  import opened SessionTable

  /** The frames a server pushes. Message views and notifications are opaque values. */
  datatype ServerEvent =
    | MessageCreated(channel: ChannelId, view: nat)
    | MessageUpdated(channel: ChannelId, view: nat)
    | MessageDeleted(channel: ChannelId, message: nat)
    | ReactionAdded(channel: ChannelId, message: nat, emoji: string, user: UserId)
    | ReactionRemoved(channel: ChannelId, message: nat, emoji: string, user: UserId)
    | Typing(channel: ChannelId, user: UserId)
    | Read(channel: ChannelId, user: UserId, lastReadAt: int)
    | Presence(user: UserId, online: bool, lastSeen: int)
    | Notification(notification: nat)
    | Pong
    | Error(reason: string)

  /** What travels between instances: a target and an event, with no trace of the sender. */
  datatype RoutedEvent = RoutedEvent(to: Target, event: ServerEvent)

  /** The public name and payload of a webhook delivery. */
  datatype Descriptor = Descriptor(name: string, channel: ChannelId, payload: nat)

  function EventDescriptor(event: ServerEvent): (d: Option<Descriptor>)
    ensures d.Some? <==> event.MessageCreated? || event.MessageUpdated? || event.MessageDeleted?
    ensures d.Some? ==> d.value.channel == event.channel
  {
    match event
    case MessageCreated(c, view) => Some(Descriptor("message.created", c, view))
    case MessageUpdated(c, view) => Some(Descriptor("message.updated", c, view))
    case MessageDeleted(c, message) => Some(Descriptor("message.deleted", c, message))
    case _ => None
  }

  /** The public names: `message.` and what happened to the message, with the new view of one that was
      created or updated and the id of one that was deleted. */
  lemma PublicNames(c: ChannelId, x: nat)
    ensures EventDescriptor(MessageCreated(c, x)) == Some(Descriptor("message." + "created", c, x))
    ensures EventDescriptor(MessageUpdated(c, x)) == Some(Descriptor("message." + "updated", c, x))
    ensures EventDescriptor(MessageDeleted(c, x)) == Some(Descriptor("message." + "deleted", c, x))
  {
    assert "message." + "created" == "message.created";
    assert "message." + "updated" == "message.updated";
    assert "message." + "deleted" == "message.deleted";
  }

  /** A delivery tells its receiver which event it is for, and everything in it. */
  lemma DescriptorIdentifies(a: ServerEvent, b: ServerEvent)
    requires EventDescriptor(a).Some? && EventDescriptor(a) == EventDescriptor(b)
    ensures a == b
  {
    var name := EventDescriptor(a).value.name;
    assert name[8] == 'c' || name[8] == 'u' || name[8] == 'd';
  }
}
