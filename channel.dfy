/** The Discord channel a tracker talks to, seen from the tracker: the
    sequence of what it sent, edited, pinned and unpinned. A message's handle
    is the position of its `Sent` event in that sequence, so every sent
    message has a handle of its own. */
module Channel {
  import opened Optional

  datatype Event =
    | Sent(text: string)
    | Edited(handle: nat, text: string)
    | Pinned(handle: nat)
    | Unpinned(handle: nat)

  /** Whether the message with handle `h` is pinned after `events`: the most
      recent pin or unpin of it decides, and a message starts unpinned. */
  function IsPinned(events: seq<Event>, h: nat): bool
  {
    if events == [] then false
    else
      var last := events[|events| - 1];
      if last == Pinned(h) then true
      else if last == Unpinned(h) then false
      else IsPinned(events[..|events| - 1], h)
  }

  /** The pinned messages are exactly `current` (one message, or none). */
  ghost predicate PinnedExactly(events: seq<Event>, current: Option<nat>)
  {
    forall h: nat :: IsPinned(events, h) <==> current == Some(h)
  }

  lemma PinnedAfter(events: seq<Event>, e: Event, h: nat)
    ensures IsPinned(events + [e], h) ==
      if e == Pinned(h) then true else if e == Unpinned(h) then false else IsPinned(events, h)
  {
    assert (events + [e])[..|events|] == events;
  }

  /** Sending or editing a message pins nothing and unpins nothing. */
  lemma PinnedKeptByMessage(events: seq<Event>, e: Event, current: Option<nat>)
    requires e.Sent? || e.Edited?
    requires PinnedExactly(events, current)
    ensures PinnedExactly(events + [e], current)
  {
    forall h: nat ensures IsPinned(events + [e], h) == IsPinned(events, h) {
      PinnedAfter(events, e, h);
    }
  }

  /** Unpinning the one pinned message leaves nothing pinned. */
  lemma UnpinOnly(events: seq<Event>, h: nat)
    requires PinnedExactly(events, Some(h))
    ensures PinnedExactly(events + [Unpinned(h)], None)
  {
    forall k: nat ensures !IsPinned(events + [Unpinned(h)], k) {
      PinnedAfter(events, Unpinned(h), k);
    }
  }

  /** Pinning a message when none is pinned makes it the one pinned message. */
  lemma PinOnly(events: seq<Event>, h: nat)
    requires PinnedExactly(events, None)
    ensures PinnedExactly(events + [Pinned(h)], Some(h))
  {
    forall k: nat ensures IsPinned(events + [Pinned(h)], k) <==> k == h {
      PinnedAfter(events, Pinned(h), k);
    }
  }
}
