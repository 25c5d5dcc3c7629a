/** Named channels with bounded queues.  Every operation is one section of the thread
    lock; a process that finds no message, or no room, is put to sleep in the section
    that looked, and a later section wakes it. */
module Ipc {
  import opened Common

  const MAX_CHANNELS: nat := 32
  const MAX_MSG_SIZE: nat := 8192
  const MAX_QUEUE: nat := 8
  const NAME_LEN: nat := 32

  type Message = seq<nat>

  datatype Channel = Channel(
    name: seq<nat>, queue: seq<Message>, recvWaiters: seq<nat>, sendWaiters: seq<nat>, refCount: nat)

  /** What the kernel does not keep: the waiters that were woken and have not tried
      again, the processes that hold the channel open (with multiplicity), all messages
      ever accepted, and those taken from the front of the queue since. */
  datatype Track = Track(
    owedRecv: set<nat>, owedSend: set<nat>, holders: multiset<nat>, sent: seq<Message>, taken: seq<Message>)

  // ---- one channel ----

  function Waiters(c: Channel): set<nat> {
    (set p | p in c.recvWaiters) + (set p | p in c.sendWaiters)
  }

  ghost predicate ListsOk(c: Channel) {
    && NoRepeats(c.recvWaiters) && NoRepeats(c.sendWaiters)
    && forall p :: p in c.recvWaiters ==> p !in c.sendWaiters
  }

  /** No wakeup is lost: waiting receivers leave no more messages than there are woken
      receivers on their way, and likewise for senders and room. */
  ghost predicate NothingLost(c: Channel, g: Track) {
    && (c.recvWaiters != [] ==> |c.queue| <= |g.owedRecv|)
    && (c.sendWaiters != [] ==> MAX_QUEUE - |c.queue| <= |g.owedSend|)
    && (forall p :: p in c.recvWaiters ==> p !in g.owedRecv)
    && (forall p :: p in c.sendWaiters ==> p !in g.owedSend)
  }

  ghost predicate ChannelOk(c: Channel, g: Track) {
    && |c.queue| <= MAX_QUEUE && ListsOk(c) && NothingLost(c, g)
    && c.refCount == |g.holders| && g.sent == g.taken + c.queue
  }

  function Tail(s: seq<nat>): seq<nat> { if s == [] then [] else s[1..] }
  function Head(s: seq<nat>): set<nat> { if s == [] then {} else {s[0]} }

  /** A message goes in and the first waiting receiver is woken. */
  function Pushed(c: Channel, m: Message): Channel {
    c.(queue := c.queue + [m], recvWaiters := Tail(c.recvWaiters))
  }

  ghost function PushedTrack(c: Channel, g: Track, m: Message, sender: nat): Track {
    g.(owedRecv := g.owedRecv + Head(c.recvWaiters), owedSend := g.owedSend - {sender}, sent := g.sent + [m])
  }

  /** The first message comes out and the first waiting sender is woken. */
  function Popped(c: Channel): Channel {
    c.(queue := if c.queue == [] then [] else c.queue[1..], sendWaiters := Tail(c.sendWaiters))
  }

  ghost function PoppedTrack(c: Channel, g: Track, receiver: nat): Track {
    g.(owedSend := g.owedSend + Head(c.sendWaiters), owedRecv := g.owedRecv - {receiver},
       taken := if c.queue == [] then g.taken else g.taken + [c.queue[0]])
  }

  /** Channel `d` is channel `c` with `m` last in the queue and the first receiver gone from
      the list. */
  predicate Enqueues(c: Channel, d: Channel, m: Message) {
    && d.queue == c.queue + [m] && d.recvWaiters == (if |c.recvWaiters| > 0 then c.recvWaiters[1..] else [])
    && d.sendWaiters == c.sendWaiters && d.name == c.name && d.refCount == c.refCount
  }

  /** Channel `d` is channel `c` without its first message and its first sender. */
  predicate Dequeues(c: Channel, d: Channel) {
    && |c.queue| > 0 && d.queue == c.queue[1..]
    && d.sendWaiters == (if |c.sendWaiters| > 0 then c.sendWaiters[1..] else [])
    && d.recvWaiters == c.recvWaiters && d.name == c.name && d.refCount == c.refCount
  }

  /** The one that has waited longest wakes, and nobody else. */
  predicate WakesFirst(waiters: seq<nat>, was: map<nat, nat>, now: map<nat, nat>) {
    now == if |waiters| > 0 then was - {waiters[0]} else was
  }

  lemma TailLists(s: seq<nat>)
    requires NoRepeats(s) && s != []
    ensures NoRepeats(Tail(s)) && forall p :: p in Tail(s) <==> p in s && p != s[0]
  {
    forall p | p in s && p != s[0] ensures p in Tail(s) {
      var i :| 0 <= i < |s| && s[i] == p;
      assert s[1..][i - 1] == p;
    }
  }

  /** Adding one that is not there, or taking one away. */
  lemma Sizes(a: set<nat>, p: nat)
    ensures |a + {p}| == (if p in a then |a| else |a| + 1) && |a - {p}| == (if p in a then |a| - 1 else |a|)
  {
    if p in a {
      assert a + {p} == a;
    } else {
      assert a - {p} == a;
    }
  }

  /** The first waiting receiver leaves its list. */
  lemma RecvTail(c: Channel)
    requires ListsOk(c)
    ensures var d := c.(recvWaiters := Tail(c.recvWaiters));
      && ListsOk(d) && Waiters(d) == Waiters(c) - Head(c.recvWaiters)
      && forall p :: p in d.recvWaiters ==> p in c.recvWaiters && p !in Head(c.recvWaiters)
  {
    if c.recvWaiters != [] {
      TailLists(c.recvWaiters);
    }
  }

  lemma SendTail(c: Channel)
    requires ListsOk(c)
    ensures var d := c.(sendWaiters := Tail(c.sendWaiters));
      && ListsOk(d) && Waiters(d) == Waiters(c) - Head(c.sendWaiters)
      && forall p :: p in d.sendWaiters ==> p in c.sendWaiters && p !in Head(c.sendWaiters)
  {
    if c.sendWaiters != [] {
      TailLists(c.sendWaiters);
    }
  }

  lemma OwedGrows(owed: set<nat>, waiters: seq<nat>)
    requires forall p :: p in waiters ==> p !in owed
    ensures |owed + Head(waiters)| == |owed| + if waiters == [] then 0 else 1
  {
    if waiters == [] {
      assert owed + Head(waiters) == owed;
    } else {
      assert waiters[0] in waiters;
      Sizes(owed, waiters[0]);
    }
  }

  lemma PushOk(c: Channel, g: Track, m: Message, sender: nat)
    requires ChannelOk(c, g) && |c.queue| < MAX_QUEUE
    ensures ChannelOk(Pushed(c, m), PushedTrack(c, g, m, sender))
    ensures Waiters(Pushed(c, m)) == Waiters(c) - Head(c.recvWaiters)
  {
    hide NoRepeats;
    RecvTail(c);
    assert Waiters(Pushed(c, m)) == Waiters(c.(recvWaiters := Tail(c.recvWaiters)));
    OwedGrows(g.owedRecv, c.recvWaiters);
    Sizes(g.owedSend, sender);
    assert g.sent + [m] == g.taken + (c.queue + [m]);
  }

  lemma FrontMoves(taken: seq<Message>, queue: seq<Message>)
    requires queue != []
    ensures taken + queue == taken + [queue[0]] + queue[1..]
  {
  }

  lemma PopOk(c: Channel, g: Track, receiver: nat)
    requires ChannelOk(c, g) && c.queue != []
    ensures ChannelOk(Popped(c), PoppedTrack(c, g, receiver))
    ensures Waiters(Popped(c)) == Waiters(c) - Head(c.sendWaiters)
  {
    hide NoRepeats;
    SendTail(c);
    assert Waiters(Popped(c)) == Waiters(c.(sendWaiters := Tail(c.sendWaiters)));
    OwedGrows(g.owedSend, c.sendWaiters);
    Sizes(g.owedRecv, receiver);
    FrontMoves(g.taken, c.queue);
  }

  /** A full queue loses its oldest message to the new one. */
  lemma ReplaceOk(c: Channel, g: Track, m: Message, sender: nat)
    requires ChannelOk(c, g) && |c.queue| == MAX_QUEUE
    ensures var d, h := c.(queue := c.queue[1..]), g.(taken := g.taken + [c.queue[0]]);
      ChannelOk(Pushed(d, m), PushedTrack(d, h, m, sender)) && Waiters(Pushed(d, m)) == Waiters(c) - Head(c.recvWaiters)
  {
    hide NoRepeats;
    RecvTail(c);
    var d := c.(queue := c.queue[1..]);
    assert Waiters(Pushed(d, m)) == Waiters(c.(recvWaiters := Tail(c.recvWaiters)));
    OwedGrows(g.owedRecv, c.recvWaiters);
    assert g.taken + c.queue + [m] == g.taken + [c.queue[0]] + (c.queue[1..] + [m]);
  }

  lemma OneMore(s: seq<nat>, p: nat)
    requires NoRepeats(s) && p !in s
    ensures NoRepeats(s + [p]) && forall q :: q in s + [p] <==> q in s || q == p
  {
  }

  /** A receiver that finds nothing is registered. */
  lemma AwaitMessageOk(c: Channel, g: Track, p: nat)
    requires ChannelOk(c, g) && c.queue == [] && p !in Waiters(c)
    ensures ChannelOk(c.(recvWaiters := c.recvWaiters + [p]), g.(owedRecv := g.owedRecv - {p}))
    ensures Waiters(c.(recvWaiters := c.recvWaiters + [p])) == Waiters(c) + {p}
  {
    hide NoRepeats;
    OneMore(c.recvWaiters, p);
  }

  /** A sender that finds no room is registered. */
  lemma AwaitRoomOk(c: Channel, g: Track, p: nat)
    requires ChannelOk(c, g) && |c.queue| == MAX_QUEUE && p !in Waiters(c)
    ensures ChannelOk(c.(sendWaiters := c.sendWaiters + [p]), g.(owedSend := g.owedSend - {p}))
    ensures Waiters(c.(sendWaiters := c.sendWaiters + [p])) == Waiters(c) + {p}
  {
    hide NoRepeats;
    OneMore(c.sendWaiters, p);
  }

  /** A woken process that tries again and finds nothing to do is no longer owed. */
  lemma RetryOk(c: Channel, g: Track, p: nat)
    requires ChannelOk(c, g)
    ensures c.queue == [] ==> ChannelOk(c, g.(owedRecv := g.owedRecv - {p}))
    ensures |c.queue| == MAX_QUEUE ==> ChannelOk(c, g.(owedSend := g.owedSend - {p}))
  {
  }

  lemma AbortOk(c: Channel, g: Track)
    requires ChannelOk(c, g)
    ensures var d := c.(queue := [], sendWaiters := []);
      && ChannelOk(d, g.(owedSend := g.owedSend + (set p | p in c.sendWaiters), taken := g.taken + c.queue))
      && Waiters(d) == Waiters(c) - (set p | p in c.sendWaiters)
  {
    var d := c.(queue := [], sendWaiters := []);
    assert g.taken + c.queue + [] == g.taken + c.queue;
    assert forall p :: p in Waiters(d) <==> p in c.recvWaiters;
  }

  lemma OpenOk(c: Channel, g: Track, p: nat)
    requires ChannelOk(c, g)
    ensures ChannelOk(c.(refCount := c.refCount + 1), g.(holders := g.holders + multiset{p}))
  {
  }

  /** A holder gives up a reference; who waits does not matter while the channel stays. */
  lemma CloseOk(c: Channel, g: Track, p: nat)
    requires ChannelOk(c, g) && p in g.holders
    ensures c.refCount > 0 && ChannelOk(c.(refCount := c.refCount - 1), g.(holders := g.holders - multiset{p}))
  {
    assert |g.holders - multiset{p}| == |g.holders| - 1;
  }

  // ---- quiescence ----

  /** A receiver that sleeps while nobody is on the way: the queue is empty. */
  lemma QuietReceiver(c: Channel, g: Track, p: nat)
    requires ChannelOk(c, g) && p in c.recvWaiters && g.owedRecv == {}
    ensures c.queue == []
  {
  }

  /** A sender that sleeps while nobody is on the way: the queue is full. */
  lemma QuietSender(c: Channel, g: Track, p: nat)
    requires ChannelOk(c, g) && p in c.sendWaiters && g.owedSend == {}
    ensures |c.queue| == MAX_QUEUE
  {
  }

  // ---- the table ----

  type Table = seq<Option<Channel>>

  /** A process sleeps on a channel exactly when it stands in one of its lists. */
  ghost predicate Registered(channels: Table, asleep: map<nat, nat>) {
    && (forall p :: p in asleep ==>
          asleep[p] < |channels| && channels[asleep[p]].Some? && p in Waiters(channels[asleep[p]].value))
    && (forall i, p :: 0 <= i < |channels| && channels[i].Some? && p in Waiters(channels[i].value) ==>
          p in asleep && asleep[p] == i)
  }

  ghost predicate NamesDiffer(channels: Table) {
    forall i, j :: 0 <= i < j < |channels| && channels[i].Some? && channels[j].Some? ==>
      channels[i].value.name != channels[j].value.name
  }

  ghost predicate TableOk(channels: Table, track: seq<Track>, asleep: map<nat, nat>) {
    && |track| == |channels| <= MAX_CHANNELS
    && (forall i :: 0 <= i < |channels| && channels[i].Some? ==> ChannelOk(channels[i].value, track[i]))
    && NamesDiffer(channels) && Registered(channels, asleep)
  }

  /** A channel changes, and those of its waiters that are gone from its lists wake. */
  lemma WakeSlot(
      channels: Table, track: seq<Track>, asleep: map<nat, nat>, i: nat, d: Channel, h: Track, woken: set<nat>)
    requires TableOk(channels, track, asleep) && i < |channels| && channels[i].Some?
    requires d.name == channels[i].value.name && ChannelOk(d, h)
    requires woken <= Waiters(channels[i].value) && Waiters(d) == Waiters(channels[i].value) - woken
    ensures TableOk(channels[i := Some(d)], track[i := h], asleep - woken)
  {
    hide ChannelOk, Waiters;
    var channels' := channels[i := Some(d)];
    assert forall p :: p in woken ==> p in asleep && asleep[p] == i;
    forall p | p in asleep - woken
      ensures asleep[p] < |channels'| && channels'[asleep[p]].Some? && p in Waiters(channels'[asleep[p]].value)
    {
      assert p in asleep;
    }
    forall j, p | 0 <= j < |channels'| && channels'[j].Some? && p in Waiters(channels'[j].value)
      ensures p in asleep - woken && asleep[p] == j
    {
      assert p in Waiters(channels[j].value);
    }
  }

  /** A channel gets one more waiter, who falls asleep. */
  lemma SleepSlot(channels: Table, track: seq<Track>, asleep: map<nat, nat>, i: nat, d: Channel, h: Track, p: nat)
    requires TableOk(channels, track, asleep) && i < |channels| && channels[i].Some? && p !in asleep
    requires d.name == channels[i].value.name && ChannelOk(d, h) && Waiters(d) == Waiters(channels[i].value) + {p}
    ensures TableOk(channels[i := Some(d)], track[i := h], asleep[p := i])
  {
    hide ChannelOk, Waiters;
  }

  /** A channel that nobody waits on may go. */
  lemma FreeSlot(channels: Table, track: seq<Track>, asleep: map<nat, nat>, i: nat)
    requires TableOk(channels, track, asleep) && i < |channels| && channels[i].Some? && Waiters(channels[i].value) == {}
    ensures TableOk(channels[i := None], track, asleep)
  {
    hide ChannelOk, Waiters;
  }

  lemma NewSlot(channels: Table, track: seq<Track>, asleep: map<nat, nat>, i: nat, d: Channel, h: Track)
    requires TableOk(channels, track, asleep) && i < |channels| && channels[i].None?
    requires ChannelOk(d, h) && Waiters(d) == {} && forall j :: 0 <= j < |channels| && channels[j].Some? ==>
      channels[j].value.name != d.name
    ensures TableOk(channels[i := Some(d)], track[i := h], asleep)
  {
    hide ChannelOk, Waiters;
  }

  lemma GrowTable(channels: Table, track: seq<Track>, asleep: map<nat, nat>)
    requires TableOk(channels, track, asleep) && |channels| < MAX_CHANNELS
    ensures TableOk(channels + [None], track + [Track({}, {}, multiset{}, [], [])], asleep)
  {
    hide ChannelOk, Waiters;
  }

  /** The table is full, and of other names. */
  ghost predicate Taken(channels: Table, name: seq<nat>) {
    |channels| == MAX_CHANNELS
      && forall j :: 0 <= j < |channels| ==> channels[j].Some? && channels[j].value.name != name
  }

  function Slot(channels: Table, i: nat): Option<Channel> { if i < |channels| then channels[i] else None }

  /** All slots before `i` are taken, and `i` is not. */
  ghost predicate FirstFree(channels: Table, i: nat) {
    i <= |channels| && (forall j :: 0 <= j < i ==> channels[j].Some?) && Slot(channels, i) == None
  }

  function Larger(a: nat, b: nat): nat { if a < b then b else a }

  /** No channel has this name. */
  ghost predicate Unheard(channels: Table, name: seq<nat>) {
    forall j :: 0 <= j < |channels| && channels[j].Some? ==> channels[j].value.name != name
  }

  /** What `close` leaves of a channel. */
  function Closed(c: Channel): Option<Channel> {
    if c.refCount > 1 then Some(c.(refCount := c.refCount - 1))
    else if c.queue != [] then Some(c.(refCount := 0))
    else None
  }

  /** The table after `close` by a holder `p`. */
  ghost predicate ClosedOk(channels: Table, track: seq<Track>, asleep: map<nat, nat>, i: nat, p: nat)
    requires i < |channels| && channels[i].Some? && |track| == |channels|
  {
    TableOk(channels[i := Closed(channels[i].value)],
      track[i := track[i].(holders := track[i].holders - multiset{p})], asleep)
  }

  /** The slot goes with nobody waiting, or it stays and the reference was the caller's. */
  ghost predicate MayClose(c: Channel, g: Track, p: nat) {
    if Closed(c).None? then Waiters(c) == {} else p in g.holders || c.refCount == 0
  }

  /** A holder may close exactly unless that frees a slot that somebody waits on. */
  lemma HolderMayClose(c: Channel, g: Track, p: nat)
    requires ChannelOk(c, g) && p in g.holders
    ensures MayClose(c, g, p) <==> (c.refCount == 1 && c.queue == [] ==> Waiters(c) == {})
  {
    hide ListsOk, NothingLost;
    CloseOk(c, g, p);
  }

  /** A close by anybody leaves the table in order exactly then. */
  lemma CloseKeepsIff(channels: Table, track: seq<Track>, asleep: map<nat, nat>, i: nat, p: nat)
    requires TableOk(channels, track, asleep) && i < |channels| && channels[i].Some?
    ensures ClosedOk(channels, track, asleep, i, p) <==> MayClose(channels[i].value, track[i], p)
  {
    hide ListsOk, NothingLost, NamesDiffer;
    var c, g := channels[i].value, track[i];
    var h := g.(holders := g.holders - multiset{p});
    assert ChannelOk(c, g);
    var channels', track' := channels[i := Closed(c)], track[i := h];
    if Closed(c).None? {
      if w :| w in Waiters(c) {
        assert asleep[w] == i && channels'[i].None?;
      } else {
        FreeSlot(channels, track, asleep, i);
      }
    } else if MayClose(c, g, p) {
      ReferenceGone(c, g, p);
      SameWaiters(c);
      WakeSlot(channels, track, asleep, i, Closed(c).value, h, {});
      NobodyWakes(c, asleep);
    } else {
      NoReference(c, g, p);
      assert channels'[i].value == Closed(c).value && track'[i] == h;
    }
  }

  lemma ReferenceGone(c: Channel, g: Track, p: nat)
    requires ChannelOk(c, g) && MayClose(c, g, p) && Closed(c).Some?
    ensures ChannelOk(Closed(c).value, g.(holders := g.holders - multiset{p}))
  {
    if p in g.holders {
      CloseOk(c, g, p);
    } else {
      assert g.holders - multiset{p} == g.holders;
    }
  }

  lemma NoReference(c: Channel, g: Track, p: nat)
    requires ChannelOk(c, g) && !MayClose(c, g, p) && Closed(c).Some?
    ensures !ChannelOk(Closed(c).value, g.(holders := g.holders - multiset{p}))
  {
    hide ListsOk, NothingLost;
    SameWaiters(c);
    assert g.holders - multiset{p} == g.holders;
  }

  lemma SameWaiters(c: Channel)
    ensures Closed(c).Some? ==> Waiters(Closed(c).value) == Waiters(c) && Waiters(c) - {} == Waiters(c)
  {
  }

  /** A receiver that blocks leaves the table in order exactly when its process is not
      asleep on a channel already; it need not hold this one open. */
  lemma SecondWaitIff(channels: Table, track: seq<Track>, asleep: map<nat, nat>, i: nat, p: nat)
    requires TableOk(channels, track, asleep) && i < |channels| && channels[i].Some? && channels[i].value.queue == []
    ensures var c, g := channels[i].value, track[i];
      TableOk(channels[i := Some(c.(recvWaiters := c.recvWaiters + [p]))],
          track[i := g.(owedRecv := g.owedRecv - {p})], asleep[p := i])
      <==> p !in asleep
  {
    hide NamesDiffer, NothingLost;
    var c, g := channels[i].value, track[i];
    var d, h := c.(recvWaiters := c.recvWaiters + [p]), g.(owedRecv := g.owedRecv - {p});
    var channels' := channels[i := Some(d)];
    if p in asleep && asleep[p] != i {
      OneList(channels, asleep, channels', i, p);
    } else if p in asleep {
      assert p in Waiters(c);
      BadReceiver(c, g, p);
      assert channels'[i].value == d && track[i := h][i] == h;
    } else {
      AwakeIsNoWaiter(channels, asleep, p, i);
      AwaitMessageOk(c, g, p);
      SleepSlot(channels, track, asleep, i, d, h, p);
    }
  }

  lemma BadReceiver(c: Channel, g: Track, p: nat)
    requires p in Waiters(c)
    ensures !ChannelOk(c.(recvWaiters := c.recvWaiters + [p]), g.(owedRecv := g.owedRecv - {p}))
  {
    hide NothingLost, NoRepeats;
    TwiceInList(c, p);
  }

  /** The same for a sender, unless it is in the list of waiting senders already. */
  lemma SecondSendIff(channels: Table, track: seq<Track>, asleep: map<nat, nat>, i: nat, p: nat)
    requires TableOk(channels, track, asleep) && i < |channels| && channels[i].Some?
      && p !in channels[i].value.sendWaiters
    requires |channels[i].value.queue| == MAX_QUEUE
    ensures var c, g := channels[i].value, track[i];
      TableOk(channels[i := Some(c.(sendWaiters := c.sendWaiters + [p]))],
          track[i := g.(owedSend := g.owedSend - {p})], asleep[p := i])
      <==> p !in asleep
  {
    hide NamesDiffer, NothingLost;
    var c, g := channels[i].value, track[i];
    var d, h := c.(sendWaiters := c.sendWaiters + [p]), g.(owedSend := g.owedSend - {p});
    var channels' := channels[i := Some(d)];
    if p in asleep && asleep[p] != i {
      OneList(channels, asleep, channels', i, p);
    } else if p in asleep {
      assert p in Waiters(c);
      BadSender(c, g, p);
      assert channels'[i].value == d && track[i := h][i] == h;
    } else {
      AwakeIsNoWaiter(channels, asleep, p, i);
      AwaitRoomOk(c, g, p);
      SleepSlot(channels, track, asleep, i, d, h, p);
    }
  }

  lemma BadSender(c: Channel, g: Track, p: nat)
    requires p in c.recvWaiters
    ensures !ChannelOk(c.(sendWaiters := c.sendWaiters + [p]), g.(owedSend := g.owedSend - {p}))
  {
    hide NothingLost, NoRepeats;
    var d := c.(sendWaiters := c.sendWaiters + [p]);
    assert p in d.sendWaiters;
  }

  lemma OneList(channels: Table, asleep: map<nat, nat>, channels': Table, i: nat, p: nat)
    requires Registered(channels, asleep) && p in asleep && asleep[p] != i
    requires |channels'| == |channels| && forall k :: 0 <= k < |channels| && k != i ==> channels'[k] == channels[k]
    ensures !Registered(channels', asleep[p := i])
  {
    hide Waiters;
    var j, asleep' := asleep[p], asleep[p := i];
    assert channels'[j].Some? && p in Waiters(channels'[j].value) && asleep'[p] != j;
  }

  lemma TwiceInList(c: Channel, p: nat)
    requires p in Waiters(c)
    ensures !ListsOk(c.(recvWaiters := c.recvWaiters + [p]))
  {
    var more := c.recvWaiters + [p];
    if p in c.recvWaiters {
      var k :| 0 <= k < |c.recvWaiters| && c.recvWaiters[k] == p;
      assert more[k] == more[|c.recvWaiters|];
    } else {
      assert p in more;
    }
  }

  datatype SendResult = Sent | Full | NoChannel
  datatype RecvResult = Got(data: Message) | Empty | BadChannel

  class Channels {
    var channels: Table
    /** Processes asleep on a channel, with the channel's index. */
    var asleep: map<nat, nat>
    ghost var track: seq<Track>

    ghost predicate Valid()
      reads this
    {
      TableOk(channels, track, asleep)
    }

    constructor ()
      ensures Valid() && channels == [] && asleep == map[]
    {
      channels, asleep, track := [], map[], [];
    }

    /** `slot`: ids count from 1. */
    predicate Exists(id: nat)
      reads this
    {
      0 < id <= |channels| && channels[id - 1].Some?
    }

    /** The process is not asleep on a channel.  Process 0 is the kernel, which never
        waits. */
    predicate MayWait(p: nat)
      reads this
    {
      p != 0 ==> p !in asleep
    }

    /** Writes a channel back, waking those that have left its lists. */
    method Put(i: nat, d: Channel, ghost h: Track, woken: set<nat>)
      requires Valid() && Exists(i + 1) && d.name == channels[i].value.name && ChannelOk(d, h)
      requires woken <= Waiters(channels[i].value) && Waiters(d) == Waiters(channels[i].value) - woken
      modifies this
      ensures Valid() && channels == old(channels)[i := Some(d)] && track == old(track)[i := h]
        && asleep == old(asleep) - woken
    {
      hide ChannelOk, Waiters, Registered, NamesDiffer;
      WakeSlot(channels, track, asleep, i, d, h, woken);
      channels, track, asleep := channels[i := Some(d)], track[i := h], asleep - woken;
    }

    /** Refuses when the queue is full; otherwise enqueues and wakes a receiver. */
    method TrySendReliable(id: nat, sender: nat, data: Message) returns (r: SendResult)
      requires Valid()
      modifies this
      ensures Valid()
      ensures r.NoChannel? <==> |data| > MAX_MSG_SIZE || !old(Exists(id))
      ensures r.Full? <==> |data| <= MAX_MSG_SIZE && old(Exists(id)) && |old(channels)[id - 1].value.queue| == MAX_QUEUE
      ensures !r.Sent? ==> channels == old(channels) && asleep == old(asleep)
      ensures r.Sent? ==> var c := old(channels)[id - 1].value;
        && channels == old(channels)[id - 1 := Some(Pushed(c, data))] && asleep == old(asleep) - Head(c.recvWaiters)
        && track == old(track)[id - 1 := PushedTrack(c, old(track)[id - 1], data, sender)]
        && Enqueues(c, channels[id - 1].value, data) && WakesFirst(c.recvWaiters, old(asleep), asleep)
    {
      hide ListsOk, NothingLost, NamesDiffer;
      if |data| > MAX_MSG_SIZE || id == 0 || id > |channels| || channels[id - 1].None? {
        return NoChannel;
      }
      var c := channels[id - 1].value;
      ghost var g := track[id - 1];
      if |c.queue| >= MAX_QUEUE {
        RetryOk(c, g, sender);
        NobodyWakes(c, asleep);
        Put(id - 1, c, g.(owedSend := g.owedSend - {sender}), {});
        return Full;
      }
      PushOk(c, g, data, sender);
      Put(id - 1, Pushed(c, data), PushedTrack(c, g, data, sender), Head(c.recvWaiters));
      return Sent;
    }

    /** Puts a sender to sleep if the queue is full; says whether it must wait. */
    method WaitSendSpace(id: nat, p: nat) returns (wait: bool)
      requires Valid()
      modifies this
      ensures wait <==> old(Exists(id)) && |old(channels)[id - 1].value.queue| == MAX_QUEUE
      ensures !wait ==> Valid()
      ensures wait ==> (Valid() <==> old(MayWait(p)) || p in old(channels)[id - 1].value.sendWaiters)
      ensures !wait || p == 0 ==> channels == old(channels) && asleep == old(asleep)
      ensures wait && p != 0 ==> var c := old(channels)[id - 1].value;
        && asleep == old(asleep)[p := id - 1]
        && var waiters := if p in c.sendWaiters then c.sendWaiters else c.sendWaiters + [p];
        channels == old(channels)[id - 1 := Some(c.(sendWaiters := waiters))]
    {
      hide ListsOk, NothingLost, NamesDiffer;
      if id == 0 || id > |channels| || channels[id - 1].None? {
        return false;
      }
      var c := channels[id - 1].value;
      if |c.queue| < MAX_QUEUE {
        return false;
      }
      if p != 0 && p !in c.sendWaiters {
        SecondSendIff(channels, track, asleep, id - 1, p);
        ghost var g := track[id - 1];
        channels := channels[id - 1 := Some(c.(sendWaiters := c.sendWaiters + [p]))];
        track, asleep := track[id - 1 := g.(owedSend := g.owedSend - {p})], asleep[p := id - 1];
      }
      return true;
    }

    /** Never refuses: a full queue loses its oldest message. */
    method TrySend(id: nat, sender: nat, data: Message) returns (r: SendResult)
      requires Valid()
      modifies this
      ensures Valid() && !r.Full?
      ensures r.NoChannel? <==> |data| > MAX_MSG_SIZE || !old(Exists(id))
      ensures r.NoChannel? ==> channels == old(channels) && asleep == old(asleep)
      ensures r.Sent? ==> var c := old(channels)[id - 1].value;
        var room := if |c.queue| == MAX_QUEUE then c.(queue := c.queue[1..]) else c;
        && channels == old(channels)[id - 1 := Some(Pushed(room, data))] && asleep == old(asleep) - Head(c.recvWaiters)
        && Enqueues(room, channels[id - 1].value, data) && WakesFirst(c.recvWaiters, old(asleep), asleep)
        && track[id - 1].sent == old(track)[id - 1].sent + [data]
    {
      hide ListsOk, NothingLost, NamesDiffer;
      if |data| > MAX_MSG_SIZE || id == 0 || id > |channels| || channels[id - 1].None? {
        return NoChannel;
      }
      var c := channels[id - 1].value;
      ghost var g := track[id - 1];
      var room := c;
      ghost var h := g;
      while |room.queue| >= MAX_QUEUE
        invariant |room.queue| <= MAX_QUEUE
        invariant (room == c && h == g) || (|c.queue| == MAX_QUEUE && room == c.(queue := c.queue[1..])
          && h == g.(taken := g.taken + [c.queue[0]]))
        decreases |room.queue|
      {
        room, h := room.(queue := room.queue[1..]), h.(taken := h.taken + [room.queue[0]]);
      }
      if |c.queue| == MAX_QUEUE {
        ReplaceOk(c, g, data, sender);
      } else {
        PushOk(c, g, data, sender);
      }
      Put(id - 1, Pushed(room, data), PushedTrack(room, h, data, sender), Head(c.recvWaiters));
      return Sent;
    }

    /** Takes the oldest message, as much of it as fits; with none, the caller is
        registered and put to sleep in the same section. */
    method TryRecv(id: nat, room: nat, p: nat) returns (r: RecvResult)
      requires Valid()
      modifies this
      ensures r.BadChannel? <==> !old(Exists(id))
      ensures Valid() <==> (r.Empty? ==> old(MayWait(p)))
      ensures r.BadChannel? ==> channels == old(channels) && asleep == old(asleep)
      ensures r.Empty? ==> old(channels)[id - 1].value.queue == []
      ensures r.Empty? && p != 0 ==> var c := old(channels)[id - 1].value;
        && asleep == old(asleep)[p := id - 1]
        && channels == old(channels)[id - 1 := Some(c.(recvWaiters := c.recvWaiters + [p]))]
      ensures r.Empty? && p == 0 ==> channels == old(channels) && asleep == old(asleep)
      ensures r.Got? ==> var c := old(channels)[id - 1].value;
        && c.queue != [] && r.data == c.queue[0][..Min(|c.queue[0]|, room)]
        && channels == old(channels)[id - 1 := Some(Popped(c))] && asleep == old(asleep) - Head(c.sendWaiters)
        && Dequeues(c, channels[id - 1].value) && WakesFirst(c.sendWaiters, old(asleep), asleep)
        && track == old(track)[id - 1 := PoppedTrack(c, old(track)[id - 1], p)]
    {
      hide ListsOk, NothingLost, NamesDiffer;
      if id == 0 || id > |channels| || channels[id - 1].None? {
        return BadChannel;
      }
      var c := channels[id - 1].value;
      if c.queue != [] {
        r := Take(id, room, p);
        return;
      }
      if p != 0 {
        SecondWaitIff(channels, track, asleep, id - 1, p);
        ghost var g := track[id - 1];
        channels := channels[id - 1 := Some(c.(recvWaiters := c.recvWaiters + [p]))];
        track, asleep := track[id - 1 := g.(owedRecv := g.owedRecv - {p})], asleep[p := id - 1];
      }
      return Empty;
    }

    /** Dequeues and wakes a sender; `p` is who asked. */
    method Take(id: nat, room: nat, ghost p: nat) returns (r: RecvResult)
      requires Valid() && Exists(id) && channels[id - 1].value.queue != []
      modifies this
      ensures Valid() && r.Got?
      ensures var c := old(channels)[id - 1].value;
        && r.data == c.queue[0][..Min(|c.queue[0]|, room)]
        && channels == old(channels)[id - 1 := Some(Popped(c))] && asleep == old(asleep) - Head(c.sendWaiters)
        && Dequeues(c, channels[id - 1].value) && WakesFirst(c.sendWaiters, old(asleep), asleep)
        && track == old(track)[id - 1 := PoppedTrack(c, old(track)[id - 1], p)]
    {
      hide ListsOk, NothingLost, NamesDiffer;
      var c := channels[id - 1].value;
      ghost var g := track[id - 1];
      PopOk(c, g, p);
      Put(id - 1, Popped(c), PoppedTrack(c, g, p), Head(c.sendWaiters));
      var m := c.queue[0];
      return Got(m[..Min(|m|, room)]);
    }

    /** Like `TryRecv`, but never waits. */
    method TryRecvNonblock(id: nat, room: nat, ghost p: nat) returns (r: RecvResult)
      requires Valid()
      modifies this
      ensures Valid() && (r.BadChannel? <==> !old(Exists(id)))
      ensures r.Empty? <==> old(Exists(id)) && old(channels)[id - 1].value.queue == []
      ensures !r.Got? ==> channels == old(channels) && asleep == old(asleep)
      ensures r.Got? ==> var c := old(channels)[id - 1].value;
        && c.queue != [] && r.data == c.queue[0][..Min(|c.queue[0]|, room)]
        && channels == old(channels)[id - 1 := Some(Popped(c))] && asleep == old(asleep) - Head(c.sendWaiters)
        && Dequeues(c, channels[id - 1].value) && WakesFirst(c.sendWaiters, old(asleep), asleep)
        && track == old(track)[id - 1 := PoppedTrack(c, old(track)[id - 1], p)]
    {
      hide ListsOk, NothingLost, NamesDiffer;
      if id == 0 || id > |channels| || channels[id - 1].None? {
        return BadChannel;
      }
      var c := channels[id - 1].value;
      if c.queue == [] {
        ghost var g := track[id - 1];
        RetryOk(c, g, p);
        NobodyWakes(c, asleep);
        Put(id - 1, c, g.(owedRecv := g.owedRecv - {p}), {});
        return Empty;
      }
      r := Take(id, room, p);
    }

    /** Empties the queue and wakes every waiting sender. */
    method AbortSenders(id: nat)
      requires Valid()
      modifies this
      ensures Valid()
      ensures !old(Exists(id)) ==> channels == old(channels) && asleep == old(asleep)
      ensures old(Exists(id)) ==> var c := old(channels)[id - 1].value;
        && channels == old(channels)[id - 1 := Some(c.(queue := [], sendWaiters := []))]
        && asleep == old(asleep) - (set p | p in c.sendWaiters)
    {
      hide ListsOk, NothingLost, NamesDiffer;
      if id == 0 || id > |channels| || channels[id - 1].None? {
        return;
      }
      var c := channels[id - 1].value;
      ghost var g := track[id - 1];
      AbortOk(c, g);
      var woken := set p | p in c.sendWaiters;
      Put(id - 1, c.(queue := [], sendWaiters := []),
        g.(owedSend := g.owedSend + woken, taken := g.taken + c.queue), woken);
    }

    /** The index of the channel with this name. */
    method Find(name: seq<nat>) returns (i: Option<nat>)
      ensures i.Some? ==> i.value < |channels| && channels[i.value].Some? && channels[i.value].value.name == name
      ensures i.None? ==> forall j :: 0 <= j < |channels| && channels[j].Some? ==> channels[j].value.name != name
    {
      var k := 0;
      while k < |channels|
        invariant 0 <= k <= |channels|
        invariant forall j :: 0 <= j < k && channels[j].Some? ==> channels[j].value.name != name
      {
        if channels[k].Some? && channels[k].value.name == name {
          return Some(k);
        }
        k := k + 1;
      }
      return None;
    }

    method Hole() returns (i: Option<nat>)
      ensures i.Some? ==> i.value < |channels| && FirstFree(channels, i.value)
      ensures i.None? ==> FirstFree(channels, |channels|)
    {
      var k := 0;
      while k < |channels|
        invariant 0 <= k <= |channels|
        invariant forall j :: 0 <= j < k ==> channels[j].Some?
      {
        if channels[k].None? {
          return Some(k);
        }
        k := k + 1;
      }
      return None;
    }

    /** The channel of that name, made if there is none; fails on a bad name or a full
        table. */
    method Open(name: seq<nat>, ghost p: nat) returns (r: Option<nat>)
      requires Valid()
      modifies this
      ensures Valid() && asleep == old(asleep)
      ensures r.None? ==> channels == old(channels)
      ensures r.None? <==> |name| == 0 || |name| > NAME_LEN || Taken(old(channels), name)
      ensures r.Some? ==> Exists(r.value) && var was, i := Slot(old(channels), r.value - 1), r.value - 1;
        if was.Some?
        then
          && was.value.name == name
          && channels == old(channels)[i := Some(was.value.(refCount := was.value.refCount + 1))]
          && track == old(track)[i := old(track)[i].(holders := old(track)[i].holders + multiset{p})]
        else
          && Unheard(old(channels), name) && FirstFree(old(channels), i)
          && |channels| == Larger(|old(channels)|, r.value)
          && channels[i].value == Channel(name, [], [], [], 1) && track[i] == Track({}, {}, multiset{p}, [], [])
      ensures |old(channels)| <= |channels| && forall j :: 0 <= j < |old(channels)| && r != Some(j + 1) ==>
        channels[j] == old(channels)[j]
    {
      hide ListsOk, NothingLost, NamesDiffer, Registered;
      if |name| == 0 || |name| > NAME_LEN {
        return None;
      }
      var i := Find(name);
      if i.Some? {
        var c := channels[i.value].value;
        ghost var g := track[i.value];
        OpenOk(c, g, p);
        NobodyWakes(c, asleep);
        Put(i.value, c.(refCount := c.refCount + 1), g.(holders := g.holders + multiset{p}), {});
        return Some(i.value + 1);
      }
      r := Make(name, p);
    }

    /** A new channel in the first free slot, or at the end. */
    method Make(name: seq<nat>, ghost p: nat) returns (r: Option<nat>)
      requires Valid() && 0 < |name| <= NAME_LEN && Unheard(channels, name)
      modifies this`channels, this`track
      ensures Valid()
      ensures r.None? ==> channels == old(channels)
      ensures r.None? <==> Taken(old(channels), name)
      ensures r.Some? ==>
        && Exists(r.value) && FirstFree(old(channels), r.value - 1) && |channels| == Larger(|old(channels)|, r.value)
        && channels[r.value - 1].value == Channel(name, [], [], [], 1)
        && track[r.value - 1] == Track({}, {}, multiset{p}, [], [])
      ensures |old(channels)| <= |channels| && forall j :: 0 <= j < |old(channels)| && r != Some(j + 1) ==>
        channels[j] == old(channels)[j]
    {
      hide ListsOk, NothingLost, NamesDiffer, Registered;
      var i := Hole();
      if i.None? {
        if |channels| >= MAX_CHANNELS {
          return None;
        }
        GrowTable(channels, track, asleep);
        i := Some(|channels|);
        channels, track := channels + [None], track + [Track({}, {}, multiset{}, [], [])];
      }
      NewChannelOk(name, p);
      NewSlot(channels, track, asleep, i.value, Channel(name, [], [], [], 1), Track({}, {}, multiset{p}, [], []));
      channels := channels[i.value := Some(Channel(name, [], [], [], 1))];
      track := track[i.value := Track({}, {}, multiset{p}, [], [])];
      return Some(i.value + 1);
    }

    /** Gives up a reference; the last one frees the slot, unless messages are left.  The
        code does not ask whether the caller has one. */
    method Close(id: nat, ghost p: nat)
      requires Valid()
      modifies this
      ensures asleep == old(asleep)
        && (!old(Exists(id)) ==> Valid() && channels == old(channels) && track == old(track))
      ensures old(Exists(id)) ==> var c, g := old(channels)[id - 1].value, old(track)[id - 1];
        && (Valid() <==> MayClose(c, g, p))
        && channels == old(channels)[id - 1 := Closed(c)]
        && (if c.refCount > 1 then channels[id - 1] == Some(c.(refCount := c.refCount - 1))
            else if c.queue != [] then channels[id - 1] == Some(c.(refCount := 0))
            else channels[id - 1] == None)
        && track == old(track)[id - 1 := g.(holders := g.holders - multiset{p})]
    {
      hide ChannelOk, NamesDiffer, MayClose;
      if id == 0 || id > |channels| || channels[id - 1].None? {
        return;
      }
      CloseKeepsIff(channels, track, asleep, id - 1, p);
      var c := channels[id - 1].value;
      ghost var g := track[id - 1];
      track := track[id - 1 := g.(holders := g.holders - multiset{p})];
      if c.refCount > 1 {
        channels := channels[id - 1 := Some(c.(refCount := c.refCount - 1))];
      } else if c.queue != [] {
        channels := channels[id - 1 := Some(c.(refCount := 0))];
      } else {
        channels := channels[id - 1 := None];
      }
    }
  }

  // ---- a sender without a reference ----

  /** The audio channel is opened by the kernel, and a program that waits for room in it
      has no reference.  Program 5 sleeps on the full queue; the driver, process 7, takes a
      message or is stopped, and the program is woken.  The table is in order throughout. */
  method AudioSenderWaits(stops: bool) returns (d: Channels, wait: bool, slept: bool)
    ensures fresh(d) && d.Valid() && wait && slept && d.asleep == map[]
    ensures |d.channels| == 1 && d.channels[0].Some? && d.channels[0].value.refCount == 1
    ensures var c := d.channels[0].value;
      c.sendWaiters == [] && c.recvWaiters == [] && |c.queue| == if stops then 0 else MAX_QUEUE - 1
  {
    hide TableOk;
    d := new Channels();
    NobodyYet();
    var _ := d.Open([1], 0);
    assert d.channels == [Some(Channel([1], [], [], [], 1))];
    var k := 0;
    while k < MAX_QUEUE
      invariant 0 <= k <= MAX_QUEUE && fresh(d) && d.Valid() && d.asleep == map[] && |d.channels| == 1
      invariant d.channels[0].Some? && d.channels[0] == Some(Channel([1], d.channels[0].value.queue, [], [], 1))
        && |d.channels[0].value.queue| == k
    {
      var _ := d.TrySendReliable(1, 5, []);
      k := k + 1;
    }
    wait := d.WaitSendSpace(1, 5);
    slept := 5 in d.asleep;
    var c := d.channels[0].value;
    assert c.sendWaiters == [5];
    assert d.asleep - {5} == map[];
    if stops {
      assert (set p | p in c.sendWaiters) == {5};
      d.AbortSenders(1);
    } else {
      var _ := d.TryRecv(1, 0, 7);
    }
  }

  // ---- a process with two threads ----

  /** Process 1 waits for a message; its other thread waits as well, or closes the channel:
      the table is out of order, and in the second case a sleeper is left on a free slot. */
  method SecondThreadBreaks(closes: bool) returns (d: Channels)
    ensures fresh(d) && !d.Valid() && 1 in d.asleep && d.asleep[1] == 0
    ensures d.channels == [if closes then None else Some(Channel([1], [], [1, 1], [], 1))]
  {
    hide TableOk;
    d := new Channels();
    NobodyYet();
    var _ := d.Open([1], 1);
    assert d.channels == [Some(Channel([1], [], [], [], 1))];
    var none: seq<nat> := [];
    assert none + [1] == [1] && [1] + [1] == [1, 1];
    var _ := d.TryRecv(1, 1, 1);
    var c := Channel([1], [], [1], [], 1);
    assert d.channels == [Some(c)];
    assert 1 in c.recvWaiters && 1 in Waiters(c);
    if closes {
      d.Close(1, 1);
    } else {
      var _ := d.TryRecv(1, 1, 1);
    }
  }

  lemma NobodyYet()
    ensures !Taken([], [1]) && Unheard([], [1])
  {
  }

  lemma NewChannelOk(name: seq<nat>, p: nat)
    ensures var d := Channel(name, [], [], [], 1); ChannelOk(d, Track({}, {}, multiset{p}, [], [])) && Waiters(d) == {}
  {
  }

  lemma AwakeIsNoWaiter(channels: Table, asleep: map<nat, nat>, p: nat, i: nat)
    requires Registered(channels, asleep) && p !in asleep && i < |channels| && channels[i].Some?
    ensures p !in Waiters(channels[i].value)
  {
  }

  lemma NobodyWakes(c: Channel, asleep: map<nat, nat>)
    ensures Waiters(c) - {} == Waiters(c) && asleep - {} == asleep
  {
  }
}
