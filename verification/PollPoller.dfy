/**
  The index of muduo-vip/muduo/net/poller/PollPoller.cc: a vector of poll entries, a map
  from descriptors to channels, and in each channel the place of its entry.
 */
module PollPoller {
  /** struct pollfd.  An entry that is to be ignored has its descriptor negated and lowered by one. */
  datatype PollFd = PollFd(fd: int, events: int, revents: int)

  function Ignored(fd: int): int {
    -fd - 1
  }

  function Descriptor(p: PollFd): int {
    if p.fd < 0 then Ignored(p.fd) else p.fd
  }

  /** An ignored descriptor is negative, even the descriptor zero, and can be told again. */
  lemma IgnoredTells(fd: int)
    ensures Ignored(Ignored(fd)) == fd && (fd >= 0 <==> Ignored(fd) < 0) && (fd == 0 <==> Ignored(fd) == -1)
  {
  }

  function Watching(fd: int, events: int): PollFd {
    PollFd(if events == 0 then Ignored(fd) else fd, events, 0)
  }

  // ----- the index as a value -----

  /** The entries, and the place of the entry of each descriptor. */
  datatype Index = Index(pollfds: seq<PollFd>, places: map<int, int>)

  /** Descriptors and entries correspond one to one. */
  predicate Consistent(x: Index) {
    && (forall fd :: fd in x.places ==>
          fd >= 0 && 0 <= x.places[fd] < |x.pollfds| && Descriptor(x.pollfds[x.places[fd]]) == fd)
    && (forall i :: 0 <= i < |x.pollfds| ==>
          Descriptor(x.pollfds[i]) in x.places && x.places[Descriptor(x.pollfds[i])] == i)
    && (forall i :: 0 <= i < |x.pollfds| ==> (x.pollfds[i].fd < 0 <==> x.pollfds[i].events == 0))
  }

  function Added(x: Index, fd: int, events: int): Index {
    Index(x.pollfds + [PollFd(fd, events, 0)], x.places[fd := |x.pollfds|])
  }

  function Changed(x: Index, fd: int, events: int): Index
    requires fd in x.places && 0 <= x.places[fd] < |x.pollfds|
  {
    x.(pollfds := x.pollfds[x.places[fd] := Watching(fd, events)])
  }

  /** The last entry takes the place of the one removed. */
  function Removed(x: Index, fd: int): Index
    requires fd in x.places && 0 <= x.places[fd] < |x.pollfds|
  {
    var idx, last := x.places[fd], |x.pollfds| - 1;
    if idx == last then Index(x.pollfds[..last], x.places - {fd})
    else Index(x.pollfds[idx := x.pollfds[last]][..last], (x.places - {fd})[Descriptor(x.pollfds[last]) := idx])
  }

  /** The entry of a descriptor. */
  function Entry(x: Index, fd: int): PollFd
    requires fd in x.places && 0 <= x.places[fd] < |x.pollfds|
  {
    x.pollfds[x.places[fd]]
  }

  lemma AddedKeeps(x: Index, fd: int, events: int)
    requires Consistent(x) && fd >= 0 && fd !in x.places && events != 0
    ensures Consistent(Added(x, fd, events)) && Entry(Added(x, fd, events), fd) == Watching(fd, events)
    ensures forall g :: g in x.places ==> Entry(Added(x, fd, events), g) == Entry(x, g)
  {
  }

  /** A first registration keeps the index sound if and only if it has events: the entry is not ignored. */
  lemma FirstEventsMatter(x: Index, fd: int, events: int)
    requires Consistent(x) && fd >= 0 && fd !in x.places
    ensures Consistent(Added(x, fd, events)) <==> events != 0
  {
    if events != 0 {
      AddedKeeps(x, fd, events);
    } else {
      assert Added(x, fd, events).pollfds[|x.pollfds|] == PollFd(fd, 0, 0);
    }
  }

  lemma ChangedKeeps(x: Index, fd: int, events: int)
    requires Consistent(x) && fd in x.places
    ensures Consistent(Changed(x, fd, events)) && Entry(Changed(x, fd, events), fd) == Watching(fd, events)
    ensures forall g :: g in x.places && g != fd ==> Entry(Changed(x, fd, events), g) == Entry(x, g)
  {
  }

  /** Nobody else's entry changes, wherever it moves. */
  lemma RemovedKeeps(x: Index, fd: int)
    requires Consistent(x) && fd in x.places
    ensures Consistent(Removed(x, fd)) && Removed(x, fd).places.Keys == x.places.Keys - {fd}
    ensures forall g :: g in x.places && g != fd ==> Entry(Removed(x, fd), g) == Entry(x, g)
  {
    if x.places[fd] == |x.pollfds| - 1 {
      LastRemovedKeeps(x, fd);
    } else {
      MovedKeeps(x, fd);
    }
  }

  lemma LastRemovedKeeps(x: Index, fd: int)
    requires Consistent(x) && fd in x.places && x.places[fd] == |x.pollfds| - 1
    ensures Consistent(Removed(x, fd)) && Removed(x, fd).places.Keys == x.places.Keys - {fd}
    ensures forall g :: g in x.places && g != fd ==> Entry(Removed(x, fd), g) == Entry(x, g)
  {
  }

  lemma MovedKeeps(x: Index, fd: int)
    requires Consistent(x) && fd in x.places && x.places[fd] < |x.pollfds| - 1
    ensures Consistent(Removed(x, fd)) && Removed(x, fd).places.Keys == x.places.Keys - {fd}
    ensures forall g :: g in x.places && g != fd ==> Entry(Removed(x, fd), g) == Entry(x, g)
  {
    LastIsKnown(x, fd);
  }

  lemma LastIsKnown(x: Index, fd: int)
    requires Consistent(x) && fd in x.places && x.places[fd] < |x.pollfds| - 1
    ensures Descriptor(x.pollfds[|x.pollfds| - 1]) in x.places - {fd}
  {
  }

  // ----- runs -----

  datatype Op = Update(fd: int, events: int) | Remove(fd: int)

  /** A descriptor is first registered with events that are not empty; only one that has none is removed. */
  function Apply(x: Index, op: Op): (r: Index)
    requires Consistent(x)
    ensures Consistent(r)
  {
    match op
    case Update(fd, events) =>
      if fd in x.places then
        ChangedKeeps(x, fd, events); Changed(x, fd, events)
      else if fd >= 0 && events != 0 then
        AddedKeeps(x, fd, events); Added(x, fd, events)
      else x
    case Remove(fd) =>
      if fd in x.places && Entry(x, fd).events == 0 then
        RemovedKeeps(x, fd); Removed(x, fd)
      else x
  }

  const EMPTY := Index([], map[])

  function After(ops: seq<Op>): (x: Index)
    ensures Consistent(x)
  {
    if ops == [] then EMPTY else Apply(After(ops[..|ops| - 1]), ops[|ops| - 1])
  }

  /** What a run asks of each descriptor. */
  function Wanted(ops: seq<Op>): map<int, int> {
    if ops == [] then map[] else
      var before, op := Wanted(ops[..|ops| - 1]), ops[|ops| - 1];
      match op
      case Update(fd, events) =>
        if fd in before || (fd >= 0 && events != 0) then before[fd := events] else before
      case Remove(fd) =>
        if fd in before && before[fd] == 0 then before - {fd} else before
  }

  /** After every run, exactly the descriptors registered are watched, each for what was last asked of it. */
  lemma {:induction false} EveryRunWatches(ops: seq<Op>)
    ensures After(ops).places.Keys == Wanted(ops).Keys
    ensures forall fd :: fd in Wanted(ops) ==> Entry(After(ops), fd) == Watching(fd, Wanted(ops)[fd])
  {
    if ops != [] {
      var before, op := ops[..|ops| - 1], ops[|ops| - 1];
      EveryRunWatches(before);
      var x := After(before);
      match op
      case Update(fd, events) =>
        if fd in x.places {
          ChangedKeeps(x, fd, events);
        } else if fd >= 0 && events != 0 {
          AddedKeeps(x, fd, events);
        }
      case Remove(fd) =>
        if fd in x.places && Entry(x, fd).events == 0 {
          RemovedKeeps(x, fd);
        }
    }
  }

  // ----- the objects -----

  class Channel {
    const fd: nat
    var events: int
    var revents: int
    var index: int

    constructor (fd: nat)
      ensures this.fd == fd && events == 0 && index == -1
    {
      this.fd, events, revents, index := fd, 0, 0, -1;
    }
  }

  class PollPoller {
    var pollfds: seq<PollFd>
    var channels: map<int, Channel>

    ghost function Value(): Index
      reads this, channels.Values
    {
      Index(pollfds, map fd | fd in channels :: channels[fd].index)
    }

    ghost predicate Valid()
      reads this, channels.Values
    {
      Consistent(Value()) && forall fd :: fd in channels ==> channels[fd].fd == fd
    }

    constructor ()
      ensures Valid() && Value() == EMPTY
    {
      pollfds, channels := [], map[];
    }

    /** A new channel, whose events are not empty, or one that is known. */
    method UpdateChannel(channel: Channel)
      requires Valid()
      requires if channel.index < 0 then channel.fd !in channels && channel.events != 0
               else channel.fd in channels && channels[channel.fd] == channel
      modifies this, channel`index
      ensures Valid() && channels == old(channels)[channel.fd := channel]
      ensures Value() == Apply(old(Value()), Update(channel.fd, channel.events))
    {
      if channel.index < 0 {
        AddNew(channel);
        AddedKeeps(old(Value()), channel.fd, channel.events);
      } else {
        Change(channel);
        ChangedKeeps(old(Value()), channel.fd, channel.events);
        assert channels == old(channels)[channel.fd := channel];
      }
    }

    method AddNew(channel: Channel)
      requires Valid() && channel.index < 0 && channel.fd !in channels
      modifies this, channel`index
      ensures channels == old(channels)[channel.fd := channel]
      ensures Value() == Added(old(Value()), channel.fd, channel.events)
    {
      assert forall fd :: fd in channels ==> channels[fd] != channel;
      pollfds := pollfds + [PollFd(channel.fd, channel.events, 0)];
      channel.index := |pollfds| - 1;
      channels := channels[channel.fd := channel];
      assert Value().places == old(Value()).places[channel.fd := channel.index];
    }

    method Change(channel: Channel)
      requires Valid() && channel.fd in channels && channels[channel.fd] == channel
      modifies `pollfds
      ensures channel.fd in old(Value()).places
      ensures Value() == Changed(old(Value()), channel.fd, channel.events)
    {
      var idx := channel.index;
      assert channel.fd in Value().places && Value().places[channel.fd] == idx;
      assert Descriptor(pollfds[idx]) == channel.fd;
      pollfds := pollfds[idx := PollFd(channel.fd, channel.events, 0)];
      if channel.events == 0 {
        pollfds := pollfds[idx := pollfds[idx].(fd := Ignored(channel.fd))];
      }
      assert Value().places == old(Value()).places;
    }

    method RemoveChannel(channel: Channel)
      requires Valid() && channel.fd in channels && channels[channel.fd] == channel
      requires channel.events == 0 && Entry(Value(), channel.fd).events == 0
      modifies this, channels.Values
      ensures Valid() && channels == old(channels) - {channel.fd}
      ensures Value() == Apply(old(Value()), Remove(channel.fd))
    {
      assert channel.fd in Value().places && Value().places[channel.fd] == channel.index;
      assert pollfds[channel.index].fd == Ignored(channel.fd);
      RemovedKeeps(Value(), channel.fd);
      if channel.index < |pollfds| - 1 {
        LastIsKnown(Value(), channel.fd);
      }
      TakeOut(channel);
    }

    method TakeOut(channel: Channel)
      requires channel.fd in channels && channels[channel.fd] == channel
      requires forall fd :: fd in channels ==> channels[fd].fd == fd
      requires 0 <= channel.index < |pollfds|
      requires channel.index < |pollfds| - 1 ==> Descriptor(pollfds[|pollfds| - 1]) in Value().places - {channel.fd}
      modifies this, channels.Values
      ensures channels == old(channels) - {channel.fd}
      ensures forall fd :: fd in channels ==> channels[fd].fd == fd
      ensures channel.fd in old(Value()).places && Value() == Removed(old(Value()), channel.fd)
    {
      var idx := channel.index;
      assert Value().places[channel.fd] == idx;
      channels := channels - {channel.fd};
      if idx == |pollfds| - 1 {
        pollfds := pollfds[..|pollfds| - 1];
        assert Value().places == old(Value()).places - {channel.fd};
      } else {
        MoveLast(idx);
        assert Value().places == Removed(old(Value()), channel.fd).places;
      }
    }

    /** iter_swap() with the last entry, whose channel is told, and pop_back(). */
    method MoveLast(idx: nat)
      requires idx < |pollfds| - 1
      requires var fd := Descriptor(pollfds[|pollfds| - 1]); fd in channels
      requires forall fd :: fd in channels ==> channels[fd].fd == fd
      modifies `pollfds, channels.Values
      ensures pollfds == old(pollfds)[idx := old(pollfds)[|old(pollfds)| - 1]][..|old(pollfds)| - 1]
      ensures forall fd :: fd in channels ==> channels[fd].fd == fd
      ensures forall fd :: fd in channels ==>
        channels[fd].index == if fd == old(Descriptor(pollfds[|pollfds| - 1])) then idx else old(channels[fd].index)
    {
      var channelAtEnd := pollfds[|pollfds| - 1].fd;
      pollfds := pollfds[idx := pollfds[|pollfds| - 1]][|pollfds| - 1 := pollfds[idx]];
      if channelAtEnd < 0 {
        channelAtEnd := Ignored(channelAtEnd);
      }
      channels[channelAtEnd].index := idx;
      pollfds := pollfds[..|pollfds| - 1];
    }

    /** What each channel has been told. */
    ghost function Revents(): map<int, int>
      reads this, channels.Values
    {
      map fd | fd in channels :: channels[fd].revents
    }

    /** The channel of an entry with events is told of them. */
    method Notify(i: nat) returns (channel: Channel)
      requires Valid() && i < |pollfds| && pollfds[i].fd >= 0
      modifies channels.Values`revents
      ensures Valid() && Value() == old(Value())
      ensures pollfds[i].fd in channels && channel == channels[pollfds[i].fd]
      ensures Revents() == old(Revents())[pollfds[i].fd := pollfds[i].revents]
    {
      assert Descriptor(pollfds[i]) in Value().places;
      channel := channels[pollfds[i].fd];
      assert forall fd :: fd in channels && channels[fd] == channel ==> fd == pollfds[i].fd;
      channel.revents := pollfds[i].revents;
      assert Value().places == old(Value()).places;
      OneTold(old(Revents()), pollfds[i].fd, pollfds[i].revents);
    }

    lemma OneTold(was: map<int, int>, fd: int, revents: int)
      requires was.Keys == channels.Keys && fd in channels
      requires forall g :: g in channels ==> channels[g].revents == if g == fd then revents else was[g]
      ensures Revents() == was[fd := revents]
    {
      var now, told := Revents(), was[fd := revents];
      assert forall g :: g in now <==> g in channels;
      assert forall g :: g in told <==> g in channels;
      assert now.Keys == told.Keys;
      assert forall g :: g in now ==> now[g] == told[g];
    }

    /** The scan has gone through `i` entries and found `active`. */
    ghost predicate Scanning(was: map<int, int>, i: nat, active: seq<Channel>)
      reads this, channels.Values
    {
      && i <= |pollfds|
      && Reported(channels, Ready(pollfds[..i]), active)
      && Revents() == Told(was, pollfds[..i])
    }

    /** One entry of the scan. */
    method ScanOne(i: nat, found: seq<Channel>, ghost was: map<int, int>) returns (active: seq<Channel>, hit: bool)
      requires Valid() && i < |pollfds| && (pollfds[i].revents > 0 ==> pollfds[i].fd >= 0)
      requires Scanning(was, i, found)
      modifies channels.Values`revents
      ensures Valid() && Value() == old(Value())
      ensures |Ready(pollfds[..i + 1])| == |Ready(pollfds[..i])| + if hit then 1 else 0
      ensures Scanning(was, i + 1, active)
    {
      ReadyNext(pollfds, i);
      ToldNext(was, pollfds, i);
      active, hit := found, pollfds[i].revents > 0;
      if hit {
        var channel := Notify(i);
        ReportedNext(channels, Ready(pollfds[..i]), active, pollfds[i]);
        active := active + [channel];
      }
    }

    /**
      The scan after poll(), which returned how many entries have events; entries to be
      ignored have none.  It stops at the last of them.
     */
    method FillActiveChannels(numEvents: nat) returns (active: seq<Channel>)
      requires Valid() && numEvents == |Ready(pollfds)|
      requires forall i :: 0 <= i < |pollfds| && pollfds[i].revents > 0 ==> pollfds[i].fd >= 0
      modifies channels.Values`revents
      ensures Valid() && Value() == old(Value())
      ensures Reported(channels, Ready(pollfds), active)
      ensures Revents() == Told(old(Revents()), pollfds)
    {
      active := [];
      var left, i, hit := numEvents, 0, false;
      while i < |pollfds| && left > 0
        invariant i <= |pollfds| && left >= 0 && left + |Ready(pollfds[..i])| == numEvents
        invariant Valid() && Value() == old(Value())
        invariant Scanning(old(Revents()), i, active)
      {
        active, hit := ScanOne(i, active, old(Revents()));
        if hit {
          ReadyPrefix(pollfds, i + 1);
          left := left - 1;
        }
        i := i + 1;
      }
      ScanEnds(old(Revents()), i, left, active);
    }

    /** Where the scan stops, nothing is left. */
    lemma ScanEnds(was: map<int, int>, i: nat, left: nat, active: seq<Channel>)
      requires Scanning(was, i, active) && (i == |pollfds| || left == 0)
      requires left + |Ready(pollfds[..i])| == |Ready(pollfds)|
      ensures Reported(channels, Ready(pollfds), active) && Revents() == Told(was, pollfds)
    {
      ReadyPrefix(pollfds, i);
      assert pollfds[..|pollfds|] == pollfds;
      ToldPrefix(was, pollfds, i);
    }
  }

  /** The channels of the entries, in their order. */
  ghost predicate Reported(channels: map<int, Channel>, entries: seq<PollFd>, active: seq<Channel>) {
    && |active| == |entries|
    && forall k :: 0 <= k < |active| ==> entries[k].fd in channels && active[k] == channels[entries[k].fd]
  }

  lemma ReportedNext(channels: map<int, Channel>, entries: seq<PollFd>, active: seq<Channel>, entry: PollFd)
    requires Reported(channels, entries, active) && entry.fd in channels
    ensures Reported(channels, entries + [entry], active + [channels[entry.fd]])
  {
  }

  /** The entries with events, in order. */
  function Ready(pollfds: seq<PollFd>): seq<PollFd> {
    if pollfds == [] then [] else
      Ready(pollfds[..|pollfds| - 1]) + if pollfds[|pollfds| - 1].revents > 0 then [pollfds[|pollfds| - 1]] else []
  }

  lemma {:induction false} ReadyNext(s: seq<PollFd>, i: nat)
    requires i < |s|
    ensures Ready(s[..i + 1]) == Ready(s[..i]) + if s[i].revents > 0 then [s[i]] else []
  {
    assert s[..i + 1][..i] == s[..i];
  }

  lemma {:induction false} ReadyPrefix(s: seq<PollFd>, i: nat)
    requires i <= |s|
    ensures Ready(s[..i]) <= Ready(s)
    decreases |s| - i
  {
    if i < |s| {
      ReadyNext(s, i);
      ReadyPrefix(s, i + 1);
    } else {
      assert s[..i] == s;
    }
  }

  /** What the channels have been told after the entries have been gone through. */
  function Told(was: map<int, int>, pollfds: seq<PollFd>): map<int, int> {
    if pollfds == [] then was else
      var told, last := Told(was, pollfds[..|pollfds| - 1]), pollfds[|pollfds| - 1];
      if last.revents > 0 then told[last.fd := last.revents] else told
  }

  lemma {:induction false} ToldNext(was: map<int, int>, s: seq<PollFd>, i: nat)
    requires i < |s|
    ensures Told(was, s[..i + 1]) ==
            if s[i].revents > 0 then Told(was, s[..i])[s[i].fd := s[i].revents] else Told(was, s[..i])
  {
    assert s[..i + 1][..i] == s[..i];
  }

  /** Once all entries with events have been seen, the others tell nothing. */
  lemma {:induction false} ToldPrefix(was: map<int, int>, s: seq<PollFd>, i: nat)
    requires i <= |s| && |Ready(s[..i])| == |Ready(s)|
    ensures Told(was, s[..i]) == Told(was, s)
    decreases |s| - i
  {
    if i < |s| {
      ReadyNext(s, i);
      ReadyPrefix(s, i + 1);
      ToldNext(was, s, i);
      ToldPrefix(was, s, i + 1);
    } else {
      assert s[..i] == s;
    }
  }

  /** Each entry has a descriptor of its own, and those with events are not ignored. */
  predicate Separate(s: seq<PollFd>) {
    && (forall i, j :: 0 <= i < j < |s| ==> Descriptor(s[i]) != Descriptor(s[j]))
    && (forall i :: 0 <= i < |s| && s[i].revents > 0 ==> s[i].fd >= 0)
  }

  /** So each channel has been told its own entry's events, and one without events nothing. */
  lemma {:induction false} EachTold(was: map<int, int>, s: seq<PollFd>, i: nat)
    requires Separate(s) && i < |s| && Descriptor(s[i]) in was
    ensures Descriptor(s[i]) in Told(was, s)
    ensures Told(was, s)[Descriptor(s[i])] == if s[i].revents > 0 then s[i].revents else was[Descriptor(s[i])]
  {
    var front := s[..|s| - 1];
    if i < |front| {
      EachTold(was, front, i);
    } else {
      NotTold(was, front, Descriptor(s[i]));
    }
  }

  lemma {:induction false} NotTold(was: map<int, int>, s: seq<PollFd>, fd: int)
    requires fd in was && forall i :: 0 <= i < |s| && s[i].revents > 0 ==> s[i].fd != fd
    ensures fd in Told(was, s) && Told(was, s)[fd] == was[fd]
  {
    if s != [] {
      NotTold(was, s[..|s| - 1], fd);
    }
  }
}
