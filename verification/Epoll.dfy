/**
  * EPollItem and SmartEPoller::watch_event (include/epoll_item.h:10-71, src/epoll_item.cpp:5-24,
  * src/smart_epoller.cpp:37-58) against the kernel's interest table.
  */
module Epoll {

  type Fd = nat

  datatype Flag = In | Out | Pri | RdHup | Err | Hup

  /** An EPollItem without its callbacks. */
  datatype Item = Item(fd: Fd, events: set<Flag>, watching: bool)

  /** An entry of the interest table: the mask and the pointer registered with it. */
  datatype Watch<T> = Watch(mask: set<Flag>, item: T)

  datatype Ctl = Add | Mod | Del

  /** `epoll_ctl` fails with EEXIST or ENOENT and changes nothing when the entry is there, respectively missing. */
  function EpollCtl<T>(table: map<Fd, Watch<T>>, ctl: Ctl, fd: Fd, w: Watch<T>): (map<Fd, Watch<T>>, bool) {
    match ctl
    case Add => if fd in table then (table, false) else (table[fd := w], true)
    case Mod => if fd in table then (table[fd := w], true) else (table, false)
    case Del => if fd in table then (table - {fd}, true) else (table, false)
  }

  function CtlFor(item: Item): Ctl {
    if !item.watching then Add else if item.events == {} then Del else Mod
  }

  /** `watch_event`: the flag follows the call, whatever `epoll_ctl` returned. */
  function Rewatch<T>(item: Item, table: map<Fd, Watch<T>>, me: T): (Item, map<Fd, Watch<T>>, bool) {
    var (table', ok) := EpollCtl(table, CtlFor(item), item.fd, Watch(item.events, me));
    (item.(watching := if CtlFor(item) == Mod then item.watching else CtlFor(item) == Add), table', ok)
  }

  datatype Call = EnableReading | DisableReading | EnableWriting | DisableWriting | DisableAll

  function Edit(events: set<Flag>, call: Call): set<Flag> {
    match call
    case EnableReading => events + {In}
    case DisableReading => events - {In}
    case EnableWriting => events + {Out}
    case DisableWriting => events - {Out}
    case DisableAll => {}
  }

  function OnCall<T>(item: Item, table: map<Fd, Watch<T>>, me: T, call: Call): (Item, map<Fd, Watch<T>>, bool) {
    Rewatch(item.(events := Edit(item.events, call)), table, me)
  }

  /** The third component says whether every `epoll_ctl` so far succeeded. */
  function AfterCalls<T>(item: Item, table: map<Fd, Watch<T>>, me: T, calls: seq<Call>): (Item, map<Fd, Watch<T>>, bool) {
    if calls == [] then (item, table, true)
    else
      var (i, t, ok) := AfterCalls(item, table, me, calls[..|calls|-1]);
      var (i', t', ok') := OnCall(i, t, me, calls[|calls|-1]);
      (i', t', ok && ok')
  }

  /** The item's flag and mask mirror the kernel's entry for its descriptor. */
  predicate Mirrors<T(==)>(item: Item, table: map<Fd, Watch<T>>, me: T) {
    && (item.watching <==> item.fd in table)
    && (item.watching ==> table[item.fd] == Watch(item.events, me))
  }

  /**
    * For every sequence of enable and disable calls on an item that alone uses its descriptor:
    * `watching_` holds iff the descriptor is in the interest table, the mask there is `events_`, no
    * `epoll_ctl` fails, and no other entry is touched.
    */
  lemma {:induction false} WatchingMirrorsTheKernel<T>(item: Item, table: map<Fd, Watch<T>>, me: T, calls: seq<Call>)
    requires Mirrors(item, table, me)
    ensures var (i, t, ok) := AfterCalls(item, table, me, calls);
            && Mirrors(i, t, me) && ok
            && i.fd == item.fd && t - {item.fd} == table - {item.fd}
  {
    if calls != [] {
      WatchingMirrorsTheKernel(item, table, me, calls[..|calls|-1]);
    }
  }

  /** The call decides whether the flag is watched for, and if so, whether it is. */
  function Verdict(call: Call, f: Flag): (bool, bool) {
    match call
    case EnableReading => (f == In, true)
    case DisableReading => (f == In, false)
    case EnableWriting => (f == Out, true)
    case DisableWriting => (f == Out, false)
    case DisableAll => (true, false)
  }

  /** The last call that decides about the flag. */
  function LastWord(calls: seq<Call>, f: Flag, before: bool): bool {
    if calls == [] then before
    else
      var (decides, on) := Verdict(calls[|calls|-1], f);
      if decides then on else LastWord(calls[..|calls|-1], f, before)
  }

  lemma EditFollowsVerdict(events: set<Flag>, call: Call, f: Flag)
    ensures var (decides, on) := Verdict(call, f);
            f in Edit(events, call) <==> if decides then on else f in events
  {
  }

  lemma CallEdits<T>(item: Item, table: map<Fd, Watch<T>>, me: T, call: Call)
    ensures OnCall(item, table, me, call).0.events == Edit(item.events, call)
  {
  }

  /** Over every sequence of calls, a flag is in the mask iff the last call about it put it there. */
  lemma {:induction false} MaskIsTheLastWord<T>(item: Item, table: map<Fd, Watch<T>>, me: T, calls: seq<Call>, f: Flag)
    ensures f in AfterCalls(item, table, me, calls).0.events <==> LastWord(calls, f, f in item.events)
  {
    if calls != [] {
      var most, call := calls[..|calls|-1], calls[|calls|-1];
      MaskIsTheLastWord(item, table, me, most, f);
      var (i, t, _) := AfterCalls(item, table, me, most);
      CallEdits(i, t, me, call);
      EditFollowsVerdict(i.events, call, f);
    }
  }

  /**
    * Arming an item that is not watched registers it iff the descriptor has no entry yet; otherwise the
    * other item's entry stays, and the item believes to be watched all the same.
    */
  lemma ArmingNeedsAFreeDescriptor<T>(item: Item, table: map<Fd, Watch<T>>, me: T, call: Call)
    requires !item.watching
    ensures var (i, t, ok) := OnCall(item, table, me, call);
            && i.watching
            && (ok <==> item.fd !in table)
            && (if ok then Mirrors(i, t, me) else t == table)
  {
  }

  // ---------------------------------------------------------------- handle_events

  datatype Handler = OnClose | OnError | OnRead | OnWrite

  /** The callbacks that `handle_events` makes, in order, when the given ones are set. */
  function Calls(revents: set<Flag>, handlers: set<Handler>): seq<Handler> {
    (if Hup in revents && OnClose in handlers then [OnClose] else [])
    + (if Err in revents && OnError in handlers then [OnError] else [])
    + (if revents * {In, Pri, RdHup} != {} && OnRead in handlers then [OnRead] else [])
    + (if Out in revents && OnWrite in handlers then [OnWrite] else [])
  }

  /** The reported events that a callback is for. */
  function TriggersOf(h: Handler): set<Flag> {
    match h
    case OnClose => {Hup}
    case OnError => {Err}
    case OnRead => {In, Pri, RdHup}
    case OnWrite => {Out}
  }

  function Rank(h: Handler): nat {
    match h
    case OnClose => 0
    case OnError => 1
    case OnRead => 2
    case OnWrite => 3
  }

  lemma Meets(revents: set<Flag>, f: Flag)
    ensures revents * {f} != {} <==> f in revents
  {
    if f in revents {
      assert f in revents * {f};
    }
  }

  lemma CalledIff(revents: set<Flag>, handlers: set<Handler>, h: Handler)
    ensures h in Calls(revents, handlers) <==> h in handlers && revents * TriggersOf(h) != {}
  {
    match h
    case OnClose => Meets(revents, Hup);
    case OnError => Meets(revents, Err);
    case OnRead =>
    case OnWrite => Meets(revents, Out);
  }

  /** `handle_events` calls exactly the callbacks that are set and triggered, each once, in the order close, error, read, write. */
  lemma HandlersRunInOrder(revents: set<Flag>, handlers: set<Handler>)
    ensures forall h :: h in Calls(revents, handlers) <==> h in handlers && revents * TriggersOf(h) != {}
    ensures var calls := Calls(revents, handlers);
            forall i, j :: 0 <= i < j < |calls| ==> Rank(calls[i]) < Rank(calls[j])
  {
    forall h ensures h in Calls(revents, handlers) <==> h in handlers && revents * TriggersOf(h) != {} {
      CalledIff(revents, handlers, h);
    }
  }

  /**
    * A parked operation sets one callback, for reading or for writing; one report calls it at most
    * once, and only for its own direction: a hang-up or error alone calls nothing.
    */
  lemma ParkedItemIsCalledAtMostOnce(revents: set<Flag>, h: Handler)
    requires h == OnRead || h == OnWrite
    ensures Calls(revents, {h}) ==
              if h == OnWrite && Out in revents then [h]
              else if h == OnRead && (In in revents || Pri in revents || RdHup in revents) then [h]
              else []
  {
    assert revents * {In, Pri, RdHup} != {} <==> In in revents || Pri in revents || RdHup in revents by {
      if In in revents {
        assert In in revents * {In, Pri, RdHup};
      } else if Pri in revents {
        assert Pri in revents * {In, Pri, RdHup};
      } else if RdHup in revents {
        assert RdHup in revents * {In, Pri, RdHup};
      }
    }
  }

  /** The object form: the poller owns the table, the item its mask and flag. */
  class EPollItem {
    const fd: Fd
    const epoller: SmartEPoller
    var events: set<Flag>
    var watching: bool

    constructor (fd: Fd, epoller: SmartEPoller)
      ensures this.epoller == epoller && View() == Item(fd, {}, false)
    {
      this.fd := fd;
      this.epoller := epoller;
      events, watching := {}, false;
    }

    function View(): Item
      reads this
    {
      Item(fd, events, watching)
    }

    method EnableReading() returns (ok: bool)
      modifies this, epoller
      ensures (View(), epoller.table, ok) == OnCall(old(View()), old(epoller.table), this, Call.EnableReading)
    {
      events := events + {In};
      ok := epoller.WatchEvent(this);
    }

    method DisableReading() returns (ok: bool)
      modifies this, epoller
      ensures (View(), epoller.table, ok) == OnCall(old(View()), old(epoller.table), this, Call.DisableReading)
    {
      events := events - {In};
      ok := epoller.WatchEvent(this);
    }

    method EnableWriting() returns (ok: bool)
      modifies this, epoller
      ensures (View(), epoller.table, ok) == OnCall(old(View()), old(epoller.table), this, Call.EnableWriting)
    {
      events := events + {Out};
      ok := epoller.WatchEvent(this);
    }

    method DisableWriting() returns (ok: bool)
      modifies this, epoller
      ensures (View(), epoller.table, ok) == OnCall(old(View()), old(epoller.table), this, Call.DisableWriting)
    {
      events := events - {Out};
      ok := epoller.WatchEvent(this);
    }

    method DisableAll() returns (ok: bool)
      modifies this, epoller
      ensures (View(), epoller.table, ok) == OnCall(old(View()), old(epoller.table), this, Call.DisableAll)
    {
      events := {};
      ok := epoller.WatchEvent(this);
    }
  }

  class SmartEPoller {
    var table: map<Fd, Watch<EPollItem>>   // kept by the kernel

    constructor ()
      ensures table == map[]
    {
      table := map[];
    }

    method WatchEvent(item: EPollItem) returns (ok: bool)
      modifies this, item`watching
      ensures (item.View(), table, ok) == Rewatch(old(item.View()), old(table), item)
    {
      ok := item.watching == (item.fd in table);
      if item.watching {
        if item.events == {} {
          if item.fd in table {
            table := table - {item.fd};
          }
          item.watching := false;
        } else if item.fd in table {
          table := table[item.fd := Watch(item.events, item)];
        }
      } else {
        if item.fd !in table {
          table := table[item.fd := Watch(item.events, item)];
        }
        item.watching := true;
      }
    }
  }
}
