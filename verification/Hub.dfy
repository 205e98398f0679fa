/** The publish/subscribe hub: sources write, readers with bounded buffers receive, and a full
    buffer drops and counts instead of blocking. */
module Hub {
  /** One media unit, and which of the writing goroutines it comes from. */
  datatype Item = Item(writer: nat, unit: nat)

  const DEFAULT_BUFFER: nat := 512

  /** A reader's channel and drop counter. */
  datatype Chan = Chan(capacity: nat, buffer: seq<Item>, dropped: nat, isOpen: bool)

  /** A non-blocking send. */
  function Offer(c: Chan, u: Item): Chan {
    if |c.buffer| < c.capacity then c.(buffer := c.buffer + [u]) else c.(dropped := c.dropped + 1)
  }

  function BufferSize(wanted: int): nat {
    if wanted <= 0 then DEFAULT_BUFFER else wanted
  }

  // ----- the objects -----

  class Reader {
    const capacity: nat
    var buffer: seq<Item>
    var dropped: nat
    var isOpen: bool

    function View(): Chan
      reads this
    {
      Chan(capacity, buffer, dropped, isOpen)
    }

    constructor (capacity: nat)
      ensures View() == Chan(capacity, [], 0, true)
    {
      this.capacity := capacity;
      buffer, dropped, isOpen := [], 0, true;
    }

    /** Sending on a closed channel would panic, so it must be open. */
    method Push(u: Item)
      requires isOpen
      modifies this
      ensures View() == Offer(old(View()), u)
    {
      if |buffer| < capacity {
        buffer := buffer + [u];
      } else {
        dropped := dropped + 1;
      }
    }

    /** Closing twice would panic. */
    method CloseChannel()
      requires isOpen
      modifies this
      ensures View() == old(View()).(isOpen := false)
    {
      isOpen := false;
    }
  }

  class Stream {
    var readers: set<Reader>
    var closed: bool
    var bytesIn: nat

    ghost predicate Valid()
      reads this, readers
    {
      forall r :: r in readers ==> r.isOpen
    }

    constructor ()
      ensures Valid() && readers == {} && !closed && bytesIn == 0
    {
      readers, closed, bytesIn := {}, false, 0;
    }

    method WriteUnit(u: Item, sizes: seq<nat>)
      requires Valid()
      modifies this`bytesIn, readers
      ensures Valid() && readers == old(readers)
      ensures closed ==> bytesIn == old(bytesIn) && forall r :: r in readers ==> r.View() == old(r.View())
      ensures !closed ==> bytesIn == old(bytesIn) + Total(sizes)
      ensures !closed ==> forall r :: r in readers ==> r.View() == Offer(old(r.View()), u)
    {
      if closed {
        return;
      }
      var n := 0;
      for k := 0 to |sizes|
        invariant n == Total(sizes[..k])
      {
        assert sizes[..k + 1][..k] == sizes[..k];
        n := n + sizes[k];
      }
      assert sizes[..|sizes|] == sizes;
      bytesIn := bytesIn + n;
      var rest := readers;
      while rest != {}
        invariant rest <= readers
        invariant forall r :: r in rest ==> r.View() == old(r.View())
        invariant forall r :: r in readers - rest ==> r.View() == Offer(old(r.View()), u)
        decreases |rest|
        modifies readers
      {
        var r :| r in rest;
        r.Push(u);
        rest := rest - {r};
      }
    }

    method AddReader(bufSize: int) returns (r: Reader)
      requires Valid()
      modifies this`readers
      ensures Valid() && fresh(r) && readers == old(readers) + {r}
      ensures r.View() == Chan(BufferSize(bufSize), [], 0, true)
    {
      r := new Reader(BufferSize(bufSize));
      readers := readers + {r};
    }

    method RemoveReader(r: Reader)
      requires Valid()
      modifies this`readers, r
      ensures Valid() && readers == old(readers) - {r}
      ensures r.View() == if r in old(readers) then old(r.View()).(isOpen := false) else old(r.View())
    {
      if r in readers {
        readers := readers - {r};
        r.CloseChannel();
      }
    }

    method Close()
      requires Valid()
      modifies this`readers, this`closed, readers
      ensures Valid() && closed
      ensures old(closed) ==> readers == old(readers) && forall r :: r in readers ==> r.View() == old(r.View())
      ensures !old(closed) ==>
        && readers == {}
        && forall r :: r in old(readers) ==> r.View() == old(r.View()).(isOpen := false)
    {
      if closed {
        return;
      }
      closed := true;
      while readers != {}
        invariant readers <= old(readers) && closed
        invariant forall r :: r in readers ==> r.View() == old(r.View())
        invariant forall r :: r in old(readers) - readers ==> r.View() == old(r.View()).(isOpen := false)
        decreases |readers|
        modifies this`readers, old(readers)
      {
        var r :| r in readers;
        readers := readers - {r};
        r.CloseChannel();
      }
    }
  }

  function Total(sizes: seq<nat>): nat {
    if sizes == [] then 0 else Total(sizes[..|sizes| - 1]) + sizes[|sizes| - 1]
  }

  /** Every access unit counts with its bytes. */
  lemma {:induction false} TotalAdds(a: seq<nat>, b: seq<nat>)
    ensures Total(a + b) == Total(a) + Total(b) && (|a| == 1 ==> Total(a) == a[0])
  {
    if b == [] {
      assert a + b == a;
    } else {
      TotalAdds(a, b[..|b| - 1]);
      assert (a + b)[..|a + b| - 1] == a + b[..|b| - 1];
    }
  }

  // ----- every interleaving -----

  /** One reader with its history: everything it was offered, in order, what it has received, and
      the span of the log it was registered for. */
  datatype ReaderState = ReaderState(chan: Chan, offered: seq<Item>, received: seq<Item>, joined: nat, left: nat)

  /** A write under way: the unit, and the readers still to be offered it. */
  datatype Write = Write(item: Item, remaining: set<nat>)

  datatype Sys = Sys(closed: bool, readers: map<nat, ReaderState>, registered: set<nat>, log: seq<Item>,
                     writes: map<nat, Write>)

  const Start := Sys(false, map[], {}, [], map[])

  datatype Step =
    | BeginWrite(item: Item)
    | PushTo(w: nat, r: nat)
    | EndWrite(w: nat)
    | Add(r: nat, bufSize: int)
    | Remove(r: nat)
    | CloseAll
    | Receive(r: nat)

  /** Writes take the read lock only, so those of different writers overlap; adding, removing and
      closing take the write lock and wait for all of them. Receiving needs no lock. */
  predicate Enabled(s: Sys, step: Step) {
    match step
    case BeginWrite(u) => u.writer !in s.writes
    case PushTo(w, r) => w in s.writes && r in s.writes[w].remaining && r in s.readers
    case EndWrite(w) => w in s.writes && s.writes[w].remaining == {}
    case Add(r, _) => s.writes == map[] && r !in s.readers
    case Remove(r) => s.writes == map[] && r in s.readers
    case CloseAll => s.writes == map[]
    case Receive(r) => r in s.readers && s.readers[r].chan.buffer != []
  }

  function Detach(st: ReaderState, at: nat): ReaderState {
    st.(chan := st.chan.(isOpen := false), left := at)
  }

  function Apply(s: Sys, step: Step): Sys
    requires Enabled(s, step)
  {
    match step
    case BeginWrite(u) =>
      if s.closed then s else s.(log := s.log + [u], writes := s.writes[u.writer := Write(u, s.registered)])
    case PushTo(w, r) =>
      var st, u := s.readers[r], s.writes[w].item;
      s.(readers := s.readers[r := st.(chan := Offer(st.chan, u), offered := st.offered + [u])],
         writes := s.writes[w := Write(u, s.writes[w].remaining - {r})])
    case EndWrite(w) => s.(writes := s.writes - {w})
    case Add(r, size) =>
      s.(readers := s.readers[r := ReaderState(Chan(BufferSize(size), [], 0, true), [], [], |s.log|, 0)],
         registered := s.registered + {r})
    case Remove(r) =>
      if r !in s.registered then s
      else s.(registered := s.registered - {r}, readers := s.readers[r := Detach(s.readers[r], |s.log|)])
    case CloseAll =>
      if s.closed then s
      else
        s.(closed := true, registered := {},
           readers := map r | r in s.readers ::
             if r in s.registered then Detach(s.readers[r], |s.log|) else s.readers[r])
    case Receive(r) =>
      var st := s.readers[r];
      var rest, first := st.chan.(buffer := st.chan.buffer[1..]), st.chan.buffer[0];
      s.(readers := s.readers[r := st.(chan := rest, received := st.received + [first])])
  }

  // ----- order-preserving loss -----

  /** a is b with some elements left out. */
  predicate IsSubsequence(a: seq<Item>, b: seq<Item>) {
    if a == [] then true
    else if b == [] then false
    else
      (a[|a| - 1] == b[|b| - 1] && IsSubsequence(a[..|a| - 1], b[..|b| - 1])) || IsSubsequence(a, b[..|b| - 1])
  }

  lemma SubsequenceGrows(a: seq<Item>, b: seq<Item>, x: Item)
    requires IsSubsequence(a, b)
    ensures IsSubsequence(a + [x], b + [x]) && IsSubsequence(a, b + [x])
  {
    assert (a + [x])[..|a|] == a && (b + [x])[..|b|] == b;
  }

  /** The units of one writer, in order. */
  function ByWriter(items: seq<Item>, w: nat): seq<Item> {
    if items == [] then []
    else
      var last := items[|items| - 1];
      ByWriter(items[..|items| - 1], w) + (if last.writer == w then [last] else [])
  }

  lemma ByWriterGrows(items: seq<Item>, x: Item, w: nat)
    ensures ByWriter(items + [x], w) == ByWriter(items, w) + (if x.writer == w then [x] else [])
  {
    assert (items + [x])[..|items|] == items;
  }

  /** The end of the part of the log a reader is to be offered. */
  function End(s: Sys, r: nat): nat
    requires r in s.readers
  {
    if r in s.registered then |s.log| else s.readers[r].left
  }

  /** The writers whose unit the reader is still to be offered, and that unit. */
  function Pending(s: Sys, r: nat): set<nat> {
    set w | w in s.writes && r in s.writes[w].remaining
  }

  function Awaited(s: Sys, r: nat, w: nat): seq<Item> {
    if w in s.writes && r in s.writes[w].remaining then [s.writes[w].item] else []
  }

  /** The items the reader was offered are, writer by writer, those of its span of the log in
      order, less at most the one each is just handing out. */
  predicate InWriterOrder(s: Sys, r: nat, w: nat)
    requires r in s.readers && s.readers[r].joined <= End(s, r) <= |s.log|
  {
    ByWriter(s.log[s.readers[r].joined..End(s, r)], w) == ByWriter(s.readers[r].offered, w) + Awaited(s, r, w)
  }

  /** A reader has received and buffered what it was offered, in order, with exactly `dropped` of
      the units missing. */
  predicate Counted(st: ReaderState) {
    && IsSubsequence(st.received + st.chan.buffer, st.offered)
    && |st.received| + |st.chan.buffer| + st.chan.dropped == |st.offered|
    && |st.chan.buffer| <= st.chan.capacity
  }

  ghost predicate Accounted(s: Sys, r: nat)
    requires r in s.readers
  {
    var st := s.readers[r];
    && Counted(st)
    && st.joined <= End(s, r) <= |s.log|
    && |st.offered| + |Pending(s, r)| == End(s, r) - st.joined
    && forall w: nat :: InWriterOrder(s, r, w)
  }

  /** Registered readers are exactly those with an open channel; writes under way are to them. */
  ghost predicate Registry(s: Sys) {
    && s.registered <= s.readers.Keys
    && (forall r :: r in s.readers ==> (s.readers[r].chan.isOpen <==> r in s.registered))
    && (forall w :: w in s.writes ==>
        !s.closed && s.writes[w].item.writer == w && s.writes[w].remaining <= s.registered)
  }

  ghost predicate Inv(s: Sys) {
    Registry(s) && forall r :: r in s.readers ==> Accounted(s, r)
  }

  ghost predicate Behaviour(states: seq<Sys>, steps: seq<Step>) {
    && |states| == |steps| + 1 && states[0] == Start
    && forall k :: 0 <= k < |steps| ==>
         Enabled(states[k], steps[k]) && states[k + 1] == Apply(states[k], steps[k])
  }

  /** Offering one more unit keeps the count, whether it fits or is dropped. */
  lemma {:induction false} OfferCounted(st: ReaderState, u: Item)
    requires Counted(st)
    ensures Counted(st.(chan := Offer(st.chan, u), offered := st.offered + [u]))
  {
    SubsequenceGrows(st.received + st.chan.buffer, st.offered, u);
    assert st.received + (st.chan.buffer + [u]) == st.received + st.chan.buffer + [u];
  }

  lemma {:induction false} PushAccounted(s: Sys, w: nat, r: nat)
    requires Inv(s) && Enabled(s, PushTo(w, r))
    ensures Accounted(Apply(s, PushTo(w, r)), r)
  {
    var t, st, u := Apply(s, PushTo(w, r)), s.readers[r], s.writes[w].item;
    assert Accounted(s, r);
    OfferCounted(st, u);
    assert Pending(t, r) == Pending(s, r) - {w};
    forall x: nat
      ensures InWriterOrder(t, r, x)
    {
      assert InWriterOrder(s, r, x);
      ByWriterGrows(st.offered, u, x);
    }
  }

  lemma ReceiveCounted(st: ReaderState)
    requires Counted(st) && st.chan.buffer != []
    ensures Counted(st.(chan := st.chan.(buffer := st.chan.buffer[1..]), received := st.received + [st.chan.buffer[0]]))
  {
    var b := st.chan.buffer;
    assert (st.received + [b[0]]) + b[1..] == st.received + b;
  }

  lemma {:induction false} ReceiveAccounted(s: Sys, r: nat)
    requires Inv(s) && Enabled(s, Receive(r))
    ensures Accounted(Apply(s, Receive(r)), r)
  {
    var t := Apply(s, Receive(r));
    assert Accounted(s, r);
    ReceiveCounted(s.readers[r]);
    assert Pending(t, r) == Pending(s, r);
    forall x: nat
      ensures InWriterOrder(t, r, x)
    {
      assert InWriterOrder(s, r, x);
    }
  }

  /** A write begins: a registered reader awaits its unit... */
  lemma {:induction false} WriteAwaited(s: Sys, u: Item, r: nat)
    requires Inv(s) && Enabled(s, BeginWrite(u)) && !s.closed && r in s.readers && r in s.registered
    ensures Accounted(Apply(s, BeginWrite(u)), r)
  {
    var t, st, span := Apply(s, BeginWrite(u)), s.readers[r], s.log[s.readers[r].joined..|s.log|];
    assert Accounted(s, r);
    assert Pending(t, r) == Pending(s, r) + {u.writer};
    assert t.log[st.joined..|t.log|] == span + [u];
    forall x: nat
      ensures InWriterOrder(t, r, x)
    {
      assert InWriterOrder(s, r, x);
      ByWriterGrows(span, u, x);
      assert x != u.writer ==> Awaited(t, r, x) == Awaited(s, r, x);
    }
  }

  /** ...and it concerns no other. */
  lemma {:induction false} WriteUnseen(s: Sys, u: Item, r: nat)
    requires Inv(s) && Enabled(s, BeginWrite(u)) && !s.closed && r in s.readers && r !in s.registered
    ensures Accounted(Apply(s, BeginWrite(u)), r)
  {
    var t, st := Apply(s, BeginWrite(u)), s.readers[r];
    assert Accounted(s, r);
    assert Pending(t, r) == Pending(s, r);
    assert t.log[st.joined..st.left] == s.log[st.joined..st.left];
    forall x: nat
      ensures InWriterOrder(t, r, x)
    {
      assert InWriterOrder(s, r, x);
      assert Awaited(t, r, x) == Awaited(s, r, x);
    }
  }

  /** A step that leaves a reader, its span and what it waits for alone leaves its account alone. */
  lemma UntouchedAccounted(s: Sys, t: Sys, r: nat)
    requires r in s.readers && Accounted(s, r) && r in t.readers
    requires t.readers[r].offered == s.readers[r].offered && t.readers[r].joined == s.readers[r].joined
      && Counted(t.readers[r])
    requires End(t, r) == End(s, r) && t.log == s.log && Pending(t, r) == Pending(s, r)
    requires forall w :: w in Pending(s, r) ==> t.writes[w].item == s.writes[w].item
    ensures Accounted(t, r)
  {
    forall x: nat
      ensures InWriterOrder(t, r, x)
    {
      assert InWriterOrder(s, r, x);
      assert x in Pending(s, r) <==> x in s.writes && r in s.writes[x].remaining;
      assert x in Pending(t, r) <==> x in t.writes && r in t.writes[x].remaining;
    }
  }

  lemma {:induction false} NewcomerAccounted(s: Sys, r: nat, size: int)
    requires Inv(s) && Enabled(s, Add(r, size))
    ensures Accounted(Apply(s, Add(r, size)), r)
  {
    var t := Apply(s, Add(r, size));
    assert Pending(t, r) == {};
    assert s.log[|s.log|..|s.log|] == [];
  }

  lemma {:induction false} BystanderAccounted(s: Sys, step: Step, r: nat)
    requires Inv(s) && Enabled(s, step) && r in s.readers
    requires step.EndWrite? || ((step.PushTo? || step.Add? || step.Receive?) && step.r != r)
    ensures Accounted(Apply(s, step), r)
  {
    var t := Apply(s, step);
    assert Accounted(s, r);
    assert Pending(t, r) == Pending(s, r);
    UntouchedAccounted(s, t, r);
  }

  lemma {:induction false} DetachAccounted(s: Sys, step: Step, r: nat)
    requires Inv(s) && Enabled(s, step) && (step.Remove? || step.CloseAll?) && r in s.readers
    ensures Accounted(Apply(s, step), r)
  {
    var t := Apply(s, step);
    assert Accounted(s, r);
    assert Pending(t, r) == Pending(s, r);
    UntouchedAccounted(s, t, r);
  }

  lemma {:induction false} AccountedKept(s: Sys, step: Step, r: nat)
    requires Inv(s) && Enabled(s, step) && r in Apply(s, step).readers
    ensures Accounted(Apply(s, step), r)
  {
    match step
    case BeginWrite(u) =>
      if !s.closed {
        if r in s.registered { WriteAwaited(s, u, r); } else { WriteUnseen(s, u, r); }
      }
    case PushTo(w, x) => if x == r { PushAccounted(s, w, r); } else { BystanderAccounted(s, step, r); }
    case EndWrite(_) => BystanderAccounted(s, step, r);
    case Add(x, size) => if x == r { NewcomerAccounted(s, r, size); } else { BystanderAccounted(s, step, r); }
    case Remove(_) => DetachAccounted(s, step, r);
    case CloseAll => DetachAccounted(s, step, r);
    case Receive(x) => if x == r { ReceiveAccounted(s, r); } else { BystanderAccounted(s, step, r); }
  }

  lemma {:induction false} RegistryKept(s: Sys, step: Step)
    requires Registry(s) && Enabled(s, step)
    ensures Registry(Apply(s, step))
  {
  }

  lemma InvKept(s: Sys, step: Step)
    requires Inv(s) && Enabled(s, step)
    ensures Inv(Apply(s, step))
  {
    RegistryKept(s, step);
    forall r | r in Apply(s, step).readers
      ensures Accounted(Apply(s, step), r)
    {
      AccountedKept(s, step, r);
    }
  }

  lemma {:induction false} InvAlways(states: seq<Sys>, steps: seq<Step>, k: nat)
    requires Behaviour(states, steps) && k <= |steps|
    ensures Inv(states[k])
  {
    if k > 0 {
      InvAlways(states, steps, k - 1);
      InvKept(states[k - 1], steps[k - 1]);
    }
  }

  /** In every interleaving, however writes overlap: what a reader has received or still has
      buffered is, in order, what it was offered, less exactly the number it counts as dropped; and
      it was offered everything written while it was registered, except the unit each writer is
      just handing out. */
  lemma LossIsCounted(states: seq<Sys>, steps: seq<Step>, k: nat, r: nat)
    requires Behaviour(states, steps) && k <= |steps| && r in states[k].readers
    ensures var s := states[k]; var st := s.readers[r];
      && st.joined <= End(s, r) <= |s.log|
      && IsSubsequence(st.received + st.chan.buffer, st.offered)
      && st.chan.dropped == (End(s, r) - st.joined) - |Pending(s, r)| - |st.received + st.chan.buffer|
  {
    InvAlways(states, steps, k);
    assert Accounted(states[k], r);
  }

  /** Each writer's units are offered to a reader in the order that writer wrote them. */
  lemma WriterOrderIsKept(states: seq<Sys>, steps: seq<Step>, k: nat, r: nat, w: nat)
    requires Behaviour(states, steps) && k <= |steps| && r in states[k].readers
    ensures var s := states[k]; var st := s.readers[r];
      && st.joined <= End(s, r) <= |s.log|
      && ByWriter(s.log[st.joined..End(s, r)], w) == ByWriter(st.offered, w) + Awaited(s, r, w)
  {
    InvAlways(states, steps, k);
    assert Accounted(states[k], r);
    assert InWriterOrder(states[k], r, w);
  }

  /** A unit is dropped exactly when the buffer holds as many units as it can, and is otherwise the
      last one in it. */
  lemma DroppedOnlyWhenFull(states: seq<Sys>, steps: seq<Step>, k: nat, w: nat, r: nat)
    requires Behaviour(states, steps) && k < |steps| && steps[k] == PushTo(w, r)
    ensures r in states[k].readers && w in states[k].writes && r in states[k + 1].readers
    ensures var a, b := states[k].readers[r].chan, states[k + 1].readers[r].chan;
      && b.capacity == a.capacity
      && if |a.buffer| == a.capacity then b.dropped == a.dropped + 1 && b.buffer == a.buffer
         else b.dropped == a.dropped && b.buffer == a.buffer + [states[k].writes[w].item]
  {
    InvAlways(states, steps, k);
    assert Enabled(states[k], steps[k]);
    assert Accounted(states[k], r);
  }

  /** No other step drops anything, and no step changes a capacity: it stays what was asked for when
      the reader was added, or 512 for none. */
  lemma {:induction false} CapacityIsAskedFor(states: seq<Sys>, steps: seq<Step>, k: nat, r: nat)
    requires Behaviour(states, steps) && k <= |steps| && r in states[k].readers
    ensures exists j: nat, size ::
      AddedAs(steps, j, r, size) && j < k && states[k].readers[r].chan.capacity == if size <= 0 then 512 else size
    ensures k > 0 && r in states[k - 1].readers && !(steps[k - 1].PushTo? && steps[k - 1].r == r) ==>
      states[k].readers[r].chan.dropped == states[k - 1].readers[r].chan.dropped
  {
    assert Enabled(states[k - 1], steps[k - 1]);
    if r in states[k - 1].readers {
      CapacityIsAskedFor(states, steps, k - 1, r);
      assert states[k].readers[r].chan.capacity == states[k - 1].readers[r].chan.capacity;
    } else {
      assert AddedAs(steps, k - 1, r, steps[k - 1].bufSize);
    }
  }

  predicate AddedAs(steps: seq<Step>, j: nat, r: nat, size: int) {
    j < |steps| && steps[j] == Add(r, size)
  }

  // ----- writes that do not overlap -----

  /** No write of the first k steps begins while another is under way. */
  ghost predicate OneAtATime(states: seq<Sys>, steps: seq<Step>, k: nat)
    requires k <= |steps| < |states|
  {
    forall i :: 0 <= i < k && steps[i].BeginWrite? ==> states[i].writes == map[]
  }

  function Span(s: Sys, r: nat): seq<Item>
    requires r in s.readers && s.readers[r].joined <= End(s, r) <= |s.log|
  {
    s.log[s.readers[r].joined..End(s, r)]
  }

  /** A reader was offered its span of the log, but for the unit still to be handed to it. */
  ghost predicate InLogOrder(s: Sys, r: nat)
    requires r in s.readers
  {
    && s.readers[r].joined <= End(s, r) <= |s.log|
    && (Pending(s, r) == {} ==> Span(s, r) == s.readers[r].offered)
    && forall w :: w in Pending(s, r) ==> Span(s, r) == s.readers[r].offered + [s.writes[w].item]
  }

  ghost predicate Alone(s: Sys) {
    && (forall v, w :: v in s.writes && w in s.writes ==> v == w)
    && forall r :: r in s.readers ==> InLogOrder(s, r)
  }

  lemma {:induction false} BeginInOrder(s: Sys, u: Item, r: nat)
    requires Inv(s) && Alone(s) && s.writes == map[] && !s.closed && r in s.readers
    ensures InLogOrder(Apply(s, BeginWrite(u)), r)
  {
    var t := Apply(s, BeginWrite(u));
    assert InLogOrder(s, r) && Pending(s, r) == {};
    if r in s.registered {
      assert Pending(t, r) == {u.writer};
      assert Span(t, r) == Span(s, r) + [u];
    } else {
      assert Pending(t, r) == {};
      assert Span(t, r) == Span(s, r);
    }
  }

  lemma PushInOrder(s: Sys, w: nat, r: nat)
    requires Inv(s) && Alone(s) && Enabled(s, PushTo(w, r))
    ensures InLogOrder(Apply(s, PushTo(w, r)), r)
  {
    assert InLogOrder(s, r) && w in Pending(s, r);
    assert Pending(Apply(s, PushTo(w, r)), r) == {};
  }

  lemma SameInOrder(s: Sys, t: Sys, r: nat)
    requires r in s.readers && InLogOrder(s, r) && r in t.readers
    requires t.readers[r].offered == s.readers[r].offered && t.readers[r].joined == s.readers[r].joined
    requires End(t, r) == End(s, r) && t.log == s.log && Pending(t, r) == Pending(s, r)
    requires forall w :: w in Pending(s, r) ==> t.writes[w].item == s.writes[w].item
    ensures InLogOrder(t, r)
  {
  }

  lemma {:induction false} BystanderInOrder(s: Sys, step: Step, r: nat)
    requires Inv(s) && Alone(s) && Enabled(s, step) && r in s.readers
    requires step.EndWrite? || step.Receive? || ((step.PushTo? || step.Add?) && step.r != r)
    ensures InLogOrder(Apply(s, step), r)
  {
    var t := Apply(s, step);
    assert InLogOrder(s, r);
    assert Pending(t, r) == Pending(s, r);
    SameInOrder(s, t, r);
  }

  lemma {:induction false} DetachInOrder(s: Sys, step: Step, r: nat)
    requires Inv(s) && Alone(s) && Enabled(s, step) && (step.Remove? || step.CloseAll?) && r in s.readers
    ensures InLogOrder(Apply(s, step), r)
  {
    var t := Apply(s, step);
    assert InLogOrder(s, r);
    assert Pending(t, r) == Pending(s, r);
    SameInOrder(s, t, r);
  }

  lemma NewcomerInOrder(s: Sys, r: nat, size: int)
    requires Inv(s) && Enabled(s, Add(r, size))
    ensures InLogOrder(Apply(s, Add(r, size)), r)
  {
    assert Pending(Apply(s, Add(r, size)), r) == {};
  }

  lemma {:induction false} InOrderKept(s: Sys, step: Step, r: nat)
    requires Inv(s) && Alone(s) && Enabled(s, step) && (step.BeginWrite? ==> s.writes == map[])
    requires r in Apply(s, step).readers
    ensures InLogOrder(Apply(s, step), r)
  {
    match step
    case BeginWrite(u) => if !s.closed { BeginInOrder(s, u, r); }
    case PushTo(w, x) => if x == r { PushInOrder(s, w, r); } else { BystanderInOrder(s, step, r); }
    case EndWrite(_) => BystanderInOrder(s, step, r);
    case Add(x, size) => if x == r { NewcomerInOrder(s, r, size); } else { BystanderInOrder(s, step, r); }
    case Remove(_) => DetachInOrder(s, step, r);
    case CloseAll => DetachInOrder(s, step, r);
    case Receive(_) => BystanderInOrder(s, step, r);
  }

  lemma {:induction false} AloneAlways(states: seq<Sys>, steps: seq<Step>, k: nat)
    requires Behaviour(states, steps) && k <= |steps| && OneAtATime(states, steps, k)
    ensures Alone(states[k])
  {
    if k > 0 {
      AloneAlways(states, steps, k - 1);
      InvAlways(states, steps, k - 1);
      forall r | r in states[k].readers
        ensures InLogOrder(states[k], r)
      {
        InOrderKept(states[k - 1], steps[k - 1], r);
      }
    }
  }

  lemma OnePending(s: Sys, r: nat)
    requires Alone(s) && r in s.readers
    ensures InLogOrder(s, r) && |Pending(s, r)| <= 1
    ensures s.readers[r].offered == Span(s, r)[..|Span(s, r)| - |Pending(s, r)|]
  {
    if Pending(s, r) != {} {
      var w :| w in Pending(s, r);
      assert Pending(s, r) == {w};
    }
  }

  lemma {:induction false} PrefixSubsequence(a: seq<Item>, b: seq<Item>, n: nat)
    requires n <= |b| && IsSubsequence(a, b[..n])
    ensures IsSubsequence(a, b)
    decreases |b| - n
  {
    if n < |b| {
      assert b[..n + 1] == b[..n] + [b[n]];
      SubsequenceGrows(a, b[..n], b[n]);
      PrefixSubsequence(a, b, n + 1);
    } else {
      assert b[..n] == b;
    }
  }

  /** If no write begins while another is under way, then however many writers there are, what a
      reader was offered is its span of the log itself, less the one unit that may be just being
      handed out, and what it has received or buffered is an order-preserving part of that. */
  lemma AloneInOrder(states: seq<Sys>, steps: seq<Step>, k: nat, r: nat)
    requires Behaviour(states, steps) && k <= |steps| && r in states[k].readers && OneAtATime(states, steps, k)
    ensures var s := states[k]; var st := s.readers[r];
      && st.joined <= End(s, r) <= |s.log|
      && |Pending(s, r)| <= 1 && |Pending(s, r)| <= |Span(s, r)|
      && st.offered == Span(s, r)[..|Span(s, r)| - |Pending(s, r)|]
      && IsSubsequence(st.received + st.chan.buffer, Span(s, r))
      && st.chan.dropped == |Span(s, r)| - |Pending(s, r)| - |st.received + st.chan.buffer|
  {
    var s := states[k];
    LossIsCounted(states, steps, k, r);
    AloneAlways(states, steps, k);
    OnePending(s, r);
    PrefixSubsequence(s.readers[r].received + s.readers[r].chan.buffer, Span(s, r), |Span(s, r)| - |Pending(s, r)|);
  }

  /** Writes under way are in the log, each under its own writer. */
  ghost predicate WritesLogged(s: Sys) {
    forall w :: w in s.writes ==> s.writes[w].item in s.log && s.writes[w].item.writer == w
  }

  lemma {:induction false} WritesAlwaysLogged(states: seq<Sys>, steps: seq<Step>, k: nat)
    requires Behaviour(states, steps) && k <= |steps|
    ensures WritesLogged(states[k])
    ensures forall i :: 0 <= i <= k ==> states[i].log <= states[k].log
  {
    if k > 0 {
      WritesAlwaysLogged(states, steps, k - 1);
      assert Enabled(states[k - 1], steps[k - 1]);
      assert states[k - 1].log <= states[k].log;
    }
  }

  predicate AllBy(items: seq<Item>, w: nat) {
    forall u :: u in items ==> u.writer == w
  }

  lemma UnderWayIsBy(states: seq<Sys>, steps: seq<Step>, i: nat, k: nat, w: nat, v: nat)
    requires Behaviour(states, steps) && i <= k <= |steps| && AllBy(states[k].log, w) && v in states[i].writes
    ensures v == w
  {
    WritesAlwaysLogged(states, steps, i);
    WritesAlwaysLogged(states, steps, k);
    assert states[i].writes[v].item in states[k].log;
  }

  lemma BegunIsBy(states: seq<Sys>, steps: seq<Step>, i: nat, k: nat, w: nat)
    requires Behaviour(states, steps) && i < k <= |steps| && AllBy(states[k].log, w)
    requires steps[i].BeginWrite? && !states[i].closed
    ensures steps[i].item.writer == w && w !in states[i].writes
  {
    WritesAlwaysLogged(states, steps, k);
    assert Enabled(states[i], steps[i]);
    assert steps[i].item in states[i + 1].log;
    assert steps[i].item in states[k].log;
  }

  /** The writes of a single writer never overlap. */
  lemma OneWriterIsAlone(states: seq<Sys>, steps: seq<Step>, k: nat, w: nat)
    requires Behaviour(states, steps) && k <= |steps| && AllBy(states[k].log, w)
    ensures OneAtATime(states, steps, k)
  {
    forall i | 0 <= i < k && steps[i].BeginWrite?
      ensures states[i].writes == map[]
    {
      InvAlways(states, steps, i);
      if !states[i].closed {
        BegunIsBy(states, steps, i, k, w);
        forall v | v in states[i].writes
          ensures v == w
        {
          UnderWayIsBy(states, steps, i, k, w, v);
        }
      }
    }
  }

  /** No unit is ever sent on a closed channel, and no channel is ever closed twice. */
  lemma ChannelsAreSafe(states: seq<Sys>, steps: seq<Step>, k: nat, r: nat)
    requires Behaviour(states, steps) && k < |steps| && r in states[k].readers
    ensures steps[k].PushTo? && steps[k].r == r ==> states[k].readers[r].chan.isOpen
    ensures states[k + 1].readers[r].chan.isOpen ==> states[k].readers[r].chan.isOpen
    ensures !states[k].readers[r].chan.isOpen ==>
      states[k + 1].readers[r].left == states[k].readers[r].left
      && states[k + 1].readers[r].chan.dropped == states[k].readers[r].chan.dropped
  {
    InvAlways(states, steps, k);
    SafeStep(states[k], steps[k], r);
  }

  lemma {:induction false} SafeStep(s: Sys, step: Step, r: nat)
    requires Registry(s) && Enabled(s, step) && r in s.readers
    ensures step.PushTo? && step.r == r ==> s.readers[r].chan.isOpen
    ensures Apply(s, step).readers[r].chan.isOpen ==> s.readers[r].chan.isOpen
    ensures !s.readers[r].chan.isOpen ==>
      Apply(s, step).readers[r].left == s.readers[r].left
      && Apply(s, step).readers[r].chan.dropped == s.readers[r].chan.dropped
  {
  }

  lemma {:induction false} ClosedStep(s: Sys, step: Step, r: nat)
    requires Inv(s) && s.closed && Enabled(s, step) && r in Apply(s, step).readers
    ensures Apply(s, step).closed && Apply(s, step).log == s.log
    ensures Apply(s, step).readers[r].joined == if r in s.readers then s.readers[r].joined else |s.log|
  {
  }

  lemma ClosedLog(s: Sys, step: Step)
    requires Inv(s) && s.closed && Enabled(s, step)
    ensures Apply(s, step).closed && Apply(s, step).log == s.log && s.readers.Keys <= Apply(s, step).readers.Keys
  {
  }

  /** What the first Close and a removal do to a reader. */
  lemma EndStep(s: Sys, step: Step, r: nat)
    requires Registry(s) && Enabled(s, step) && r in s.readers && (step.CloseAll? || step.Remove?)
    ensures var t := Apply(s, step);
      && t.log == s.log && r in t.readers
      && t.readers[r].chan.buffer == s.readers[r].chan.buffer && t.readers[r].received == s.readers[r].received
      && (step.CloseAll? ==> t.closed && (!s.closed ==> t.registered == {} && !t.readers[r].chan.isOpen))
      && (step == Remove(r) ==> r !in t.registered && !t.readers[r].chan.isOpen)
      && (step.Remove? && step.r != r ==> t.readers[r] == s.readers[r])
  {
  }

  /** The first Close ends every reader, removing a reader ends that one alone, and both leave in
      the channels what is still to be received. */
  lemma ReadersAreEnded(states: seq<Sys>, steps: seq<Step>, k: nat, r: nat)
    requires Behaviour(states, steps) && k < |steps| && r in states[k].readers
    requires steps[k].CloseAll? || steps[k].Remove?
    ensures r in states[k + 1].readers
    ensures var s, t := states[k], states[k + 1];
      && t.log == s.log
      && t.readers[r].chan.buffer == s.readers[r].chan.buffer && t.readers[r].received == s.readers[r].received
      && (steps[k].CloseAll? ==> t.closed && (!s.closed ==> t.registered == {} && !t.readers[r].chan.isOpen))
      && (steps[k] == Remove(r) ==> r !in t.registered && !t.readers[r].chan.isOpen)
      && (steps[k].Remove? && steps[k].r != r ==> t.readers[r] == s.readers[r])
  {
    InvAlways(states, steps, k);
    EndStep(states[k], steps[k], r);
  }

  /** A closed hub stays closed, keeps its log, and notes its length for every reader it gains. */
  ghost predicate StaysSilent(s: Sys, t: Sys) {
    s.closed ==>
      && t.closed && t.log == s.log
      && forall r :: r in t.readers ==> t.readers[r].joined == if r in s.readers then s.readers[r].joined else |s.log|
  }

  lemma StepStaysSilent(s: Sys, step: Step)
    requires Inv(s) && Enabled(s, step)
    ensures StaysSilent(s, Apply(s, step))
  {
    if s.closed {
      ClosedLog(s, step);
      forall r | r in Apply(s, step).readers
        ensures Apply(s, step).readers[r].joined == if r in s.readers then s.readers[r].joined else |s.log|
      {
        ClosedStep(s, step, r);
      }
    }
  }

  ghost predicate SilentRun(states: seq<Sys>) {
    forall i :: 0 <= i < |states| - 1 ==> StaysSilent(states[i], states[i + 1])
  }

  lemma BehaviourIsSilentRun(states: seq<Sys>, steps: seq<Step>)
    requires Behaviour(states, steps)
    ensures SilentRun(states)
  {
    forall i | 0 <= i < |states| - 1
      ensures StaysSilent(states[i], states[i + 1])
    {
      InvAlways(states, steps, i);
      StepStaysSilent(states[i], steps[i]);
    }
  }

  lemma {:induction false} JoinedAfterClose(states: seq<Sys>, j: nat, k: nat, r: nat)
    requires SilentRun(states) && j <= k < |states| && states[j].closed
    ensures states[k].closed && states[k].log == states[j].log
    ensures r in states[k].readers && r !in states[j].readers ==> states[k].readers[r].joined == |states[j].log|
  {
    if j < k {
      JoinedAfterClose(states, j, k - 1, r);
      assert StaysSilent(states[k - 1], states[k]);
    }
  }

  /** After Close nothing more is written, and a reader added later is offered nothing. */
  lemma SilentAfterClose(states: seq<Sys>, steps: seq<Step>, j: nat, k: nat, r: nat)
    requires Behaviour(states, steps) && j <= k <= |steps| && states[j].closed
    requires r in states[k].readers && r !in states[j].readers
    ensures states[k].log == states[j].log
    ensures states[k].readers[r].received == [] && states[k].readers[r].chan.buffer == []
    ensures states[k].readers[r].chan.dropped == 0
  {
    BehaviourIsSilentRun(states, steps);
    JoinedAfterClose(states, j, k, r);
    InvAlways(states, steps, k);
    assert Accounted(states[k], r);
  }

  // ----- what does not hold -----

  ghost predicate Reachable(s: Sys) {
    exists states, steps :: Behaviour(states, steps) && states[|steps|] == s
  }

  lemma {:induction false} ReachMore(s: Sys, step: Step) returns (t: Sys)
    requires Reachable(s) && Enabled(s, step)
    ensures t == Apply(s, step) && Reachable(t)
  {
    var states, steps :| Behaviour(states, steps) && states[|steps|] == s;
    t := Apply(s, step);
    var more, moreSteps := states + [t], steps + [step];
    assert Behaviour(more, moreSteps) && more[|moreSteps|] == t;
  }

  lemma StartIsReachable()
    ensures Reachable(Start)
  {
    var states, steps: seq<Step> := [Start], [];
    assert Behaviour(states, steps) && states[|steps|] == Start;
  }

  lemma {:induction false} TwoWritesUnderWay() returns (s: Sys)
    ensures Reachable(s) && s.writes == map[0 := Write(Item(0, 0), {0, 1}), 1 := Write(Item(1, 0), {0, 1})]
    ensures s.readers.Keys == {0, 1} && s.registered == {0, 1}
    ensures forall r :: r in s.readers ==> s.readers[r].chan == Chan(2, [], 0, true)
  {
    StartIsReachable();
    s := ReachMore(Start, Add(0, 2));
    s := ReachMore(s, Add(1, 2));
    s := ReachMore(s, BeginWrite(Item(0, 0)));
    s := ReachMore(s, BeginWrite(Item(1, 0)));
    assert s.registered == {0, 1} && s.readers.Keys == {0, 1};
  }

  /** Two overlapping writes may reach two readers in opposite orders. */
  lemma {:induction false} WritersMayCross() returns (s: Sys)
    ensures Reachable(s) && 0 in s.readers && 1 in s.readers
    ensures s.readers[0].chan.buffer == [Item(0, 0), Item(1, 0)] && s.readers[1].chan.buffer == [Item(1, 0), Item(0, 0)]
  {
    s := TwoWritesUnderWay();
    s := ReachMore(s, PushTo(0, 0));
    s := ReachMore(s, PushTo(1, 1));
    s := ReachMore(s, PushTo(1, 0));
    s := ReachMore(s, PushTo(0, 1));
  }

  lemma OnlyRemovalCloses(s: Sys, step: Step, r: nat)
    requires s.closed && r in s.readers && s.readers[r].chan.isOpen && Enabled(s, step) && step != Remove(r)
    ensures Apply(s, step).closed && r in Apply(s, step).readers && Apply(s, step).readers[r].chan.isOpen
  {
  }

  /** A reader open after Close keeps its open channel, whatever happens from then on, unless it
      is removed itself. */
  lemma {:induction false} LateReaderIsNeverClosed(states: seq<Sys>, steps: seq<Step>, j: nat, k: nat, r: nat)
    requires Behaviour(states, steps) && j <= k <= |steps| && states[j].closed
    requires r in states[j].readers && states[j].readers[r].chan.isOpen
    requires forall i :: j <= i < k ==> steps[i] != Remove(r)
    ensures states[k].closed && r in states[k].readers && states[k].readers[r].chan.isOpen
  {
    if j < k {
      LateReaderIsNeverClosed(states, steps, j, k - 1, r);
      OnlyRemovalCloses(states[k - 1], steps[k - 1], r);
    }
  }

  lemma LateReaderExists() returns (s: Sys)
    ensures Reachable(s) && s.closed && 0 in s.readers && s.readers[0].chan.isOpen
  {
    StartIsReachable();
    s := ReachMore(Start, CloseAll);
    s := ReachMore(s, Add(0, 1));
  }
}
