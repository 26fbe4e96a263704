/** The virtqueue interface as a caller sees it: a bag of buffers the device holds and a
    queue of buffers it has completed. Both ring formats are shown to refine it. */
module BufferQueue {
  import opened Ledger

  /** What a caller hands over: an opaque token, a scatter/gather list, and how many of its
      elements the device may only read. */
  datatype Entry = Entry(token: nat, sg: seq<Sg>, out: nat)

  datatype Done = Done(entry: Entry, len: nat)

  datatype Bag = Bag(flight: multiset<Entry>, done: seq<Done>)

  /** The outcome of one call or one device action. */
  datatype Event =
    | Added(entry: Entry)                  // add_buf accepted the buffer
    | NoSpace                              // add_buf returned -ENOSPC
    | Seen(entry: Entry)                   // the device read the buffer's descriptors
    | Completed(entry: Entry, len: nat)    // the device wrote a used element
    | Returned(entry: Entry, len: nat)     // get_buf returned the token
    | NothingUsed                          // get_buf returned NULL
    | Kicked(notify: bool)                 // kick_prepare decided whether to notify the device
    | Refused                              // the device had nothing to do

  const EmptyBag: Bag := Bag(multiset{}, [])

  ghost predicate Enabled(b: Bag, ev: Event) {
    match ev
    case Added(_) => true
    case NoSpace => true
    case Seen(e) => e in b.flight
    case Completed(e, _) => e in b.flight
    case Returned(e, len) => b.done != [] && b.done[0] == Done(e, len)
    case NothingUsed => b.done == []
    case Kicked(_) => true
    case Refused => true
  }

  ghost function Apply(b: Bag, ev: Event): Bag
    requires Enabled(b, ev)
  {
    match ev
    case Added(e) => b.(flight := b.flight + multiset{e})
    case Completed(e, len) => Bag(b.flight - multiset{e}, b.done + [Done(e, len)])
    case Returned(_, _) => b.(done := b.done[1..])
    case _ => b
  }

  /** The events happened one after the other from `b` and led to `b'`. */
  ghost predicate Leads(b: Bag, evs: seq<Event>, b': Bag)
    decreases |evs|
  {
    if evs == [] then b == b'
    else Enabled(b, evs[0]) && Leads(Apply(b, evs[0]), evs[1..], b')
  }

  ghost function Accepted(evs: seq<Event>): multiset<Entry> {
    if evs == [] then multiset{}
    else if evs[0].Added? then multiset{evs[0].entry} + Accepted(evs[1..])
    else Accepted(evs[1..])
  }

  ghost function Completions(evs: seq<Event>): seq<Done> {
    if evs == [] then []
    else if evs[0].Completed? then [Done(evs[0].entry, evs[0].len)] + Completions(evs[1..])
    else Completions(evs[1..])
  }

  ghost function Returns(evs: seq<Event>): seq<Done> {
    if evs == [] then []
    else if evs[0].Returned? then [Done(evs[0].entry, evs[0].len)] + Returns(evs[1..])
    else Returns(evs[1..])
  }

  ghost function Entries(s: seq<Done>): multiset<Entry> {
    if s == [] then multiset{} else multiset{s[0].entry} + Entries(s[1..])
  }

  lemma {:induction false} EntriesAppend(s: seq<Done>, t: seq<Done>)
    ensures Entries(s + t) == Entries(s) + Entries(t)
  {
    if s == [] {
      assert s + t == t;
    } else {
      assert (s + t)[1..] == s[1..] + t;
      EntriesAppend(s[1..], t);
    }
  }

  /** Everything the bag answers for. */
  ghost function Held(b: Bag): multiset<Entry> {
    b.flight + Entries(b.done)
  }

  lemma {:induction false} StepConserves(b: Bag, ev: Event)
    requires Enabled(b, ev)
    ensures ev.Added? ==> Held(Apply(b, ev)) == multiset{ev.entry} + Held(b)
    ensures ev.Returned? ==> Held(b) == multiset{ev.entry} + Held(Apply(b, ev))
    ensures !ev.Added? && !ev.Returned? ==> Held(Apply(b, ev)) == Held(b)
  {
    if ev.Completed? {
      CompletionMoves(b, ev.entry, ev.len);
    }
  }

  lemma {:induction false} CompletionMoves(b: Bag, e: Entry, len: nat)
    requires e in b.flight
    ensures b.flight - multiset{e} + Entries(b.done + [Done(e, len)]) == Held(b)
  {
    EntriesAppend(b.done, [Done(e, len)]);
    assert Entries([Done(e, len)]) == multiset{e} + Entries([]);
    assert b.flight == (b.flight - multiset{e}) + multiset{e};
  }

  /** Conservation over any run: what was in the bag and what was accepted is what came back
      and what is still in the bag, each buffer with its multiplicity. */
  lemma {:induction false} RunConserves(b: Bag, evs: seq<Event>, b': Bag)
    requires Leads(b, evs, b')
    ensures Held(b) + Accepted(evs) == Entries(Returns(evs)) + Held(b')
    decreases |evs|
  {
    if evs != [] {
      StepConserves(b, evs[0]);
      RunConserves(Apply(b, evs[0]), evs[1..], b');
      var rest, back := Accepted(evs[1..]), Returns(evs[1..]);
      if evs[0].Returned? {
        var e := multiset{evs[0].entry};
        assert Returns(evs)[1..] == back && Entries(Returns(evs)) == e + Entries(back);
        assert Held(b) + rest == e + (Held(Apply(b, evs[0])) + rest);
      }
    }
  }

  /** Buffers come back in the order of completion, with the length the device wrote. */
  lemma {:induction false} RunKeepsOrder(b: Bag, evs: seq<Event>, b': Bag)
    requires Leads(b, evs, b')
    ensures b.done + Completions(evs) == Returns(evs) + b'.done
    decreases |evs|
  {
    if evs != [] {
      var c := Apply(b, evs[0]);
      RunKeepsOrder(c, evs[1..], b');
      match evs[0]
      case Completed(e, len) =>
        assert b.done + Completions(evs) == c.done + Completions(evs[1..]);
      case Returned(e, len) =>
        assert b.done == [Done(e, len)] + c.done;
        assert Returns(evs) + b'.done == [Done(e, len)] + (Returns(evs[1..]) + b'.done);
      case Added(_) =>
      case NoSpace =>
      case Seen(_) =>
      case NothingUsed =>
      case Kicked(_) =>
      case Refused =>
    }
  }

  /** Both, from an empty bag. */
  lemma {:induction false} BagConserves(evs: seq<Event>, b: Bag)
    requires Leads(EmptyBag, evs, b)
    ensures Accepted(evs) == Entries(Returns(evs)) + Held(b)
    ensures Completions(evs) == Returns(evs) + b.done
  {
    RunConserves(EmptyBag, evs, b);
    RunKeepsOrder(EmptyBag, evs, b);
  }

  lemma {:induction false} LeadsAppend(b: Bag, evs: seq<Event>, c: Bag, ev: Event)
    requires Leads(b, evs, c) && Enabled(c, ev)
    ensures Leads(b, evs + [ev], Apply(c, ev))
    decreases |evs|
  {
    if evs == [] {
      assert (evs + [ev])[1..] == [];
    } else {
      assert (evs + [ev])[1..] == evs[1..] + [ev];
      LeadsAppend(Apply(b, evs[0]), evs[1..], c, ev);
    }
  }
}
