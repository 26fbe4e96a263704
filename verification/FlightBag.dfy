/** The three stages a buffer passes through, and the abstract bag they stand for. Both ring formats
    keep their buffers in these stages. */
module FlightBag {
  import opened Ledger
  import opened BufferQueue

  datatype Stages = Stages(done: seq<Buf>, doneLen: seq<nat>, fetched: seq<Buf>, pending: seq<Buf>)

  ghost function EntryOf(b: Buf): Entry {
    Entry(b.token, b.sg, b.out)
  }

  ghost function EntriesOf(s: seq<Buf>): multiset<Entry> {
    if s == [] then multiset{} else multiset{EntryOf(s[0])} + EntriesOf(s[1..])
  }

  lemma {:induction false} EntriesOfAppend(s: seq<Buf>, t: seq<Buf>)
    ensures EntriesOf(s + t) == EntriesOf(s) + EntriesOf(t)
  {
    if s == [] {
      assert s + t == t;
    } else {
      assert (s + t)[1..] == s[1..] + t;
      EntriesOfAppend(s[1..], t);
    }
  }

  lemma {:induction false} Regroup(a: multiset<Entry>, b: multiset<Entry>, c: multiset<Entry>)
    ensures (a + b) + c == a + (b + c)
    ensures (a + b) - b == a
    ensures a + b == b + a
  {
  }

  lemma {:induction false} EntriesOfPush(s: seq<Buf>, b: Buf)
    ensures EntriesOf(s + [b]) == EntriesOf(s) + multiset{EntryOf(b)}
  {
    EntriesOfAppend(s, [b]);
    assert EntriesOf([b]) == multiset{EntryOf(b)} + EntriesOf([b][1..]);
  }

  lemma {:induction false} EntriesOfRemove(s: seq<Buf>, i: nat)
    requires i < |s|
    ensures EntriesOf(s) == EntriesOf(s[..i] + s[i + 1..]) + multiset{EntryOf(s[i])}
  {
    var t := s[..i] + s[i + 1..];
    if i == 0 {
      assert t == s[1..];
    } else {
      EntriesOfRemove(s[1..], i - 1);
      assert t[1..] == s[1..][..i - 1] + s[1..][i..];
      Regroup(multiset{EntryOf(s[0])}, EntriesOf(t[1..]), multiset{EntryOf(s[i])});
    }
  }

  ghost function DoneOf(done: seq<Buf>, doneLen: seq<nat>): seq<Done>
    requires |doneLen| == |done|
  {
    seq(|done|, j requires 0 <= j < |done| => Done(EntryOf(done[j]), doneLen[j]))
  }

  /** The bag these stages stand for. */
  ghost function BagOf(g: Stages): Bag
    requires |g.doneLen| == |g.done|
  {
    Bag(EntriesOf(g.fetched) + EntriesOf(g.pending), DoneOf(g.done, g.doneLen))
  }

  /** `ev` takes the bag of `g` to the bag of `g'`. */
  ghost predicate Happens(g: Stages, ev: Event, g': Stages) {
    && |g.doneLen| == |g.done| && |g'.doneLen| == |g'.done|
    && Enabled(BagOf(g), ev)
    && BagOf(g') == Apply(BagOf(g), ev)
  }

  lemma {:induction false} AcceptBag(g: Stages, g': Stages, b: Buf)
    requires |g.doneLen| == |g.done| && g'.done == g.done && g'.doneLen == g.doneLen
    requires g'.fetched == g.fetched && g'.pending == g.pending + [b]
    ensures Happens(g, Added(EntryOf(b)), g')
  {
    EntriesOfPush(g.pending, b);
    Regroup(EntriesOf(g.fetched), EntriesOf(g.pending), multiset{EntryOf(b)});
  }

  lemma {:induction false} FetchBag(g: Stages, g': Stages)
    requires |g.doneLen| == |g.done| && g.pending != [] && g'.done == g.done && g'.doneLen == g.doneLen
    requires g'.fetched == g.fetched + [g.pending[0]] && g'.pending == g.pending[1..]
    ensures Happens(g, Seen(EntryOf(g.pending[0])), g')
  {
    EntriesOfPush(g.fetched, g.pending[0]);
    Regroup(EntriesOf(g.fetched), multiset{EntryOf(g.pending[0])}, EntriesOf(g.pending[1..]));
  }

  lemma {:induction false} CompleteBag(g: Stages, i: nat, len: nat, g': Stages)
    requires |g.doneLen| == |g.done| && i < |g.fetched| && g'.done == g.done + [g.fetched[i]]
    requires g'.doneLen == g.doneLen + [len] && g'.fetched == g.fetched[..i] + g.fetched[i + 1..] && g'.pending == g.pending
    ensures Happens(g, Completed(EntryOf(g.fetched[i]), len), g')
  {
    var e := multiset{EntryOf(g.fetched[i])};
    EntriesOfRemove(g.fetched, i);
    assert DoneOf(g'.done, g'.doneLen) == DoneOf(g.done, g.doneLen) + [Done(EntryOf(g.fetched[i]), len)];
    var f, p := EntriesOf(g'.fetched), EntriesOf(g.pending);
    Regroup(f, e, p);
    Regroup(e, p, e);
    Regroup(f, p, e);
    Regroup(f + p, e, e);
  }

  lemma {:induction false} ReapBag(g: Stages, g': Stages)
    requires |g.doneLen| == |g.done| && g.done != []
    requires g'.done == g.done[1..] && g'.doneLen == g.doneLen[1..] && g'.fetched == g.fetched && g'.pending == g.pending
    ensures Happens(g, Returned(EntryOf(g.done[0]), g.doneLen[0]), g')
  {
  }

  lemma {:induction false} IdleBag(g: Stages, ev: Event)
    requires |g.doneLen| == |g.done|
    requires ev == NoSpace || ev == Refused || ev.Kicked? || (ev == NothingUsed && g.done == [])
    ensures Happens(g, ev, g)
  {
  }
}
