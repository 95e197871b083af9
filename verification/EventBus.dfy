/**
 * The in-process event bus: events are buffered while a transaction runs, and one queued microtask
 * hands the buffer to every subscriber afterwards. Subscribers may publish, subscribe or throw.
 */
module EventBus {
  import opened Bytes

  type Event = nat

  /**
   * What a subscriber does when it is handed a batch: batches it publishes, subscribers it adds, and
   * whether it throws after that.
   */
  datatype Reaction = Reaction(publishes: seq<seq<Event>>, subscribes: nat, throws: bool)

  class InProcessEventBus {
    /** Each subscriber is known by what it has been handed so far. */
    var handlers: seq<seq<Event>>
    var buffer: seq<Event>
    var flushScheduled: bool
    /** Queued microtasks that will call `Flush`. */
    var microtasks: nat
    /** Error lines of the log, one for each subscriber that threw. */
    var errors: nat
    /** Everything published, how much of it was handed out, and from where on each subscriber is served. */
    ghost var published: seq<Event>
    ghost var flushed: nat
    ghost var joined: seq<nat>

    ghost predicate Scheduled()
      reads this`handlers, this`buffer, this`flushScheduled, this`microtasks, this`published, this`flushed, this`joined
    {
      && microtasks == (if flushScheduled then 1 else 0)
      && (buffer != [] ==> flushScheduled)
      && flushed <= |published| && buffer == published[flushed..]
      && |joined| == |handlers|
    }

    /** Between two flushes every subscriber has been handed exactly what was published and is not buffered. */
    ghost predicate Valid()
      reads this
    {
      && Scheduled()
      && forall h :: 0 <= h < |handlers| ==> joined[h] <= flushed && handlers[h] == published[joined[h]..flushed]
    }

    constructor ()
      ensures Valid() && published == [] && handlers == [] && !flushScheduled && errors == 0
    {
      handlers, buffer, flushScheduled, microtasks, errors := [], [], false, 0, 0;
      published, flushed, joined := [], 0, [];
    }

    /** Buffer events; the first one into an unscheduled bus queues the flush. */
    method PublishInTx(events: seq<Event>)
      requires Scheduled()
      modifies this`buffer, this`flushScheduled, this`microtasks, this`published
      ensures Scheduled() && published == old(published) + events
      ensures flushScheduled == (old(flushScheduled) || events != [])
      ensures old(Valid()) ==> Valid()
    {
      if |events| == 0 {
        assert published + events == published;
        return;
      }
      buffer := buffer + events;
      published := published + events;
      if !flushScheduled {
        flushScheduled := true;
        microtasks := microtasks + 1;
      }
    }

    /** A new subscriber is handed what is flushed from now on. */
    method Subscribe()
      requires Valid()
      modifies this`handlers, this`joined
      ensures Valid() && published == old(published) && joined == old(joined) + [flushed]
    {
      AddHandler(flushed);
    }

    method AddHandler(ghost from: nat)
      requires Scheduled()
      modifies this`handlers, this`joined
      ensures Scheduled() && handlers == old(handlers) + [[]] && joined == old(joined) + [from]
    {
      handlers := handlers + [[]];
      joined := joined + [from];
    }

    /** In the middle of a flush the first `i` subscribers have the batch and the others do not. */
    ghost predicate Flushing(i: nat, start: nat, size: nat)
      reads this`handlers, this`buffer, this`flushScheduled, this`microtasks, this`published, this`flushed, this`joined
    {
      && Scheduled() && i <= |handlers| && flushed == start + size
      && (forall h :: 0 <= h < |handlers| ==> joined[h] <= start)
      && (forall h :: 0 <= h < i ==> handlers[h] == published[joined[h]..start + size])
      && (forall h :: i <= h < |handlers| ==> handlers[h] == published[joined[h]..start])
    }

    /** The queued microtask. It serves subscribers that are added meanwhile too, and a throw stops nobody else. */
    method Flush(script: seq<Reaction>)
      requires Valid() && microtasks > 0
      modifies this
      ensures Valid() && flushed == |old(published)| && old(published) <= published
      ensures old(joined) <= joined && forall h :: |old(joined)| <= h < |joined| ==> joined[h] == old(flushed)
      ensures script == [] ==> published == old(published) && buffer == [] && !flushScheduled && joined == old(joined)
      // as many of the reactions happen as there are subscribers in the end, if there is a batch at all
      ensures var ran := script[..if old(buffer) == [] then 0 else Least(|script|, |handlers|)];
        && errors == old(errors) + Throws(ran) && published == old(published) + PublishedBy(ran)
        && |handlers| == |old(handlers)| + SubscribedBy(ran)
    {
      microtasks := microtasks - 1;
      flushScheduled := false;
      NoneRan(script);
      if |buffer| == 0 {
        assert published + [] == published;
        return;
      }
      var batch := buffer;
      ghost var start := flushed;
      buffer := [];
      flushed := |published|;
      assert batch == published[start..] == published[start..start + |batch|];
      assert Flushing(0, start, |batch|);
      HandOut(script, start, batch);
    }

    /** Every subscriber gets the batch, whatever the ones before it did. */
    method HandOut(script: seq<Reaction>, ghost start: nat, batch: seq<Event>)
      requires Flushing(0, start, |batch|) && start + |batch| <= |published|
      requires batch == published[start..start + |batch|]
      modifies this
      ensures Flushing(|handlers|, start, |batch|) && old(published) <= published
      ensures old(joined) <= joined && forall h :: |old(joined)| <= h < |joined| ==> joined[h] == start
      ensures script == [] ==> published == old(published) && buffer == old(buffer) && joined == old(joined)
      ensures script == [] ==> flushScheduled == old(flushScheduled)
      ensures var ran := script[..Least(|script|, |handlers|)];
        && errors == old(errors) + Throws(ran) && published == old(published) + PublishedBy(ran)
        && |handlers| == |old(handlers)| + SubscribedBy(ran)
    {
      hide Flushing, Scheduled, Throws, PublishedBy, SubscribedBy;
      NoneRan(script);
      assert published + [] == published;
      var i, used := 0, 0;
      while i < |handlers|
        invariant Flushing(i, start, |batch|) && i <= |handlers| && used <= |script|
        invariant old(published) <= published && start + |batch| <= |published|
        invariant batch == published[start..start + |batch|]
        invariant old(joined) <= joined && forall h :: |old(joined)| <= h < |joined| ==> joined[h] == start
        invariant script == [] ==> published == old(published) && buffer == old(buffer) && joined == old(joined)
        invariant script == [] ==> flushScheduled == old(flushScheduled)
        invariant used == Least(|script|, i) && errors == old(errors) + Throws(script[..used])
        invariant published == old(published) + PublishedBy(script[..used])
        invariant |handlers| == |old(handlers)| + SubscribedBy(script[..used])
        decreases |script| - used, |handlers| - i
      {
        HandOver(i, start, batch);
        i := i + 1;
        FlushingBound(i, start, |batch|);
        if used < |script| {
          ghost var before := published;
          var threw := React(script[used], i, start, |batch|);
          FlushingBound(i, start, |batch|);
          StillThere(before, published, start, batch);
          OneMoreRan(script, used);
          Associate(old(published), PublishedBy(script[..used]), Flatten(script[used].publishes));
          if threw {
            errors := errors + 1;
          }
          used := used + 1;
        }
      }
    }

    lemma FlushingBound(i: nat, start: nat, size: nat)
      requires Flushing(i, start, size)
      ensures i <= |handlers|
    {
    }

    /** The `i`th subscriber gets the batch. */
    method HandOver(i: nat, ghost start: nat, batch: seq<Event>)
      requires Flushing(i, start, |batch|) && i < |handlers| && start + |batch| <= |published|
      requires batch == published[start..start + |batch|]
      modifies this`handlers
      ensures Flushing(i + 1, start, |batch|) && |handlers| == |old(handlers)|
    {
      Handed(published, joined[i], start, |batch|);
      handlers := handlers[i := handlers[i] + batch];
    }

    /** A subscriber acts while a flush is under way, and throws in the end or not. */
    method React(reaction: Reaction, ghost i: nat, ghost start: nat, ghost size: nat) returns (threw: bool)
      requires Flushing(i, start, size) && start + size <= |published|
      modifies this`buffer, this`flushScheduled, this`microtasks, this`published, this`handlers, this`joined
      ensures Flushing(i, start, size) && old(published) <= published && old(joined) <= joined
      ensures forall h :: |old(joined)| <= h < |joined| ==> joined[h] == start
      ensures threw == reaction.throws
      ensures published == old(published) + Flatten(reaction.publishes)
      ensures |handlers| == |old(handlers)| + reaction.subscribes
    {
      hide Flatten;
      NothingYet(reaction.publishes);
      assert published + [] == published;
      for k := 0 to |reaction.publishes|
        invariant Flushing(i, start, size) && old(published) <= published && joined == old(joined)
        invariant published == old(published) + Flatten(reaction.publishes[..k]) && |handlers| == |old(handlers)|
      {
        ghost var before := published;
        PublishInTx(reaction.publishes[k]);
        assert forall a, b | 0 <= a <= b <= |before| :: published[a..b] == before[a..b];
        FlattenNext(reaction.publishes, k);
        Associate(old(published), Flatten(reaction.publishes[..k]), reaction.publishes[k]);
      }
      assert reaction.publishes[..|reaction.publishes|] == reaction.publishes;
      for k := 0 to reaction.subscribes
        invariant Flushing(i, start, size) && old(published) <= published && old(joined) <= joined
        invariant forall h :: |old(joined)| <= h < |joined| ==> joined[h] == start
        invariant published == old(published) + Flatten(reaction.publishes) && |handlers| == |old(handlers)| + k
      {
        AddHandler(start);
      }
      threw := reaction.throws;
    }
  }

  /** How many of these reactions end with an exception. */
  function Throws(script: seq<Reaction>): nat {
    if script == [] then 0 else Throws(script[..|script| - 1]) + if script[|script| - 1].throws then 1 else 0
  }

  lemma StillThere(before: seq<Event>, after: seq<Event>, start: nat, batch: seq<Event>)
    requires before <= after && start + |batch| <= |before| && batch == before[start..start + |batch|]
    ensures batch == after[start..start + |batch|]
  {
  }

  /** What they publish, in order, and how many subscribers they add. */
  function PublishedBy(script: seq<Reaction>): seq<Event> {
    if script == [] then [] else PublishedBy(script[..|script| - 1]) + Flatten(script[|script| - 1].publishes)
  }

  function SubscribedBy(script: seq<Reaction>): nat {
    if script == [] then 0 else SubscribedBy(script[..|script| - 1]) + script[|script| - 1].subscribes
  }

  function Least(a: nat, b: nat): nat {
    if a <= b then a else b
  }

  lemma NoneRan(script: seq<Reaction>)
    ensures Throws(script[..0]) == 0 && PublishedBy(script[..0]) == [] && SubscribedBy(script[..0]) == 0
  {
  }

  lemma NothingYet(publishes: seq<seq<Event>>)
    ensures Flatten(publishes[..0]) == []
  {
  }

  lemma FlattenNext(publishes: seq<seq<Event>>, k: nat)
    requires k < |publishes|
    ensures Flatten(publishes[..k + 1]) == Flatten(publishes[..k]) + publishes[k]
  {
    assert publishes[..k + 1] == publishes[..k] + [publishes[k]];
    FlattenSnoc(publishes[..k], publishes[k]);
  }

  lemma OneMoreRan(script: seq<Reaction>, n: nat)
    requires n < |script|
    ensures Throws(script[..n + 1]) == Throws(script[..n]) + if script[n].throws then 1 else 0
    ensures PublishedBy(script[..n + 1]) == PublishedBy(script[..n]) + Flatten(script[n].publishes)
    ensures SubscribedBy(script[..n + 1]) == SubscribedBy(script[..n]) + script[n].subscribes
  {
    assert script[..n + 1][..n] == script[..n];
  }

  lemma Handed(published: seq<Event>, from: nat, start: nat, size: nat)
    requires from <= start && start + size <= |published|
    ensures published[from..start] + published[start..start + size] == published[from..start + size]
  {
  }

  datatype Step = Publishes(events: seq<Event>) | Subscribes | Microtask(script: seq<Reaction>)

  /** Where each step found the end of what was published, and how many subscribers it found. */
  datatype Mark = Mark(published: nat, subscribers: nat)

  /**
   * What the steps did: published events are in the history from where they were published on, a new
   * subscriber is served from there on, and a microtask that was due handed out all that was published before.
   */
  ghost predicate Happened(steps: seq<Step>, marks: seq<Mark>, published: seq<Event>, joined: seq<nat>, flushed: nat) {
    && |marks| == |steps|
    && forall k :: 0 <= k < |steps| ==>
         && marks[k].published <= |published| && marks[k].subscribers <= |joined|
         && match steps[k]
            case Publishes(events) =>
              marks[k].published + |events| <= |published|
              && published[marks[k].published..marks[k].published + |events|] == events
            case Subscribes => marks[k].subscribers < |joined| && joined[marks[k].subscribers] <= marks[k].published
            case Microtask(_) => marks[k].published <= flushed
  }

  lemma HappenedStays(steps: seq<Step>, marks: seq<Mark>, before: seq<Event>, joined: seq<nat>, flushed: nat,
                      after: seq<Event>, joined': seq<nat>, flushed': nat)
    requires Happened(steps, marks, before, joined, flushed)
    requires before <= after && joined <= joined' && flushed <= flushed'
    ensures Happened(steps, marks, after, joined', flushed')
  {
  }

  lemma HappenedNext(steps: seq<Step>, n: nat, marks: seq<Mark>, mark: Mark,
                     published: seq<Event>, joined: seq<nat>, flushed: nat)
    requires n < |steps| && Happened(steps[..n], marks, published, joined, flushed)
    requires Happened([steps[n]], [mark], published, joined, flushed)
    ensures Happened(steps[..n + 1], marks + [mark], published, joined, flushed)
  {
    assert forall k :: 0 <= k < n ==> steps[..n + 1][k] == steps[..n][k];
    assert [steps[n]][0] == steps[n] && [mark][0] == mark;
  }

  /**
   * Publishing, subscribing and flushing in any order: every subscriber always has exactly the
   * published events from its start on, in order, each once, up to those that are still buffered;
   * and when nothing is scheduled, it has them all.
   */
  method Live(steps: seq<Step>) returns (bus: InProcessEventBus, ghost marks: seq<Mark>)
    ensures bus.Valid() && Happened(steps, marks, bus.published, bus.joined, bus.flushed)
    ensures forall j, k :: 0 <= j < k < |steps| && steps[j].Publishes? ==>
      marks[j].published + |steps[j].events| <= marks[k].published
    ensures forall h :: 0 <= h < |bus.handlers| ==>
      bus.joined[h] <= bus.flushed && bus.handlers[h] + bus.buffer == bus.published[bus.joined[h]..]
    ensures !bus.flushScheduled ==> bus.buffer == []
  {
    hide Happened;
    bus := new InProcessEventBus();
    marks := [];
    NothingHappened(bus.published, bus.joined, bus.flushed);
    assert steps[..0] == [];
    for i := 0 to |steps|
      invariant fresh(bus) && bus.Valid() && |marks| == i
      invariant Happened(steps[..i], marks, bus.published, bus.joined, bus.flushed)
      invariant forall j :: 0 <= j < i && steps[j].Publishes? ==>
        marks[j].published + |steps[j].events| <= |bus.published|
      invariant forall j, k :: 0 <= j < k < i && steps[j].Publishes? ==>
        marks[j].published + |steps[j].events| <= marks[k].published
    {
      ghost var mark := Mark(|bus.published|, |bus.joined|);
      ghost var published, joined, flushed := bus.published, bus.joined, bus.flushed;
      match steps[i] {
        case Publishes(events) =>
          bus.PublishInTx(events);
          assert bus.published[|published|..|published| + |events|] == events;
        case Subscribes =>
          bus.Subscribe();
        case Microtask(script) =>
          if bus.microtasks > 0 {
            bus.Flush(script);
          }
      }
      HappenedStays(steps[..i], marks, published, joined, flushed, bus.published, bus.joined, bus.flushed);
      JustHappened(steps[i], mark, bus.published, bus.joined, bus.flushed);
      HappenedNext(steps, i, marks, mark, bus.published, bus.joined, bus.flushed);
      marks := marks + [mark];
    }
    assert steps[..|steps|] == steps;
    forall h | 0 <= h < |bus.handlers|
      ensures bus.handlers[h] + bus.buffer == bus.published[bus.joined[h]..]
    {
      Handed(bus.published, bus.joined[h], bus.flushed, |bus.published| - bus.flushed);
    }
  }

  lemma NothingHappened(published: seq<Event>, joined: seq<nat>, flushed: nat)
    ensures Happened([], [], published, joined, flushed)
  {
  }

  lemma JustHappened(step: Step, mark: Mark, published: seq<Event>, joined: seq<nat>, flushed: nat)
    requires mark.published <= |published| && mark.subscribers <= |joined|
    requires step.Publishes? ==>
      mark.published + |step.events| <= |published|
      && published[mark.published..mark.published + |step.events|] == step.events
    requires step.Subscribes? ==> mark.subscribers < |joined| && joined[mark.subscribers] <= mark.published
    requires step.Microtask? ==> mark.published <= flushed
    ensures Happened([step], [mark], published, joined, flushed)
  {
  }
}
