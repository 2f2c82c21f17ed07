/** Updates of the flags of one message that overlap: UpdateFlags reads the flags before it takes the
    lock and sets them under it, so another update may be set in between. */
module MaildirUpdates {
  import opened Wrappers
  import opened MaildirFlags
  import opened Maildir

  datatype Event = Read(id: int, c: Change) | Set(id: int)

  /** What an update has seen of the flags, and what it is to do. */
  datatype Pending = Pending(c: Change, seen: set<Flag>)

  datatype World = World(flags: set<Flag>, open: map<int, Pending>)

  predicate Legal(w: World, e: Event) {
    match e
    case Read(id, _) => id !in w.open
    case Set(id) => id in w.open
  }

  function Step(w: World, e: Event): World
    requires Legal(w, e)
  {
    match e
    case Read(id, c) => w.(open := w.open[id := Pending(c, w.flags)])
    case Set(id) => World(Applied(w.open[id].c, w.open[id].seen), w.open - {id})
  }

  function Run(start: set<Flag>, events: seq<Event>): Option<World> {
    if events == [] then Some(World(start, map[]))
    else
      var before := Run(start, events[..|events| - 1]);
      if before.Some? && Legal(before.value, events[|events| - 1]) then Some(Step(before.value, events[|events| - 1])) else None
  }

  /** The flags if each update were done as a whole at the moment it is set. */
  function Serial(start: set<Flag>, events: seq<Event>): set<Flag>
    requires Run(start, events).Some?
  {
    if events == [] then start
    else
      var front, last := events[..|events| - 1], events[|events| - 1];
      if last.Read? then Serial(start, front)
      else Applied(Run(start, front).value.open[last.id].c, Serial(start, front))
  }

  /** The flags that one of two sets has and the other has not. */
  function Differing(a: set<Flag>, b: set<Flag>): set<Flag> {
    (a - b) + (b - a)
  }

  /** Whatever was changed since the update read the flags, the update itself decides. */
  predicate Decides(w: World, e: Event)
    requires Legal(w, e)
  {
    e.Set? ==> Differing(w.open[e.id].seen, w.flags) <= w.open[e.id].c.flags
  }

  lemma AppliedSame(c: Change, seen: set<Flag>, now: set<Flag>)
    ensures Applied(c, seen) == Applied(c, now) <==> Differing(seen, now) <= c.flags
  {
    if Applied(c, seen) == Applied(c, now) {
      forall f | f in Differing(seen, now) ensures f in c.flags {
        assert f in Applied(c, seen) <==> f in Applied(c, now);
      }
    }
  }

  ghost predicate AlwaysSerial(start: set<Flag>, events: seq<Event>)
    requires Run(start, events).Some?
  {
    && Run(start, events).value.flags == Serial(start, events)
    && (events == [] || AlwaysSerial(start, events[..|events| - 1]))
  }

  predicate AllDecide(start: set<Flag>, events: seq<Event>)
    requires Run(start, events).Some?
  {
    events == [] ||
    (AllDecide(start, events[..|events| - 1])
     && Decides(Run(start, events[..|events| - 1]).value, events[|events| - 1]))
  }

  /** In every run of overlapping updates all of them survive, as if done one after the other in the
      order they are set, exactly when each decides every flag that was changed since it read. */
  lemma {:induction false} SurviveExactly(start: set<Flag>, events: seq<Event>)
    requires Run(start, events).Some?
    ensures AlwaysSerial(start, events) <==> AllDecide(start, events)
  {
    if events == [] {
    } else {
      hide Applied, Differing;
      var front, last := events[..|events| - 1], events[|events| - 1];
      SurviveExactly(start, front);
      var w := Run(start, front).value;
      if last.Set? { AppliedSame(w.open[last.id].c, w.open[last.id].seen, w.flags); }
    }
  }

  lemma Follow(start: set<Flag>, events: seq<Event>, e: Event)
    requires Run(start, events).Some? && Legal(Run(start, events).value, e)
    ensures Run(start, events + [e]) == Some(Step(Run(start, events).value, e))
  {
    assert (events + [e])[..|events|] == events;
  }

  /** Two updates that read before either is set: the first survives exactly when the second decides
      every flag the first changes. */
  lemma TwoUpdates(start: set<Flag>, first: Change, second: Change)
    ensures var run := Run(start, [Read(0, first)] + [Read(1, second)] + [Set(0)] + [Set(1)]);
            && run.Some?
            && (run.value.flags == Applied(second, Applied(first, start))
                <==> Differing(start, Applied(first, start)) <= second.flags)
  {
    hide Run, Applied, Differing;
    AppliedSame(second, start, Applied(first, start));
    Nothing(start);
    var one := [Read(0, first)];
    assert [] + one == one;
    Follow(start, [], Read(0, first));
    Follow(start, one, Read(1, second));
    Follow(start, one + [Read(1, second)], Set(0));
    Follow(start, one + [Read(1, second)] + [Set(0)], Set(1));
  }

  lemma Nothing(start: set<Flag>)
    ensures Run(start, []) == Some(World(start, map[]))
  {
  }
}
