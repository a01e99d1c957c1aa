/**
 * The event filter and retention buffer of `EventCollector`
 * (src/tracing/collector.rs).
 *
 * A collector holds a policy (a level threshold and a target scope) and an
 * ordered buffer of collected events.  `Collect` keeps an event exactly when
 * its level is at least as severe as the threshold and the scope allows its
 * target; a kept event goes at the end of the buffer.
 */
module Collector {
  import opened TracingLevel

  /** The target scope: every target, or only the named ones. */
  datatype AllowedTargets = All | Selected(selection: set<string>)
  {
    /** Whether the scope lets an event with this target through. */
    predicate Allows(target: string)
    {
      match this
      case All => true
      case Selected(s) => target in s
    }
  }

  /** A candidate or collected event; `message` stands for its rendered content. */
  datatype CollectedEvent = CollectedEvent(level: Level, target: string, message: string)

  /** The two configuration fields of a collector. */
  datatype Policy = Policy(level: Level, allowedTargets: AllowedTargets)
  {
    /** The filter decision: both gates must pass. */
    predicate Admits(e: CollectedEvent)
    {
      Le(e.level, level) && allowedTargets.Allows(e.target)
    }

    /** `with_level`: replace the threshold. */
    function WithLevel(l: Level): Policy
    {
      this.(level := l)
    }

    /** `allowed_targets`: replace the target scope. */
    function WithAllowedTargets(t: AllowedTargets): Policy
    {
      this.(allowedTargets := t)
    }
  }

  /** The policy of `EventCollector::default`: all targets, threshold TRACE. */
  function DefaultPolicy(): (p: Policy)
    ensures forall e: CollectedEvent :: p.Admits(e)
  {
    Policy(Trace, All)
  }

  /** Every event of the buffer passes the policy's filter. */
  ghost predicate Conforms(p: Policy, buf: seq<CollectedEvent>)
  {
    forall i :: 0 <= i < |buf| ==> p.Admits(buf[i])
  }

  /**
   * Reference definition: the events of `es` that the policy admits, in
   * their original order.
   */
  function Filter(p: Policy, es: seq<CollectedEvent>): (r: seq<CollectedEvent>)
    ensures |r| <= |es|
    ensures Conforms(p, r)
  {
    if es == [] then []
    else (if p.Admits(es[0]) then [es[0]] else []) + Filter(p, es[1..])
  }

  /** The buffer after one `collect` of `e` under policy `p`. */
  function AfterCollect(p: Policy, buf: seq<CollectedEvent>, e: CollectedEvent): (r: seq<CollectedEvent>)
    ensures |r| == |buf| + (if p.Admits(e) then 1 else 0)
    ensures r[..|buf|] == buf
    ensures |r| > |buf| ==> r[|buf|] == e
  {
    if p.Admits(e) then buf + [e] else buf
  }

  /** The buffer after a series of `collect` calls, one per event of `es`, in order. */
  function CollectMany(p: Policy, buf: seq<CollectedEvent>, es: seq<CollectedEvent>): seq<CollectedEvent>
    decreases |es|
  {
    if es == [] then buf else CollectMany(p, AfterCollect(p, buf, es[0]), es[1..])
  }

  // ---------------------------------------------------------------------
  // The filter decision

  /** The two gates, spelled out: level first, then the target scope. */
  lemma AdmitsIff(p: Policy, e: CollectedEvent)
    ensures p.Admits(e) <==>
              Le(e.level, p.level) &&
              (p.allowedTargets.All? || e.target in p.allowedTargets.selection)
  {
  }

  /** An event more verbose than the threshold is never collected. */
  lemma TooVerboseIsDropped(p: Policy, buf: seq<CollectedEvent>, e: CollectedEvent)
    requires !Le(e.level, p.level)
    ensures AfterCollect(p, buf, e) == buf
  {
  }

  /** Under `Selected(s)`, an event that passes the level gate is kept iff its target is in `s`. */
  lemma SelectedKeepsIffMember(l: Level, s: set<string>, buf: seq<CollectedEvent>, e: CollectedEvent)
    requires Le(e.level, l)
    ensures AfterCollect(Policy(l, Selected(s)), buf, e) == buf + [e] <==> e.target in s
    ensures e.target !in s ==> AfterCollect(Policy(l, Selected(s)), buf, e) == buf
  {
  }

  // ---------------------------------------------------------------------
  // Properties of the reference filter

  /** One `collect` appends what the reference filter keeps of the single event. */
  lemma AfterCollectIsFilter(p: Policy, buf: seq<CollectedEvent>, e: CollectedEvent)
    ensures AfterCollect(p, buf, e) == buf + Filter(p, [e])
  {
  }

  /** Filtering a concatenation filters each part: accepted events keep their order. */
  lemma {:induction false} FilterAppend(p: Policy, a: seq<CollectedEvent>, b: seq<CollectedEvent>)
    ensures Filter(p, a + b) == Filter(p, a) + Filter(p, b)
  {
    if a == [] {
      assert a + b == b;
    } else {
      assert (a + b)[0] == a[0];
      assert (a + b)[1..] == a[1..] + b;
      FilterAppend(p, a[1..], b);
    }
  }

  /** An event is kept exactly when it occurs in the input and the policy admits it. */
  lemma {:induction false} FilterMembers(p: Policy, es: seq<CollectedEvent>, x: CollectedEvent)
    ensures x in Filter(p, es) <==> x in es && p.Admits(x)
  {
    if es != [] {
      FilterMembers(p, es[1..], x);
      assert x in es <==> x == es[0] || x in es[1..];
    }
  }

  /** The default policy keeps every event. */
  lemma {:induction false} DefaultKeepsEverything(es: seq<CollectedEvent>)
    ensures Filter(DefaultPolicy(), es) == es
  {
    if es != [] {
      DefaultKeepsEverything(es[1..]);
      assert [es[0]] + es[1..] == es;
    }
  }

  /** An empty selection keeps nothing, whatever the threshold. */
  lemma {:induction false} EmptySelectionKeepsNothing(l: Level, es: seq<CollectedEvent>)
    ensures Filter(Policy(l, Selected({})), es) == []
  {
    if es != [] {
      EmptySelectionKeepsNothing(l, es[1..]);
    }
  }

  /** Under `Selected(s)`, the kept events are those of the right severity and a target in `s`. */
  lemma SelectedFilterMembers(l: Level, s: set<string>, es: seq<CollectedEvent>, x: CollectedEvent)
    ensures x in Filter(Policy(l, Selected(s)), es) <==> x in es && Le(x.level, l) && x.target in s
  {
    FilterMembers(Policy(l, Selected(s)), es, x);
  }

  // ---------------------------------------------------------------------
  // Series of collect calls

  /** A series of `collect` calls appends exactly the admitted events, in call order. */
  lemma {:induction false} CollectManyIsFilter(p: Policy, buf: seq<CollectedEvent>, es: seq<CollectedEvent>)
    ensures CollectMany(p, buf, es) == buf + Filter(p, es)
    decreases |es|
  {
    if es != [] {
      var e, rest := es[0], es[1..];
      var next := AfterCollect(p, buf, e);
      assert CollectMany(p, buf, es) == CollectMany(p, next, rest);
      CollectManyIsFilter(p, next, rest);
      assert Filter(p, es) == Filter(p, [e]) + Filter(p, rest) by {
        assert es == [e] + rest;
        FilterAppend(p, [e], rest);
      }
      AfterCollectIsFilter(p, buf, e);
      assert next + Filter(p, rest) == buf + (Filter(p, [e]) + Filter(p, rest));
    }
  }

  /** Collecting never disturbs what the buffer already holds. */
  lemma CollectManyKeepsPrefix(p: Policy, buf: seq<CollectedEvent>, es: seq<CollectedEvent>)
    ensures |buf| <= |CollectMany(p, buf, es)| <= |buf| + |es|
    ensures CollectMany(p, buf, es)[..|buf|] == buf
  {
    CollectManyIsFilter(p, buf, es);
    assert (buf + Filter(p, es))[..|buf|] == buf;
  }

  /** Under a fixed policy, a conforming buffer stays conforming through any series of collects. */
  lemma CollectManyConforms(p: Policy, buf: seq<CollectedEvent>, es: seq<CollectedEvent>)
    requires Conforms(p, buf)
    ensures Conforms(p, CollectMany(p, buf, es))
  {
    CollectManyIsFilter(p, buf, es);
    var r := buf + Filter(p, es);
    forall i | 0 <= i < |r|
      ensures p.Admits(r[i])
    {
      if i >= |buf| {
        assert r[i] == Filter(p, es)[i - |buf|];
      }
    }
  }

  /** A fresh collector fed `es` retains exactly `es`. */
  lemma DefaultCollectsEverything(es: seq<CollectedEvent>)
    ensures CollectMany(DefaultPolicy(), [], es) == es
  {
    CollectManyIsFilter(DefaultPolicy(), [], es);
    DefaultKeepsEverything(es);
  }

  // ---------------------------------------------------------------------
  // The builders

  /** Each builder replaces only its own field; the two commute, and the last call wins. */
  lemma BuildersAreIndependent(p: Policy, l: Level, l': Level, t: AllowedTargets, t': AllowedTargets)
    ensures p.WithLevel(l).level == l && p.WithLevel(l).allowedTargets == p.allowedTargets
    ensures p.WithAllowedTargets(t).allowedTargets == t && p.WithAllowedTargets(t).level == p.level
    ensures p.WithLevel(l).WithAllowedTargets(t) == p.WithAllowedTargets(t).WithLevel(l)
    ensures p.WithLevel(l).WithLevel(l') == p.WithLevel(l')
    ensures p.WithAllowedTargets(t).WithAllowedTargets(t') == p.WithAllowedTargets(t')
  {
  }

  // ---------------------------------------------------------------------
  // The collector object

  class EventCollector {
    var level: Level
    var allowedTargets: AllowedTargets
    var events: seq<CollectedEvent>

    /** The configuration currently in force. */
    function CurrentPolicy(): Policy
      reads this
    {
      Policy(level, allowedTargets)
    }

    /** Every retained event passes the current policy. */
    ghost predicate Conforming()
      reads this
    {
      Conforms(CurrentPolicy(), events)
    }

    /** `new` / `default`: all targets, threshold TRACE, an empty buffer. */
    constructor ()
      ensures CurrentPolicy() == DefaultPolicy()
      ensures events == []
      ensures Conforming()
    {
      allowedTargets := All;
      events := [];
      level := Trace;
    }

    /** `with_level`: only the threshold changes. */
    method WithLevel(l: Level)
      modifies this`level
      ensures CurrentPolicy() == old(CurrentPolicy()).WithLevel(l)
      ensures events == old(events)
    {
      level := l;
    }

    /** `allowed_targets`: only the target scope changes. */
    method WithAllowedTargets(t: AllowedTargets)
      modifies this`allowedTargets
      ensures CurrentPolicy() == old(CurrentPolicy()).WithAllowedTargets(t)
      ensures events == old(events)
    {
      allowedTargets := t;
    }

    /** `events`: a copy of the buffer. */
    function Events(): (snapshot: seq<CollectedEvent>)
      reads this
      ensures snapshot == events
    {
      events
    }

    /** `clear`: the buffer becomes empty; the policy stays. */
    method Clear()
      modifies this`events
      ensures events == []
      ensures CurrentPolicy() == old(CurrentPolicy())
      ensures Conforming()
    {
      events := [];
    }

    /** `collect`: keep `e` at the end of the buffer if the policy admits it. */
    method Collect(e: CollectedEvent)
      modifies this`events
      ensures events == AfterCollect(old(CurrentPolicy()), old(events), e)
      ensures CurrentPolicy() == old(CurrentPolicy())
      ensures old(Conforming()) ==> Conforming()
    {
      if Le(e.level, level) {
        var shouldCollect := match allowedTargets
          case All => true
          case Selected(selection) => e.target in selection;
        if shouldCollect {
          events := events + [e];
        }
      }
    }
  }

  // ---------------------------------------------------------------------
  // Scenarios on a fresh collector

  /** A default collector keeps an event of any level and any target. */
  method DefaultCollectorKeepsAnyEvent(l: Level, target: string, message: string)
    returns (snapshot: seq<CollectedEvent>)
    ensures snapshot == [CollectedEvent(l, target, message)]
  {
    var c := new EventCollector();
    c.Collect(CollectedEvent(l, target, message));
    snapshot := c.Events();
  }

  /** A snapshot taken before a collect is not changed by it; a later one sees the event. */
  method SnapshotIsolation(e: CollectedEvent)
    returns (before: seq<CollectedEvent>, after: seq<CollectedEvent>)
    ensures before == []
    ensures after == [e]
  {
    var c := new EventCollector();
    before := c.Events();
    c.Collect(e);
    after := c.Events();
  }

  /** After `clear`, a collector behaves as a fresh one with the same policy. */
  method ClearThenCollect(l: Level, t: AllowedTargets, old1: CollectedEvent, e: CollectedEvent)
    returns (snapshot: seq<CollectedEvent>)
    ensures snapshot == Filter(Policy(l, t), [e])
  {
    var c := new EventCollector();
    c.WithLevel(l);
    c.WithAllowedTargets(t);
    c.Collect(old1);
    c.Clear();
    c.Clear();
    c.Collect(e);
    snapshot := c.Events();
  }

  /** Threshold WARN drops an INFO event; scope {"a"} keeps target "a" and drops "b", in order. */
  method FilteringExamples(m: string)
    returns (levelDropped: seq<CollectedEvent>, scoped: seq<CollectedEvent>)
    ensures levelDropped == []
    ensures scoped == [CollectedEvent(Info, "a", m)]
  {
    var c := new EventCollector();
    c.WithLevel(Warn);
    c.Collect(CollectedEvent(Info, "a", m));
    levelDropped := c.Events();

    var d := new EventCollector();
    d.WithAllowedTargets(Selected({"a"}));
    d.Collect(CollectedEvent(Info, "a", m));
    d.Collect(CollectedEvent(Info, "b", m));
    scoped := d.Events();
  }
}
