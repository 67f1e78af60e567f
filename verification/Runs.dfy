// Whole runs: any sequence of updates, batches, reads and snapshots on one tree behaves as
// the same sequence on a sorted map with saved copies.

module Runs {
  import opened KeyOrder
  import opened Contents
  import opened Pages
  import opened Trees
  import opened LeafLinks
  import opened Ranges
  import opened Deletion
  import opened Invariants
  import opened Updates
  import opened Snapshots
  import opened Batches

  // What Range, RangeFrom and RangeBetween ask for.
  datatype Interval = Everything | From(first: Key) | Between(first: Key, last: Key) {
    function Start(): Option<Key> {
      if Everything? then None else Some(first)
    }

    function End(): Option<Key> {
      if Between? then Some(last) else None
    }
  }

  // A read of an interval is about the pairs from its first key on and below its last key.
  lemma IntervalMeans(o: Order, s: seq<KV>, interval: Interval, kv: KV)
    ensures kv in Within(o, s, interval.Start(), interval.End()) <==>
            kv in s && match interval
            case Everything => true
            case From(first) => !Lt(o, kv.key, first)
            case Between(first, last) => !Lt(o, kv.key, first) && Lt(o, kv.key, last)
  {
    hide Within;
    WithinExact(o, s, interval.Start(), interval.End(), kv);
  }

  datatype Action =
    | PutAction(key: Key, value: Bytes)
    | DeleteAction(key: Key)
    | BatchAction(ops: seq<Op>)
    | GetAction(key: Key)
    | RangeAction(interval: Interval, visit: Visitor)
    | OpenAction
    | CloseAction(handle: nat)
    | GetAtAction(handle: nat, key: Key)
    | RangeAtAction(handle: nat, interval: Interval, visit: Visitor)
    // Readers of other processes come and go: the reader table reports something else.
    | TableAction(report: TableScan)

  datatype Seen =
    | Quiet
    | SawValue(value: Option<Bytes>)
    | SawPairs(pairs: seq<KV>)
    | SawCommit(result: CommitResult)
    | SawPanic

  // The abstract state: what the tree holds, how often it has changed, and what each
  // snapshot taken so far shows, as long as it is open.
  datatype Model = Model(pairs: seq<KV>, revision: nat, views: seq<Option<seq<KV>>>)

  function IsOpen(m: Model, handle: nat): bool {
    handle < |m.views| && m.views[handle].Some?
  }

  // One action of the abstract run. `rolledBack` says that a batch panicked.
  function After(o: Order, m: Model, a: Action, rolledBack: bool): Model {
    match a
    case PutAction(key, value) => Model(Upsert(o, m.pairs, key, value), m.revision + 1, m.views)
    case DeleteAction(key) =>
      Model(Remove(o, m.pairs, key), m.revision + (if Lookup(o, m.pairs, key).Some? then 1 else 0), m.views)
    case BatchAction(ops) =>
      if rolledBack then m
      else Model(Apply(o, m.pairs, ops), m.revision + (if SomeChanged(Results(o, m.pairs, ops)) then 1 else 0), m.views)
    case OpenAction => m.(views := m.views + [Some(m.pairs)])
    case CloseAction(handle) => if IsOpen(m, handle) then m.(views := m.views[handle := None]) else m
    case _ => m
  }

  function Observe(o: Order, m: Model, a: Action, rolledBack: bool): Seen {
    match a
    case PutAction(key, _) => SawValue(Lookup(o, m.pairs, key))
    case DeleteAction(key) => SawValue(Lookup(o, m.pairs, key))
    case BatchAction(ops) =>
      SawCommit(if rolledBack then Refused(BatchPanicked)
                else Committed(SomeChanged(Results(o, m.pairs, ops)), Results(o, m.pairs, ops)))
    case GetAction(key) => SawValue(Lookup(o, m.pairs, key))
    case RangeAction(interval, visit) =>
      SawPairs(Visit(visit, [], Within(o, m.pairs, interval.Start(), interval.End())).0)
    case GetAtAction(handle, key) => SawValue(if IsOpen(m, handle) then Lookup(o, m.views[handle].value, key) else None)
    case RangeAtAction(handle, interval, visit) =>
      SawPairs(if IsOpen(m, handle)
               then Visit(visit, [], Within(o, m.views[handle].value, interval.Start(), interval.End())).0 else [])
    case _ => Quiet
  }

  function WasRolledBack(seen: Seen): bool {
    seen == SawCommit(Refused(BatchPanicked))
  }

  // An update with this model before it can panic: a page can overflow if a key is past the
  // bound, and a file with a limit may not grow.
  ghost predicate MayPanic(d: nat, growLimit: Option<PageId>, m: Model, a: Action)
    requires d >= 2
  {
    match a
    case PutAction(key, _) => growLimit.Some? || !KeysFit(d, m.pairs) || !KeyFits(d, key)
    case DeleteAction(_) => growLimit.Some? || !KeysFit(d, m.pairs)
    case BatchAction(ops) => growLimit.Some? || !Bounded(d, m.pairs, ops)
    case _ => false
  }

  // It does with a pair that is not storable.
  ghost predicate MustPanic(a: Action) {
    match a
    case PutAction(key, value) => !Storable(key, value)
    case BatchAction(ops) => PutsUnstorable(ops)
    case _ => false
  }

  // What was observed is what the abstract run shows. Where an action panics, a batch rolls
  // back and a single update ends the run.
  ghost predicate Explains(o: Order, d: nat, growLimit: Option<PageId>, m: Model, actions: seq<Action>, seen: seq<Seen>)
    requires d >= 2
    decreases |actions|
  {
    if actions == [] then seen == []
    else
      && seen != []
      && (seen[0].SawPanic? || WasRolledBack(seen[0]) ==> MayPanic(d, growLimit, m, actions[0]))
      && (MustPanic(actions[0]) ==> seen[0].SawPanic? || WasRolledBack(seen[0]))
      && if seen[0].SawPanic? then seen == [SawPanic] && !actions[0].BatchAction?
         else
           && seen[0] == Observe(o, m, actions[0], WasRolledBack(seen[0]))
           && Explains(o, d, growLimit, After(o, m, actions[0], WasRolledBack(seen[0])), actions[1..], seen[1..])
  }

  // ---- The tree tracks the model ----

  ghost predicate Fits(d: nat, lo: nat, a: Action)
    requires d >= 2
  {
    match a
    case PutAction(key, value) => OpFits(d, lo, PutOp(key, value))
    case BatchAction(ops) => OpsFit(d, lo, ops)
    case _ => true
  }

  // Snapshot `s` shows `view`, according to the pins of the tree.
  ghost predicate Shows(t: Tree, s: Snapshot, pins: map<nat, Pin>, view: Option<seq<KV>>)
    reads s
  {
    && (s.closed <==> view.None?)
    && (view.Some? ==>
          && s.tree == t && s.ticket in pins
          && pins[s.ticket].revision == s.revision
          && s.root == RootOf(pins[s.ticket].shape)
          && s.length == |PairsIn(pins[s.ticket].shape)|
          && PairsIn(pins[s.ticket].shape) == view.value)
  }

  ghost predicate ShowAll(t: Tree, snapshots: seq<Snapshot>, pins: map<nat, Pin>, views: seq<Option<seq<KV>>>)
    reads snapshots
  {
    && |snapshots| == |views|
    && (forall i :: 0 <= i < |snapshots| ==> Shows(t, snapshots[i], pins, views[i]))
    && (forall i, j :: 0 <= i < j < |snapshots| ==> snapshots[i] != snapshots[j])
    && (forall i, j ::
      0 <= i < j < |snapshots| && views[i].Some? && views[j].Some? ==> snapshots[i].ticket != snapshots[j].ticket)
  }

  ghost predicate Tracks(t: Tree, snapshots: seq<Snapshot>, m: Model, lo: nat)
    reads t, snapshots
  {
    && t.degree >= 2 && WellFormed(t, lo) && RoomFor(lo, t.degree, Pairs(t)) && !t.closed && !t.readOnly
    && Pairs(t) == m.pairs && t.revision == m.revision
    && ShowAll(t, snapshots, t.pins, m.views)
  }

  method Update(t: Tree, snapshots: seq<Snapshot>, a: Action, ghost m: Model, ghost lo: nat) returns (seen: Seen)
    requires t.degree >= 2 && Tracks(t, snapshots, m, lo) && Fits(t.degree, lo, a) && (a.PutAction? || a.DeleteAction?)
    modifies t`pages, t`nextPage, t`free, t`retired, t`reused, t`root, t`length, t`revision, t`shape, t`height
    ensures seen.SawPanic? ==> MayPanic(t.degree, t.growLimit, m, a)
    ensures MustPanic(a) ==> seen.SawPanic?
    ensures !seen.SawPanic? ==>
              seen == Observe(t.order, m, a, false) && Tracks(t, snapshots, After(t.order, m, a, false), lo)
  {
    hide WellFormed, RoomFor, Upsert, Remove, Lookup, MapOf, ShowAll, SmallPair, KeyFits, KeysFit, PairsIn, HalfFull,
      KeepsHalfFull;
    RoomMeansFitting(lo, t.degree, Pairs(t));
    var r, previous;
    if a.PutAction? {
      UpsertRoomFor(t.order, lo, t.degree, Pairs(t), a.key, a.value);
      r, previous := Put(t, a.key, a.value, lo);
    } else {
      RemoveRoomFor(t.order, lo, t.degree, Pairs(t), a.key);
      r, previous := Delete(t, a.key, lo);
    }
    if r.Panic? {
      return SawPanic;
    }
    return SawValue(previous);
  }

  method RunBatch(t: Tree, snapshots: seq<Snapshot>, ops: seq<Op>, ghost m: Model, ghost lo: nat) returns (seen: Seen)
    requires t.degree >= 2 && Tracks(t, snapshots, m, lo)
    modifies t`pages, t`nextPage, t`free, t`retired, t`reused, t`root, t`length, t`revision, t`shape, t`height
    ensures WasRolledBack(seen) ==> t.growLimit.Some? || !Bounded(t.degree, m.pairs, ops)
    ensures PutsUnstorable(ops) ==> WasRolledBack(seen)
    ensures var back := WasRolledBack(seen);
            && seen == Observe(t.order, m, BatchAction(ops), back)
            && Tracks(t, snapshots, After(t.order, m, BatchAction(ops), back),
                 if back then lo else FillAfterOps(t.degree, m.pairs, ops, lo))
  {
    hide WellFormed, RoomFor, ShowAll, PairsIn, Apply, Results, OpsFit, SomeChanged, RolledBack, Bounded, Retires,
      PutsUnstorable, FillAfterOps;
    FillIsEnough(t, ops, lo);
    ApplyRoomFor(t.order, FillAfterOps(t.degree, m.pairs, ops, lo), t.degree, Pairs(t), ops);
    var b := new WriteBatch(t);
    FillBatch(b, ops);
    var result := CommitDetailed(b, lo);
    assert result.Refused? ==> result.error.BatchPanicked?;
    return SawCommit(result);
  }

  lemma BoundedAtOne(lo: nat, d: nat, s: seq<KV>, ops: seq<Op>)
    requires d >= 2 && RoomFor(lo, d, s) && OpsFit(d, lo, ops)
    ensures lo >= 1 ==> Bounded(d, s, ops)
    ensures FillAfterOps(d, s, ops, lo) == lo
  {
    hide KeyFits, SmallPair, KeysFit;
  }

  method FillBatch(b: WriteBatch, ops: seq<Op>)
    requires !b.closed && b.ops == []
    modifies b`ops
    ensures b.ops == ops
  {
    for i := 0 to |ops|
      invariant b.ops == ops[..i]
    {
      match ops[i]
      case PutOp(key, value) => b.Put(key, value);
      case DeleteOp(key) => b.Delete(key);
    }
    assert ops[..|ops|] == ops;
  }

  // ---- Snapshots ----

  method Open(t: Tree, snapshots: seq<Snapshot>, ghost m: Model, ghost lo: nat) returns (s: Snapshot)
    requires Tracks(t, snapshots, m, lo)
    modifies t`readers, t`pins, t`tickets
    ensures fresh(s)
    ensures Tracks(t, snapshots + [s], After(t.order, m, OpenAction, false), lo)
  {
    hide WellFormed, RoomFor, PairsIn;
    ghost var pins := t.pins;
    TicketsBelow(t, snapshots, m, lo);
    s := TakeSnapshot(t, lo);
    OpenedShows(t, snapshots, pins, t.pins, m.views, s);
  }

  lemma TicketsBelow(t: Tree, snapshots: seq<Snapshot>, m: Model, lo: nat)
    requires Tracks(t, snapshots, m, lo)
    ensures forall i :: 0 <= i < |snapshots| && m.views[i].Some? ==> snapshots[i].ticket in t.pins
  {
    hide WellFormed, RoomFor, PairsIn;
  }

  lemma OpenedShows(t: Tree, snapshots: seq<Snapshot>, pins: map<nat, Pin>, pins': map<nat, Pin>,
          views: seq<Option<seq<KV>>>, s: Snapshot)
    requires ShowAll(t, snapshots, pins, views)
    requires forall k :: k in pins ==> k in pins' && pins'[k] == pins[k]
    requires s !in snapshots && !s.closed && s.tree == t && s.ticket !in pins && s.ticket in pins'
    requires Shows(t, s, pins', Some(PairsIn(pins'[s.ticket].shape)))
    ensures ShowAll(t, snapshots + [s], pins', views + [Some(PairsIn(pins'[s.ticket].shape))])
  {
    hide PairsIn;
  }

  method Close(t: Tree, snapshots: seq<Snapshot>, handle: nat, ghost m: Model, ghost lo: nat)
    requires Tracks(t, snapshots, m, lo)
    modifies t, snapshots
    ensures Tracks(t, snapshots, After(t.order, m, CloseAction(handle), false), lo)
  {
    hide WellFormed, RoomFor, PairsIn;
    HandleIsOpen(t, snapshots, t.pins, m.views, handle);
    if handle >= |snapshots| || snapshots[handle].closed {
      return;
    }
    CloseSnapshot(snapshots[handle], lo);
    forall i | 0 <= i < |snapshots| && i != handle ensures Shows(t, snapshots[i], t.pins, m.views[i]) {
      assert old(Shows(t, snapshots[i], t.pins, m.views[i]));
    }
  }

  lemma HandleIsOpen(t: Tree, snapshots: seq<Snapshot>, pins: map<nat, Pin>, views: seq<Option<seq<KV>>>, handle: nat)
    requires ShowAll(t, snapshots, pins, views)
    ensures |views| == |snapshots|
    ensures handle < |snapshots| ==> Shows(t, snapshots[handle], pins, views[handle])
  {
    hide PairsIn, Shows;
  }

  // ---- Reads ----

  method Read(t: Tree, snapshots: seq<Snapshot>, a: Action, ghost m: Model, ghost lo: nat) returns (seen: Seen)
    requires Tracks(t, snapshots, m, lo)
    requires a.GetAction? || a.RangeAction? || a.GetAtAction? || a.RangeAtAction?
    ensures seen == Observe(t.order, m, a, false)
  {
    hide WellFormed, RoomFor, PairsIn, ShowAll, Lookup, Within, Visit;
    match a
    case GetAction(key) =>
      var value := Get(t, key, lo);
      seen := SawValue(value);
    case RangeAction(interval, visit) =>
      var pairs := RangeTree(t, interval.Start(), interval.End(), visit, lo);
      seen := SawPairs(pairs);
    case GetAtAction(handle, key) =>
      HandleIsOpen(t, snapshots, t.pins, m.views, handle);
      var value := None;
      if handle < |snapshots| {
        value := GetAt(snapshots[handle], key, lo);
      }
      seen := SawValue(value);
    case RangeAtAction(handle, interval, visit) =>
      HandleIsOpen(t, snapshots, t.pins, m.views, handle);
      var pairs := [];
      if handle < |snapshots| {
        pairs := RangeAt(snapshots[handle], interval.Start(), interval.End(), visit, lo);
      }
      seen := SawPairs(pairs);
    case _ =>
  }

  // The reader table is not part of what is tracked.
  method Report(t: Tree, snapshots: seq<Snapshot>, report: TableScan, ghost m: Model, ghost lo: nat)
    requires Tracks(t, snapshots, m, lo)
    modifies t`scan
    ensures Tracks(t, snapshots, m, lo)
  {
    hide Owns, Spells, Pinned, Linked, Current, PairsIn, RoomFor, ShowAll;
    t.scan := report;
  }

  // ---- Runs ----

  // One action on the tree is one action on the model.
  method Step(t: Tree, snapshots: seq<Snapshot>, a: Action, ghost m: Model, ghost lo: nat)
    returns (snapshots': seq<Snapshot>, seen: Seen)
    requires t.degree >= 2 && Tracks(t, snapshots, m, lo) && Fits(t.degree, lo, a)
    modifies t, snapshots
    ensures snapshots <= snapshots' && forall i :: |snapshots| <= i < |snapshots'| ==> fresh(snapshots'[i])
    ensures seen.SawPanic? || WasRolledBack(seen) ==> MayPanic(t.degree, t.growLimit, m, a)
    ensures seen.SawPanic? ==> !a.BatchAction?
    ensures MustPanic(a) ==> seen.SawPanic? || WasRolledBack(seen)
    ensures !seen.SawPanic? ==>
              && seen == Observe(t.order, m, a, WasRolledBack(seen))
              && Tracks(t, snapshots', After(t.order, m, a, WasRolledBack(seen)), lo)
  {
    hide Tracks, Bounded, FillAfterOps, OpsFit, PutsUnstorable, KeysFit, KeyFits, Storable, Apply, Results, Lookup,
      Upsert, Remove, Visit, Within, SomeChanged;
    TracksMeans(t, snapshots, m, lo);
    snapshots', seen := snapshots, Quiet;
    match a
    case PutAction(_, _) =>
      seen := Update(t, snapshots, a, m, lo);
    case DeleteAction(_) =>
      seen := Update(t, snapshots, a, m, lo);
    case BatchAction(ops) =>
      FittingBatch(t, snapshots, m, ops, lo);
      seen := RunBatch(t, snapshots, ops, m, lo);
    case OpenAction =>
      var s := Open(t, snapshots, m, lo);
      snapshots' := snapshots + [s];
    case CloseAction(handle) =>
      Close(t, snapshots, handle, m, lo);
    case TableAction(report) =>
      Report(t, snapshots, report, m, lo);
    case _ =>
      seen := Read(t, snapshots, a, m, lo);
  }

  lemma FittingBatch(t: Tree, snapshots: seq<Snapshot>, m: Model, ops: seq<Op>, lo: nat)
    requires t.degree >= 2 && Tracks(t, snapshots, m, lo) && OpsFit(t.degree, lo, ops)
    ensures lo >= 1 ==> Bounded(t.degree, m.pairs, ops)
    ensures FillAfterOps(t.degree, m.pairs, ops, lo) == lo
  {
    hide WellFormed, RoomFor, ShowAll, OpsFit, Bounded, FillAfterOps;
    BoundedAtOne(lo, t.degree, m.pairs, ops);
  }

  ghost predicate AllFit(d: nat, lo: nat, actions: seq<Action>)
    requires d >= 2
  {
    forall i :: 0 <= i < |actions| ==> Fits(d, lo, actions[i])
  }

  // The abstract state at the end of what was observed.
  function EndOf(o: Order, m: Model, actions: seq<Action>, seen: seq<Seen>): Model
    decreases |actions|
  {
    if actions == [] || seen == [] then m
    else EndOf(o, After(o, m, actions[0], WasRolledBack(seen[0])), actions[1..], seen[1..])
  }

  // The least fill that a run keeps. With zero some key is past the bound, and pages may overflow.
  ghost function FillAfterRun(d: nat, lo: nat, actions: seq<Action>): nat
    requires d >= 2
  {
    if AllFit(d, lo, actions) then lo else if lo >= 1 && AllFit(d, 1, actions) then 1 else 0
  }

  // Snapshot isolation, conservation of pages and refinement of the map over every run:
  // what is seen is what the abstract run shows, and the tree ends well-formed with the
  // contents and the revision of the abstract run.
  method Run(t: Tree, snapshots: seq<Snapshot>, actions: seq<Action>, ghost m: Model, ghost lo: nat)
    returns (seen: seq<Seen>)
    requires t.degree >= 2 && Tracks(t, snapshots, m, lo)
    modifies t, snapshots
    ensures var lo' := FillAfterRun(t.degree, lo, actions);
            && Explains(t.order, t.degree, t.growLimit, m, actions, seen)
            && (SawPanic !in seen ==> WellFormed(t, lo'))
    ensures SawPanic in seen || |seen| == |actions|
    ensures SawPanic !in seen ==>
              && Pairs(t) == EndOf(t.order, m, actions, seen).pairs
              && t.revision == EndOf(t.order, m, actions, seen).revision
  {
    hide Tracks, WellFormed, Pairs, Explains, Fits;
    ghost var lo' := FillAfterRun(t.degree, lo, actions);
    AnythingFits(t.degree, actions);
    TracksWeaker(t, snapshots, m, lo, lo');
    seen := RunFitting(t, snapshots, actions, m, lo');
  }

  lemma AnythingFits(d: nat, actions: seq<Action>)
    requires d >= 2
    ensures AllFit(d, 0, actions)
  {
  }

  lemma TracksWeaker(t: Tree, snapshots: seq<Snapshot>, m: Model, lo: nat, lo': nat)
    requires t.degree >= 2 && Tracks(t, snapshots, m, lo) && (lo' == lo || lo' == 0 || (lo' == 1 && lo >= 1))
    ensures Tracks(t, snapshots, m, lo')
  {
    hide WellFormed, ShowAll, KeysFit, SmallPair;
    WellFormedWeaker(t, lo, lo');
  }

  method RunFitting(t: Tree, snapshots: seq<Snapshot>, actions: seq<Action>, ghost m: Model, ghost lo: nat)
    returns (seen: seq<Seen>)
    requires t.degree >= 2 && Tracks(t, snapshots, m, lo) && AllFit(t.degree, lo, actions)
    modifies t, snapshots
    ensures Explains(t.order, t.degree, t.growLimit, m, actions, seen)
    ensures SawPanic in seen || |seen| == |actions|
    ensures SawPanic !in seen ==>
              && WellFormed(t, lo) && Pairs(t) == EndOf(t.order, m, actions, seen).pairs
              && t.revision == EndOf(t.order, m, actions, seen).revision
    decreases |actions|
  {
    hide Tracks, Fits, WellFormed, Pairs, Observe, After;
    if |actions| == 0 {
      TracksMeans(t, snapshots, m, lo);
      return [];
    }
    var snapshots', first := Step(t, snapshots, actions[0], m, lo);
    if first.SawPanic? {
      return [first];
    }
    ghost var next := After(t.order, m, actions[0], WasRolledBack(first));
    var rest := RunFitting(t, snapshots', actions[1..], next, lo);
    seen := [first] + rest;
    assert seen[1..] == rest;
  }

  lemma TracksMeans(t: Tree, snapshots: seq<Snapshot>, m: Model, lo: nat)
    requires Tracks(t, snapshots, m, lo)
    ensures WellFormed(t, lo) && Pairs(t) == m.pairs && t.revision == m.revision
  {
    hide WellFormed, RoomFor, ShowAll;
  }

  // A run from a new tree, of any actions. Leaves keep d-1 keys if every value put is small,
  // and one key otherwise.
  method RunFromEmpty(order: Order, degree: nat, repairPercent: nat, growLimit: Option<PageId>, actions: seq<Action>)
    returns (t: Tree, seen: seq<Seen>)
    requires repairPercent <= 100
    ensures fresh(t) && t.degree == NormalDegree(degree)
    ensures Explains(order, t.degree, growLimit, Model([], 0, []), actions, seen)
    ensures SawPanic !in seen ==>
              && WellFormed(t, FillAfterRun(t.degree, t.degree - 1, actions))
              && Pairs(t) == EndOf(order, Model([], 0, []), actions, seen).pairs
  {
    hide Explains, Owns, Upto, EndOf, AllFit;
    t := new Tree(order, degree, repairPercent, if growLimit.Some? then 2 else 1, growLimit);
    EmptyTracks(t, t.degree - 1);
    seen := Run(t, [], actions, Model([], 0, []), t.degree - 1);
  }

  // normalizeDegree
  function NormalDegree(degree: nat): nat {
    if degree < 2 then 2 else degree
  }

  lemma EmptyTracks(t: Tree, lo: nat)
    requires t.degree >= 2 && lo < t.degree
    requires t.root == 0 && t.length == 0 && t.revision == 0 && t.readers == map[] && !t.closed && !t.readOnly
    requires t.shape == None && t.pins == map[] && t.retired == [] && Owns(t.first, t.State(), t.listPages)
    ensures Tracks(t, [], Model([], 0, []), lo)
  {
    hide WellFormed, Owns;
    EmptyWell(t, lo);
  }
}
