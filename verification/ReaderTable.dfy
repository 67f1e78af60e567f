// The table of readers that processes share beside a mapped file
// (pagebtree/reader_table_unix.go). Every call holds the lock of the table's file, so it is
// one atomic step.

module ReaderTables {
  import opened Contents
  import opened Pages
  import opened Trees
  import opened Freelist
  import opened Invariants

  const SLOT_COUNT := 64
  const V2 := 2
  const V3 := 3

  datatype ReaderSlot = ReaderSlot(active: bool, pid: nat, processStart: nat, bootID: nat, revision: nat, token: nat)

  // What the system reports at one moment: the running processes, when each was started (zero
  // if that is not supported) and which boot this is (zero likewise).
  datatype World = World(running: set<nat>, startOf: map<nat, nat>, boot: nat)

  function StartToken(w: World, pid: nat): nat {
    if pid in w.startOf then w.startOf[pid] else 0
  }

  // bootIDMatches
  predicate BootMatches(w: World, s: ReaderSlot) {
    s.bootID == 0 || w.boot == 0 || w.boot == s.bootID
  }

  predicate SameProcess(w: World, s: ReaderSlot) {
    if s.processStart == 0 then BootMatches(w, s)
    else (StartToken(w, s.pid) == 0 || StartToken(w, s.pid) == s.processStart) && BootMatches(w, s)
  }

  // readerSlotAlive
  predicate Alive(w: World, s: ReaderSlot) {
    s.pid > 0 && s.pid in w.running && SameProcess(w, s)
  }

  // ownsSlot, for a handle of this process
  predicate OwnsSlot(w: World, pid: nat, s: ReaderSlot) {
    s.pid == pid && SameProcess(w, s)
  }

  // A slot that nobody may take or clear.
  predicate Taken(w: World, s: ReaderSlot) {
    s.active && Alive(w, s)
  }

  // A stale slot: its owner is gone.
  predicate Stale(w: World, s: ReaderSlot) {
    s.active && !Alive(w, s)
  }

  // validateReaderSlotRevision
  predicate ValidSlot(s: ReaderSlot, maxRevision: nat) {
    s.token != 0 && s.revision <= maxRevision
  }

  // Older table formats have no room for the process start and the boot.
  function Stored(version: nat, s: ReaderSlot): ReaderSlot {
    s.(processStart := if version >= V2 then s.processStart else 0, bootID := if version >= V3 then s.bootID else 0)
  }

  // Who holds a slot is said by its process, the start of that process and the boot alone; what
  // the slot or the system does not know, it does not count.
  lemma TakenOrStale(w: World, s: ReaderSlot)
    ensures Taken(w, s) <==>
            && s.active && s.pid > 0 && s.pid in w.running
            && (s.processStart == 0 || s.pid !in w.startOf || w.startOf[s.pid] == 0
                || w.startOf[s.pid] == s.processStart)
            && (s.bootID == 0 || w.boot == 0 || w.boot == s.bootID)
    ensures Stale(w, s) <==>
            && s.active
            && (|| s.pid == 0 || s.pid !in w.running
                || (s.processStart != 0 && s.pid in w.startOf && w.startOf[s.pid] !in {0, s.processStart})
                || (s.bootID != 0 && w.boot !in {0, s.bootID}))
  {
  }

  // ---- What each call does to the slots ----

  // The first slot from `i` on that is not taken.
  function FirstFree(w: World, slots: seq<ReaderSlot>, i: nat): (k: nat)
    requires i <= |slots|
    ensures i <= k <= |slots|
    ensures forall j :: i <= j < k ==> Taken(w, slots[j])
    ensures k < |slots| ==> !Taken(w, slots[k])
    decreases |slots| - i
  {
    if i == |slots| || !Taken(w, slots[i]) then i else FirstFree(w, slots, i + 1)
  }

  function NewSlot(w: World, version: nat, pid: nat, revision: nat, token: nat): ReaderSlot {
    Stored(version, ReaderSlot(true, pid, StartToken(w, pid), w.boot, revision, token))
  }

  function AfterClaim(w: World, version: nat, slots: seq<ReaderSlot>, pid: nat, revision: nat,
          token: nat): seq<ReaderSlot>
  {
    var k := FirstFree(w, slots, 0);
    if k < |slots| then slots[k := NewSlot(w, version, pid, revision, token)] else slots
  }

  predicate HeldSlot(w: World, slots: seq<ReaderSlot>, pid: nat, slot: int, token: nat) {
    0 <= slot < |slots| && slots[slot].active && slots[slot].token == token && OwnsSlot(w, pid, slots[slot])
  }

  // A handle owns the slot that still has its token and its process.
  lemma HeldMeans(w: World, slots: seq<ReaderSlot>, pid: nat, slot: int, token: nat)
    ensures HeldSlot(w, slots, pid, slot, token) <==>
            && 0 <= slot < |slots| && slots[slot].active && slots[slot].token == token && slots[slot].pid == pid
            && (slots[slot].processStart == 0 || pid !in w.startOf || w.startOf[pid] == 0
                || w.startOf[pid] == slots[slot].processStart)
            && (slots[slot].bootID == 0 || w.boot == 0 || w.boot == slots[slot].bootID)
  {
  }

  function AfterRelease(w: World, slots: seq<ReaderSlot>, pid: nat, slot: int, token: nat): seq<ReaderSlot> {
    if HeldSlot(w, slots, pid, slot, token) then slots[slot := slots[slot].(active := false)] else slots
  }

  function AfterUpdate(w: World, slots: seq<ReaderSlot>, pid: nat, slot: int, token: nat,
          revision: nat): seq<ReaderSlot>
  {
    if HeldSlot(w, slots, pid, slot, token) then slots[slot := slots[slot].(revision := revision)] else slots
  }

  // The first slot that is taken by something invalid.
  function FirstInvalid(w: World, slots: seq<ReaderSlot>, maxRevision: nat, i: nat): (k: nat)
    requires i <= |slots|
    ensures i <= k <= |slots|
    ensures forall j :: i <= j < k && Taken(w, slots[j]) ==> ValidSlot(slots[j], maxRevision)
    ensures k < |slots| ==> Taken(w, slots[k]) && !ValidSlot(slots[k], maxRevision)
    decreases |slots| - i
  {
    if i == |slots| || (Taken(w, slots[i]) && !ValidSlot(slots[i], maxRevision)) then i
      else FirstInvalid(w, slots, maxRevision, i + 1)
  }

  // The slots with the stale ones before `k` cleared.
  function Cleared(w: World, slots: seq<ReaderSlot>, k: nat): (r: seq<ReaderSlot>)
    ensures |r| == |slots|
  {
    seq(|slots|, i requires 0 <= i < |slots| => if i < k && Stale(w, slots[i]) then slots[i].(active := false)
        else slots[i])
  }

  // How many of the first `k` slots are like this.
  function CountOf(slots: seq<ReaderSlot>, k: nat, like: ReaderSlot -> bool): nat
    requires k <= |slots|
  {
    if k == 0 then 0 else CountOf(slots, k - 1, like) + if like(slots[k - 1]) then 1 else 0
  }

  lemma OneMoreLike(slots: seq<ReaderSlot>, k: nat, like: ReaderSlot -> bool)
    requires 0 < k <= |slots|
    ensures |set i | 0 <= i < k && like(slots[i])| ==
            |set i | 0 <= i < k - 1 && like(slots[i])| + if like(slots[k - 1]) then 1 else 0
  {
    var before, now := set i | 0 <= i < k - 1 && like(slots[i]), set i | 0 <= i < k && like(slots[i]);
    assert now == if like(slots[k - 1]) then before + {k - 1} else before;
  }

  lemma {:induction false} CountMeans(slots: seq<ReaderSlot>, k: nat, like: ReaderSlot -> bool)
    requires k <= |slots|
    ensures CountOf(slots, k, like) == |set i | 0 <= i < k && like(slots[i])|
  {
    if k > 0 {
      CountMeans(slots, k - 1, like);
      OneMoreLike(slots, k, like);
    }
  }

  // The slots of running owners, the stale ones, and those of either kind that say when their
  // owner was started or in which boot; and the oldest revision of a running owner.
  datatype ReaderStats = ReaderStats(active: nat, stale: nat, processStart: nat, bootID: nat, oldest: Option<nat>)

  function CountsOf(w: World, slots: seq<ReaderSlot>, k: nat, oldest: Option<nat>): ReaderStats
    requires k <= |slots|
  {
    ReaderStats(CountOf(slots, k, (s: ReaderSlot) => Taken(w, s)), CountOf(slots, k, (s: ReaderSlot) => Stale(w, s)),
        CountOf(slots, k, (s: ReaderSlot) => s.active && s.processStart != 0),
          CountOf(slots, k, (s: ReaderSlot) => s.active && s.bootID != 0), oldest)
  }

  // What a scan reports that ends at slot `k`: an invalid slot is counted before it is
  // looked at more closely.
  function StatsOf(w: World, slots: seq<ReaderSlot>, k: nat): ReaderStats
    requires k <= |slots|
  {
    CountsOf(w, slots, if k < |slots| then k + 1 else k, LeastRevision(w, slots, k))
  }

  lemma CountStep(w: World, slots: seq<ReaderSlot>, i: nat)
    requires i < |slots|
    ensures forall oldest: Option<nat> ::
              var before, after := CountsOf(w, slots, i, oldest), CountsOf(w, slots, i + 1, oldest);
              && after.active == before.active + (if Taken(w, slots[i]) then 1 else 0)
              && after.stale == before.stale + (if Stale(w, slots[i]) then 1 else 0)
              && after.processStart
              == before.processStart + (if slots[i].active && slots[i].processStart != 0 then 1 else 0)
              && after.bootID == before.bootID + (if slots[i].active && slots[i].bootID != 0 then 1 else 0)
  {
    hide Alive;
  }

  // The least revision of the first `k` slots that are taken.
  function LeastRevision(w: World, slots: seq<ReaderSlot>, k: nat): (r: Option<nat>)
    requires k <= |slots|
    ensures forall j :: 0 <= j < k && Taken(w, slots[j]) ==> r.Some? && r.value <= slots[j].revision
    ensures r.Some? ==> exists j :: 0 <= j < k && Taken(w, slots[j]) && slots[j].revision == r.value
  {
    if k == 0 then None
    else
      var before := LeastRevision(w, slots, k - 1);
      if Taken(w, slots[k - 1]) && (before.None? || slots[k - 1].revision < before.value)
        then Some(slots[k - 1].revision) else before
  }

  // What a scan reports to the writer.
  function ScanOf(w: World, slots: seq<ReaderSlot>, maxRevision: nat): TableScan {
    if FirstInvalid(w, slots, maxRevision, 0) < |slots| then ScanFailed
    else
      match LeastRevision(w, slots, |slots|)
      case None => NoReaders
      case Some(revision) => Oldest(revision)
  }

  // ---- The table's file, and a handle on it ----

  class SlotFile {
    const version: nat
    var slots: seq<ReaderSlot>

    constructor (version: nat)
      ensures this.version == version && |slots| == 64 && forall i :: 0 <= i < 64 ==> !slots[i].active
    {
      this.version := version;
      slots := seq(SLOT_COUNT, i => ReaderSlot(false, 0, 0, 0, 0, 0));
    }
  }

  class ReaderTable {
    const file: SlotFile
    const pid: nat
    var slot: int
    var token: nat
    var revision: nat

    constructor (file: SlotFile, pid: nat)
      ensures this.file == file && this.pid == pid && slot == -1
    {
      this.file, this.pid := file, pid;
      slot, token, revision := -1, 0, 0;
    }

    // claim; `token` is the one generated for it
    method Claim(w: World, revision: nat, token: nat) returns (ok: bool)
      requires |file.slots| == SLOT_COUNT
      modifies this, file
      ensures file.slots == AfterClaim(w, file.version, old(file.slots), pid, revision, token)
      ensures ok <==> exists i :: 0 <= i < 64 && !Taken(w, old(file.slots)[i])
      ensures ok ==> slot == FirstFree(w, old(file.slots), 0) && this.token == token && this.revision == revision
      ensures !ok ==> slot == old(slot) && this.token == old(this.token) && this.revision == old(this.revision)
      // The slot tells the process from any later one with its id, as far as the format can.
      ensures ok ==>
                && 0 <= slot < |file.slots| == |old(file.slots)|
                && file.slots[slot].active && file.slots[slot].pid == pid
                && file.slots[slot].revision == revision && file.slots[slot].token == token
                && file.slots[slot].processStart ==
                (if file.version >= 2 && pid in w.startOf then w.startOf[pid] else 0)
                && file.slots[slot].bootID == (if file.version >= 3 then w.boot else 0)
      ensures ok ==> forall i :: 0 <= i < |file.slots| && i != slot ==> file.slots[i] == old(file.slots)[i]
      // While this process runs nobody takes the slot for stale.
      ensures ok && pid > 0 ==>
                forall w': World ::
                  pid in w'.running && StartToken(w', pid) == StartToken(w, pid) && w'.boot == w.boot ==>
                    Taken(w', file.slots[slot])
      ensures !ok ==> file.slots == old(file.slots)
    {
      hide Taken;
      ghost var slots := file.slots;
      for i := 0 to SLOT_COUNT
        invariant file.slots == slots && this.slot == old(this.slot) && this.token == old(this.token)
                  && this.revision == old(this.revision)
        invariant forall j :: 0 <= j < i ==> Taken(w, slots[j])
        invariant FirstFree(w, slots, 0) == FirstFree(w, slots, i)
      {
        var current := file.slots[i];
        TakenMeans(w, current);
        if current.active && Alive(w, current) {
          continue;
        }
        if current.active {
          file.slots := file.slots[i := current.(active := false)];
        }
        file.slots := file.slots[i := Stored(file.version,
            ReaderSlot(true, pid, StartToken(w, pid), w.boot, revision, token))];
        this.slot, this.token, this.revision := i, token, revision;
        NewIsTaken(w, file.version, pid, revision, token);
        return true;
      }
      return false;
    }

    // release
    method Release(w: World)
      modifies this`slot, file
      ensures slot == if old(slot) < 0 then old(slot) else -1
      ensures file.slots == AfterRelease(w, old(file.slots), pid, old(slot), token)
      // An owner leaves its slot free, and nobody else's is touched.
      ensures |file.slots| == |old(file.slots)|
      ensures 0 <= old(slot) < |old(file.slots)| && HeldSlot(w, old(file.slots), pid, old(slot), token) ==>
                !file.slots[old(slot)].active
      ensures forall i :: 0 <= i < |file.slots| && i != old(slot) ==> file.slots[i] == old(file.slots)[i]
    {
      if slot < 0 {
        return;
      }
      var s := slot;
      slot := -1;
      if s < |file.slots| {
        var current := file.slots[s];
        if current.active && current.token == token && OwnsSlot(w, pid, current) {
          file.slots := file.slots[s := current.(active := false)];
        }
      }
    }

    // updateRevision
    method UpdateRevision(w: World, revision: nat) returns (ok: bool)
      requires slot < |file.slots|
      modifies file
      ensures file.slots == AfterUpdate(w, old(file.slots), pid, slot, token, revision)
      ensures ok <==> slot < 0 || HeldSlot(w, old(file.slots), pid, slot, token)
      ensures ok && slot >= 0 ==> file.slots == old(file.slots)[slot := old(file.slots)[slot].(revision := revision)]
      ensures !ok || slot < 0 ==> file.slots == old(file.slots)
    {
      if slot < 0 {
        return true;
      }
      var current := file.slots[slot];
      if current.active && current.token == token && OwnsSlot(w, pid, current) {
        file.slots := file.slots[slot := current.(revision := revision)];
        return true;
      }
      return false;
    }

    // oldest: what holds the writer's reclaim back. Stale slots are cleared on the way.
    method OldestRevision(w: World, maxRevision: nat) returns (scan: TableScan)
      modifies file
      ensures scan == ScanOf(w, old(file.slots), maxRevision)
      ensures file.slots == Cleared(w, old(file.slots), FirstInvalid(w, old(file.slots), maxRevision, 0))
      // The least revision of a running owner, and none exactly if no owner runs.
      ensures scan.ScanFailed? || scan.NoReaders? || scan.Oldest?
      ensures scan.ScanFailed? <==>
              exists i :: 0 <= i < |old(file.slots)| && Taken(w, old(file.slots)[i])
                  && (old(file.slots)[i].token == 0 || old(file.slots)[i].revision > maxRevision)
      ensures scan.NoReaders? <==> forall i :: 0 <= i < |old(file.slots)| ==> !Taken(w, old(file.slots)[i])
      ensures scan.Oldest? ==>
                && (exists i :: 0 <= i < |old(file.slots)| && Taken(w, old(file.slots)[i])
                      && old(file.slots)[i].revision == scan.revision)
                && (forall i :: 0 <= i < |old(file.slots)| && Taken(w, old(file.slots)[i]) ==>
                      scan.revision <= old(file.slots)[i].revision)
      // Only stale slots change, and none is left unless the scan failed.
      ensures |file.slots| == |old(file.slots)|
      ensures forall i :: 0 <= i < |file.slots| ==>
                || file.slots[i] == old(file.slots)[i]
                || (Stale(w, old(file.slots)[i]) && file.slots[i] == old(file.slots)[i].(active := false))
      ensures !scan.ScanFailed? ==> forall i :: 0 <= i < |file.slots| ==> !Stale(w, file.slots[i])
    {
      hide Taken, Alive;
      ScanMeans(w, file.slots, maxRevision);
      var ok, stats, cleared := Scan(w, maxRevision, true);
      if !ok {
        return ScanFailed;
      }
      match stats.oldest
      case None => scan := NoReaders;
      case Some(revision) => scan := Oldest(revision);
    }

    // scan, which stats, cleanStale and validate share: it stops at the first invalid slot.
    method Scan(w: World, maxRevision: nat, cleanStale: bool) returns (ok: bool, stats: ReaderStats, cleared: nat)
      modifies file
      ensures ok <==> FirstInvalid(w, old(file.slots), maxRevision, 0) == |old(file.slots)|
      ensures stats == StatsOf(w, old(file.slots), FirstInvalid(w, old(file.slots), maxRevision, 0))
      ensures file.slots == if cleanStale
              then Cleared(w, old(file.slots), FirstInvalid(w, old(file.slots), maxRevision, 0)) else old(file.slots)
      ensures cleared == if cleanStale then stats.stale else 0
      // Without a failure every slot is counted.
      ensures ok ==>
                && stats.active == |set i | 0 <= i < |old(file.slots)| && Taken(w, old(file.slots)[i])|
                && stats.stale == |set i | 0 <= i < |old(file.slots)| && Stale(w, old(file.slots)[i])|
                && stats.processStart ==
                |set i | 0 <= i < |old(file.slots)| && old(file.slots)[i].active
                  && old(file.slots)[i].processStart != 0|
                && stats.bootID ==
                |set i | 0 <= i < |old(file.slots)| && old(file.slots)[i].active && old(file.slots)[i].bootID != 0|
    {
      hide Alive, ValidSlot, Cleared, CountOf, FirstInvalid, LeastRevision;
      ghost var slots := file.slots;
      stats, cleared := ReaderStats(0, 0, 0, 0, None), 0;
      ScanStarts(w, slots);
      for i := 0 to |file.slots|
        invariant |file.slots| == |slots| && file.slots == if cleanStale then Cleared(w, slots, i) else slots
        invariant cleared == if cleanStale then stats.stale else 0
        invariant FirstInvalid(w, slots, maxRevision, 0) == FirstInvalid(w, slots, maxRevision, i)
        invariant stats == CountsOf(w, slots, i, LeastRevision(w, slots, i))
      {
        var current := file.slots[i];
        ScanStep(w, slots, maxRevision, i);
        CountStep(w, slots, i);
        assert current == slots[i];
        if current.active {
          if current.processStart != 0 {
            stats := stats.(processStart := stats.processStart + 1);
          }
          if current.bootID != 0 {
            stats := stats.(bootID := stats.bootID + 1);
          }
          if !Alive(w, current) {
            stats := stats.(stale := stats.stale + 1);
            if cleanStale {
              file.slots := file.slots[i := current.(active := false)];
              cleared := cleared + 1;
            }
          } else {
            stats := stats.(active := stats.active + 1);
            if !ValidSlot(current, maxRevision) {
              return false, stats, cleared;
            }
            if stats.oldest.None? || current.revision < stats.oldest.value {
              stats := stats.(oldest := Some(current.revision));
            }
          }
        }
      }
      AllCounted(w, slots);
      return true, stats, cleared;
    }
  }

  lemma ScanMeans(w: World, slots: seq<ReaderSlot>, maxRevision: nat)
    ensures var scan := ScanOf(w, slots, maxRevision);
            && (scan.ScanFailed? || scan.NoReaders? || scan.Oldest?)
            && (scan.ScanFailed? <==> exists i :: 0 <= i < |slots| && Taken(w, slots[i]) && (slots[i].token == 0
                                            || slots[i].revision > maxRevision))
            && (scan.NoReaders? <==> forall i :: 0 <= i < |slots| ==> !Taken(w, slots[i]))
            && (scan.Oldest? ==>
                  && (exists i :: 0 <= i < |slots| && Taken(w, slots[i]) && slots[i].revision == scan.revision)
                  && (forall i :: 0 <= i < |slots| && Taken(w, slots[i]) ==> scan.revision <= slots[i].revision))
  {
    hide Taken;
  }

  lemma NewIsTaken(w: World, version: nat, pid: nat, revision: nat, token: nat)
    ensures pid > 0 ==> forall w': World ::
                          pid in w'.running && StartToken(w', pid) == StartToken(w, pid) && w'.boot == w.boot ==>
                            Taken(w', NewSlot(w, version, pid, revision, token))
  {
  }

  lemma TakenMeans(w: World, s: ReaderSlot)
    ensures Taken(w, s) <==> s.active && Alive(w, s)
  {
  }

  lemma AllCounted(w: World, slots: seq<ReaderSlot>)
    ensures forall oldest: Option<nat> ::
              var stats := CountsOf(w, slots, |slots|, oldest);
              && stats.active == |set i | 0 <= i < |slots| && Taken(w, slots[i])|
              && stats.stale == |set i | 0 <= i < |slots| && Stale(w, slots[i])|
              && stats.processStart == |set i | 0 <= i < |slots| && slots[i].active && slots[i].processStart != 0|
              && stats.bootID == |set i | 0 <= i < |slots| && slots[i].active && slots[i].bootID != 0|
  {
    hide Taken, Stale, CountOf;
    var taken, stale := (s: ReaderSlot) => Taken(w, s), (s: ReaderSlot) => Stale(w, s);
    var started, booted := (s: ReaderSlot) => s.active && s.processStart != 0, (s: ReaderSlot) => s.active
      && s.bootID != 0;
    CountMeans(slots, |slots|, taken);
    CountMeans(slots, |slots|, stale);
    CountMeans(slots, |slots|, started);
    CountMeans(slots, |slots|, booted);
    assert (set i | 0 <= i < |slots| && taken(slots[i])) == set i | 0 <= i < |slots| && Taken(w, slots[i]);
    assert (set i | 0 <= i < |slots| && stale(slots[i])) == set i | 0 <= i < |slots| && Stale(w, slots[i]);
    assert (set i | 0 <= i < |slots| && started(slots[i]))
      == set i | 0 <= i < |slots| && slots[i].active && slots[i].processStart != 0;
    assert (set i | 0 <= i < |slots| && booted(slots[i]))
      == set i | 0 <= i < |slots| && slots[i].active && slots[i].bootID != 0;
  }

  lemma ScanStarts(w: World, slots: seq<ReaderSlot>)
    ensures Cleared(w, slots, 0) == slots && LeastRevision(w, slots, 0) == None
    ensures CountsOf(w, slots, 0, None) == ReaderStats(0, 0, 0, 0, None)
  {
  }

  lemma ScanStep(w: World, slots: seq<ReaderSlot>, maxRevision: nat, i: nat)
    requires i < |slots|
    ensures Cleared(w, slots, i + 1) == if Stale(w, slots[i]) then Cleared(w, slots, i)[i := slots[i].(active := false)]
            else Cleared(w, slots, i)
    ensures Cleared(w, slots, i)[i] == slots[i]
    ensures FirstInvalid(w, slots, maxRevision, i) ==
            if Taken(w, slots[i]) && !ValidSlot(slots[i], maxRevision) then i
              else FirstInvalid(w, slots, maxRevision, i + 1)
    ensures LeastRevision(w, slots, i + 1) ==
            var before := LeastRevision(w, slots, i);
            if Taken(w, slots[i]) && (before.None? || slots[i].revision < before.value) then Some(slots[i].revision)
              else before
  {
    hide Stale, Taken;
  }

  // ---- Runs of many handles ----

  // A handle's process and when that was started, and the handle's slot and token.
  datatype Handle = Handle(pid: nat, start: nat, slot: int, token: nat)

  // The boot, the slots, the handles of all processes, the handles whose process is running,
  // and the revision each handle last claimed or published.
  datatype System = System(version: nat, boot: nat, slots: seq<ReaderSlot>, handles: map<nat, Handle>, live: set<nat>,
      pinned: map<nat, nat>)

  datatype Action =
    | Open(h: nat, pid: nat, start: nat)
    | Claim(w: World, h: nat, revision: nat, token: nat)
    | Update(w: World, h: nat, revision: nat)
    | Release(w: World, h: nat)
    | Clean(w: World, maxRevision: nat)
    | Die(h: nat)
    | Boot(boot: nat)

  // A handle of a running process that has claimed a slot.
  predicate Owner(sys: System, h: nat) {
    h in sys.handles && h in sys.live && sys.handles[h].slot >= 0
  }

  // The report names every running process, and gives the start of a process and the boot
  // rightly or not at all. It may name more.
  ghost predicate Honest(sys: System, w: World) {
    && w.boot in {0, sys.boot}
    && forall h :: h in sys.handles && h in sys.live ==>
        && sys.handles[h].pid > 0 && sys.handles[h].pid in w.running
        && (sys.handles[h].pid in w.startOf ==> w.startOf[sys.handles[h].pid] in {0, sys.handles[h].start})
  }

  // The slot of an owner is its own, shows the revision it pinned, and tells its process from
  // later ones rightly or not at all.
  ghost predicate Intact(sys: System, h: nat)
    requires Owner(sys, h)
  {
    var k := sys.handles[h];
    && k.slot < |sys.slots| && h in sys.pinned
    && sys.slots[k.slot].active && sys.slots[k.slot].token == k.token && sys.slots[k.slot].pid == k.pid
    && sys.slots[k.slot].revision == sys.pinned[h]
    && sys.slots[k.slot].processStart in {0, k.start} && sys.slots[k.slot].bootID in {0, sys.boot}
  }

  ghost predicate Inv(sys: System) {
    && |sys.slots| == SLOT_COUNT
    && (forall h :: Owner(sys, h) ==> Intact(sys, h))
    && (forall g, h :: Owner(sys, g) && Owner(sys, h) && g != h ==> sys.handles[g].token != sys.handles[h].token)
  }

  // Handles are opened once, by running processes; tokens are distinct and not zero.
  ghost predicate Allowed(sys: System, a: Action) {
    match a
    case Open(h, pid, _) => h !in sys.handles && pid > 0
    case Claim(w, h, _, token) =>
      Honest(sys, w) && h in sys.handles && h in sys.live && token != 0 && forall g ::
          g in sys.handles ==> sys.handles[g].token != token
    case Update(w, h, _) => Honest(sys, w) && h in sys.handles && h in sys.live
    case Release(w, h) => Honest(sys, w) && h in sys.handles && h in sys.live
    case Clean(w, _) => Honest(sys, w)
    case Die(h) => h in sys.live
    case Boot(_) => true
  }

  function Next(sys: System, a: Action): System
    requires Allowed(sys, a)
  {
    match a
    case Open(h, pid, start) => sys.(handles := sys.handles[h := Handle(pid, start, -1, 0)], live := sys.live + {h})
    case Claim(w, h, revision, token) =>
      var k := FirstFree(w, sys.slots, 0);
      var slots := AfterClaim(w, sys.version, sys.slots, sys.handles[h].pid, revision, token);
      if k < |sys.slots| then
        sys.(slots := slots, handles := sys.handles[h := sys.handles[h].(slot := k, token := token)],
            pinned := sys.pinned[h := revision])
      else sys
    case Update(w, h, revision) =>
      var k := sys.handles[h];
      if k.slot >= 0 && HeldSlot(w, sys.slots, k.pid, k.slot, k.token) then
        sys.(slots := AfterUpdate(w, sys.slots, k.pid, k.slot, k.token, revision), pinned := sys.pinned[h := revision])
      else sys
    case Release(w, h) =>
      var k := sys.handles[h];
      sys.(slots := AfterRelease(w, sys.slots, k.pid, k.slot, k.token), handles := sys.handles[h := k.(slot := -1)])
    case Clean(w, maxRevision) => sys.(slots := Cleared(w, sys.slots, FirstInvalid(w, sys.slots, maxRevision, 0)))
    case Die(h) => sys.(live := sys.live - {h})
    // No process outlives the boot it was started in.
    case Boot(boot) => sys.(boot := boot, live := {})
  }

  predicate Acts(a: Action, h: nat) {
    match a
    case Clean(_, _) => false
    case Open(g, _, _) => g == h
    case Claim(_, g, _, _) => g == h
    case Update(_, g, _) => g == h
    case Release(_, g) => g == h
    case Die(g) => g == h
    case Boot(_) => true
  }

  // What a step leaves alone: every owner that does not act keeps its handle and its slot.
  ghost predicate OthersKeep(sys: System, next: System, a: Action) {
    forall h :: Owner(sys, h) && !Acts(a, h) ==>
      && Owner(next, h) && next.handles[h] == sys.handles[h]
      && sys.handles[h].slot < |sys.slots| == |next.slots|
      && next.slots[sys.handles[h].slot] == sys.slots[sys.handles[h].slot]
  }

  // A step keeps the invariant, and changes no owner's slot but the acting handle's own.
  lemma StepKeeps(sys: System, a: Action)
    requires Inv(sys) && Allowed(sys, a)
    ensures Inv(Next(sys, a)) && OthersKeep(sys, Next(sys, a), a)
  {
    hide Alive;
    match a
    case Open(_, _, _) => MembershipKeeps(sys, a);
    case Claim(_, _, _, _) => ClaimKeeps(sys, a);
    case Update(_, _, _) => UpdateKeeps(sys, a);
    case Release(_, _) => ReleaseKeeps(sys, a);
    case Clean(_, _) => CleanKeeps(sys, a);
    case Die(_) => MembershipKeeps(sys, a);
    case Boot(_) => MembershipKeeps(sys, a);
  }

  // No honest report makes the slot of an owner stale, whenever it was claimed. The owner can
  // always publish a newer revision.
  lemma OwnerIsSeen(sys: System, w: World, h: nat)
    requires Inv(sys) && Honest(sys, w) && Owner(sys, h)
    ensures sys.handles[h].slot < |sys.slots|
    ensures Taken(w, sys.slots[sys.handles[h].slot]) && !Stale(w, sys.slots[sys.handles[h].slot])
    ensures HeldSlot(w, sys.slots, sys.handles[h].pid, sys.handles[h].slot, sys.handles[h].token)
  {
    assert Intact(sys, h);
  }

  lemma MembershipKeeps(sys: System, a: Action)
    requires (a.Open? || a.Die? || a.Boot?) && Inv(sys) && Allowed(sys, a)
    ensures Inv(Next(sys, a)) && OthersKeep(sys, Next(sys, a), a)
  {
    var next := Next(sys, a);
    forall h | Owner(next, h) ensures Owner(sys, h) && Intact(next, h) {
      assert Intact(sys, h);
    }
    forall h | Owner(sys, h) && !Acts(a, h) ensures Owner(next, h) && sys.handles[h].slot < |sys.slots| {
      assert Intact(sys, h);
    }
  }

  lemma CleanKeeps(sys: System, a: Action)
    requires a.Clean? && Inv(sys) && Allowed(sys, a)
    ensures Inv(Next(sys, a)) && OthersKeep(sys, Next(sys, a), a)
  {
    hide Alive, FirstInvalid;
    forall h | Owner(sys, h) ensures Intact(sys, h) && Intact(Next(sys, a), h) {
      OwnerIsSeen(sys, a.w, h);
      assert Intact(sys, h);
    }
  }

  lemma ClaimKeeps(sys: System, a: Action)
    requires a.Claim? && Inv(sys) && Allowed(sys, a)
    ensures Inv(Next(sys, a)) && OthersKeep(sys, Next(sys, a), a)
  {
    hide Alive;
    var next, k := Next(sys, a), FirstFree(a.w, sys.slots, 0);
    forall h | Owner(sys, h) && h != a.h ensures Owner(next, h) && sys.handles[h].slot != k && Intact(sys, h) {
      OwnerIsSeen(sys, a.w, h);
      assert Intact(sys, h);
    }
    forall h | Owner(next, h) ensures Intact(next, h) {
      if h != a.h || k == |sys.slots| {
        assert Owner(sys, h) && Intact(sys, h);
      }
    }
  }

  // Two owners have different slots, for their tokens differ.
  lemma SlotsDiffer(sys: System, g: nat, h: nat)
    requires Inv(sys) && Owner(sys, g) && Owner(sys, h) && g != h
    ensures sys.handles[g].slot != sys.handles[h].slot
  {
    assert Intact(sys, g) && Intact(sys, h);
  }

  lemma UpdateKeeps(sys: System, a: Action)
    requires a.Update? && Inv(sys) && Allowed(sys, a)
    ensures Inv(Next(sys, a)) && OthersKeep(sys, Next(sys, a), a)
  {
    hide Alive, SameProcess;
    OwnStepKeeps(sys, Next(sys, a), a);
  }

  lemma ReleaseKeeps(sys: System, a: Action)
    requires a.Release? && Inv(sys) && Allowed(sys, a)
    ensures Inv(Next(sys, a)) && OthersKeep(sys, Next(sys, a), a)
  {
    hide Alive, SameProcess;
    OwnStepKeeps(sys, Next(sys, a), a);
  }

  lemma OwnStepKeeps(sys: System, next: System, a: Action)
    requires (a.Update? || a.Release?) && Inv(sys) && Allowed(sys, a) && next == Next(sys, a)
    ensures Inv(next) && OthersKeep(sys, next, a)
  {
    hide Alive, SameProcess;
    forall h | Owner(sys, h) && h != a.h
      ensures Owner(next, h) && next.handles[h] == sys.handles[h] && Intact(sys, h) && Intact(next, h)
      ensures next.slots[sys.handles[h].slot] == sys.slots[sys.handles[h].slot]
    {
      if Owner(sys, a.h) {
        SlotsDiffer(sys, h, a.h);
      }
    }
    if Owner(next, a.h) {
      assert Owner(sys, a.h) && Intact(sys, a.h);
    }
  }

  // While any owner runs, no scan of an honest report finds the table without readers.
  lemma OwnersAreCounted(sys: System, w: World, h: nat, maxRevision: nat)
    requires Inv(sys) && Honest(sys, w) && Owner(sys, h)
    ensures var scan := ScanOf(w, sys.slots, maxRevision);
            scan.ScanFailed? || (scan.Oldest? && scan.revision <= sys.pinned[h])
  {
    hide FirstInvalid, LeastRevision, Taken, Stale, HeldSlot;
    OwnerIsSeen(sys, w, h);
    assert Intact(sys, h);
  }

  // A claim that finds a slot makes its handle an owner of the revision claimed.
  lemma ClaimPins(sys: System, a: Action)
    requires a.Claim? && Inv(sys) && Allowed(sys, a)
    requires exists i :: 0 <= i < |sys.slots| && !Taken(a.w, sys.slots[i])
    ensures Owner(Next(sys, a), a.h) && Next(sys, a).pinned[a.h] == a.revision
    ensures Inv(Next(sys, a)) && Honest(Next(sys, a), a.w)
  {
    hide Taken;
    ClaimKeeps(sys, a);
  }

  // Once an owner has released its slot, the slot is free and the handle owns none.
  lemma ReleaseFrees(sys: System, a: Action)
    requires a.Release? && Inv(sys) && Allowed(sys, a) && Owner(sys, a.h)
    ensures var next, k := Next(sys, a), sys.handles[a.h].slot;
            && k < |sys.slots| == |next.slots| && !Owner(next, a.h)
            && !next.slots[k].active
            && forall i :: 0 <= i < |sys.slots| && i != k ==> next.slots[i] == sys.slots[i]
  {
    OwnerIsSeen(sys, a.w, a.h);
  }

  // Only slots of running owners matter to a scan.
  predicate SameTaken(w: World, s: ReaderSlot, s': ReaderSlot) {
    if Taken(w, s) then s' == s else !Taken(w, s')
  }

  lemma {:induction false} InvalidSame(w: World, slots: seq<ReaderSlot>, slots': seq<ReaderSlot>, maxRevision: nat,
          i: nat)
    requires i <= |slots| == |slots'| && forall j :: 0 <= j < |slots| ==> SameTaken(w, slots[j], slots'[j])
    ensures FirstInvalid(w, slots, maxRevision, i) == FirstInvalid(w, slots', maxRevision, i)
    decreases |slots| - i
  {
    hide Taken;
    if i < |slots| {
      assert SameTaken(w, slots[i], slots'[i]);
      InvalidSame(w, slots, slots', maxRevision, i + 1);
    }
  }

  lemma {:induction false} LeastSame(w: World, slots: seq<ReaderSlot>, slots': seq<ReaderSlot>, k: nat)
    requires k <= |slots| == |slots'| && forall j :: 0 <= j < |slots| ==> SameTaken(w, slots[j], slots'[j])
    ensures LeastRevision(w, slots, k) == LeastRevision(w, slots', k)
  {
    hide Taken;
    if k > 0 {
      assert SameTaken(w, slots[k - 1], slots'[k - 1]);
      LeastSame(w, slots, slots', k - 1);
    }
  }

  // A claim and its release leave no trace in what the writer is told.
  lemma ClaimAndRelease(sys: System, a: Action, maxRevision: nat)
    requires a.Claim? && Inv(sys) && Allowed(sys, a)
    requires exists i :: 0 <= i < |sys.slots| && !Taken(a.w, sys.slots[i])
    ensures var next := Next(sys, a);
            && Allowed(next, Action.Release(a.w, a.h))
            && ScanOf(a.w, Next(next, Action.Release(a.w, a.h)).slots, maxRevision) ==
               ScanOf(a.w, sys.slots, maxRevision)
  {
    hide Taken, Stale, HeldSlot, FirstInvalid, LeastRevision, Inv, NewSlot, Honest;
    var k, mid := FirstFree(a.w, sys.slots, 0), Next(sys, a);
    ClaimPins(sys, a);
    ReleaseFrees(mid, Action.Release(a.w, a.h));
    var slots := Next(mid, Action.Release(a.w, a.h)).slots;
    forall j | 0 <= j < |sys.slots| ensures j < |slots| && SameTaken(a.w, sys.slots[j], slots[j]) {
      TakenMeans(a.w, slots[j]);
    }
    InvalidSame(a.w, sys.slots, slots, maxRevision, 0);
    LeastSame(a.w, sys.slots, slots, |sys.slots|);
  }

  ghost predicate Legal(sys: System, actions: seq<Action>)
    decreases |actions|
  {
    actions == [] || (Allowed(sys, actions[0]) && Legal(Next(sys, actions[0]), actions[1..]))
  }

  ghost function RunOf(sys: System, actions: seq<Action>): System
    requires Legal(sys, actions)
    decreases |actions|
  {
    if actions == [] then sys else RunOf(Next(sys, actions[0]), actions[1..])
  }

  // Over every run of every number of handles, the slot of each owner stays as it was since
  // its last own step.
  lemma {:induction false} RunKeeps(sys: System, actions: seq<Action>)
    requires Inv(sys) && Legal(sys, actions)
    ensures Inv(RunOf(sys, actions))
    ensures forall h :: Owner(sys, h) && (forall i :: 0 <= i < |actions| ==> !Acts(actions[i], h)) ==>
              && Owner(RunOf(sys, actions), h) && RunOf(sys, actions).handles[h] == sys.handles[h]
              && sys.handles[h].slot < |sys.slots| == |RunOf(sys, actions).slots|
              && RunOf(sys, actions).slots[sys.handles[h].slot] == sys.slots[sys.handles[h].slot]
    decreases |actions|
  {
    hide Inv, Allowed, Next, Acts;
    OwnersHaveSlots(sys);
    if actions != [] {
      var next, rest := Next(sys, actions[0]), actions[1..];
      StepKeeps(sys, actions[0]);
      RunKeeps(next, rest);
      forall h | Owner(sys, h) && (forall i :: 0 <= i < |actions| ==> !Acts(actions[i], h))
        ensures Owner(next, h) && next.handles[h] == sys.handles[h] && sys.handles[h].slot < |sys.slots| == |next.slots|
        ensures next.slots[sys.handles[h].slot] == sys.slots[sys.handles[h].slot]
        ensures forall i :: 0 <= i < |rest| ==> !Acts(rest[i], h)
      {
        assert !Acts(actions[0], h);
        forall i | 0 <= i < |rest| ensures !Acts(rest[i], h) {
          assert rest[i] == actions[i + 1];
        }
      }
    }
  }

  lemma OwnersHaveSlots(sys: System)
    requires Inv(sys)
    ensures forall h :: Owner(sys, h) ==> sys.handles[h].slot < |sys.slots|
  {
    forall h | Owner(sys, h) ensures sys.handles[h].slot < |sys.slots| {
      assert Intact(sys, h);
    }
  }

  // ---- Reclaiming beside other processes ----

  // A page is released only if it was retired before every revision that an owner pinned, and
  // before every reader of this process; one slot that is taken and invalid blocks everything.
  lemma {:induction false} ReclaimIsSafe(sys: System, w: World, maxRevision: nat, readers: map<nat, nat>,
          retired: seq<RetiredPage>, x: PageId)
    requires Inv(sys) && Honest(sys, w) && x in ReleasedIds(readers, ScanOf(w, sys.slots, maxRevision), retired)
    ensures forall i :: 0 <= i < |sys.slots| && Taken(w, sys.slots[i]) ==> ValidSlot(sys.slots[i], maxRevision)
    ensures exists i :: 0 <= i < |retired| && retired[i].id == x
              && (forall h :: Owner(sys, h) ==> retired[i].revision < sys.pinned[h])
              && (forall r :: r in readers ==> retired[i].revision < r)
  {
    hide Alive, ReleasedIds, FirstInvalid, LeastRevision;
    var scan := ScanOf(w, sys.slots, maxRevision);
    ReleasedWasFreeable(readers, scan, retired, x);
    var i :| 0 <= i < |retired| && retired[i].id == x && !HeldBack(readers, scan, retired[i].revision);
    forall h | Owner(sys, h) ensures retired[i].revision < sys.pinned[h] {
      OwnerIsSeen(sys, w, h);
      assert Intact(sys, h);
    }
  }
}
