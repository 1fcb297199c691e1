/** scripts/benchmark_prompt_lookup_matrix.py: one variant of the benchmark, with crashes and resumes. */
module BenchmarkRun {
  import opened CheckpointNames

  datatype Resolved = Resolved(caseId: string, promptTokens: nat, maxTokens: nat, contextUnits: nat)

  /** The parts of the matrix configuration and of the variant that `run_variant` looks at. */
  datatype Config = Config(runs: nat, warmupBatches: nat, crossRequest: bool, concurrency: seq<nat>, lookup: bool)

  datatype Cell = Cell(resolved: Resolved, concurrency: nat)

  datatype Role = RequestLocal | Producer | Consumer

  datatype Row = Row(key: Key, worker: nat, measurement: int)

  datatype Health = Health(key: Key, role: Role)

  /** A file of the checkpoint directory: complete, or cut off in the middle of a write. */
  datatype File = Checkpoint(rows: seq<Row>, health: Health) | Fragment

  type Disk = map<string, File>

  datatype Purpose = Warmup(index: nat) | Seeding(key: Key) | Measuring(key: Key)

  /** What the server process of one run gets to see. */
  datatype ServerEvent = Cleared | Batch(cell: Cell, prompts: seq<string>, purpose: Purpose)

  /** The batches an episode consists of are 2 * index (producer) and 2 * index + 1 (consumer). */
  datatype Episode = Episode(caseId: string, promptTokens: nat, maxTokens: nat, concurrency: nat, index: nat)

  type Renderer = (Resolved, nat) -> string

  function BatchCount(config: Config): nat {
    config.runs * (if config.crossRequest then 2 else 1)
  }

  function KeyOf(cell: Cell, batchIdx: nat): Key {
    Key(cell.resolved.caseId, cell.resolved.promptTokens, cell.resolved.maxTokens, cell.concurrency, batchIdx)
  }

  function EpisodeOf(cell: Cell, batchIdx: nat): Episode {
    Episode(cell.resolved.caseId, cell.resolved.promptTokens, cell.resolved.maxTokens, cell.concurrency, batchIdx / 2)
  }

  function ConsumerKey(e: Episode): Key {
    Key(e.caseId, e.promptTokens, e.maxTokens, e.concurrency, 2 * e.index + 1)
  }

  /** `cross_request_role`. */
  function RoleOf(config: Config, batchIdx: nat): Role {
    if !config.crossRequest then RequestLocal else if batchIdx % 2 == 0 then Producer else Consumer
  }

  function SeedBase(batchIdx: nat, warmup: bool, crossRequest: bool): nat {
    (if warmup then 900000 else 0) + (if crossRequest && !warmup then batchIdx / 2 else batchIdx) * 1000
  }

  /** The prompts of `build_requests`. */
  function BuildPrompts(render: Renderer, cell: Cell, batchIdx: nat, warmup: bool, crossRequest: bool): seq<string> {
    seq(cell.concurrency, w requires 0 <= w < cell.concurrency =>
      render(cell.resolved, SeedBase(batchIdx, warmup, crossRequest) + w))
  }

  /** Producer and consumer of an episode ask the same prompts. */
  lemma SamePromptsInEpisode(render: Renderer, cell: Cell, batchIdx: nat)
    requires batchIdx % 2 == 1
    ensures BuildPrompts(render, cell, batchIdx - 1, false, true) == BuildPrompts(render, cell, batchIdx, false, true)
  {
    assert SeedBase(batchIdx - 1, false, true) == SeedBase(batchIdx, false, true);
  }

  // ---- Which prompts are asked ---------------------------------------------------

  /** Up to a thousand workers, two measured requests have the same seed exactly when they belong to the same worker
      of the same episode, or of the same batch outside cross-request mode; a warm-up request shares its seed with
      the same worker of episode 900 + i only. */
  lemma SeedsAgreeIff(crossRequest: bool, b: nat, w: nat, b': nat, w': nat, i: nat)
    requires w < 1000 && w' < 1000
    ensures SeedBase(b, false, crossRequest) + w == SeedBase(b', false, crossRequest) + w'
       <==> w == w' && (if crossRequest then b / 2 == b' / 2 else b == b')
    ensures SeedBase(i, true, false) + w == SeedBase(b, false, crossRequest) + w'
       <==> w == w' && (if crossRequest then b / 2 else b) == 900 + i
  {
  }

  predicate IsKeyOf(k: Key, cell: Cell) {
    && k.caseId == cell.resolved.caseId && k.promptTokens == cell.resolved.promptTokens
    && k.maxTokens == cell.resolved.maxTokens && k.concurrency == cell.concurrency
  }

  /** One prompt for every worker of the cell, rendered with consecutive seeds. */
  predicate AsksFrom(render: Renderer, cell: Cell, prompts: seq<string>, seed: nat) {
    |prompts| == cell.concurrency && forall w :: 0 <= w < |prompts| ==> prompts[w] == render(cell.resolved, seed + w)
  }

  /** Which block of a thousand seeds a batch uses: warm-ups from block 900 on, an episode its own block, and outside
      cross-request mode every batch its own. */
  function SeedBlock(config: Config, purpose: Purpose): nat {
    match purpose
    case Warmup(i) => 900 + i
    case Seeding(k) => k.batchIdx / 2
    case Measuring(k) => if config.crossRequest then k.batchIdx / 2 else k.batchIdx
  }

  /** A batch serves its cell and asks the prompts of its block. */
  predicate AsksItsPrompts(config: Config, render: Renderer, e: ServerEvent) {
    e.Batch? ==>
      && AsksFrom(render, e.cell, e.prompts, SeedBlock(config, e.purpose) * 1000)
      && match e.purpose
         case Warmup(i) => i < config.warmupBatches
         case Seeding(k) => IsKeyOf(k, e.cell) && config.crossRequest && k.batchIdx % 2 == 0
         case Measuring(k) => IsKeyOf(k, e.cell)
  }

  /** Every warm-up batch of the cell has been run. */
  ghost predicate Warm(config: Config, log: seq<ServerEvent>, cell: Cell) {
    forall i :: 0 <= i < config.warmupBatches ==> WarmedBy(log, cell, i)
  }

  ghost predicate WarmedBy(log: seq<ServerEvent>, cell: Cell, i: nat) {
    exists q :: 0 <= q < |log| && log[q].Batch? && log[q].cell == cell && log[q].purpose == Warmup(i)
  }

  /** Every batch asks its own prompts, and a measured one comes after all warm-ups of its cell. */
  ghost predicate LogOk(config: Config, render: Renderer, log: seq<ServerEvent>) {
    && (forall p :: 0 <= p < |log| ==> AsksItsPrompts(config, render, log[p]))
    && (forall p :: 0 <= p < |log| && log[p].Batch? && log[p].purpose.Measuring? ==>
          Warm(config, log[..p], log[p].cell))
  }

  lemma LogOkGrows(config: Config, render: Renderer, log: seq<ServerEvent>, e: ServerEvent)
    requires LogOk(config, render, log) && AsksItsPrompts(config, render, e)
    requires e.Batch? && e.purpose.Measuring? ==> Warm(config, log, e.cell)
    ensures LogOk(config, render, log + [e])
  {
    hide AsksItsPrompts, Warm;
    var longer := log + [e];
    assert longer[..|log|] == log;
    forall p | 0 <= p < |log| ensures longer[..p] == log[..p] {}
  }

  lemma WarmGrows(config: Config, log: seq<ServerEvent>, log': seq<ServerEvent>, cell: Cell)
    requires Warm(config, log, cell) && log <= log'
    ensures Warm(config, log', cell)
  {
    forall i | 0 <= i < config.warmupBatches ensures WarmedBy(log', cell, i) {
      assert WarmedBy(log, cell, i);
      var q :| 0 <= q < |log| && log[q].Batch? && log[q].cell == cell && log[q].purpose == Warmup(i);
      assert log'[q] == log[q];
    }
  }

  lemma BuiltPrompts(config: Config, render: Renderer, cell: Cell, batchIdx: nat)
    ensures AsksItsPrompts(config, render, Batch(cell, BuildPrompts(render, cell, batchIdx, false, config.crossRequest),
                                                 Measuring(KeyOf(cell, batchIdx))))
    ensures config.crossRequest && batchIdx % 2 == 0 ==>
              AsksItsPrompts(config, render, Batch(cell, BuildPrompts(render, cell, batchIdx, false, true),
                                                   Seeding(KeyOf(cell, batchIdx))))
    ensures batchIdx < config.warmupBatches ==>
              AsksItsPrompts(config, render, Batch(cell, BuildPrompts(render, cell, batchIdx, true, false),
                                                   Warmup(batchIdx)))
  {
    hide BuildPrompts, AsksFrom, SeedBase;
    BuiltFrom(render, cell, batchIdx, false, config.crossRequest);
    assert 900000 + batchIdx * 1000 == (900 + batchIdx) * 1000;
    BuiltFrom(render, cell, batchIdx, false, true);
    BuiltFrom(render, cell, batchIdx, true, false);
  }

  lemma BuiltFrom(render: Renderer, cell: Cell, batchIdx: nat, warmup: bool, crossRequest: bool)
    ensures AsksFrom(render, cell, BuildPrompts(render, cell, batchIdx, warmup, crossRequest),
                     SeedBase(batchIdx, warmup, crossRequest))
    ensures SeedBase(batchIdx, warmup, crossRequest)
         == if warmup then 900000 + batchIdx * 1000 else if crossRequest then batchIdx / 2 * 1000 else batchIdx * 1000
  {
  }

  lemma ClearAsksNothing(config: Config, render: Renderer)
    ensures AsksItsPrompts(config, render, Cleared)
  {
  }

  // ---- No producer is run twice without need ---------------------------------------

  /** The event runs producer batch k, measured or not. */
  predicate RunsProducer(e: ServerEvent, k: Key) {
    e.Batch? && (e.purpose == Seeding(k) || e.purpose == Measuring(k))
  }

  /** A producer is run unmeasured only if this process has not run it yet. */
  ghost predicate NoReseeding(log: seq<ServerEvent>) {
    forall p, q :: 0 <= p < q < |log| && log[q].Batch? && log[q].purpose.Seeding? ==>
                     !RunsProducer(log[p], log[q].purpose.key)
  }

  /** The episode of every producer run so far counts as seeded. */
  predicate Covered(config: Config, seeded: set<Episode>, e: ServerEvent) {
    && (e.Batch? && e.purpose.Seeding? ==> EpisodeOfKey(e.purpose.key) in seeded)
    && (e.Batch? && e.purpose.Measuring? && config.crossRequest && e.purpose.key.batchIdx % 2 == 0 ==>
          EpisodeOfKey(e.purpose.key) in seeded)
  }

  ghost predicate AllCovered(config: Config, seeded: set<Episode>, log: seq<ServerEvent>) {
    forall p :: 0 <= p < |log| ==> Covered(config, seeded, log[p])
  }

  function EpisodeOfKey(k: Key): Episode {
    Episode(k.caseId, k.promptTokens, k.maxTokens, k.concurrency, k.batchIdx / 2)
  }

  lemma CoverGrows(config: Config, seeded: set<Episode>, log: seq<ServerEvent>, seeded': set<Episode>, e: ServerEvent)
    requires AllCovered(config, seeded, log) && seeded <= seeded' && Covered(config, seeded', e)
    ensures AllCovered(config, seeded', log + [e])
  {
    var longer := log + [e];
    forall p | 0 <= p < |longer| ensures Covered(config, seeded', longer[p]) {
      if p < |log| { assert Covered(config, seeded, log[p]); }
    }
  }

  lemma NoReseedingGrows(log: seq<ServerEvent>, e: ServerEvent)
    requires NoReseeding(log)
    requires e.Batch? && e.purpose.Seeding? ==>
               forall p :: 0 <= p < |log| ==> !RunsProducer(log[p], e.purpose.key)
    ensures NoReseeding(log + [e])
  {
  }

  lemma MeasuringCovered(config: Config, seeded: set<Episode>, e: ServerEvent)
    requires e.Batch? && e.purpose.Measuring?
    requires config.crossRequest && e.purpose.key.batchIdx % 2 == 0 ==> EpisodeOfKey(e.purpose.key) in seeded
    ensures Covered(config, seeded, e)
  {
  }

  /** A producer whose episode does not count as seeded has not been run. */
  lemma UnseededNotRun(config: Config, seeded: set<Episode>, log: seq<ServerEvent>, k: Key)
    requires AllCovered(config, seeded, log) && config.crossRequest && k.batchIdx % 2 == 0
    requires EpisodeOfKey(k) !in seeded
    ensures forall p :: 0 <= p < |log| ==> !RunsProducer(log[p], k)
  {
    hide EpisodeOfKey;
    forall p | 0 <= p < |log| ensures !RunsProducer(log[p], k) { assert Covered(config, seeded, log[p]); }
  }

  /** Different seeds give different prompts. */
  ghost predicate Injective(render: Renderer) {
    forall r, s, s' :: render(r, s) == render(r, s') ==> s == s'
  }

  /** Batches e and f have a prompt in common only for the same worker, and only within one block of seeds. */
  ghost predicate SharesOnlyInBlock(config: Config, e: ServerEvent, f: ServerEvent)
    requires e.Batch? && f.Batch?
  {
    forall w, w' :: 0 <= w < |e.prompts| && 0 <= w' < |f.prompts| && e.prompts[w] == f.prompts[w'] ==>
      w == w' && SeedBlock(config, e.purpose) == SeedBlock(config, f.purpose)
  }

  /** Two batches of the same cell, of up to a thousand workers. */
  predicate SameCell(e: ServerEvent, f: ServerEvent) {
    e.Batch? && f.Batch? && e.cell == f.cell && e.cell.concurrency <= 1000
  }

  /** Batches of a cell of up to a thousand workers repeat prompts inside one block only: a measured batch never those
      of another episode or batch, nor those of a warm-up before block 900. */
  ghost predicate PromptsAreFresh(config: Config, log: seq<ServerEvent>) {
    forall p, q :: 0 <= p < |log| && 0 <= q < |log| && SameCell(log[p], log[q]) ==>
                     SharesOnlyInBlock(config, log[p], log[q])
  }

  lemma SameSeed(render: Renderer, cell: Cell, a: seq<string>, s: nat, b: seq<string>, t: nat, w: nat, w': nat)
    requires AsksFrom(render, cell, a, s) && AsksFrom(render, cell, b, t) && Injective(render)
    requires w < |a| && w' < |b| && a[w] == b[w']
    ensures s + w == t + w'
  {
    assert render(cell.resolved, s + w) == render(cell.resolved, t + w');
  }

  lemma Thousands(a: nat, w: nat, b: nat, w': nat)
    requires w < 1000 && w' < 1000 && a * 1000 + w == b * 1000 + w'
    ensures a == b && w == w'
  {
  }

  lemma BatchIsFresh(config: Config, render: Renderer, e: ServerEvent, f: ServerEvent)
    requires AsksItsPrompts(config, render, e) && AsksItsPrompts(config, render, f) && Injective(render)
    requires SameCell(e, f)
    ensures SharesOnlyInBlock(config, e, f)
  {
    hide Injective, SeedBlock, IsKeyOf;
    var a, b := SeedBlock(config, e.purpose), SeedBlock(config, f.purpose);
    forall w, w' | 0 <= w < |e.prompts| && 0 <= w' < |f.prompts| && e.prompts[w] == f.prompts[w']
      ensures w == w' && a == b
    {
      SameSeed(render, e.cell, e.prompts, a * 1000, f.prompts, b * 1000, w, w');
      Thousands(a, w, b, w');
    }
  }

  lemma LogIsFresh(config: Config, render: Renderer, log: seq<ServerEvent>)
    requires LogOk(config, render, log) && Injective(render)
    ensures PromptsAreFresh(config, log)
  {
    hide AsksItsPrompts, Injective, SharesOnlyInBlock, Warm;
    forall p, q | 0 <= p < |log| && 0 <= q < |log| && SameCell(log[p], log[q])
      ensures SharesOnlyInBlock(config, log[p], log[q])
    {
      BatchIsFresh(config, render, log[p], log[q]);
    }
  }

  // ---- The checkpoint directory --------------------------------------------------

  /** The checkpoint of batch k is on disk, complete and about k. */
  ghost predicate Stored(disk: Disk, k: Key) {
    && FileName(k) in disk
    && var f := disk[FileName(k)];
       && f.Checkpoint? && f.health.key == k && |f.rows| == k.concurrency
       && forall i :: 0 <= i < |f.rows| ==> f.rows[i].key == k && f.rows[i].worker == i
  }

  /** Every file the loader would read is the complete checkpoint of the batch in its name. */
  ghost predicate DiskOk(disk: Disk) {
    forall name :: name in disk && IsCheckpointName(name) ==> exists k :: name == FileName(k) && Stored(disk, k)
  }

  /** Checkpoints stay: nothing that was complete is lost or changed. */
  ghost predicate Keeps(before: Disk, after: Disk) {
    forall name :: name in before && IsCheckpointName(name) ==> name in after && after[name] == before[name]
  }

  lemma TempWriteKeeps(disk: Disk, k: Key, f: File)
    requires DiskOk(disk)
    ensures DiskOk(disk[TempName(k) := f]) && Keeps(disk, disk[TempName(k) := f])
    ensures forall q :: FileName(q) in disk[TempName(k) := f] <==> FileName(q) in disk
  {
    hide FileName, TempName, IsCheckpointName;
    TempNameIsNot(k);
    var after := disk[TempName(k) := f];
    forall name | name in after && IsCheckpointName(name) ensures exists q :: name == FileName(q) && Stored(after, q) {
      var q :| name == FileName(q) && Stored(disk, q);
      assert Stored(after, q);
    }
    forall q ensures FileName(q) in after <==> FileName(q) in disk { FileNameIsCheckpointName(q); }
  }

  /** `temporary.replace(path)`. */
  function Replaced(disk: Disk, k: Key): Disk
    requires TempName(k) in disk
  {
    (map name | name in disk && name != TempName(k) :: disk[name])[FileName(k) := disk[TempName(k)]]
  }

  lemma ReplaceAdds(disk: Disk, k: Key, rows: seq<Row>, health: Health)
    requires DiskOk(disk) && FileName(k) !in disk
    requires TempName(k) in disk && disk[TempName(k)] == Checkpoint(rows, health)
    requires health.key == k && |rows| == k.concurrency
    requires forall i :: 0 <= i < |rows| ==> rows[i].key == k && rows[i].worker == i
    ensures DiskOk(Replaced(disk, k)) && Keeps(disk, Replaced(disk, k))
    ensures Stored(Replaced(disk, k), k) && Replaced(disk, k)[FileName(k)] == Checkpoint(rows, health)
    ensures forall q :: FileName(q) in Replaced(disk, k) <==> FileName(q) in disk || q == k
    ensures forall q :: Stored(disk, q) ==> Stored(Replaced(disk, k), q)
  {
    hide FileName, TempName, IsCheckpointName;
    TempNameIsNot(k);
    var after := Replaced(disk, k);
    forall q ensures FileName(q) in after <==> FileName(q) in disk || q == k {
      FileNameIsCheckpointName(q);
      if FileName(q) == FileName(k) { FileNameInjective(q, k); }
    }
    forall q | Stored(disk, q) ensures Stored(after, q) {
      FileNameIsCheckpointName(q);
    }
    forall name | name in after && IsCheckpointName(name) ensures exists q :: name == FileName(q) && Stored(after, q) {
      if name != FileName(k) {
        var q :| name == FileName(q) && Stored(disk, q);
      }
    }
  }

  // ---- The rows in memory --------------------------------------------------------

  /** Every batch of the list has its checkpoint on disk. */
  ghost predicate AllStored(order: seq<Key>, disk: Disk) {
    forall i :: 0 <= i < |order| ==> Stored(disk, order[i])
  }

  /** The rows of the checkpoints of the list, one after the other. */
  ghost function AllRows(order: seq<Key>, disk: Disk): seq<Row>
    requires AllStored(order, disk)
  {
    if |order| == 0 then []
    else
      var last := |order| - 1;
      assert Stored(disk, order[last]);
      AllRows(order[..last], disk) + disk[FileName(order[last])].rows
  }

  ghost predicate Distinct<T(!new)>(s: seq<T>) {
    forall i, j :: 0 <= i < j < |s| ==> s[i] != s[j]
  }

  /** The health rows of the checkpoints of the list. */
  ghost predicate HealthMatches(health: seq<Health>, order: seq<Key>, disk: Disk) {
    |health| == |order| && forall i :: 0 <= i < |order| ==>
      Stored(disk, order[i]) && health[i] == disk[FileName(order[i])].health
  }

  /** Rows and health rows in memory are the checkpoints on disk, read in the order `order`. */
  ghost predicate MemoryOk(disk: Disk, rows: seq<Row>, health: seq<Health>, order: seq<Key>, completed: set<Key>) {
    && Distinct(order)
    && AllStored(order, disk)
    && (forall k :: FileName(k) in disk ==> k in order)
    && (forall k :: k in completed <==> k in order)
    && HealthMatches(health, order, disk)
    && rows == AllRows(order, disk)
  }

  lemma StoredKept(before: Disk, after: Disk, k: Key)
    requires Stored(before, k) && Keeps(before, after)
    ensures Stored(after, k) && after[FileName(k)] == before[FileName(k)]
  {
  }

  lemma {:induction false} AllRowsKept(order: seq<Key>, before: Disk, after: Disk)
    requires AllStored(order, before) && Keeps(before, after)
    ensures AllStored(order, after)
    ensures AllRows(order, before) == AllRows(order, after)
  {
    hide FileName, IsCheckpointName, Keeps, Stored;
    forall i | 0 <= i < |order| ensures Stored(after, order[i]) {
      StoredKept(before, after, order[i]);
    }
    if |order| > 0 {
      var last := |order| - 1;
      AllRowsKept(order[..last], before, after);
      StoredKept(before, after, order[last]);
    }
  }

  lemma HealthKept(health: seq<Health>, order: seq<Key>, before: Disk, after: Disk)
    requires HealthMatches(health, order, before) && Keeps(before, after)
    ensures HealthMatches(health, order, after)
  {
    hide FileName, IsCheckpointName, Keeps;
    forall i | 0 <= i < |order| ensures Stored(after, order[i]) && health[i] == after[FileName(order[i])].health {
      StoredKept(before, after, order[i]);
    }
  }

  /** One more checkpoint at the end of the list. */
  lemma OneMoreStored(health: seq<Health>, order: seq<Key>, disk: Disk, k: Key)
    requires Distinct(order) && AllStored(order, disk) && HealthMatches(health, order, disk)
    requires Stored(disk, k) && k !in order
    ensures Distinct(order + [k]) && AllStored(order + [k], disk)
    ensures HealthMatches(health + [disk[FileName(k)].health], order + [k], disk)
    ensures AllRows(order + [k], disk) == AllRows(order, disk) + disk[FileName(k)].rows
    ensures forall q :: q in order + [k] <==> q in order || q == k
  {
    hide FileName, IsCheckpointName;
    var longer := order + [k];
    assert longer[..|order|] == order && longer[|order|] == k;
    forall i | 0 <= i < |longer| ensures Stored(disk, longer[i]) {}
  }

  lemma MemoryExtended(before: Disk, after: Disk, rows: seq<Row>, health: seq<Health>, order: seq<Key>,
                       completed: set<Key>, k: Key)
    requires MemoryOk(before, rows, health, order, completed) && Keeps(before, after)
    requires k !in completed && Stored(after, k)
    requires forall q :: FileName(q) in after <==> FileName(q) in before || q == k
    ensures MemoryOk(after, rows + after[FileName(k)].rows, health + [after[FileName(k)].health], order + [k],
                     completed + {k})
  {
    hide FileName, IsCheckpointName, Keeps, Stored, AllStored, HealthMatches, Distinct, AllRows;
    AllRowsKept(order, before, after);
    HealthKept(health, order, before, after);
    OneMoreStored(health, order, after, k);
  }

  // ---- Loading -------------------------------------------------------------------

  /** The files of `todo` are still to be read; everything else is in memory. */
  ghost predicate LoadedExcept(disk: Disk, todo: set<string>, rows: seq<Row>, health: seq<Health>, order: seq<Key>,
                               completed: set<Key>) {
    && Distinct(order) && AllStored(order, disk)
    && (forall name :: name in todo ==> name in disk && IsCheckpointName(name))
    && (forall k :: FileName(k) in disk ==> k in order || FileName(k) in todo)
    && (forall k :: k in order ==> FileName(k) !in todo)
    && (forall k :: k in completed <==> k in order)
    && HealthMatches(health, order, disk)
    && rows == AllRows(order, disk)
  }

  lemma LoadOne(disk: Disk, todo: set<string>, rows: seq<Row>, health: seq<Health>, order: seq<Key>,
                completed: set<Key>, name: string) returns (k: Key)
    requires DiskOk(disk) && LoadedExcept(disk, todo, rows, health, order, completed) && name in todo
    ensures name == FileName(k) && Stored(disk, k) && disk[name].health.key == k
    ensures LoadedExcept(disk, todo - {name}, rows + disk[name].rows, health + [disk[name].health], order + [k],
                         completed + {k})
  {
    hide FileName, IsCheckpointName, AllStored, HealthMatches, Distinct, AllRows;
    k :| name == FileName(k) && Stored(disk, k);
    OneMoreStored(health, order, disk, k);
    forall q | FileName(q) in disk ensures q in order + [k] || FileName(q) in todo - {name} {
      if q !in order && FileName(q) == name { FileNameInjective(q, k); }
    }
  }

  lemma LoadAll(disk: Disk, rows: seq<Row>, health: seq<Health>, order: seq<Key>, completed: set<Key>)
    requires LoadedExcept(disk, {}, rows, health, order, completed)
    ensures MemoryOk(disk, rows, health, order, completed)
  {
  }

  lemma LoadNothing(disk: Disk, names: set<string>)
    requires forall name :: name in names <==> name in disk && IsCheckpointName(name)
    ensures LoadedExcept(disk, names, [], [], [], {})
  {
  }

  // ---- What a finished run returns -----------------------------------------------

  function RowsOf(rows: seq<Row>, k: Key): seq<Row> {
    if |rows| == 0 then []
    else RowsOf(rows[..|rows| - 1], k) + (if rows[|rows| - 1].key == k then [rows[|rows| - 1]] else [])
  }

  function HealthOf(health: seq<Health>, k: Key): seq<Health> {
    if |health| == 0 then []
    else HealthOf(health[..|health| - 1], k) + (if health[|health| - 1].key == k then [health[|health| - 1]] else [])
  }

  lemma {:induction false} RowsOfAppend(a: seq<Row>, b: seq<Row>, k: Key)
    ensures RowsOf(a + b, k) == RowsOf(a, k) + RowsOf(b, k)
    decreases |b|
  {
    if |b| == 0 {
      assert a + b == a;
    } else {
      assert (a + b)[..|a + b| - 1] == a + b[..|b| - 1];
      RowsOfAppend(a, b[..|b| - 1], k);
    }
  }

  lemma {:induction false} RowsOfUniform(rows: seq<Row>, owner: Key, k: Key)
    requires forall i :: 0 <= i < |rows| ==> rows[i].key == owner
    ensures RowsOf(rows, k) == if owner == k then rows else []
  {
    if |rows| > 0 {
      RowsOfUniform(rows[..|rows| - 1], owner, k);
      assert rows == rows[..|rows| - 1] + [rows[|rows| - 1]];
    }
  }

  lemma {:induction false} RowsOfAllRows(order: seq<Key>, disk: Disk, k: Key)
    requires Distinct(order) && AllStored(order, disk)
    ensures k in order ==> Stored(disk, k)
    ensures RowsOf(AllRows(order, disk), k) == if k in order then disk[FileName(k)].rows else []
  {
    hide FileName;
    if |order| > 0 {
      var last := |order| - 1;
      var front, q := order[..last], order[last];
      assert Stored(disk, q);
      RowsOfAllRows(front, disk, k);
      RowsOfAppend(AllRows(front, disk), disk[FileName(q)].rows, k);
      RowsOfUniform(disk[FileName(q)].rows, q, k);
      assert k in order <==> k in front || k == q;
      assert q !in front;
    }
  }

  lemma {:induction false} HealthOfOrder(health: seq<Health>, order: seq<Key>, k: Key)
    requires |health| == |order| && Distinct(order)
    requires forall i :: 0 <= i < |order| ==> health[i].key == order[i]
    ensures k !in order ==> HealthOf(health, k) == []
    ensures forall i :: 0 <= i < |order| && order[i] == k ==> HealthOf(health, k) == [health[i]]
  {
    if |order| > 0 {
      var last := |order| - 1;
      HealthOfOrder(health[..last], order[..last], k);
      assert k in order <==> k in order[..last] || k == order[last];
      assert order[last] !in order[..last];
    }
  }

  /** A batch on disk is returned exactly once, with its own rows and its own health row; any other is not. */
  ghost predicate ReturnedOnce(disk: Disk, rows: seq<Row>, health: seq<Health>, k: Key) {
    if FileName(k) in disk
    then && Stored(disk, k) && RowsOf(rows, k) == disk[FileName(k)].rows
         && HealthOf(health, k) == [disk[FileName(k)].health]
    else RowsOf(rows, k) == [] && HealthOf(health, k) == []
  }

  ghost predicate ReturnsEachOnce(disk: Disk, rows: seq<Row>, health: seq<Health>) {
    forall k :: ReturnedOnce(disk, rows, health, k)
  }

  lemma MemoryReturnsEachOnce(disk: Disk, rows: seq<Row>, health: seq<Health>, order: seq<Key>, completed: set<Key>)
    requires MemoryOk(disk, rows, health, order, completed)
    ensures ReturnsEachOnce(disk, rows, health)
  {
    hide FileName, AllRows, RowsOf, HealthOf;
    forall k ensures ReturnedOnce(disk, rows, health, k)
    {
      RowsOfAllRows(order, disk, k);
      HealthOfOrder(health, order, k);
      if FileName(k) in disk {
        var i :| 0 <= i < |order| && order[i] == k;
        assert HealthOf(health, k) == [health[i]];
      } else {
        assert k !in order;
      }
    }
  }

  // ---- The server log ------------------------------------------------------------

  /** Does a measured batch need its producer to have run? */
  predicate NeedsSeed(config: Config, k: Key) {
    config.lookup && config.crossRequest && k.batchIdx % 2 == 1
  }

  /** Event e is the producer run that belongs to consumer batch k. */
  predicate IsSeedFor(e: ServerEvent, prompts: seq<string>, k: Key) {
    && e.Batch? && e.prompts == prompts && k.batchIdx > 0
    && (e.purpose == Seeding(k.(batchIdx := k.batchIdx - 1)) || e.purpose == Measuring(k.(batchIdx := k.batchIdx - 1)))
  }

  predicate Measures(e: ServerEvent, k: Key) {
    e.Batch? && e.purpose == Measuring(k)
  }

  /** Is batch k a producer measured against an empty pool? */
  predicate NeedsClear(config: Config, k: Key) {
    config.lookup && config.crossRequest && k.batchIdx % 2 == 0
  }

  /** Each measured consumer batch comes right after its producer's run of the same prompts, and each measured
      producer batch right after the pool was cleared. */
  ghost predicate Seeded(config: Config, log: seq<ServerEvent>) {
    && (forall p, k :: 0 <= p < |log| && Measures(log[p], k) && NeedsSeed(config, k) ==>
          p > 0 && IsSeedFor(log[p - 1], log[p].prompts, k))
    && (forall p, k :: 0 <= p < |log| && Measures(log[p], k) && NeedsClear(config, k) ==>
          p > 0 && log[p - 1] == Cleared)
  }

  /** No batch is measured twice, and none that was on disk when the run started. */
  ghost predicate MeasuredOnce(start: Disk, log: seq<ServerEvent>) {
    && (forall p, q, k :: 0 <= p < q < |log| && Measures(log[p], k) ==> !Measures(log[q], k))
    && (forall p, k :: 0 <= p < |log| && Measures(log[p], k) ==> FileName(k) !in start)
  }

  lemma LogOther(config: Config, start: Disk, log: seq<ServerEvent>, e: ServerEvent)
    requires Seeded(config, log) && MeasuredOnce(start, log)
    requires forall k :: !Measures(e, k)
    ensures Seeded(config, log + [e]) && MeasuredOnce(start, log + [e])
  {
  }

  lemma LogMeasure(config: Config, start: Disk, log: seq<ServerEvent>, cell: Cell,
                   prompts: seq<string>, k: Key)
    requires Seeded(config, log) && MeasuredOnce(start, log)
    requires forall p :: 0 <= p < |log| ==> !Measures(log[p], k)
    requires FileName(k) !in start
    requires NeedsSeed(config, k) ==> |log| > 0 && IsSeedFor(log[|log| - 1], prompts, k)
    requires NeedsClear(config, k) ==> |log| > 0 && log[|log| - 1] == Cleared
    ensures Seeded(config, log + [Batch(cell, prompts, Measuring(k))])
    ensures MeasuredOnce(start, log + [Batch(cell, prompts, Measuring(k))])
  {
    hide FileName, NeedsSeed, NeedsClear, IsSeedFor;
    var e := Batch(cell, prompts, Measuring(k));
    assert forall q :: Measures(e, q) <==> q == k;
  }

  // ---- Pending batches and seeded episodes ---------------------------------------

  /** The batches of a cell that have no checkpoint yet, in order. */
  function Pending(completed: set<Key>, cell: Cell, n: nat): (r: seq<nat>)
    ensures forall t :: 0 <= t < |r| ==> r[t] < n && KeyOf(cell, r[t]) !in completed
    ensures forall t, u :: 0 <= t < u < |r| ==> r[t] < r[u]
    ensures forall b :: 0 <= b < n && KeyOf(cell, b) !in completed ==> b in r
  {
    if n == 0 then []
    else Pending(completed, cell, n - 1) + (if KeyOf(cell, n - 1) in completed then [] else [n - 1])
  }

  /** Nothing of the cell is left to measure. */
  ghost predicate CellDone(config: Config, cell: Cell, completed: set<Key>) {
    forall b :: 0 <= b < BatchCount(config) ==> KeyOf(cell, b) in completed
  }

  lemma DoneMeansNothingPending(config: Config, cell: Cell, completed: set<Key>)
    ensures CellDone(config, cell, completed) ==> Pending(completed, cell, BatchCount(config)) == []
  {
    var pending := Pending(completed, cell, BatchCount(config));
    assert |pending| > 0 ==> KeyOf(cell, pending[0]) !in completed;
  }

  /** Batches from position t on are still open, and they are all that is open in the cell. */
  ghost predicate Remaining(cell: Cell, completed: set<Key>, pending: seq<nat>, t: nat, n: nat) {
    && t <= |pending|
    && (forall u :: 0 <= u < |pending| ==> pending[u] < n)
    && (forall u, v :: 0 <= u < v < |pending| ==> pending[u] < pending[v])
    && (forall u :: t <= u < |pending| ==> KeyOf(cell, pending[u]) !in completed)
    && (forall b :: 0 <= b < n && KeyOf(cell, b) !in completed ==> b in pending[t..])
  }

  /** A strictly increasing list of batch numbers below n has at most n entries. */
  lemma {:induction false} IncreasingIsShort(pending: seq<nat>, t: nat)
    requires t < |pending| && forall u, v :: 0 <= u < v < |pending| ==> pending[u] < pending[v]
    ensures t <= pending[t]
  {
    if t > 0 { IncreasingIsShort(pending, t - 1); }
  }

  lemma RemainingShort(cell: Cell, completed: set<Key>, pending: seq<nat>, t: nat, n: nat)
    requires Remaining(cell, completed, pending, t, n)
    ensures |pending| <= n
  {
    if |pending| > 0 { IncreasingIsShort(pending, |pending| - 1); }
  }

  /** The last thing the server did was to run batch b of the cell as a measured producer. */
  ghost predicate JustProduced(config: Config, render: Renderer, cell: Cell, log: seq<ServerEvent>, b: nat) {
    && config.crossRequest && b % 2 == 0 && |log| > 0
    && log[|log| - 1] == Batch(cell, BuildPrompts(render, cell, b, false, true), Measuring(KeyOf(cell, b)))
  }

  /** An episode counts as seeded only when its consumer is done, or its producer has run just now. */
  ghost predicate SeedInv(config: Config, render: Renderer, cell: Cell, seeded: set<Episode>, completed: set<Key>,
                          pending: seq<nat>, t: nat, log: seq<ServerEvent>) {
    forall e :: e in seeded ==>
      || ConsumerKey(e) in completed
      || (&& 0 < t <= |pending| && e == EpisodeOf(cell, pending[t - 1])
          && JustProduced(config, render, cell, log, pending[t - 1]))
  }

  ghost predicate AllConsumed(seeded: set<Episode>, completed: set<Key>) {
    forall e :: e in seeded ==> ConsumerKey(e) in completed
  }

  /** After a producer the consumer of the same episode is next, unless it is already done. */
  lemma ConsumerIsNext(config: Config, cell: Cell, completed: set<Key>, pending: seq<nat>, t: nat)
    requires config.crossRequest && Remaining(cell, completed, pending, t, BatchCount(config))
    requires t > 0 && pending[t - 1] % 2 == 0
    requires KeyOf(cell, pending[t - 1] + 1) !in completed
    ensures t < |pending| && pending[t] == pending[t - 1] + 1
  {
  }

  /** Finishing batch pending[t] keeps the seeding invariant. */
  lemma SeedStep(config: Config, render: Renderer, cell: Cell, seeded: set<Episode>, completed: set<Key>,
                 pending: seq<nat>, t: nat, log: seq<ServerEvent>, seeded': set<Episode>, log': seq<ServerEvent>)
    requires Remaining(cell, completed, pending, t, BatchCount(config)) && t < |pending|
    requires SeedInv(config, render, cell, seeded, completed, pending, t, log)
    requires forall e :: e in seeded' ==> e in seeded || (config.crossRequest && e == EpisodeOf(cell, pending[t]))
    requires RoleOf(config, pending[t]) == Producer ==> JustProduced(config, render, cell, log', pending[t])
    ensures SeedInv(config, render, cell, seeded', completed + {KeyOf(cell, pending[t])}, pending, t + 1, log')
  {
    hide JustProduced;
    var b := pending[t];
    forall e | e in seeded'
      ensures || ConsumerKey(e) in completed + {KeyOf(cell, b)}
              || (e == EpisodeOf(cell, b) && JustProduced(config, render, cell, log', b))
    {
      if e in seeded {
        if ConsumerKey(e) !in completed {
          ProducedIsEven(config, render, cell, log, pending[t - 1]);
          ConsumerIsNext(config, cell, completed, pending, t);
        }
      } else if b % 2 == 1 {
        assert ConsumerKey(e) == KeyOf(cell, b);
      }
    }
  }

  lemma ProducedIsEven(config: Config, render: Renderer, cell: Cell, log: seq<ServerEvent>, b: nat)
    requires JustProduced(config, render, cell, log, b)
    ensures config.crossRequest && b % 2 == 0
    ensures ConsumerKey(EpisodeOf(cell, b)) == KeyOf(cell, b + 1)
  {
  }

  lemma SeedDone(config: Config, render: Renderer, cell: Cell, seeded: set<Episode>, completed: set<Key>,
                 pending: seq<nat>, log: seq<ServerEvent>)
    requires Remaining(cell, completed, pending, |pending|, BatchCount(config))
    requires SeedInv(config, render, cell, seeded, completed, pending, |pending|, log)
    ensures AllConsumed(seeded, completed)
  {
    if |pending| > 0 { LastConsumed(config, cell, completed, pending); }
    forall e | e in seeded ensures ConsumerKey(e) in completed {
      if |pending| > 0 { ConsumerOfEpisode(cell, pending[|pending| - 1]); }
    }
  }

  lemma ConsumerOfEpisode(cell: Cell, b: nat)
    ensures b % 2 == 0 ==> ConsumerKey(EpisodeOf(cell, b)) == KeyOf(cell, b + 1)
  {
  }

  /** With nothing left open the consumer behind a last producer is done. */
  lemma LastConsumed(config: Config, cell: Cell, completed: set<Key>, pending: seq<nat>)
    requires |pending| > 0 && Remaining(cell, completed, pending, |pending|, BatchCount(config))
    ensures config.crossRequest && pending[|pending| - 1] % 2 == 0 ==>
              KeyOf(cell, pending[|pending| - 1] + 1) in completed
  {
    assert pending[|pending|..] == [];
  }

  lemma RemainingStep(cell: Cell, completed: set<Key>, pending: seq<nat>, t: nat, n: nat)
    requires Remaining(cell, completed, pending, t, n) && t < |pending|
    ensures Remaining(cell, completed + {KeyOf(cell, pending[t])}, pending, t + 1, n)
  {
  }

  /** A consumer whose episode is already seeded finds its producer's run at the end of the log. */
  lemma SeededConsumer(config: Config, render: Renderer, cell: Cell, seeded: set<Episode>, completed: set<Key>,
                       pending: seq<nat>, t: nat, log: seq<ServerEvent>)
    requires Remaining(cell, completed, pending, t, BatchCount(config)) && t < |pending|
    requires SeedInv(config, render, cell, seeded, completed, pending, t, log)
    requires pending[t] % 2 == 1 && EpisodeOf(cell, pending[t]) in seeded
    ensures |log| > 0
    ensures IsSeedFor(log[|log| - 1], BuildPrompts(render, cell, pending[t], false, true), KeyOf(cell, pending[t]))
  {
    var b := pending[t];
    assert ConsumerKey(EpisodeOf(cell, b)) == KeyOf(cell, b);
    assert JustProduced(config, render, cell, log, pending[t - 1]);
    assert pending[t - 1] == b - 1;
    SamePromptsInEpisode(render, cell, b);
  }

  // ---- The run -------------------------------------------------------------------

  /** Steps of one batch: two of the server, three of the checkpoint. */
  const BATCH_STEPS: nat := 5

  function CellSteps(config: Config): nat {
    config.warmupBatches + BATCH_STEPS * BatchCount(config)
  }

  /** Steps that are always enough for a whole variant. */
  function RunSteps(config: Config, plan: seq<Resolved>): nat {
    |plan| * (|config.concurrency| * CellSteps(config))
  }

  datatype Outcome = Refused | Crashed | Done(rows: seq<Row>, health: seq<Health>)

  /** What a variant has to measure: every prompt of the plan at every concurrency, in `runs` batches, or in `runs`
      episodes of a producer and a consumer. */
  predicate IsPlanned(config: Config, plan: seq<Resolved>, k: Key) {
    && (exists r :: r in plan && k.caseId == r.caseId && k.promptTokens == r.promptTokens && k.maxTokens == r.maxTokens)
    && k.concurrency in config.concurrency
    && k.batchIdx < if config.crossRequest then config.runs + config.runs else config.runs
  }

  /** The benchmark process together with its checkpoint directory and its server. `budget` is the number of
      steps it gets before it is killed or a request fails. */
  class Runner {
    const config: Config
    const render: Renderer
    /** The measurement some worker makes at some moment. */
    const oracle: (nat, nat) -> int
    var directory: bool
    var disk: Disk
    var log: seq<ServerEvent>
    var rows: seq<Row>
    var healthRows: seq<Health>
    var completed: set<Key>
    var seeded: set<Episode>
    var budget: nat
    ghost var order: seq<Key>
    ghost var start: Disk

    constructor (config: Config, render: Renderer, oracle: (nat, nat) -> int)
      ensures this.config == config && this.render == render && this.oracle == oracle
      ensures !directory && disk == map[]
    {
      this.config, this.render, this.oracle := config, render, oracle;
      directory, disk, log, rows, healthRows, completed, seeded, budget := false, map[], [], [], [], {}, {}, 0;
      order, start := [], map[];
    }

    /** What holds at every moment, also when the run dies there. */
    ghost predicate Safe()
      reads this
    {
      && DiskOk(disk) && Keeps(start, disk) && Seeded(config, log) && MeasuredOnce(start, log)
      && LogOk(config, render, log) && NoReseeding(log)
    }

    /** What holds between two batches. */
    ghost predicate Good()
      reads this
    {
      && Safe() && MemoryOk(disk, rows, healthRows, order, completed) && AllCovered(config, seeded, log)
      && (forall p, k :: 0 <= p < |log| && Measures(log[p], k) ==> k in completed)
    }

    /** The last thing the server did was the producer run for consumer batch batchIdx. */
    ghost predicate ProducerJustRan(cell: Cell, batchIdx: nat)
      reads this
    {
      && |log| > 0
      && IsSeedFor(log[|log| - 1], BuildPrompts(render, cell, batchIdx, false, true), KeyOf(cell, batchIdx))
    }

    method Tick() returns (alive: bool)
      modifies this`budget
      ensures alive <==> old(budget) > 0
      ensures budget == if alive then old(budget) - 1 else 0
    {
      alive := budget > 0;
      if alive { budget := budget - 1; }
    }

    /** `write_batch_checkpoint`: the temporary file first, then the rename. */
    method WriteBatchCheckpoint(k: Key, batchRows: seq<Row>, health: Health) returns (alive: bool)
      requires DiskOk(disk) && FileName(k) !in disk
      requires health.key == k && |batchRows| == k.concurrency
      requires forall i :: 0 <= i < |batchRows| ==> batchRows[i].key == k && batchRows[i].worker == i
      modifies this`disk, this`budget
      ensures old(budget) >= 3 ==> alive && budget == old(budget) - 3
      ensures DiskOk(disk) && Keeps(old(disk), disk)
      ensures alive ==> Stored(disk, k) && disk[FileName(k)] == Checkpoint(batchRows, health)
      ensures forall q :: FileName(q) in disk <==> FileName(q) in old(disk) || (alive && q == k)
    {
      hide DiskOk, Keeps, FileName, TempName, Stored, Replaced;
      ghost var before := disk;
      KeepsItself(disk);
      alive := Tick();
      if !alive { return; }
      TempWriteKeeps(disk, k, Fragment);
      disk := disk[TempName(k) := Fragment];
      alive := Tick();
      if !alive { return; }
      TempWriteKeeps(disk, k, Checkpoint(batchRows, health));
      ghost var middle := disk;
      disk := disk[TempName(k) := Checkpoint(batchRows, health)];
      KeepsTrans(before, middle, disk);
      alive := Tick();
      if !alive { return; }
      ReplaceAdds(disk, k, batchRows, health);
      KeepsTrans(before, disk, Replaced(disk, k));
      disk := Replaced(disk, k);
    }

    /** `load_batch_checkpoints`, and the start of a server process. */
    method Load()
      requires DiskOk(disk)
      modifies this`log, this`rows, this`healthRows, this`completed, this`seeded, this`order, this`start
      ensures Good() && start == disk && seeded == {} && log == [] && AllConsumed(seeded, completed)
    {
      hide DiskOk, FileName, IsCheckpointName, AllRows, LoadedExcept, MemoryOk, Stored;
      log, seeded, start := [], {}, disk;
      assert LogOk(config, render, []);
      rows, healthRows, order, completed := [], [], [], {};
      KeepsItself(disk);
      var todo := set name | name in disk && IsCheckpointName(name);
      LoadNothing(disk, todo);
      while todo != {}
        invariant start == disk && seeded == {} && log == []
        invariant LoadedExcept(disk, todo, rows, healthRows, order, completed)
        decreases |todo|
      {
        var name :| name in todo;
        ghost var k := LoadOne(disk, todo, rows, healthRows, order, completed, name);
        StoredIsCheckpoint(disk, k);
        var checkpoint := disk[name];
        rows := rows + checkpoint.rows;
        healthRows := healthRows + [checkpoint.health];
        completed := completed + {checkpoint.health.key};
        order := order + [k];
        todo := todo - {name};
      }
      LoadAll(disk, rows, healthRows, order, completed);
    }

    /** Before a measurement: a producer starts from an empty pool, a consumer whose producer has not run in
        this process gets it run first. */
    method PrepareServer(cell: Cell, batchIdx: nat)
      requires Good() && KeyOf(cell, batchIdx) !in completed
      requires config.crossRequest && batchIdx % 2 == 1 && EpisodeOf(cell, batchIdx) in seeded ==>
                 ProducerJustRan(cell, batchIdx)
      modifies this`log, this`seeded
      ensures Good() && old(log) <= log
      ensures NeedsSeed(config, KeyOf(cell, batchIdx)) ==>
                ProducerJustRan(cell, batchIdx)
      ensures NeedsClear(config, KeyOf(cell, batchIdx)) ==> log == old(log) + [Cleared]
      ensures !(config.lookup && config.crossRequest) ==> log == old(log)
      ensures forall e :: e in seeded ==> e in old(seeded) || (config.crossRequest && e == EpisodeOf(cell, batchIdx))
      ensures old(seeded) <= seeded
    {
      hide DiskOk, Keeps, FileName, Seeded, MeasuredOnce, BuildPrompts, MemoryOk, Stored, LogOk, AsksItsPrompts,
        AllCovered, NoReseeding, EpisodeOfKey;
      var role, episode := RoleOf(config, batchIdx), EpisodeOf(cell, batchIdx);
      if config.lookup && config.crossRequest && role == Producer {
        LogOther(config, start, log, Cleared);
        ClearAsksNothing(config, render);
        LogOkGrows(config, render, log, Cleared);
        NoReseedingGrows(log, Cleared);
        CoverGrows(config, seeded, log, seeded, Cleared);
        log := log + [Cleared];
      } else if config.lookup && config.crossRequest && role == Consumer && episode !in seeded {
        var seeding := Batch(cell, BuildPrompts(render, cell, batchIdx - 1, false, true),
                             Seeding(KeyOf(cell, batchIdx - 1)));
        BuiltPrompts(config, render, cell, batchIdx - 1);
        LogOther(config, start, log, seeding);
        LogOkGrows(config, render, log, seeding);
        SameEpisodeKey(cell, batchIdx);
        UnseededNotRun(config, seeded, log, KeyOf(cell, batchIdx - 1));
        NoReseedingGrows(log, seeding);
        CoverGrows(config, seeded, log, seeded + {episode}, seeding);
        log := log + [seeding];
        seeded := seeded + {episode};
        SamePromptsInEpisode(render, cell, batchIdx);
      }
    }

    /** The measured run itself: the requests go out, and one row per worker comes back. */
    method Measure(cell: Cell, batchIdx: nat) returns (batchRows: seq<Row>)
      requires Good() && KeyOf(cell, batchIdx) !in completed
      requires NeedsSeed(config, KeyOf(cell, batchIdx)) ==>
                 ProducerJustRan(cell, batchIdx)
      requires NeedsClear(config, KeyOf(cell, batchIdx)) ==> |log| > 0 && log[|log| - 1] == Cleared
      requires Warm(config, log, cell)
      modifies this`log
      ensures Safe() && FileName(KeyOf(cell, batchIdx)) !in disk
      ensures log == old(log) + [Batch(cell, BuildPrompts(render, cell, batchIdx, false, config.crossRequest),
                                       Measuring(KeyOf(cell, batchIdx)))]
      ensures |batchRows| == cell.concurrency
      ensures forall i :: 0 <= i < |batchRows| ==> batchRows[i] == Row(KeyOf(cell, batchIdx), i, oracle(|log|, i))
    {
      hide DiskOk, Keeps, FileName, Seeded, MeasuredOnce, BuildPrompts, MemoryOk, Stored, LogOk, AsksItsPrompts, Warm,
        AllCovered, NoReseeding;
      var key := KeyOf(cell, batchIdx);
      var prompts := BuildPrompts(render, cell, batchIdx, false, config.crossRequest);
      OpenMeansAbsent(disk, start, rows, healthRows, order, completed, key);
      BuiltPrompts(config, render, cell, batchIdx);
      LogMeasure(config, start, log, cell, prompts, key);
      LogOkGrows(config, render, log, Batch(cell, prompts, Measuring(key)));
      NoReseedingGrows(log, Batch(cell, prompts, Measuring(key)));
      log := log + [Batch(cell, prompts, Measuring(key))];
      var moment := |log|;
      batchRows := seq(cell.concurrency, w requires 0 <= w < cell.concurrency => Row(key, w, oracle(moment, w)));
    }

    /** One pass of the loop over the pending batches. */
    method RunPendingBatch(cell: Cell, batchIdx: nat) returns (alive: bool)
      requires Good() && KeyOf(cell, batchIdx) !in completed
      requires config.crossRequest && batchIdx % 2 == 1 && EpisodeOf(cell, batchIdx) in seeded ==>
                 ProducerJustRan(cell, batchIdx)
      requires Warm(config, log, cell)
      modifies this`disk, this`log, this`rows, this`healthRows, this`completed, this`seeded, this`budget, this`order
      ensures old(budget) >= BATCH_STEPS && cell.concurrency > 0 ==> alive && budget == old(budget) - BATCH_STEPS
      ensures Safe() && Keeps(old(disk), disk)
      ensures forall q :: FileName(q) in disk ==> FileName(q) in old(disk) || q == KeyOf(cell, batchIdx)
      ensures alive ==> Good() && completed == old(completed) + {KeyOf(cell, batchIdx)}
      ensures alive ==> Stored(disk, KeyOf(cell, batchIdx))
      ensures alive ==>
                disk[FileName(KeyOf(cell, batchIdx))].health.role
                == (if !config.crossRequest then RequestLocal else if batchIdx % 2 == 0 then Producer else Consumer)
      ensures alive ==> Warm(config, log, cell)
      ensures alive ==>
                forall e :: e in seeded ==> e in old(seeded) || (config.crossRequest && e == EpisodeOf(cell, batchIdx))
      ensures alive && RoleOf(config, batchIdx) == Producer ==> JustProduced(config, render, cell, log, batchIdx)
    {
      hide DiskOk, Keeps, FileName, Seeded, MeasuredOnce, BuildPrompts, MemoryOk, IsSeedFor, NeedsSeed, NeedsClear,
        Measures, LogOk, Warm, AllCovered, NoReseeding, Covered, EpisodeOfKey;
      KeepsItself(disk);
      var key, role := KeyOf(cell, batchIdx), RoleOf(config, batchIdx);
      alive := Tick();
      if !alive { return; }
      PrepareServer(cell, batchIdx);
      alive := Tick();
      if !alive || cell.concurrency == 0 { return false; }
      ghost var logBefore, seededBefore := log, seeded;
      WarmGrows(config, old(log), log, cell);
      var batchRows := Measure(cell, batchIdx);
      WarmGrows(config, logBefore, log, cell);
      ghost var before := disk;
      var health := Health(key, role);
      alive := WriteBatchCheckpoint(key, batchRows, health);
      KeepsTrans(start, before, disk);
      if !alive { return; }
      Remember(key, batchRows, health, before);
      if role == Producer {
        seeded := seeded + {EpisodeOf(cell, batchIdx)};
      }
      MeasuredIsCompleted(logBefore, log, completed, key);
      SameEpisodeKey(cell, batchIdx);
      MeasuringCovered(config, seeded, log[|log| - 1]);
      CoverGrows(config, seededBefore, logBefore, seeded, log[|log| - 1]);
    }

    /** Rows and key of a batch whose checkpoint has just been written go into memory. */
    method Remember(k: Key, batchRows: seq<Row>, health: Health, ghost before: Disk)
      requires MemoryOk(before, rows, healthRows, order, completed) && Keeps(before, disk) && k !in completed
      requires Stored(disk, k) && disk[FileName(k)] == Checkpoint(batchRows, health)
      requires forall q :: FileName(q) in disk <==> FileName(q) in before || q == k
      modifies this`rows, this`healthRows, this`completed, this`order
      ensures MemoryOk(disk, rows, healthRows, order, completed)
      ensures rows == old(rows) + batchRows && healthRows == old(healthRows) + [health]
      ensures completed == old(completed) + {k}
    {
      hide MemoryOk, Keeps, FileName;
      MemoryExtended(before, disk, rows, healthRows, order, completed, k);
      rows := rows + batchRows;
      healthRows := healthRows + [health];
      order := order + [k];
      completed := completed + {k};
    }

    /** Warm-up batches 0 to n - 1 of a cell. */
    function WarmUpEvents(cell: Cell, n: nat): seq<ServerEvent> {
      if n == 0 then []
      else WarmUpEvents(cell, n - 1) + [Batch(cell, BuildPrompts(render, cell, n - 1, true, false), Warmup(n - 1))]
    }

    lemma {:induction false} WarmUpWarms(cell: Cell, n: nat, before: seq<ServerEvent>, i: nat)
      requires i < n
      ensures WarmedBy(before + WarmUpEvents(cell, n), cell, i)
    {
      hide BuildPrompts;
      var log := before + WarmUpEvents(cell, n);
      if i == n - 1 {
        assert log[|log| - 1].purpose == Warmup(i);
      } else {
        WarmUpWarms(cell, n - 1, before, i);
        var shorter := before + WarmUpEvents(cell, n - 1);
        var q :| 0 <= q < |shorter| && shorter[q].Batch? && shorter[q].cell == cell && shorter[q].purpose == Warmup(i);
        assert log[q] == shorter[q];
      }
    }

    /** The warm-up batches of a cell: they are run and forgotten. */
    method WarmUp(cell: Cell) returns (alive: bool)
      requires Good()
      modifies this`log, this`budget
      ensures Good()
      ensures alive ==> log == old(log) + WarmUpEvents(cell, config.warmupBatches) && Warm(config, log, cell)
      ensures old(budget) >= config.warmupBatches ==> alive && budget == old(budget) - config.warmupBatches
    {
      hide DiskOk, Keeps, FileName, Seeded, MeasuredOnce, BuildPrompts, MemoryOk, LogOk, AsksItsPrompts, WarmedBy,
        AllCovered, NoReseeding;
      alive := true;
      for i := 0 to config.warmupBatches
        invariant Good()
        invariant alive && log == old(log) + WarmUpEvents(cell, i)
        invariant old(budget) >= config.warmupBatches ==> budget == old(budget) - i
      {
        alive := Tick();
        if !alive { return; }
        var warmup := Batch(cell, BuildPrompts(render, cell, i, true, false), Warmup(i));
        BuiltPrompts(config, render, cell, i);
        LogOther(config, start, log, warmup);
        LogOkGrows(config, render, log, warmup);
        NoReseedingGrows(log, warmup);
        CoverGrows(config, seeded, log, seeded, warmup);
        log := log + [warmup];
      }
      forall i | 0 <= i < config.warmupBatches ensures WarmedBy(log, cell, i) {
        WarmUpWarms(cell, config.warmupBatches, old(log), i);
      }
    }

    /** One cell of the matrix: warm-up, then every batch without a checkpoint. */
    method RunCell(cell: Cell) returns (alive: bool)
      requires Good() && AllConsumed(seeded, completed)
      modifies this`disk, this`log, this`rows, this`healthRows, this`completed, this`seeded, this`budget, this`order
      ensures old(budget) >= CellSteps(config) && cell.concurrency > 0 ==>
                alive && budget >= old(budget) - CellSteps(config)
      ensures Safe() && Keeps(old(disk), disk)
      ensures forall q :: FileName(q) in disk ==>
                FileName(q) in old(disk) || (q == KeyOf(cell, q.batchIdx) && q.batchIdx < BatchCount(config))
      ensures alive ==> Good() && AllConsumed(seeded, completed) && old(completed) <= completed
      ensures alive ==> forall b :: 0 <= b < BatchCount(config) ==> KeyOf(cell, b) in completed
      ensures CellDone(config, cell, old(completed)) ==> log == old(log)
    {
      hide DiskOk, Keeps, FileName, Seeded, MeasuredOnce, BuildPrompts, MemoryOk, IsSeedFor, JustProduced, SeedInv,
        Remaining, AllConsumed, RoleOf, Measures, Pending, LogOk, Warm, AllCovered,
        NoReseeding, CellDone;
      KeepsItself(disk);
      alive := true;
      var n := BatchCount(config);
      var pending := Pending(completed, cell, n);
      DoneMeansNothingPending(config, cell, completed);
      NothingPendingYet(config, render, cell, seeded, completed, pending, log);
      if pending == [] {
        AllDone(config, render, cell, seeded, completed, pending, log);
        return;
      }
      RemainingShort(cell, completed, pending, 0, n);
      alive := WarmUp(cell);
      if !alive { return; }
      NothingPendingYet(config, render, cell, seeded, completed, pending, log);
      for t := 0 to |pending|
        invariant old(budget) >= CellSteps(config) && cell.concurrency > 0 ==>
          budget == old(budget) - config.warmupBatches - BATCH_STEPS * t
        invariant Good() && Keeps(old(disk), disk) && old(completed) <= completed
        invariant Remaining(cell, completed, pending, t, n)
        invariant SeedInv(config, render, cell, seeded, completed, pending, t, log)
        invariant Warm(config, log, cell)
        invariant forall q :: FileName(q) in disk ==>
          FileName(q) in old(disk) || (q == KeyOf(cell, q.batchIdx) && q.batchIdx < n)
      {
        ghost var before, seededBefore, completedBefore, logBefore := disk, seeded, completed, log;
        OpenBatch(cell, completed, pending, t, n);
        if config.crossRequest && pending[t] % 2 == 1 && EpisodeOf(cell, pending[t]) in seeded {
          SeededConsumer(config, render, cell, seeded, completed, pending, t, log);
        }
        alive := RunPendingBatch(cell, pending[t]);
        KeepsTrans(old(disk), before, disk);
        if !alive { return; }
        SeedStep(config, render, cell, seededBefore, completedBefore, pending, t, logBefore, seeded, log);
        RemainingStep(cell, completedBefore, pending, t, n);
      }
      AllDone(config, render, cell, seeded, completed, pending, log);
    }

    /** Batches that may be on disk: those of `before`, and planned ones. */
    ghost predicate OnlyPlannedAdded(before: Disk, plan: seq<Resolved>)
      reads this
    {
      forall q :: FileName(q) in disk ==> FileName(q) in before || IsPlanned(config, plan, q)
    }

    /** The loop over the concurrency levels for one prompt of the plan. */
    method RunCells(plan: seq<Resolved>, i: nat) returns (alive: bool)
      requires i < |plan| && Good() && AllConsumed(seeded, completed)
      modifies this`disk, this`log, this`rows, this`healthRows, this`completed, this`seeded, this`budget, this`order
      ensures Safe() && Keeps(old(disk), disk)
      ensures forall q :: FileName(q) in disk ==> FileName(q) in old(disk) || IsPlanned(config, plan, q)
      ensures alive ==> Good() && AllConsumed(seeded, completed) && old(completed) <= completed
      ensures alive ==> forall c, b :: c in config.concurrency && 0 <= b < BatchCount(config) ==>
                                         KeyOf(Cell(plan[i], c), b) in completed
      ensures old(budget) >= |config.concurrency| * CellSteps(config)
              && (forall c :: c in config.concurrency ==> c > 0) ==>
                alive && budget >= old(budget) - |config.concurrency| * CellSteps(config)
      ensures (forall c :: c in config.concurrency ==> CellDone(config, Cell(plan[i], c), old(completed))) ==>
                log == old(log)
    {
      hide DiskOk, Keeps, FileName, Seeded, MeasuredOnce, MemoryOk, IsPlanned, CellSteps, AllConsumed, Measures, LogOk,
        AllCovered, NoReseeding, CellDone;
      KeepsItself(disk);
      var levels := config.concurrency;
      ghost var enough := budget >= |levels| * CellSteps(config) && forall c :: c in levels ==> c > 0;
      for j := 0 to |levels|
        invariant Good() && AllConsumed(seeded, completed) && Keeps(old(disk), disk) && old(completed) <= completed
        invariant forall q :: FileName(q) in disk ==> FileName(q) in old(disk) || IsPlanned(config, plan, q)
        invariant forall c, b :: c in levels[..j] && 0 <= b < BatchCount(config) ==>
          KeyOf(Cell(plan[i], c), b) in completed
        invariant (forall c :: c in levels ==> CellDone(config, Cell(plan[i], c), old(completed))) ==> log == old(log)
        invariant enough ==> budget >= (old(budget) - |levels| * CellSteps(config)) + (|levels| - j) * CellSteps(config)
      {
        ghost var before := disk;
        var cell := Cell(plan[i], levels[j]);
        PlannedCell(config, plan, plan[i], levels[j]);
        StepsLeft(|levels| - j, CellSteps(config));
        assert levels[j] in levels;
        StillDone(config, cell, old(completed), completed);
        alive := RunCell(cell);
        KeepsTrans(old(disk), before, disk);
        if !alive { return; }
      }
      alive := true;
    }

    /** `run_variant`, killed after `budget` steps. */
    method RunVariant(plan: seq<Resolved>, resume: bool, budget: nat) returns (outcome: Outcome)
      requires DiskOk(disk)
      modifies this
      ensures DiskOk(disk) && Keeps(old(disk), disk) && OnlyPlannedAdded(old(disk), plan)
      ensures outcome == Refused <==> old(directory) && !resume
      ensures outcome == Refused ==> disk == old(disk)
      ensures outcome != Refused ==> Seeded(config, log) && MeasuredOnce(old(disk), log)
      ensures outcome != Refused ==> LogOk(config, render, log) && NoReseeding(log)
      ensures outcome != Refused && Injective(render) ==> PromptsAreFresh(config, log)
      ensures outcome.Done? ==> ReturnsEachOnce(disk, outcome.rows, outcome.health)
      ensures outcome.Done? ==> forall k :: IsPlanned(config, plan, k) ==> FileName(k) in disk
      ensures directory
      ensures outcome != Refused && AllOnDisk(config, plan, old(disk)) ==> log == []
      ensures outcome != Refused && budget >= RunSteps(config, plan)
              && (forall c :: c in config.concurrency ==> c > 0) && (forall r :: r in plan ==> '/' !in r.caseId) ==>
                outcome.Done?
    {
      hide DiskOk, Keeps, FileName, Seeded, MeasuredOnce, MemoryOk, ReturnsEachOnce, IsPlanned, AllConsumed, CellSteps,
        Measures, LogOk, Injective, PromptsAreFresh, AllCovered, NoReseeding, CellDone,
        PlanDone, AllOnDisk;
      KeepsItself(disk);
      if directory && !resume { return Refused; }
      directory := true;
      Load();
      this.budget := budget;
      ghost var enough := budget >= RunSteps(config, plan) && forall c :: c in config.concurrency ==> c > 0;
      ghost var atStart := completed;
      PlannedOnDisk(config, plan, disk, rows, healthRows, order, completed);
      ghost var rowSteps := |config.concurrency| * CellSteps(config);
      for i := 0 to |plan|
        invariant Good() && AllConsumed(seeded, completed) && directory && start == old(disk)
        invariant enough ==> this.budget >= (|plan| - i) * rowSteps
        invariant OnlyPlannedAdded(old(disk), plan) && atStart <= completed
        invariant PlanDone(config, plan, atStart) ==> log == []
        invariant forall r, c, b :: r in plan[..i] && c in config.concurrency && 0 <= b < BatchCount(config) ==>
          KeyOf(Cell(r, c), b) in completed
      {
        StepsLeft(|plan| - i, rowSteps);
        DoneStaysDone(config, plan, i, atStart, completed);
        var alive := RunCells(plan, i);
        if Injective(render) { LogIsFresh(config, render, log); }
        if !alive { return Crashed; }
      }
      if Injective(render) { LogIsFresh(config, render, log); }
      EverythingPlannedIsDone(config, plan, completed, disk, rows, healthRows, order);
      MemoryReturnsEachOnce(disk, rows, healthRows, order, completed);
      outcome := Done(rows, healthRows);
    }
  }

  lemma StillDone(config: Config, cell: Cell, before: set<Key>, after: set<Key>)
    requires before <= after
    ensures CellDone(config, cell, before) ==> CellDone(config, cell, after)
  {
  }

  /** Every planned batch has its checkpoint. */
  ghost predicate AllOnDisk(config: Config, plan: seq<Resolved>, disk: Disk) {
    forall k :: IsPlanned(config, plan, k) ==> FileName(k) in disk
  }

  ghost predicate PlanDone(config: Config, plan: seq<Resolved>, completed: set<Key>) {
    forall r, c :: r in plan && c in config.concurrency ==> CellDone(config, Cell(r, c), completed)
  }

  lemma DoneStaysDone(config: Config, plan: seq<Resolved>, i: nat, before: set<Key>, after: set<Key>)
    requires i < |plan| && before <= after
    ensures PlanDone(config, plan, before) ==>
              forall c :: c in config.concurrency ==> CellDone(config, Cell(plan[i], c), after)
  {
  }

  /** If all planned batches are on disk, every cell is done. */
  lemma PlannedOnDisk(config: Config, plan: seq<Resolved>, disk: Disk, rows: seq<Row>,
                      health: seq<Health>, order: seq<Key>, completed: set<Key>)
    requires MemoryOk(disk, rows, health, order, completed)
    ensures AllOnDisk(config, plan, disk) ==> PlanDone(config, plan, completed)
  {
    hide FileName, IsPlanned, AllRows, Distinct, HealthMatches;
    if AllOnDisk(config, plan, disk) {
      forall r, c, b | r in plan && c in config.concurrency && 0 <= b < BatchCount(config)
        ensures KeyOf(Cell(r, c), b) in completed
      {
        PlannedCell(config, plan, r, c);
        assert FileName(KeyOf(Cell(r, c), b)) in disk;
      }
    }
  }

  lemma SameEpisodeKey(cell: Cell, batchIdx: nat)
    ensures EpisodeOfKey(KeyOf(cell, batchIdx)) == EpisodeOf(cell, batchIdx)
    ensures batchIdx % 2 == 1 ==> EpisodeOfKey(KeyOf(cell, batchIdx - 1)) == EpisodeOf(cell, batchIdx)
  {
  }

  lemma StepsLeft(m: nat, w: nat)
    requires m > 0
    ensures m * w == (m - 1) * w + w && (m - 1) * w >= 0
  {
  }

  lemma PlannedCell(config: Config, plan: seq<Resolved>, r: Resolved, c: nat)
    requires r in plan && c in config.concurrency
    ensures forall q: Key :: q == KeyOf(Cell(r, c), q.batchIdx) && q.batchIdx < BatchCount(config) ==>
              IsPlanned(config, plan, q)
  {
  }

  lemma EverythingPlannedIsDone(config: Config, plan: seq<Resolved>, completed: set<Key>, disk: Disk, rows: seq<Row>,
                                health: seq<Health>, order: seq<Key>)
    requires MemoryOk(disk, rows, health, order, completed)
    requires forall r, c, b :: r in plan && c in config.concurrency && 0 <= b < BatchCount(config) ==>
               KeyOf(Cell(r, c), b) in completed
    ensures forall k :: IsPlanned(config, plan, k) ==> FileName(k) in disk
  {
    hide FileName, AllRows, Distinct, HealthMatches;
    forall k | IsPlanned(config, plan, k) ensures FileName(k) in disk {
      var r :| r in plan && k.caseId == r.caseId && k.promptTokens == r.promptTokens && k.maxTokens == r.maxTokens;
      assert k == KeyOf(Cell(r, k.concurrency), k.batchIdx);
      assert k in order;
    }
  }

  lemma StoredIsCheckpoint(disk: Disk, k: Key)
    requires Stored(disk, k)
    ensures FileName(k) in disk && disk[FileName(k)].Checkpoint?
  {
  }

  lemma OpenBatch(cell: Cell, completed: set<Key>, pending: seq<nat>, t: nat, n: nat)
    requires Remaining(cell, completed, pending, t, n) && t < |pending|
    ensures KeyOf(cell, pending[t]) !in completed && pending[t] < n
  {
  }

  lemma NothingPendingYet(config: Config, render: Renderer, cell: Cell, seeded: set<Episode>, completed: set<Key>,
                          pending: seq<nat>, log: seq<ServerEvent>)
    requires pending == Pending(completed, cell, BatchCount(config)) && AllConsumed(seeded, completed)
    ensures Remaining(cell, completed, pending, 0, BatchCount(config))
    ensures SeedInv(config, render, cell, seeded, completed, pending, 0, log)
  {
  }

  lemma AllDone(config: Config, render: Renderer, cell: Cell, seeded: set<Episode>, completed: set<Key>,
                pending: seq<nat>, log: seq<ServerEvent>)
    requires Remaining(cell, completed, pending, |pending|, BatchCount(config))
    requires SeedInv(config, render, cell, seeded, completed, pending, |pending|, log)
    ensures AllConsumed(seeded, completed)
    ensures forall b :: 0 <= b < BatchCount(config) ==> KeyOf(cell, b) in completed
  {
    SeedDone(config, render, cell, seeded, completed, pending, log);
  }

  lemma MeasuredIsCompleted(before: seq<ServerEvent>, log: seq<ServerEvent>, completed: set<Key>, key: Key)
    requires forall p, k :: 0 <= p < |before| && Measures(before[p], k) ==> k in completed
    requires |log| == |before| + 1 && log[..|before|] == before && key in completed
    requires log[|before|].Batch? && log[|before|].purpose == Measuring(key)
    ensures forall p, k :: 0 <= p < |log| && Measures(log[p], k) ==> k in completed
  {
  }

  lemma KeepsItself(disk: Disk)
    ensures Keeps(disk, disk)
  {
  }

  lemma KeepsTrans(a: Disk, b: Disk, c: Disk)
    requires Keeps(a, b) && Keeps(b, c)
    ensures Keeps(a, c)
  {
  }

  lemma OpenMeansAbsent(disk: Disk, start: Disk, rows: seq<Row>, health: seq<Health>, order: seq<Key>,
                        completed: set<Key>, k: Key)
    requires MemoryOk(disk, rows, health, order, completed) && Keeps(start, disk) && k !in completed
    ensures FileName(k) !in disk && FileName(k) !in start
  {
  }

  // ---- A benchmark over any number of crashes ------------------------------------

  /** The result of a completed variant: one health row and one row per worker for every planned batch, and
      nothing else. */
  ghost predicate CompleteResult(config: Config, plan: seq<Resolved>, rows: seq<Row>, health: seq<Health>) {
    forall k: Key ::
      if IsPlanned(config, plan, k)
      then && |HealthOf(health, k)| == 1 && HealthOf(health, k)[0].key == k
           && |RowsOf(rows, k)| == k.concurrency
           && forall i :: 0 <= i < k.concurrency ==> RowsOf(rows, k)[i].key == k && RowsOf(rows, k)[i].worker == i
      else HealthOf(health, k) == [] && RowsOf(rows, k) == []
  }

  lemma OnceEachIsComplete(config: Config, plan: seq<Resolved>, disk: Disk, rows: seq<Row>, health: seq<Health>)
    requires ReturnsEachOnce(disk, rows, health)
    requires forall k :: FileName(k) in disk <==> IsPlanned(config, plan, k)
    ensures CompleteResult(config, plan, rows, health)
  {
    hide FileName, IsPlanned, RowsOf, HealthOf;
    assert forall k: Key :: IsPlanned(config, plan, k) ==> ReturnedOnce(disk, rows, health, k);
    assert forall k: Key :: !IsPlanned(config, plan, k) ==> ReturnedOnce(disk, rows, health, k);
  }

  /** One start and any number of `--resume` restarts, each killed wherever its budget runs out: once a run
      has the steps it needs it completes, and then every planned batch is returned exactly once. */
  method Campaign(config: Config, render: Renderer, oracle: (nat, nat) -> int, plan: seq<Resolved>, budgets: seq<nat>)
    returns (outcome: Outcome)
    ensures outcome != Refused
    ensures outcome.Done? ==> CompleteResult(config, plan, outcome.rows, outcome.health)
    ensures (forall c :: c in config.concurrency ==> c > 0) && (forall r :: r in plan ==> '/' !in r.caseId) ==>
              (exists i :: 0 <= i < |budgets| && budgets[i] >= RunSteps(config, plan)) ==> outcome.Done?
  {
    hide RunSteps, DiskOk, Keeps, FileName, Seeded, MeasuredOnce, ReturnsEachOnce, IsPlanned, CompleteResult;
    var runner := new Runner(config, render, oracle);
    EmptyDiskOk(runner.disk);
    outcome := Crashed;
    for i := 0 to |budgets|
      invariant fresh(runner) && runner.config == config
      invariant DiskOk(runner.disk) && (i > 0 <==> runner.directory)
      invariant forall q :: FileName(q) in runner.disk ==> IsPlanned(config, plan, q)
      invariant outcome == Crashed
      invariant (forall c :: c in config.concurrency ==> c > 0) && (forall r :: r in plan ==> '/' !in r.caseId) ==>
        forall j :: 0 <= j < i ==> budgets[j] < RunSteps(config, plan)
    {
      outcome := runner.RunVariant(plan, i > 0, budgets[i]);
      if outcome.Done? {
        OnceEachIsComplete(config, plan, runner.disk, outcome.rows, outcome.health);
        return;
      }
    }
  }

  lemma EmptyDiskOk(disk: Disk)
    requires disk == map[]
    ensures DiskOk(disk)
  {
  }
}
